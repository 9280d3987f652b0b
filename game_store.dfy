/**
 * The Pinia store of the first-generation front end: one state record the game screens
 * read, updated by the start, submit, toggle and reset actions.
 * The two API calls are parameters holding what the call returned or the error it threw;
 * timestamps are milliseconds since the epoch, passed in instead of read from a clock.
 */
module GameStore {
  import opened Common
  import opened Models
  import BackendGameService

  /** What the start endpoint returns; `startedAtMs` is `startedAt` once parsed into a date. */
  datatype GameStartResponse = GameStartResponse(
    sessionId: string,
    text: string,
    availableFallacies: seq<BackendGameService.FallacyOption>,
    startedAtMs: int)

  /** The message `submitGame` rejects with when no game is running. */
  const NoActiveSession: string := "No active game session"

  /** The values the `isPlaying && sessionId` expression can produce. */
  datatype JsValue = Bool(b: bool) | Null | Str(s: string)

  /** JavaScript truthiness of those values: `false`, `null` and the empty string are falsy. */
  predicate Truthy(v: JsValue)
  {
    match v
    case Bool(b) => b
    case Null => false
    case Str(s) => s != ""
  }

  /** The session id as a JavaScript value (`string | null`). */
  function SessionValue(sessionId: Option<string>): JsValue
  {
    match sessionId
    case None => Null
    case Some(s) => Str(s)
  }

  /** `isPlaying && sessionId` as written: `&&` yields its right operand when the left one is `true`. */
  function ActiveValue(isPlaying: bool, sessionId: Option<string>): (v: JsValue)
    ensures !isPlaying ==> v == Bool(false)
    ensures isPlaying ==> v == SessionValue(sessionId)
  {
    if !isPlaying then Bool(false) else SessionValue(sessionId)
  }

  /** The boolean the store's callers and tests take `isGameActive` to be: the truthiness of that value. */
  predicate Active(isPlaying: bool, sessionId: Option<string>)
  {
    Truthy(ActiveValue(isPlaying, sessionId))
  }

  /** A game is active exactly when it is playing and the session id is a non-empty string. */
  lemma ActiveMeaning(isPlaying: bool, sessionId: Option<string>)
    ensures Active(isPlaying, sessionId) <==> isPlaying && sessionId.Some? && sessionId.value != ""
  {
  }

  /**
   * As written, the computed yields `null` or the session string rather than a boolean,
   * so the test's `toBe(false)` after setting only `isPlaying`, and its `toBe(true)` after
   * setting the session as well, are not met by the value the code returns.
   */
  lemma ActiveValueIsNotBoolean()
    ensures ActiveValue(true, None) == Null && ActiveValue(true, None) != Bool(false)
    ensures ActiveValue(true, Some("test-session")) != Bool(true)
    ensures !Active(true, None) && Active(true, Some("test-session"))
  {
  }

  /** The truth table the store test walks through, for the boolean reading. */
  lemma ActiveTestSequence()
    ensures !Active(false, None)
    ensures !Active(true, None)
    ensures Active(true, Some("test-session"))
    ensures !Active(false, Some("test-session"))
    ensures !Active(true, Some(""))
  {
  }

  /**
   * `timeTaken`: 0 while either timestamp is missing, otherwise the whole seconds between
   * them, rounded down as `Math.floor` does (also for a negative difference).
   */
  function ElapsedSeconds(startMs: Option<int>, endMs: Option<int>): (r: int)
    ensures startMs.None? || endMs.None? ==> r == 0
    ensures startMs.Some? && endMs.Some? ==>
      r * 1000 <= endMs.value - startMs.value < r * 1000 + 1000
  {
    if startMs.None? || endMs.None? then 0
    else (endMs.value - startMs.value) / 1000
  }

  /** The store test's timestamps, two minutes thirty seconds apart, give 150 seconds. */
  lemma ElapsedSecondsExample(startMs: int)
    ensures ElapsedSeconds(None, None) == 0
    ensures ElapsedSeconds(Some(startMs), None) == 0
    ensures ElapsedSeconds(Some(startMs), Some(startMs + 150_000)) == 150
  {
  }

  /** A later end never gives fewer seconds. */
  lemma ElapsedSecondsMonotone(startMs: int, endMs: int, laterMs: int)
    requires endMs <= laterMs
    ensures ElapsedSeconds(Some(startMs), Some(endMs)) <= ElapsedSeconds(Some(startMs), Some(laterMs))
  {
  }

  /** The selection test: toggling 1, 2, 1, 2 from nothing goes [1], [1, 2], [2], []. */
  lemma ToggleTestSequence()
    ensures Toggled([], 1) == [1]
    ensures Toggled([1], 2) == [1, 2]
    ensures Toggled([1, 2], 1) == [2]
    ensures Toggled([2], 2) == []
  {
    assert IndexOf([1], 2) == -1;
    assert IndexOf([1, 2], 1) == 0;
    assert IndexOf([2], 2) == 0;
  }

  class GameStore {
    var isPlaying: bool
    var sessionId: Option<string>
    var playerName: string
    var difficulty: Option<Difficulty>
    var gameText: string
    var availableFallacies: seq<BackendGameService.FallacyOption>
    var selectedFallacies: seq<int>
    var startTimeMs: Option<int>
    var endTimeMs: Option<int>
    var results: Option<BackendGameService.GameSubmitResponse>

    /** The state the store is created with and `resetGame` puts back. */
    predicate IsInitial()
      reads this
    {
      && !isPlaying
      && sessionId == None
      && playerName == ""
      && difficulty == None
      && gameText == ""
      && availableFallacies == []
      && selectedFallacies == []
      && startTimeMs == None
      && endTimeMs == None
      && results == None
    }

    /** The `isGameActive` computed, read as a boolean. */
    predicate IsGameActive()
      reads this
      ensures IsGameActive() <==> isPlaying && sessionId.Some? && sessionId.value != ""
    {
      Active(isPlaying, sessionId)
    }

    /** The `timeTaken` computed. */
    function TimeTaken(): (seconds: int)
      reads this
      ensures startTimeMs.None? || endTimeMs.None? ==> seconds == 0
      ensures startTimeMs.Some? && endTimeMs.Some? ==>
        seconds * 1000 <= endTimeMs.value - startTimeMs.value < seconds * 1000 + 1000
    {
      ElapsedSeconds(startTimeMs, endTimeMs)
    }

    constructor ()
      ensures IsInitial()
      ensures !IsGameActive() && TimeTaken() == 0
    {
      isPlaying := false;
      sessionId := None;
      playerName := "";
      difficulty := None;
      gameText := "";
      availableFallacies := [];
      selectedFallacies := [];
      startTimeMs := None;
      endTimeMs := None;
      results := None;
    }

    /**
     * `startGame`: the player name and difficulty are stored before the call; a successful call
     * fills in the new game, a failing one is rethrown with the rest of the state untouched.
     */
    method StartGame(name: string, level: Difficulty, outcome: Result<GameStartResponse, string>)
      returns (r: Result<GameStartResponse, string>)
      modifies this
      ensures r == outcome
      ensures playerName == name && difficulty == Some(level)
      ensures outcome.Success? ==>
        && sessionId == Some(outcome.value.sessionId)
        && gameText == outcome.value.text
        && availableFallacies == outcome.value.availableFallacies
        && selectedFallacies == []
        && startTimeMs == Some(outcome.value.startedAtMs)
        && endTimeMs == None
        && isPlaying
        && results == None
      ensures outcome.Success? ==> (IsGameActive() <==> outcome.value.sessionId != "")
      ensures outcome.Success? ==> TimeTaken() == 0
      ensures outcome.Failure? ==>
        && isPlaying == old(isPlaying)
        && sessionId == old(sessionId)
        && gameText == old(gameText)
        && availableFallacies == old(availableFallacies)
        && selectedFallacies == old(selectedFallacies)
        && startTimeMs == old(startTimeMs)
        && endTimeMs == old(endTimeMs)
        && results == old(results)
      ensures old(NoDup(selectedFallacies)) ==> NoDup(selectedFallacies)
    {
      playerName := name;
      difficulty := Some(level);
      match outcome
      case Failure(e) =>
        r := Failure(e);
      case Success(response) =>
        sessionId := Some(response.sessionId);
        gameText := response.text;
        availableFallacies := response.availableFallacies;
        selectedFallacies := [];
        startTimeMs := Some(response.startedAtMs);
        endTimeMs := None;
        isPlaying := true;
        results := None;
        r := Success(response);
    }

    /**
     * `submitGame`: without a (non-empty) session id or a start time it rejects and changes nothing;
     * otherwise the end time is recorded before the call, and a successful call stores the
     * response and ends the game. A failing call is rethrown and leaves the end time set.
     */
    method SubmitGame(nowMs: int, outcome: Result<BackendGameService.GameSubmitResponse, string>)
      returns (r: Result<BackendGameService.GameSubmitResponse, string>)
      modifies this
      ensures !Truthy(SessionValue(old(sessionId))) || old(startTimeMs).None? ==>
        && r == Failure(NoActiveSession)
        && endTimeMs == old(endTimeMs)
        && results == old(results)
        && isPlaying == old(isPlaying)
      ensures Truthy(SessionValue(old(sessionId))) && old(startTimeMs).Some? ==>
        && r == outcome
        && endTimeMs == Some(nowMs)
        && TimeTaken() == ElapsedSeconds(old(startTimeMs), Some(nowMs))
        && (outcome.Success? ==> results == Some(outcome.value) && !isPlaying && !IsGameActive())
        && (outcome.Failure? ==> results == old(results) && isPlaying == old(isPlaying))
      ensures sessionId == old(sessionId) && playerName == old(playerName)
      ensures difficulty == old(difficulty) && gameText == old(gameText)
      ensures availableFallacies == old(availableFallacies)
      ensures selectedFallacies == old(selectedFallacies) && startTimeMs == old(startTimeMs)
    {
      if !Truthy(SessionValue(sessionId)) || startTimeMs.None? {
        return Failure(NoActiveSession);
      }
      endTimeMs := Some(nowMs);
      match outcome
      case Failure(e) =>
        r := Failure(e);
      case Success(response) =>
        results := Some(response);
        isPlaying := false;
        r := Success(response);
    }

    /** `toggleFallacy`: push an unselected id, splice out the first occurrence of a selected one. */
    method ToggleFallacy(fallacyId: int)
      modifies this
      ensures selectedFallacies == Toggled(old(selectedFallacies), fallacyId)
      ensures old(NoDup(selectedFallacies)) ==> NoDup(selectedFallacies)
      ensures isPlaying == old(isPlaying) && sessionId == old(sessionId)
      ensures playerName == old(playerName) && difficulty == old(difficulty)
      ensures gameText == old(gameText) && availableFallacies == old(availableFallacies)
      ensures startTimeMs == old(startTimeMs) && endTimeMs == old(endTimeMs)
      ensures results == old(results)
    {
      if NoDup(selectedFallacies) {
        ToggledNoDup(selectedFallacies, fallacyId);
      }
      var index := IndexOf(selectedFallacies, fallacyId);
      if index == -1 {
        selectedFallacies := selectedFallacies + [fallacyId];
      } else {
        selectedFallacies := selectedFallacies[..index] + selectedFallacies[index + 1..];
      }
    }

    /** `resetGame`: every field goes back to its initial value. */
    method ResetGame()
      modifies this
      ensures IsInitial()
      ensures !IsGameActive() && TimeTaken() == 0
    {
      isPlaying := false;
      sessionId := None;
      playerName := "";
      difficulty := None;
      gameText := "";
      availableFallacies := [];
      selectedFallacies := [];
      startTimeMs := None;
      endTimeMs := None;
      results := None;
    }
  }
}
