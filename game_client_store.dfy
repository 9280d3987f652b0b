/**
 * The Pinia store of the second-generation front end: separate refs for the running game,
 * its result, a loading flag, the last error, the player name, the selection and the start time.
 * The two API calls are parameters holding what the call returned or the value it threw;
 * the start time is a millisecond timestamp passed in instead of read from a clock.
 */
module GameClientStore {
  import opened Common
  import ApiGameService

  /** What the start endpoint returns. */
  datatype StartGameResponse = StartGameResponse(
    sessionId: int,
    gameText: ApiGameService.GameText,
    availableFallacies: seq<ApiGameService.LogicalFallacyDto>)

  /** A value a failing call throws: an `Error` carrying a message, or anything else. */
  datatype Thrown = ErrorObject(message: string) | OtherValue

  const StartFailed: string := "Failed to start game"
  const SubmitFailed: string := "Failed to submit answer"

  /** `err instanceof Error ? err.message : fallback`. */
  function ErrorMessage(e: Thrown, fallback: string): (m: string)
    ensures e.ErrorObject? ==> m == e.message
    ensures e.OtherValue? ==> m == fallback
  {
    match e
    case ErrorObject(message) => message
    case OtherValue => fallback
  }

  /** `getDifficultyName`: the three enum values by name, anything else "Unknown". */
  function DifficultyName(difficulty: int): (name: string)
    ensures difficulty == 1 ==> name == "Easy"
    ensures difficulty == 2 ==> name == "Medium"
    ensures difficulty == 3 ==> name == "Hard"
    ensures name == "Unknown" <==> !(1 <= difficulty <= 3)
  {
    if difficulty == 1 then "Easy"
    else if difficulty == 2 then "Medium"
    else if difficulty == 3 then "Hard"
    else "Unknown"
  }

  /** Every level of the enum has its own name, never "Unknown". */
  lemma DifficultyNamesDistinct(a: ApiGameService.Difficulty, b: ApiGameService.Difficulty)
    ensures DifficultyName(a.Value()) != "Unknown"
    ensures DifficultyName(a.Value()) == DifficultyName(b.Value()) <==> a == b
  {
  }

  class GameStore {
    var currentGame: Option<StartGameResponse>
    var gameResult: Option<ApiGameService.SubmitAnswerResponse>
    var isLoading: bool
    var error: Option<string>
    var playerName: string
    var selectedFallacies: seq<int>
    var startTimeMs: Option<int>

    /** The `isGameActive` computed: a game has been started and no result is recorded yet. */
    predicate IsGameActive()
      reads this
      ensures IsGameActive() ==> currentGame.Some?
      ensures gameResult.Some? ==> !IsGameActive()
    {
      currentGame.Some? && gameResult.None?
    }

    constructor ()
      ensures currentGame == None && gameResult == None && !isLoading && error == None
      ensures playerName == "" && selectedFallacies == [] && startTimeMs == None
      ensures !IsGameActive()
    {
      currentGame := None;
      gameResult := None;
      isLoading := false;
      error := None;
      playerName := "";
      selectedFallacies := [];
      startTimeMs := None;
    }

    /**
     * `startGame`: the name is stored before the call; a successful call installs the game with an
     * empty selection and no result, a failing one records its message and keeps the old game.
     * Either way loading has finished when it returns.
     */
    method StartGame(name: string, nowMs: int, outcome: Result<StartGameResponse, Thrown>)
      modifies this
      ensures playerName == name && !isLoading
      ensures outcome.Success? ==>
        && currentGame == Some(outcome.value)
        && selectedFallacies == []
        && gameResult == None
        && startTimeMs == Some(nowMs)
        && error == None
        && IsGameActive()
      ensures outcome.Failure? ==>
        && error == Some(ErrorMessage(outcome.error, StartFailed))
        && currentGame == old(currentGame)
        && gameResult == old(gameResult)
        && selectedFallacies == old(selectedFallacies)
        && startTimeMs == old(startTimeMs)
        && (IsGameActive() <==> old(IsGameActive()))
      ensures old(NoDup(selectedFallacies)) ==> NoDup(selectedFallacies)
    {
      isLoading := true;
      error := None;
      playerName := name;
      match outcome {
        case Success(response) =>
          currentGame := Some(response);
          selectedFallacies := [];
          gameResult := None;
          startTimeMs := Some(nowMs);
        case Failure(e) =>
          error := Some(ErrorMessage(e, StartFailed));
      }
      isLoading := false;
    }

    /**
     * `submitAnswer`: nothing happens without a current game; otherwise a successful call records
     * the result (ending the game) and a failing one records its message and keeps the old result.
     */
    method SubmitAnswer(outcome: Result<ApiGameService.SubmitAnswerResponse, Thrown>)
      modifies this
      ensures old(currentGame).None? ==>
        && gameResult == old(gameResult)
        && isLoading == old(isLoading)
        && error == old(error)
      ensures old(currentGame).Some? && outcome.Success? ==>
        && gameResult == Some(outcome.value)
        && error == None
        && !isLoading
        && !IsGameActive()
      ensures old(currentGame).Some? && outcome.Failure? ==>
        && gameResult == old(gameResult)
        && error == Some(ErrorMessage(outcome.error, SubmitFailed))
        && !isLoading
      ensures currentGame == old(currentGame) && playerName == old(playerName)
      ensures selectedFallacies == old(selectedFallacies) && startTimeMs == old(startTimeMs)
    {
      if currentGame.None? {
        return;
      }
      isLoading := true;
      error := None;
      match outcome {
        case Success(response) =>
          gameResult := Some(response);
        case Failure(e) =>
          error := Some(ErrorMessage(e, SubmitFailed));
      }
      isLoading := false;
    }

    /** `toggleFallacy`: splice out the first occurrence of a selected id, push an unselected one. */
    method ToggleFallacy(fallacyId: int)
      modifies this
      ensures selectedFallacies == Toggled(old(selectedFallacies), fallacyId)
      ensures old(NoDup(selectedFallacies)) ==> NoDup(selectedFallacies)
      ensures currentGame == old(currentGame) && gameResult == old(gameResult)
      ensures isLoading == old(isLoading) && error == old(error)
      ensures playerName == old(playerName) && startTimeMs == old(startTimeMs)
    {
      if NoDup(selectedFallacies) {
        ToggledNoDup(selectedFallacies, fallacyId);
      }
      var index := IndexOf(selectedFallacies, fallacyId);
      if index > -1 {
        selectedFallacies := selectedFallacies[..index] + selectedFallacies[index + 1..];
      } else {
        selectedFallacies := selectedFallacies + [fallacyId];
      }
    }

    /** `resetGame`: clears the game, its result, the selection, the start time and the error. */
    method ResetGame()
      modifies this
      ensures currentGame == None && gameResult == None && error == None
      ensures selectedFallacies == [] && startTimeMs == None
      ensures !IsGameActive()
      ensures playerName == old(playerName) && isLoading == old(isLoading)
    {
      currentGame := None;
      gameResult := None;
      selectedFallacies := [];
      startTimeMs := None;
      error := None;
    }
  }
}
