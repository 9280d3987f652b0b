/**
 * The second generation's `GameService` (the ApiService): sessions over stored
 * passages whose fallacies carry fixed start and end indices, reconciliation into
 * Correct / Missed / Incorrect, a +10 / -5 score with a small integer time bonus,
 * and the completion step that closes the session. The database becomes a catalogue
 * sequence, a map of session objects and an append-only list of stored selections.
 */
module ApiGameService {
  import opened Common

  /** The enum of the ApiService models, numbered 1, 2, 3. */
  datatype Difficulty = Easy | Medium | Hard
  {
    function Value(): int
    {
      match this
      case Easy => 1
      case Medium => 2
      case Hard => 3
    }
  }

  datatype LogicalFallacy = LogicalFallacy(id: int, name: string, description: string, difficulty: Difficulty)

  /** A fallacy placed in a stored passage; `fallacyName` is the name of the fallacy the row points at. */
  datatype TextFallacy = TextFallacy(id: int, logicalFallacyId: int, fallacyName: string, startIndex: int, endIndex: int)

  datatype GameText = GameText(id: int, content: string, difficulty: Difficulty, textFallacies: seq<TextFallacy>)

  datatype FallacyResultType = Correct | Missed | Incorrect

  datatype FallacyResult = FallacyResult(
    fallacyId: int,
    fallacyName: string,
    startIndex: int,
    endIndex: int,
    resultType: FallacyResultType)

  datatype SubmitAnswerResponse = SubmitAnswerResponse(score: int, timeTakenSeconds: int, results: seq<FallacyResult>)

  datatype LogicalFallacyDto = LogicalFallacyDto(id: int, name: string, description: string, difficulty: Difficulty)

  /** A stored selection row; the service only ever stores correct ones. */
  datatype GameSessionFallacy = GameSessionFallacy(gameSessionId: int, textFallacyId: int, isCorrect: bool)

  /** Both guards throw `InvalidOperationException`; they differ in the message. */
  datatype SessionError = SessionNotFound | SessionAlreadyCompleted
  {
    function Message(): string
    {
      match this
      case SessionNotFound => "Game session not found"
      case SessionAlreadyCompleted => "Game session already completed"
    }
  }

  // ---------------------------------------------------------------------------
  // Reconciliation

  /** The fallacy ids the passage holds, in passage order. */
  function TruthIds(tfs: seq<TextFallacy>): (r: seq<int>)
    ensures |r| == |tfs|
    ensures forall k :: 0 <= k < |tfs| ==> r[k] == tfs[k].logicalFallacyId
  {
    seq(|tfs|, k requires 0 <= k < |tfs| => tfs[k].logicalFallacyId)
  }

  /** `FindAsync(id)` on the catalogue. */
  function FindFallacy(catalogue: seq<LogicalFallacy>, id: int): (r: Option<LogicalFallacy>)
    ensures r.Some? ==> r.value in catalogue && r.value.id == id
    ensures r.None? ==> forall k :: 0 <= k < |catalogue| ==> catalogue[k].id != id
  {
    if catalogue == [] then None
    else if catalogue[0].id == id then Some(catalogue[0])
    else FindFallacy(catalogue[1..], id)
  }

  /** The entry for a stored text fallacy: Correct when its fallacy was selected, Missed otherwise. */
  function StoredResult(tf: TextFallacy, selected: seq<int>): FallacyResult
  {
    FallacyResult(tf.logicalFallacyId, tf.fallacyName, tf.startIndex, tf.endIndex,
                  if tf.logicalFallacyId in selected then Correct else Missed)
  }

  function StoredResults(tfs: seq<TextFallacy>, selected: seq<int>): seq<FallacyResult>
  {
    seq(|tfs|, k requires 0 <= k < |tfs| => StoredResult(tfs[k], selected))
  }

  /** The selected ids outside the passage, in selection order, repeats kept. */
  function IncorrectSelections(selected: seq<int>, tfs: seq<TextFallacy>): seq<int>
  {
    Filter(selected, (id: int) => id !in TruthIds(tfs))
  }

  /** The ids the catalogue resolves. */
  function Resolved(ids: seq<int>, catalogue: seq<LogicalFallacy>): seq<int>
  {
    Filter(ids, (id: int) => FindFallacy(catalogue, id).Some?)
  }

  /** One Incorrect entry, at indices 0 and 0, per id the catalogue resolves. */
  function IncorrectResults(ids: seq<int>, catalogue: seq<LogicalFallacy>): seq<FallacyResult>
  {
    var known := Resolved(ids, catalogue);
    seq(|known|, k requires 0 <= k < |known| =>
      FallacyResult(known[k], FindFallacy(catalogue, known[k]).value.name, 0, 0, Incorrect))
  }

  /** Classifying one more stored text fallacy appends its entry. */
  lemma StoredResultsPrefix(tfs: seq<TextFallacy>, selected: seq<int>, i: nat)
    requires i < |tfs|
    ensures StoredResults(tfs[..i + 1], selected) == StoredResults(tfs[..i], selected) + [StoredResult(tfs[i], selected)]
  {
    var longer := StoredResults(tfs[..i + 1], selected);
    var extended := StoredResults(tfs[..i], selected) + [StoredResult(tfs[i], selected)];
    forall k | 0 <= k < |longer| ensures longer[k] == extended[k] {
      assert tfs[..i + 1][k] == tfs[k];
    }
  }

  /** Looking at one more selection appends an Incorrect entry when the catalogue resolves it. */
  lemma IncorrectResultsPrefix(ids: seq<int>, catalogue: seq<LogicalFallacy>, i: nat)
    requires i < |ids|
    ensures var f := FindFallacy(catalogue, ids[i]);
            IncorrectResults(ids[..i + 1], catalogue)
            == IncorrectResults(ids[..i], catalogue)
               + (if f.Some? then [FallacyResult(ids[i], f.value.name, 0, 0, Incorrect)] else [])
  {
    assert ids[..i + 1] == ids[..i] + [ids[i]];
    FilterAppend(ids[..i], ids[i], (id: int) => FindFallacy(catalogue, id).Some?);
  }

  /** What `AnalyzeAnswersAsync` returns. */
  function ExpectedResults(selected: seq<int>, tfs: seq<TextFallacy>, catalogue: seq<LogicalFallacy>): seq<FallacyResult>
  {
    StoredResults(tfs, selected) + IncorrectResults(IncorrectSelections(selected, tfs), catalogue)
  }

  /**
   * The first entries mirror the passage's fallacies one for one (duplicates included),
   * with the stored indices, Correct exactly when selected; every later entry is an
   * Incorrect one at indices 0 and 0 for a selected id that is outside the passage and
   * that the catalogue resolves.
   */
  lemma ResultsShape(selected: seq<int>, tfs: seq<TextFallacy>, catalogue: seq<LogicalFallacy>)
    ensures var results := ExpectedResults(selected, tfs, catalogue);
            |results| >= |tfs|
            && (forall k :: 0 <= k < |tfs| ==>
                  results[k].fallacyId == tfs[k].logicalFallacyId
                  && results[k].fallacyName == tfs[k].fallacyName
                  && results[k].startIndex == tfs[k].startIndex && results[k].endIndex == tfs[k].endIndex
                  && (results[k].resultType == Correct <==> tfs[k].logicalFallacyId in selected)
                  && (results[k].resultType == Missed <==> tfs[k].logicalFallacyId !in selected))
            && (forall k :: |tfs| <= k < |results| ==>
                  results[k].resultType == Incorrect
                  && results[k].startIndex == 0 && results[k].endIndex == 0
                  && results[k].fallacyId in selected
                  && results[k].fallacyId !in TruthIds(tfs)
                  && FindFallacy(catalogue, results[k].fallacyId).Some?)
  {
    var a := StoredResults(tfs, selected);
    var incorrect := IncorrectSelections(selected, tfs);
    var known := Resolved(incorrect, catalogue);
    var b := IncorrectResults(incorrect, catalogue);
    var results: seq<FallacyResult> := a + b;
    assert forall k :: 0 <= k < |a| ==> results[k] == a[k];
    forall k | |tfs| <= k < |results|
      ensures results[k].resultType == Incorrect && results[k].fallacyId in selected
              && results[k].fallacyId !in TruthIds(tfs) && FindFallacy(catalogue, results[k].fallacyId).Some?
              && results[k].startIndex == 0 && results[k].endIndex == 0
    {
      var id := known[k - |a|];
      assert results[k] == b[k - |a|];
      assert id in known;
      FilterMember(incorrect, (x: int) => FindFallacy(catalogue, x).Some?, id);
      FilterMember(selected, (x: int) => x !in TruthIds(tfs), id);
    }
  }

  /** A selected id outside the passage that the catalogue resolves gets an Incorrect entry. */
  lemma IncorrectSelectionReported(selected: seq<int>, tfs: seq<TextFallacy>, catalogue: seq<LogicalFallacy>, id: int)
    requires id in selected && id !in TruthIds(tfs) && FindFallacy(catalogue, id).Some?
    ensures var results := ExpectedResults(selected, tfs, catalogue);
            exists k :: |tfs| <= k < |results| && results[k].fallacyId == id && results[k].resultType == Incorrect
  {
    var a := StoredResults(tfs, selected);
    var b := IncorrectResults(IncorrectSelections(selected, tfs), catalogue);
    FilterMember(selected, (x: int) => x !in TruthIds(tfs), id);
    var m := IncorrectEntry(IncorrectSelections(selected, tfs), catalogue, id);
    var results := ExpectedResults(selected, tfs, catalogue);
    assert results == a + b;
    assert results[|a| + m] == b[m];
  }

  /** Where an id the catalogue resolves sits among the Incorrect entries of a list holding it. */
  lemma IncorrectEntry(ids: seq<int>, catalogue: seq<LogicalFallacy>, id: int) returns (m: int)
    requires id in ids && FindFallacy(catalogue, id).Some?
    ensures var b := IncorrectResults(ids, catalogue);
            0 <= m < |b| && b[m].fallacyId == id && b[m].resultType == Incorrect
  {
    var known := Resolved(ids, catalogue);
    FilterMember(ids, (x: int) => FindFallacy(catalogue, x).Some?, id);
    m :| 0 <= m < |known| && known[m] == id;
  }

  /** A selected id the catalogue does not resolve, and outside the passage, leaves no entry at all. */
  lemma UnknownSelectionDropped(selected: seq<int>, tfs: seq<TextFallacy>, catalogue: seq<LogicalFallacy>, id: int)
    requires id !in TruthIds(tfs) && FindFallacy(catalogue, id).None?
    ensures var results := ExpectedResults(selected, tfs, catalogue);
            forall k :: 0 <= k < |results| ==> results[k].fallacyId != id
  {
    ResultsShape(selected, tfs, catalogue);
    var results := ExpectedResults(selected, tfs, catalogue);
    forall k | 0 <= k < |tfs| ensures results[k].fallacyId != id {
      assert TruthIds(tfs)[k] == tfs[k].logicalFallacyId;
    }
  }

  // ---------------------------------------------------------------------------
  // Score

  function Points(t: FallacyResultType): int
  {
    match t
    case Correct => 10
    case Incorrect => -5
    case Missed => 0
  }

  /** The points of the entries, summed from the first to the last. */
  function SumPoints(results: seq<FallacyResult>): int
  {
    if results == [] then 0
    else SumPoints(results[..|results| - 1]) + Points(results[|results| - 1].resultType)
  }

  /** The number of entries of one verdict. */
  function CountOf(results: seq<FallacyResult>, t: FallacyResultType): nat
  {
    |Filter(results, (r: FallacyResult) => r.resultType == t)|
  }

  /** "Max 5 points for completing under 60 seconds": `5 - t / 12` with C# division, never below 0. */
  function TimeBonus(timeTaken: int): (b: int)
    ensures b >= 0
    ensures 0 <= timeTaken < 60 ==> 1 <= b <= 5
    ensures timeTaken >= 60 ==> b == 0
  {
    if timeTaken < 60 then Max(0, 5 - TruncDiv(timeTaken, 12)) else 0
  }

  /** The score `CalculateScore` computes. */
  function Score(results: seq<FallacyResult>, timeTaken: int): int
  {
    Max(0, SumPoints(results) + TimeBonus(timeTaken))
  }

  /** Each Correct entry is worth 10, each Incorrect one -5, and Missed entries nothing. */
  lemma {:induction false} SumPointsCounts(results: seq<FallacyResult>)
    ensures SumPoints(results) == 10 * CountOf(results, Correct) - 5 * CountOf(results, Incorrect)
  {
    if results != [] {
      var init, last := results[..|results| - 1], results[|results| - 1];
      assert results == init + [last];
      SumPointsCounts(init);
      FilterAppend(init, last, (r: FallacyResult) => r.resultType == Correct);
      FilterAppend(init, last, (r: FallacyResult) => r.resultType == Incorrect);
    }
  }

  /** Under a minute (from a non-negative elapsed time) the bonus is between 1 and 5; from a minute on it is 0. */
  lemma TimeBonusRange(timeTaken: int)
    ensures 0 <= timeTaken < 60 ==> 1 <= TimeBonus(timeTaken) <= 5
    ensures timeTaken >= 60 ==> TimeBonus(timeTaken) == 0
    ensures timeTaken < 0 ==> TimeBonus(timeTaken) >= 5
    ensures TimeBonus(timeTaken) >= 0
  {
  }

  /** The score is never negative, and with no Incorrect entry it is at least 10 per Correct one. */
  lemma ScoreBounds(results: seq<FallacyResult>, timeTaken: int)
    ensures Score(results, timeTaken) >= 0
    ensures CountOf(results, Incorrect) == 0 ==> Score(results, timeTaken) >= 10 * CountOf(results, Correct)
  {
    SumPointsCounts(results);
    TimeBonusRange(timeTaken);
  }

  // ---------------------------------------------------------------------------
  // The stored selections

  /** LINQ `Join` of the selected ids with the passage's fallacies on the fallacy id, outer order first. */
  function JoinSelected(selected: seq<int>, tfs: seq<TextFallacy>): seq<TextFallacy>
  {
    if selected == [] then []
    else Filter(tfs, (tf: TextFallacy) => tf.logicalFallacyId == selected[0]) + JoinSelected(selected[1..], tfs)
  }

  /** The joined rows are exactly the passage's fallacies whose fallacy id was selected. */
  lemma {:induction false} JoinSelectedMembers(selected: seq<int>, tfs: seq<TextFallacy>, tf: TextFallacy)
    ensures tf in JoinSelected(selected, tfs) <==> tf in tfs && tf.logicalFallacyId in selected
  {
    if selected != [] {
      JoinSelectedMembers(selected[1..], tfs, tf);
      FilterMember(tfs, (x: TextFallacy) => x.logicalFallacyId == selected[0], tf);
      assert selected == [selected[0]] + selected[1..];
    }
  }

  /** The rows `CompleteGameSessionAsync` stores: one correct selection per joined text fallacy. */
  function SelectionRows(sessionId: int, joined: seq<TextFallacy>): (r: seq<GameSessionFallacy>)
    ensures |r| == |joined|
    ensures forall k :: 0 <= k < |joined| ==> r[k] == GameSessionFallacy(sessionId, joined[k].id, true)
  {
    seq(|joined|, k requires 0 <= k < |joined| => GameSessionFallacy(sessionId, joined[k].id, true))
  }

  // ---------------------------------------------------------------------------
  // The fallacy list offered for a difficulty level

  /** The switch of `GetAvailableFallaciesForDifficulty`. */
  predicate Available(fd: Difficulty, d: Difficulty)
  {
    match d
    case Easy => fd == Easy
    case Medium => fd == Easy || fd == Medium
    case Hard => true
  }

  function ToDto(f: LogicalFallacy): LogicalFallacyDto
  {
    LogicalFallacyDto(f.id, f.name, f.description, f.difficulty)
  }

  /** The catalogue fallacies available at `d`, in catalogue order, as DTOs. */
  function AvailableFallacies(catalogue: seq<LogicalFallacy>, d: Difficulty): (r: seq<LogicalFallacyDto>)
    ensures |r| <= |catalogue|
    ensures forall k :: 0 <= k < |r| ==> Available(r[k].difficulty, d)
  {
    var kept := Filter(catalogue, (f: LogicalFallacy) => Available(f.difficulty, d));
    seq(|kept|, k requires 0 <= k < |kept| => ToDto(kept[k]))
  }

  /** A fallacy is offered at `d` exactly when its level number is at most `d`'s: the lists grow upward. */
  lemma AvailableIsInclusiveUpward(catalogue: seq<LogicalFallacy>, d: Difficulty, f: LogicalFallacy)
    requires f in catalogue
    ensures ToDto(f) in AvailableFallacies(catalogue, d) <==> f.difficulty.Value() <= d.Value()
  {
    OfferedIffAvailable(catalogue, d, f);
  }

  /** A catalogue fallacy is offered exactly when the filter keeps it. */
  lemma OfferedIffAvailable(catalogue: seq<LogicalFallacy>, d: Difficulty, f: LogicalFallacy)
    requires f in catalogue
    ensures ToDto(f) in AvailableFallacies(catalogue, d) <==> Available(f.difficulty, d)
  {
    var p := (g: LogicalFallacy) => Available(g.difficulty, d);
    var kept := Filter(catalogue, p);
    var offered := AvailableFallacies(catalogue, d);
    assert |offered| == |kept| && forall k :: 0 <= k < |kept| ==> offered[k] == ToDto(kept[k]);
    FilterMember(catalogue, p, f);
    if Available(f.difficulty, d) {
      var k :| 0 <= k < |kept| && kept[k] == f;
      assert offered[k] == ToDto(f);
    }
    if ToDto(f) in offered {
      var k :| 0 <= k < |offered| && offered[k] == ToDto(f);
      assert kept[k] in kept && kept[k].difficulty == f.difficulty;
    }
  }

  /** Hard applies no filter. */
  lemma HardOffersAll(catalogue: seq<LogicalFallacy>)
    ensures AvailableFallacies(catalogue, Hard) == seq(|catalogue|, k requires 0 <= k < |catalogue| => ToDto(catalogue[k]))
  {
    FilterAll(catalogue, (f: LogicalFallacy) => Available(f.difficulty, Hard));
  }

  // ---------------------------------------------------------------------------
  // Sessions

  /** A game session; `endTimeMs` and `score` are filled when it completes. */
  class GameSession {
    const id: int
    const playerName: string
    const difficulty: Difficulty
    const gameText: GameText
    const startTimeMs: int
    var endTimeMs: Option<int>
    var score: int
    var isCompleted: bool

    /** A fresh session as `StartGameAsync` creates it: not completed, score 0. */
    constructor (id: int, playerName: string, difficulty: Difficulty, gameText: GameText, startTimeMs: int)
      ensures this.id == id && this.playerName == playerName && this.difficulty == difficulty
      ensures this.gameText == gameText && this.startTimeMs == startTimeMs
      ensures endTimeMs.None? && score == 0 && !isCompleted
    {
      this.id := id;
      this.playerName := playerName;
      this.difficulty := difficulty;
      this.gameText := gameText;
      this.startTimeMs := startTimeMs;
      endTimeMs := None;
      score := 0;
      isCompleted := false;
    }
  }

  /** The service, over the catalogue, the sessions and the stored selections. */
  class GameService {
    const catalogue: seq<LogicalFallacy>
    var sessions: map<int, GameSession>
    var sessionFallacies: seq<GameSessionFallacy>

    constructor (catalogue: seq<LogicalFallacy>, sessions: map<int, GameSession>)
      requires forall k :: k in sessions ==> sessions[k].id == k
      ensures Valid()
      ensures this.catalogue == catalogue && this.sessions == sessions && sessionFallacies == []
    {
      this.catalogue := catalogue;
      this.sessions := sessions;
      sessionFallacies := [];
    }

    /** Every session is stored under its own id, as a lookup by `Id` finds it; so no two keys share a session. */
    predicate Valid()
      reads this
    {
      forall k :: k in sessions ==> sessions[k].id == k
    }

    /** `GetGameSessionAsync`: the session with this id, or "Game session not found". */
    method GetGameSession(sessionId: int) returns (r: Result<GameSession, SessionError>)
      ensures sessionId in sessions <==> r.Success?
      ensures r.Success? ==> r.value == sessions[sessionId]
      ensures r.Failure? ==> r.error == SessionNotFound
    {
      if sessionId !in sessions {
        return Failure(SessionNotFound);
      }
      return Success(sessions[sessionId]);
    }

    /** `ValidateGameSession`: a completed session is refused with "Game session already completed". */
    static method ValidateGameSession(session: GameSession) returns (error: Option<SessionError>)
      ensures error.Some? <==> session.isCompleted
      ensures error.Some? ==> error.value == SessionAlreadyCompleted
    {
      if session.isCompleted {
        return Some(SessionAlreadyCompleted);
      }
      return None;
    }

    /** `AnalyzeAnswersAsync`: a pass over the passage's fallacies, then one over the selections outside it. */
    method AnalyzeAnswers(selectedIds: seq<int>, correctFallacies: seq<TextFallacy>) returns (results: seq<FallacyResult>)
      ensures results == ExpectedResults(selectedIds, correctFallacies, catalogue)
    {
      var correctFallacyIds := TruthIds(correctFallacies);
      results := [];
      for i := 0 to |correctFallacies|
        invariant results == StoredResults(correctFallacies[..i], selectedIds)
      {
        var textFallacy := correctFallacies[i];
        StoredResultsPrefix(correctFallacies, selectedIds, i);
        var resultType := if textFallacy.logicalFallacyId in selectedIds then Correct else Missed;
        results := results + [FallacyResult(textFallacy.logicalFallacyId, textFallacy.fallacyName,
                                            textFallacy.startIndex, textFallacy.endIndex, resultType)];
      }
      assert correctFallacies[..|correctFallacies|] == correctFallacies;
      var stored := results;
      var incorrectSelections := Filter(selectedIds, (id: int) => id !in correctFallacyIds);
      var incorrectPart := [];
      for i := 0 to |incorrectSelections|
        invariant incorrectPart == IncorrectResults(incorrectSelections[..i], catalogue)
      {
        var selectedFallacyId := incorrectSelections[i];
        var fallacy := FindFallacy(catalogue, selectedFallacyId);
        IncorrectResultsPrefix(incorrectSelections, catalogue, i);
        if fallacy.Some? {
          incorrectPart := incorrectPart + [FallacyResult(selectedFallacyId, fallacy.value.name, 0, 0, Incorrect)];
        }
      }
      assert incorrectSelections[..|incorrectSelections|] == incorrectSelections;
      results := stored + incorrectPart;
    }

    /** `CalculateScore`: the points summed entry by entry, the bonus, and the clamp at 0. */
    static method CalculateScore(results: seq<FallacyResult>, timeTaken: int) returns (score: int)
      ensures score == Score(results, timeTaken)
    {
      score := 0;
      for i := 0 to |results|
        invariant score == SumPoints(results[..i])
      {
        assert results[..i + 1][..i] == results[..i];
        score := score + match results[i].resultType
                         case Correct => 10
                         case Incorrect => -5
                         case Missed => 0;
      }
      assert results[..|results|] == results;
      if timeTaken < 60 {
        score := score + Max(0, 5 - TruncDiv(timeTaken, 12));
      }
      return Max(0, score);
    }

    /** `CompleteGameSessionAsync`: closes the session and stores one row per joined selection. */
    method CompleteGameSession(session: GameSession, score: int, endTimeMs: int,
                               selectedFallacyIds: seq<int>, correctFallacies: seq<TextFallacy>)
      modifies this, session
      ensures sessions == old(sessions)
      ensures session.endTimeMs == Some(endTimeMs) && session.score == score && session.isCompleted
      ensures sessionFallacies == old(sessionFallacies) + SelectionRows(session.id, JoinSelected(selectedFallacyIds, correctFallacies))
    {
      session.endTimeMs := Some(endTimeMs);
      session.score := score;
      session.isCompleted := true;
      var correctSelections := JoinSelected(selectedFallacyIds, correctFallacies);
      for i := 0 to |correctSelections|
        invariant sessions == old(sessions)
        invariant session.endTimeMs == Some(endTimeMs) && session.score == score && session.isCompleted
        invariant sessionFallacies == old(sessionFallacies) + SelectionRows(session.id, correctSelections[..i])
      {
        var textFallacy := correctSelections[i];
        assert SelectionRows(session.id, correctSelections[..i + 1])
               == SelectionRows(session.id, correctSelections[..i]) + [GameSessionFallacy(session.id, textFallacy.id, true)];
        sessionFallacies := sessionFallacies + [GameSessionFallacy(session.id, textFallacy.id, true)];
      }
      assert correctSelections[..|correctSelections|] == correctSelections;
    }

    /**
     * `SubmitAnswerAsync`: an unknown or completed session is refused and nothing
     * changes; otherwise the answers are reconciled, scored and the session completed.
     * `nowMs` is the clock reading the elapsed time is taken from, `endTimeMs` the
     * one stored as the end time.
     */
    method SubmitAnswer(sessionId: int, nowMs: int, endTimeMs: int, selectedFallacyIds: seq<int>)
      returns (r: Result<SubmitAnswerResponse, SessionError>)
      requires Valid()
      modifies this, if sessionId in sessions then {sessions[sessionId]} else {}
      ensures Valid() && sessions == old(sessions)
      ensures sessionId !in sessions ==> r == Failure(SessionNotFound) && sessionFallacies == old(sessionFallacies)
      ensures sessionId in sessions && old(sessions[sessionId].isCompleted) ==>
                r == Failure(SessionAlreadyCompleted) && sessionFallacies == old(sessionFallacies)
                && unchanged(sessions[sessionId])
      ensures sessionId in sessions && !old(sessions[sessionId].isCompleted) ==>
                var s := sessions[sessionId];
                var t := TruncDiv(nowMs - s.startTimeMs, 1000);
                var tfs := s.gameText.textFallacies;
                var results := ExpectedResults(selectedFallacyIds, tfs, catalogue);
                r == Success(SubmitAnswerResponse(Score(results, t), t, results))
                && s.isCompleted && s.score == Score(results, t) && s.endTimeMs == Some(endTimeMs)
                && sessionFallacies == old(sessionFallacies) + SelectionRows(sessionId, JoinSelected(selectedFallacyIds, tfs))
    {
      var found := GetGameSession(sessionId);
      if found.Failure? {
        return Failure(found.error);
      }
      var gameSession := found.value;
      var invalid := ValidateGameSession(gameSession);
      if invalid.Some? {
        return Failure(invalid.value);
      }
      var timeTaken := TruncDiv(nowMs - gameSession.startTimeMs, 1000);
      var correctFallacies := gameSession.gameText.textFallacies;
      var results := AnalyzeAnswers(selectedFallacyIds, correctFallacies);
      var score := CalculateScore(results, timeTaken);
      CompleteGameSession(gameSession, score, endTimeMs, selectedFallacyIds, correctFallacies);
      return Success(SubmitAnswerResponse(score, timeTaken, results));
    }

    /** A session can be answered once: after a successful submission the next one is refused. */
    method SubmitTwice(sessionId: int, firstNowMs: int, firstEndMs: int, secondNowMs: int, secondEndMs: int,
                       firstIds: seq<int>, secondIds: seq<int>)
      returns (first: Result<SubmitAnswerResponse, SessionError>, second: Result<SubmitAnswerResponse, SessionError>)
      requires Valid()
      modifies this, if sessionId in sessions then {sessions[sessionId]} else {}
      ensures Valid()
      ensures first.Success? ==> second == Failure(SessionAlreadyCompleted)
    {
      first := SubmitAnswer(sessionId, firstNowMs, firstEndMs, firstIds);
      second := SubmitAnswer(sessionId, secondNowMs, secondEndMs, secondIds);
    }
  }

  /**
   * The unit test's passage: one fallacy (id 1, "Ad Hominem") placed at 10..20. Selecting
   * it gives a single Correct entry and a positive score, whatever the elapsed time.
   */
  lemma SingleCorrectSelection(timeTaken: int)
    ensures var catalogue := [LogicalFallacy(1, "Ad Hominem", "Attacking the person instead of the argument", Easy)];
            var tfs := [TextFallacy(1, 1, "Ad Hominem", 10, 20)];
            var results := ExpectedResults([1], tfs, catalogue);
            results == [FallacyResult(1, "Ad Hominem", 10, 20, Correct)]
            && Score(results, timeTaken) > 0
  {
    var catalogue := [LogicalFallacy(1, "Ad Hominem", "Attacking the person instead of the argument", Easy)];
    var tfs := [TextFallacy(1, 1, "Ad Hominem", 10, 20)];
    assert TruthIds(tfs) == [1];
    assert IncorrectSelections([1], tfs) == [] by {
      assert [1][1..] == [];
    }
    var results := ExpectedResults([1], tfs, catalogue);
    assert results == [FallacyResult(1, "Ad Hominem", 10, 20, Correct)];
    assert SumPoints(results) == 10 by {
      assert results[..0] == [];
    }
    TimeBonusRange(timeTaken);
  }
}
