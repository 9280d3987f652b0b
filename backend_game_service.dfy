/**
 * The first generation's `GameService`: it reconciles a player's selections with the
 * fallacies a passage actually contains, scores the result, and closes the session
 * so that it cannot be submitted twice. The database becomes a catalogue sequence, a
 * map of session objects and an append-only list of stored answers.
 */
module BackendGameService {
  import opened Common
  import opened Strings
  import opened Models
  import Scoring

  /** The three verdicts; the DTO spells them "correct", "wrong" and "missed". */
  datatype ResultType = Correct | Wrong | Missed
  {
    function Name(): string
    {
      match this
      case Correct => "correct"
      case Wrong => "wrong"
      case Missed => "missed"
    }

    /** The position of this verdict's block in the result list. */
    function Rank(): nat
    {
      match this
      case Correct => 0
      case Wrong => 1
      case Missed => 2
    }
  }

  datatype FallacyResult = FallacyResult(
    fallacyId: int,
    fallacyName: string,
    fallacyKey: string,
    resultType: ResultType,
    textReference: Option<string>,
    position: Option<int>)

  /** A fraction kept exact instead of the `double` the DTO holds. */
  datatype Ratio = Ratio(numerator: int, denominator: int)

  datatype GameStats = GameStats(
    correctCount: int,
    wrongCount: int,
    missedCount: int,
    totalFallacies: int,
    accuracy: Ratio)

  datatype GameSubmitResponse = GameSubmitResponse(
    score: int,
    timeTakenSeconds: int,
    results: seq<FallacyResult>,
    stats: GameStats)

  datatype FallacyOption = FallacyOption(id: int, name: string, key: string, description: string)

  /** A stored answer row. */
  datatype GameAnswer = GameAnswer(sessionId: int, fallacyId: int, isCorrect: bool, answerType: ResultType)

  /** `ArgumentException` for an unknown session, `InvalidOperationException` for a finished one. */
  datatype SubmitError = InvalidSessionId | SessionAlreadyCompleted
  {
    function Message(): string
    {
      match this
      case InvalidSessionId => "Invalid session ID"
      case SessionAlreadyCompleted => "Game session already completed"
    }
  }

  // ---------------------------------------------------------------------------
  // Locating a fallacy's name in the passage

  /** The lower-cased name cut at single spaces. */
  function NameWords(name: string): seq<string>
  {
    Split(Lower(name), ' ')
  }

  /** The index of the first word, in order, that occurs in `lowerText`. */
  function FirstFoundWord(words: seq<string>, lowerText: string): (r: Option<nat>)
    ensures r.Some? ==> r.value < |words| && Strings.IndexOf(lowerText, words[r.value]).Some?
    ensures r.Some? ==> forall k :: 0 <= k < r.value ==> Strings.IndexOf(lowerText, words[k]).None?
    ensures r.None? ==> forall k :: 0 <= k < |words| ==> Strings.IndexOf(lowerText, words[k]).None?
  {
    if words == [] then None
    else if Strings.IndexOf(lowerText, words[0]).Some? then Some(0)
    else
      match FirstFoundWord(words[1..], lowerText)
      case None => None
      case Some(k) => Some(k + 1)
  }

  /** Where the first found word of the name starts in the passage, and its length. */
  function NameHit(text: string, name: string): (r: Option<(nat, nat)>)
    ensures r.Some? ==> r.value.0 + r.value.1 <= |text|
  {
    var words := NameWords(name);
    var lowerText := Lower(text);
    match FirstFoundWord(words, lowerText)
    case None => None
    case Some(k) => Some((Strings.IndexOf(lowerText, words[k]).value, |words[k]|))
  }

  /** The position `FindFallacyPosition` reports. */
  function Position(text: string, f: LogicalFallacy): Option<int>
  {
    match NameHit(text, f.name)
    case None => None
    case Some((i, _)) => Some(i)
  }

  /** The marker either side of an excerpt. */
  const Ellipsis: string := "..."

  /** Up to 50 characters either side of the stretch `text[i..i + len]`, wrapped in "...". */
  function Excerpt(text: string, i: nat, len: nat): string
    requires i + len <= |text|
  {
    Ellipsis + text[Max(0, i - 50)..Min(|text|, i + len + 50)] + Ellipsis
  }

  /** The excerpt `ExtractFallacyReference` reports around the hit. */
  function Reference(text: string, f: LogicalFallacy): Option<string>
  {
    match NameHit(text, f.name)
    case None => None
    case Some((i, len)) => Some(Excerpt(text, i, len))
  }

  /** A word that occurs, with none before it occurring, is the first found word. */
  lemma {:induction false} FirstFoundWordAt(words: seq<string>, lowerText: string, i: nat)
    requires i < |words| && Strings.IndexOf(lowerText, words[i]).Some?
    requires forall k :: 0 <= k < i ==> Strings.IndexOf(lowerText, words[k]).None?
    ensures FirstFoundWord(words, lowerText) == Some(i)
  {
    if i > 0 {
      FirstFoundWordAt(words[1..], lowerText, i - 1);
    }
  }

  /** The position and the excerpt come from the same hit: both are present or both are absent. */
  lemma PositionIffReference(text: string, f: LogicalFallacy)
    ensures Position(text, f).Some? <==> Reference(text, f).Some?
    ensures Position(text, f).Some? ==> 0 <= Position(text, f).value <= |text|
  {
  }

  /**
   * The excerpt is wrapped in "...", holds the stretch it is taken around (in its
   * original case), and is at most 106 characters longer than that stretch.
   */
  lemma ExcerptSurrounds(text: string, i: nat, len: nat)
    requires i + len <= |text|
    ensures var ex := Excerpt(text, i, len);
            |ex| >= 6 && ex[..3] == Ellipsis && ex[|ex| - 3..] == Ellipsis && |ex| <= len + 106
    ensures var ex := Excerpt(text, i, len);
            var lo := Max(0, i - 50);
            3 + i - lo + len <= |ex| && ex[3 + i - lo..3 + i - lo + len] == text[i..i + len]
  {
    var lo: int, hi: int := Max(0, i - 50), Min(|text|, i + len + 50);
    var mid := text[lo..hi];
    var ex := Ellipsis + mid + Ellipsis;
    assert ex == Excerpt(text, i, len);
    ConcatThreeSlices(Ellipsis, mid, Ellipsis);
    assert i + len <= hi;
    SliceInMiddle(Ellipsis, mid, Ellipsis, i - lo, i - lo + len);
    SliceOfSlice(text, lo, hi, i - lo, i - lo + len);
  }

  /** The matched stretch of the text is, ignoring case, the found word of the name. */
  lemma HitMatchesWord(text: string, f: LogicalFallacy)
    requires NameHit(text, f.name).Some?
    ensures var (i, len) := NameHit(text, f.name).value;
            var words := NameWords(f.name);
            Lower(text[i..i + len]) == words[FirstFoundWord(words, Lower(text)).value]
  {
    var words := NameWords(f.name);
    var lowerText := Lower(text);
    var k := FirstFoundWord(words, lowerText).value;
    var i := Strings.IndexOf(lowerText, words[k]).value;
    LowerSlice(text, i, i + |words[k]|);
  }

  // ---------------------------------------------------------------------------
  // Reconciling the selection with the ground truth

  /** The ids of a list of fallacies, in order. */
  function Ids(fs: seq<LogicalFallacy>): (r: seq<int>)
    ensures |r| == |fs|
    ensures forall i :: 0 <= i < |fs| ==> r[i] == fs[i].id
  {
    seq(|fs|, i requires 0 <= i < |fs| => fs[i].id)
  }

  /** `First`/`FirstOrDefault(f => f.Id == id)`. */
  function FindById(fs: seq<LogicalFallacy>, id: int): (r: Option<LogicalFallacy>)
    ensures r.Some? <==> id in Ids(fs)
    ensures r.Some? ==> r.value in fs && r.value.id == id
  {
    if fs == [] then None
    else if fs[0].id == id then Some(fs[0])
    else
      assert forall k :: 0 <= k < |fs| - 1 ==> Ids(fs[1..])[k] == Ids(fs)[k + 1];
      FindById(fs[1..], id)
  }

  /** A result carrying the fallacy's name, key, excerpt and position. */
  function Reported(text: string, f: LogicalFallacy, t: ResultType): FallacyResult
  {
    FallacyResult(f.id, f.name, f.key, t, Reference(text, f), Position(text, f))
  }

  /** One result of verdict `t` per id, for ids of the ground truth `gt`. */
  function Reports(ids: seq<int>, gt: seq<LogicalFallacy>, text: string, t: ResultType): (r: seq<FallacyResult>)
    requires forall k :: 0 <= k < |ids| ==> ids[k] in Ids(gt)
    ensures |r| == |ids|
    ensures forall k :: 0 <= k < |ids| ==> r[k].fallacyId == ids[k] && r[k].resultType == t
  {
    seq(|ids|, k requires 0 <= k < |ids| => Reported(text, FindById(gt, ids[k]).value, t))
  }

  /** A wrong answer: name and key only, no excerpt and no position. */
  function WrongResult(f: LogicalFallacy): FallacyResult
  {
    FallacyResult(f.id, f.name, f.key, Wrong, None, None)
  }

  /** The ids the catalogue knows. */
  function KnownIds(ids: seq<int>, catalogue: seq<LogicalFallacy>): seq<int>
  {
    Filter(ids, (id: int) => FindById(catalogue, id).Some?)
  }

  /** One wrong result per id the catalogue knows; unknown ids are dropped. */
  function WrongReports(ids: seq<int>, catalogue: seq<LogicalFallacy>): (r: seq<FallacyResult>)
    ensures var known := KnownIds(ids, catalogue);
            |r| == |known| && forall k :: 0 <= k < |known| ==> r[k].fallacyId == known[k] && r[k].resultType == Wrong
  {
    var known := KnownIds(ids, catalogue);
    seq(|known|, k requires 0 <= k < |known| => WrongResult(FindById(catalogue, known[k]).value))
  }

  /** Reporting one more wrong id appends its result when the catalogue knows it. */
  lemma WrongReportsPrefix(ids: seq<int>, catalogue: seq<LogicalFallacy>, i: nat)
    requires i < |ids|
    ensures var f := FindById(catalogue, ids[i]);
            WrongReports(ids[..i + 1], catalogue)
            == WrongReports(ids[..i], catalogue) + (if f.Some? then [WrongResult(f.value)] else [])
  {
    assert ids[..i + 1] == ids[..i] + [ids[i]];
    FilterAppend(ids[..i], ids[i], (id: int) => FindById(catalogue, id).Some?);
  }

  /** The selected ids that are in the ground truth, in selection order, repeats kept. */
  function CorrectIds(selected: seq<int>, truth: seq<int>): seq<int>
  {
    Filter(selected, (id: int) => id in truth)
  }

  /** The selected ids that are not in the ground truth. */
  function WrongIds(selected: seq<int>, truth: seq<int>): seq<int>
  {
    Filter(selected, (id: int) => id !in truth)
  }

  /** The ground-truth ids (each once) that were not selected. */
  function MissedIds(selected: seq<int>, truth: seq<int>): seq<int>
  {
    Filter(Distinct(truth), (id: int) => id !in selected)
  }

  /** The results `AnalyzeAnswers` produces: the correct ones, then the wrong ones, then the missed ones. */
  function ExpectedResults(selected: seq<int>, gt: seq<LogicalFallacy>, catalogue: seq<LogicalFallacy>, text: string): seq<FallacyResult>
  {
    var truth := Ids(gt);
    Reports(CorrectIds(selected, truth), gt, text, Correct)
    + WrongReports(WrongIds(selected, truth), catalogue)
    + Reports(MissedIds(selected, truth), gt, text, Missed)
  }

  /** The number of results with verdict `t`. */
  function Count(results: seq<FallacyResult>, t: ResultType): nat
  {
    |Filter(results, (r: FallacyResult) => r.resultType == t)|
  }

  /** Some result has this id and this verdict. */
  predicate HasResult(results: seq<FallacyResult>, id: int, t: ResultType)
  {
    exists k :: 0 <= k < |results| && results[k].fallacyId == id && results[k].resultType == t
  }

  lemma HasResultConcat(a: seq<FallacyResult>, b: seq<FallacyResult>, id: int, t: ResultType)
    ensures HasResult(a, id, t) || HasResult(b, id, t) ==> HasResult(a + b, id, t)
  {
    if HasResult(a, id, t) {
      var k :| 0 <= k < |a| && a[k].fallacyId == id && a[k].resultType == t;
      assert (a + b)[k] == a[k];
    } else if HasResult(b, id, t) {
      var k :| 0 <= k < |b| && b[k].fallacyId == id && b[k].resultType == t;
      assert (a + b)[|a| + k] == b[k];
    }
  }

  lemma HasReport(ids: seq<int>, gt: seq<LogicalFallacy>, text: string, t: ResultType, id: int)
    requires forall k :: 0 <= k < |ids| ==> ids[k] in Ids(gt)
    requires id in ids
    ensures HasResult(Reports(ids, gt, text, t), id, t)
  {
    var k :| 0 <= k < |ids| && ids[k] == id;
    assert Reports(ids, gt, text, t)[k].fallacyId == id;
  }

  lemma HasWrongReport(ids: seq<int>, catalogue: seq<LogicalFallacy>, id: int)
    requires id in KnownIds(ids, catalogue)
    ensures HasResult(WrongReports(ids, catalogue), id, Wrong)
  {
    var known := KnownIds(ids, catalogue);
    var k :| 0 <= k < |known| && known[k] == id;
    assert WrongReports(ids, catalogue)[k].fallacyId == id;
  }

  /** The three blocks of the results: their sizes, and the one verdict each holds. */
  lemma ResultBlocks(selected: seq<int>, gt: seq<LogicalFallacy>, catalogue: seq<LogicalFallacy>, text: string)
    ensures var truth := Ids(gt);
            var c, w := |CorrectIds(selected, truth)|, |KnownIds(WrongIds(selected, truth), catalogue)|;
            var results := ExpectedResults(selected, gt, catalogue, text);
            |results| == c + w + |MissedIds(selected, truth)|
            && (forall k :: 0 <= k < c ==> results[k].resultType == Correct)
            && (forall k :: c <= k < c + w ==> results[k].resultType == Wrong)
            && (forall k :: c + w <= k < |results| ==> results[k].resultType == Missed)
  {
    var truth := Ids(gt);
    var a := Reports(CorrectIds(selected, truth), gt, text, Correct);
    var b := WrongReports(WrongIds(selected, truth), catalogue);
    var c := Reports(MissedIds(selected, truth), gt, text, Missed);
    ConcatIndex(a, b, c);
  }

  /** All correct results come first, then all wrong ones, then all missed ones. */
  lemma ResultsOrdered(selected: seq<int>, gt: seq<LogicalFallacy>, catalogue: seq<LogicalFallacy>, text: string)
    ensures var results := ExpectedResults(selected, gt, catalogue, text);
            forall i, j :: 0 <= i <= j < |results| ==> results[i].resultType.Rank() <= results[j].resultType.Rank()
  {
    ResultBlocks(selected, gt, catalogue, text);
  }

  /** Correct results are selected ground-truth ids. */
  lemma CorrectMeaning(selected: seq<int>, gt: seq<LogicalFallacy>, catalogue: seq<LogicalFallacy>, text: string)
    ensures var results := ExpectedResults(selected, gt, catalogue, text);
            forall k :: 0 <= k < |results| && results[k].resultType == Correct ==>
              results[k].fallacyId in selected && results[k].fallacyId in Ids(gt)
  {
    var truth := Ids(gt);
    var correct := CorrectIds(selected, truth);
    var a := Reports(correct, gt, text, Correct);
    var b := WrongReports(WrongIds(selected, truth), catalogue);
    var c := Reports(MissedIds(selected, truth), gt, text, Missed);
    var results := a + b + c;
    ResultBlocks(selected, gt, catalogue, text);
    ConcatIndex(a, b, c);
    forall k | 0 <= k < |a| ensures results[k].fallacyId in selected && results[k].fallacyId in truth {
      assert correct[k] in correct;
    }
  }

  /** Wrong results are selected ids outside the ground truth that the catalogue knows, with no excerpt and no position. */
  lemma WrongMeaning(selected: seq<int>, gt: seq<LogicalFallacy>, catalogue: seq<LogicalFallacy>, text: string)
    ensures var results := ExpectedResults(selected, gt, catalogue, text);
            forall k :: 0 <= k < |results| && results[k].resultType == Wrong ==>
              results[k].fallacyId in selected && results[k].fallacyId !in Ids(gt) && results[k].fallacyId in Ids(catalogue)
              && results[k].textReference.None? && results[k].position.None?
  {
    var truth := Ids(gt);
    var a := Reports(CorrectIds(selected, truth), gt, text, Correct);
    var wrongIds := WrongIds(selected, truth);
    var known := KnownIds(wrongIds, catalogue);
    var b := WrongReports(wrongIds, catalogue);
    var c := Reports(MissedIds(selected, truth), gt, text, Missed);
    var results := a + b + c;
    ResultBlocks(selected, gt, catalogue, text);
    ConcatIndex(a, b, c);
    forall k | |a| <= k < |a| + |b|
      ensures results[k].fallacyId in selected && results[k].fallacyId !in truth && results[k].fallacyId in Ids(catalogue)
              && results[k].textReference.None? && results[k].position.None?
    {
      var id := known[k - |a|];
      assert b[k - |a|] == WrongResult(FindById(catalogue, id).value);
      assert id in known;
      FilterMember(wrongIds, (x: int) => FindById(catalogue, x).Some?, id);
      FilterMember(selected, (x: int) => x !in truth, id);
    }
  }

  /** Missed results are ground-truth ids that were not selected. */
  lemma MissedMeaning(selected: seq<int>, gt: seq<LogicalFallacy>, catalogue: seq<LogicalFallacy>, text: string)
    ensures var results := ExpectedResults(selected, gt, catalogue, text);
            forall k :: 0 <= k < |results| && results[k].resultType == Missed ==>
              results[k].fallacyId !in selected && results[k].fallacyId in Ids(gt)
  {
    var truth := Ids(gt);
    var a := Reports(CorrectIds(selected, truth), gt, text, Correct);
    var b := WrongReports(WrongIds(selected, truth), catalogue);
    var missed := MissedIds(selected, truth);
    var c := Reports(missed, gt, text, Missed);
    var results := a + b + c;
    ResultBlocks(selected, gt, catalogue, text);
    ConcatIndex(a, b, c);
    forall k | |a| + |b| <= k < |results| ensures results[k].fallacyId !in selected && results[k].fallacyId in truth {
      assert missed[k - |a| - |b|] in missed;
    }
  }

  /**
   * Every answer is accounted for: each selected ground-truth id yields a correct result,
   * each selected id outside it that the catalogue knows a wrong one, each unselected
   * ground-truth id a missed one.
   */
  lemma EveryAnswerReported(selected: seq<int>, gt: seq<LogicalFallacy>, catalogue: seq<LogicalFallacy>, text: string, id: int)
    ensures var results := ExpectedResults(selected, gt, catalogue, text);
            (id in selected && id in Ids(gt) ==> HasResult(results, id, Correct))
            && (id in selected && id !in Ids(gt) && id in Ids(catalogue) ==> HasResult(results, id, Wrong))
            && (id !in selected && id in Ids(gt) ==> HasResult(results, id, Missed))
  {
    var truth := Ids(gt);
    var a := Reports(CorrectIds(selected, truth), gt, text, Correct);
    var wrongIds := WrongIds(selected, truth);
    var b := WrongReports(wrongIds, catalogue);
    var c := Reports(MissedIds(selected, truth), gt, text, Missed);
    if id in selected && id in truth {
      FilterMember(selected, (x: int) => x in truth, id);
      HasReport(CorrectIds(selected, truth), gt, text, Correct, id);
      HasResultConcat(a, b, id, Correct);
      HasResultConcat(a + b, c, id, Correct);
    }
    if id in selected && id !in truth && id in Ids(catalogue) {
      FilterMember(selected, (x: int) => x !in truth, id);
      FilterMember(wrongIds, (x: int) => FindById(catalogue, x).Some?, id);
      HasWrongReport(wrongIds, catalogue, id);
      HasResultConcat(a, b, id, Wrong);
      HasResultConcat(a + b, c, id, Wrong);
    }
    if id !in selected && id in truth {
      var k :| 0 <= k < |truth| && truth[k] == id;
      FilterMember(Distinct(truth), (x: int) => x !in selected, id);
      HasReport(MissedIds(selected, truth), gt, text, Missed, id);
      HasResultConcat(a + b, c, id, Missed);
    }
  }

  /** A block of reports of one verdict counts its ids for that verdict and nothing for the others. */
  lemma CountReports(ids: seq<int>, gt: seq<LogicalFallacy>, text: string, t: ResultType, u: ResultType)
    requires forall k :: 0 <= k < |ids| ==> ids[k] in Ids(gt)
    ensures Count(Reports(ids, gt, text, t), u) == if t == u then |ids| else 0
  {
    if t == u {
      FilterAll(Reports(ids, gt, text, t), (r: FallacyResult) => r.resultType == u);
    } else {
      FilterNone(Reports(ids, gt, text, t), (r: FallacyResult) => r.resultType == u);
    }
  }

  lemma CountWrongReports(ids: seq<int>, catalogue: seq<LogicalFallacy>, u: ResultType)
    ensures Count(WrongReports(ids, catalogue), u) == if u == Wrong then |KnownIds(ids, catalogue)| else 0
  {
    if u == Wrong {
      FilterAll(WrongReports(ids, catalogue), (r: FallacyResult) => r.resultType == u);
    } else {
      FilterNone(WrongReports(ids, catalogue), (r: FallacyResult) => r.resultType == u);
    }
  }

  /** The verdict counts are the sizes of the three id lists. */
  lemma Counts(selected: seq<int>, gt: seq<LogicalFallacy>, catalogue: seq<LogicalFallacy>, text: string)
    ensures var truth := Ids(gt);
            var results := ExpectedResults(selected, gt, catalogue, text);
            Count(results, Correct) == |CorrectIds(selected, truth)|
            && Count(results, Wrong) == |KnownIds(WrongIds(selected, truth), catalogue)|
            && Count(results, Missed) == |MissedIds(selected, truth)|
  {
    var truth := Ids(gt);
    var a := Reports(CorrectIds(selected, truth), gt, text, Correct);
    var b := WrongReports(WrongIds(selected, truth), catalogue);
    var c := Reports(MissedIds(selected, truth), gt, text, Missed);
    assert ExpectedResults(selected, gt, catalogue, text) == a + b + c;
    CountBlocks(CorrectIds(selected, truth), WrongIds(selected, truth), MissedIds(selected, truth), gt, catalogue, text, Correct);
    CountBlocks(CorrectIds(selected, truth), WrongIds(selected, truth), MissedIds(selected, truth), gt, catalogue, text, Wrong);
    CountBlocks(CorrectIds(selected, truth), WrongIds(selected, truth), MissedIds(selected, truth), gt, catalogue, text, Missed);
  }

  lemma CountBlocks(correct: seq<int>, wrong: seq<int>, missed: seq<int>,
                    gt: seq<LogicalFallacy>, catalogue: seq<LogicalFallacy>, text: string, u: ResultType)
    requires forall k :: 0 <= k < |correct| ==> correct[k] in Ids(gt)
    requires forall k :: 0 <= k < |missed| ==> missed[k] in Ids(gt)
    ensures var results := Reports(correct, gt, text, Correct) + WrongReports(wrong, catalogue) + Reports(missed, gt, text, Missed);
            Count(results, u) == match u
                                 case Correct => |correct|
                                 case Wrong => |KnownIds(wrong, catalogue)|
                                 case Missed => |missed|
  {
    var a := Reports(correct, gt, text, Correct);
    var b := WrongReports(wrong, catalogue);
    var c := Reports(missed, gt, text, Missed);
    CountConcat(a, b, c, u);
    CountReports(correct, gt, text, Correct, u);
    CountWrongReports(wrong, catalogue, u);
    CountReports(missed, gt, text, Missed, u);
  }

  lemma CountConcat(a: seq<FallacyResult>, b: seq<FallacyResult>, c: seq<FallacyResult>, t: ResultType)
    ensures Count(a + b + c, t) == Count(a, t) + Count(b, t) + Count(c, t)
  {
    FilterConcat(a + b, c, (r: FallacyResult) => r.resultType == t);
    FilterConcat(a, b, (r: FallacyResult) => r.resultType == t);
  }

  /**
   * For a selection without repeats, every distinct ground-truth id is either correct
   * or missed: the two counts add up to the number of distinct ground-truth ids.
   */
  lemma CorrectPlusMissed(selected: seq<int>, gt: seq<LogicalFallacy>, catalogue: seq<LogicalFallacy>, text: string)
    requires NoDup(selected)
    ensures var results := ExpectedResults(selected, gt, catalogue, text);
            Count(results, Correct) + Count(results, Missed) == |Distinct(Ids(gt))|
  {
    Counts(selected, gt, catalogue, text);
    CorrectPlusMissedIds(selected, Ids(gt));
  }

  /** The same split on the id lists alone: each distinct ground-truth id is chosen or missed. */
  lemma CorrectPlusMissedIds(selected: seq<int>, truth: seq<int>)
    requires NoDup(selected)
    ensures |CorrectIds(selected, truth)| + |MissedIds(selected, truth)| == |Distinct(truth)|
  {
    var d := Distinct(truth);
    var inSel := (id: int) => id in selected;
    var inTruth := (id: int) => id in truth;
    FilterPartition(d, inSel, (id: int) => id !in selected);
    var correct := Filter(selected, inTruth);
    var chosenTruth := Filter(d, inSel);
    FilterNoDup(selected, inTruth);
    FilterNoDup(d, inSel);
    forall x ensures x in correct <==> x in chosenTruth {
      FilterMember(selected, inTruth, x);
      FilterMember(d, inSel, x);
      DistinctMember(truth, x);
    }
    assert (set x | x in correct) == (set x | x in chosenTruth);
    SameElementsSameLength(correct, chosenTruth);
  }

  lemma DistinctMember(s: seq<int>, x: int)
    ensures x in Distinct(s) <==> x in s
  {
    if x in s {
      var k :| 0 <= k < |s| && s[k] == x;
    }
    if x in Distinct(s) {
      var k :| 0 <= k < |Distinct(s)| && Distinct(s)[k] == x;
    }
  }

  // ---------------------------------------------------------------------------
  // Statistics

  /** The stats block: the verdict counts, the ground-truth size, and correct / total (0 for an empty ground truth). */
  function StatsOf(results: seq<FallacyResult>, gt: seq<LogicalFallacy>): (stats: GameStats)
    ensures stats.correctCount + stats.wrongCount + stats.missedCount == |results|
    ensures stats.totalFallacies == |gt|
    ensures stats.accuracy.denominator > 0 && stats.accuracy.numerator >= 0
    ensures stats.correctCount == Count(results, Correct)
    ensures |gt| == 0 ==> stats.accuracy.numerator == 0
  {
    CountsCoverResults(results);
    var correct := Count(results, Correct);
    GameStats(correct, Count(results, Wrong), Count(results, Missed), |gt|,
              if |gt| > 0 then Ratio(correct, |gt|) else Ratio(0, 1))
  }

  /** Every result has one of the three verdicts, so the three counts add up to the number of results. */
  lemma {:induction false} CountsCoverResults(results: seq<FallacyResult>)
    ensures Count(results, Correct) + Count(results, Wrong) + Count(results, Missed) == |results|
  {
    if results != [] {
      CountsCoverResults(results[1..]);
    }
  }

  /**
   * With a selection without repeats and a ground truth without repeated fallacies,
   * correct and missed together make up the total, and the accuracy is a fraction in [0, 1].
   */
  lemma StatsAddUp(selected: seq<int>, gt: seq<LogicalFallacy>, catalogue: seq<LogicalFallacy>, text: string)
    requires NoDup(selected) && UniqueIds(gt)
    ensures var stats := StatsOf(ExpectedResults(selected, gt, catalogue, text), gt);
            stats.correctCount + stats.missedCount == stats.totalFallacies
            && 0 <= stats.accuracy.numerator <= stats.accuracy.denominator && stats.accuracy.denominator > 0
  {
    CorrectPlusMissed(selected, gt, catalogue, text);
    var truth := Ids(gt);
    assert NoDup(truth);
    forall x ensures x in Distinct(truth) <==> x in truth {
      DistinctMember(truth, x);
    }
    assert (set x | x in Distinct(truth)) == (set x | x in truth);
    SameElementsSameLength(Distinct(truth), truth);
  }

  /**
   * Nothing rejects a repeated id in a submission: selecting a passage's only fallacy twice
   * counts two correct answers against one fallacy, an accuracy of 2.
   */
  lemma RepeatedSelectionOvercounts(f: LogicalFallacy, catalogue: seq<LogicalFallacy>, text: string)
    ensures var stats := StatsOf(ExpectedResults([f.id, f.id], [f], catalogue, text), [f]);
            stats.correctCount == 2 && stats.missedCount == 0 && stats.totalFallacies == 1
            && stats.correctCount + stats.missedCount > stats.totalFallacies
            && stats.accuracy == Ratio(2, 1)
  {
    var x := f.id;
    assert Ids([f]) == [x];
    RepeatedIdLists(x);
    Counts([x, x], [f], catalogue, text);
  }

  lemma RepeatedIdLists(x: int)
    ensures CorrectIds([x, x], [x]) == [x, x]
    ensures WrongIds([x, x], [x]) == []
    ensures MissedIds([x, x], [x]) == []
  {
    assert [x, x][1..] == [x] && [x][1..] == [];
    FilterNone([x, x], (id: int) => id !in [x]);
    assert Distinct([x]) == [x] by {
      assert [x][..0] == [];
    }
  }

  /** The sample catalogue of the service tests: three Easy fallacies, one Medium, one Hard. */
  const SampleCatalogue: seq<LogicalFallacy> :=
    [LogicalFallacy(1, "Ad Hominem", "ad-hominem", "Attacking the person", Easy, "Example 1"),
     LogicalFallacy(2, "Strawman", "strawman", "Misrepresenting argument", Easy, "Example 2"),
     LogicalFallacy(3, "Appeal to Authority", "appeal-to-authority", "Using authority", Easy, "Example 3"),
     LogicalFallacy(4, "Burden of Proof", "burden-of-proof", "Shifting burden", Medium, "Example 4"),
     LogicalFallacy(5, "Begging the Question", "begging-the-question", "Circular argument", Hard, "Example 5")]

  /**
   * What the test examples depend on: five fallacies with ids 1 to 5 in order,
   * the first three Easy, then one Medium and one Hard.
   */
  predicate LikeSample(c: seq<LogicalFallacy>)
  {
    && |c| == 5
    && c[0].id == 1 && c[1].id == 2 && c[2].id == 3 && c[3].id == 4 && c[4].id == 5
    && c[0].difficulty == Easy && c[1].difficulty == Easy && c[2].difficulty == Easy
    && c[3].difficulty == Medium && c[4].difficulty == Hard
  }

  lemma SampleShape()
    ensures LikeSample(SampleCatalogue)
  {
  }

  lemma SampleTruth(c: seq<LogicalFallacy>)
    requires LikeSample(c)
    ensures Ids(c[..2]) == [1, 2]
  {
    var truth := Ids(c[..2]);
    assert truth[0] == 1 && truth[1] == 2;
  }

  lemma SampleIdLists()
    ensures CorrectIds([1, 3], [1, 2]) == [1]
    ensures WrongIds([1, 3], [1, 2]) == [3]
    ensures MissedIds([1, 3], [1, 2]) == [2]
  {
    assert [1, 3][1..] == [3];
    assert [3][1..] == [];
    assert Distinct([1, 2]) == [1, 2] by {
      assert [1, 2][..1] == [1];
      assert [1][..0] == [];
    }
    assert [1, 2][1..] == [2];
    assert [2][1..] == [];
  }

  lemma SampleKnowsThree(c: seq<LogicalFallacy>)
    requires LikeSample(c)
    ensures KnownIds([3], c) == [3]
  {
    assert Ids(c)[2] == 3;
    assert FindById(c, 3).Some?;
    assert [3][1..] == [];
  }

  /**
   * Selecting fallacies 1 and 3 when the passage holds 1 and 2 (the first two of a catalogue
   * like the sample one): one of each verdict, accuracy 1/2, whatever the text.
   */
  lemma PartiallyCorrectExample(c: seq<LogicalFallacy>, text: string)
    requires LikeSample(c)
    ensures var gt := c[..2];
            var stats := StatsOf(ExpectedResults([1, 3], gt, c, text), gt);
            stats.correctCount == 1 && stats.wrongCount == 1 && stats.missedCount == 1
            && stats.accuracy == Ratio(1, 2)
  {
    SampleTruth(c);
    SampleIdLists();
    SampleKnowsThree(c);
    Counts([1, 3], c[..2], c, text);
  }

  // ---------------------------------------------------------------------------
  // The fallacy list offered for a difficulty level

  /** The switch of `GetFallaciesByDifficultyAsync`, written as the equalities it tests. */
  predicate OfferedAt(fd: Difficulty, d: Difficulty)
  {
    match d
    case Easy => fd == Easy
    case Medium => fd == Easy || fd == Medium
    case Hard => true
  }

  /** The switch agrees with the enum order: a fallacy is offered exactly at the levels at or above its own. */
  lemma OfferedAtIsAtMost(fd: Difficulty, d: Difficulty)
    ensures OfferedAt(fd, d) <==> fd.AtMost(d)
  {
  }

  function ToOption(f: LogicalFallacy): FallacyOption
  {
    FallacyOption(f.id, f.name, f.key, f.description)
  }

  /** The catalogue fallacies offered at `d`, in catalogue order. */
  function Offered(catalogue: seq<LogicalFallacy>, d: Difficulty): seq<LogicalFallacy>
  {
    Filter(catalogue, (f: LogicalFallacy) => OfferedAt(f.difficulty, d))
  }

  /** `GetFallaciesByDifficultyAsync`: the offered fallacies as options. */
  function FallaciesByDifficulty(catalogue: seq<LogicalFallacy>, d: Difficulty): (r: seq<FallacyOption>)
    ensures |r| == |Offered(catalogue, d)|
    ensures forall k :: 0 <= k < |r| ==> r[k] == ToOption(Offered(catalogue, d)[k])
  {
    var offered := Offered(catalogue, d);
    seq(|offered|, k requires 0 <= k < |offered| => ToOption(offered[k]))
  }

  /** A fallacy's option is offered at `d` exactly when the fallacy is at or below `d` (for a catalogue without repeated ids). */
  lemma OfferedExactly(catalogue: seq<LogicalFallacy>, d: Difficulty, f: LogicalFallacy)
    requires f in catalogue
    ensures f.difficulty.AtMost(d) ==> ToOption(f) in FallaciesByDifficulty(catalogue, d)
    ensures forall k :: 0 <= k < |FallaciesByDifficulty(catalogue, d)| ==>
              Offered(catalogue, d)[k] in catalogue && Offered(catalogue, d)[k].difficulty.AtMost(d)
  {
    var p := (g: LogicalFallacy) => OfferedAt(g.difficulty, d);
    FilterMember(catalogue, p, f);
    if f.difficulty.AtMost(d) {
      var k :| 0 <= k < |Offered(catalogue, d)| && Offered(catalogue, d)[k] == f;
      assert FallaciesByDifficulty(catalogue, d)[k] == ToOption(f);
    }
  }

  /** The lists are nested: what Easy offers Medium offers, what Medium offers Hard offers, and Hard offers everything. */
  lemma OfferedListsNested(catalogue: seq<LogicalFallacy>)
    ensures forall f :: f in Offered(catalogue, Easy) ==> f in Offered(catalogue, Medium)
    ensures forall f :: f in Offered(catalogue, Medium) ==> f in Offered(catalogue, Hard)
    ensures Offered(catalogue, Hard) == catalogue
  {
    FilterAll(catalogue, (f: LogicalFallacy) => OfferedAt(f.difficulty, Hard));
    forall f | f in Offered(catalogue, Easy) ensures f in Offered(catalogue, Medium) {
      FilterMember(catalogue, (g: LogicalFallacy) => OfferedAt(g.difficulty, Easy), f);
      FilterMember(catalogue, (g: LogicalFallacy) => OfferedAt(g.difficulty, Medium), f);
    }
  }

  /** The length of a filter of five elements, element by element. */
  lemma FilterFive<T>(c: seq<T>, p: T -> bool)
    requires |c| == 5
    ensures |Filter(c, p)| == (if p(c[0]) then 1 else 0) + (if p(c[1]) then 1 else 0) + (if p(c[2]) then 1 else 0)
                              + (if p(c[3]) then 1 else 0) + (if p(c[4]) then 1 else 0)
  {
    assert c[1..][0] == c[1] && c[1..][1..] == c[2..];
    assert c[2..][0] == c[2] && c[2..][1..] == c[3..];
    assert c[3..][0] == c[3] && c[3..][1..] == c[4..];
    assert c[4..][0] == c[4] && c[4..][1..] == [];
    assert |Filter(c[4..], p)| == (if p(c[4]) then 1 else 0);
    assert |Filter(c[3..], p)| == (if p(c[3]) then 1 else 0) + |Filter(c[4..], p)|;
    assert |Filter(c[2..], p)| == (if p(c[2]) then 1 else 0) + |Filter(c[3..], p)|;
    assert |Filter(c[1..], p)| == (if p(c[1]) then 1 else 0) + |Filter(c[2..], p)|;
  }

  /** On a catalogue like the sample one Easy offers the three Easy fallacies, ids 1 to 3. */
  lemma SampleEasyLevel(c: seq<LogicalFallacy>)
    requires LikeSample(c)
    ensures |FallaciesByDifficulty(c, Easy)| == 3
    ensures forall k :: 0 <= k < |FallaciesByDifficulty(c, Easy)| ==> FallaciesByDifficulty(c, Easy)[k].id <= 3
  {
    var p := (f: LogicalFallacy) => OfferedAt(f.difficulty, Easy);
    FilterFive(c, p);
    var offered := Offered(c, Easy);
    forall k | 0 <= k < |offered| ensures offered[k].id <= 3 {
      assert offered[k] in c && p(offered[k]);
    }
  }

  /** On a catalogue like the sample one Medium adds the Medium fallacy, id 4. */
  lemma SampleMediumLevel(c: seq<LogicalFallacy>)
    requires LikeSample(c)
    ensures |FallaciesByDifficulty(c, Medium)| == 4
    ensures forall k :: 0 <= k < |FallaciesByDifficulty(c, Medium)| ==> FallaciesByDifficulty(c, Medium)[k].id <= 4
  {
    var p := (f: LogicalFallacy) => OfferedAt(f.difficulty, Medium);
    FilterFive(c, p);
    var offered := Offered(c, Medium);
    forall k | 0 <= k < |offered| ensures offered[k].id <= 4 {
      assert offered[k] in c && p(offered[k]);
    }
  }

  // ---------------------------------------------------------------------------
  // Sessions and submission

  /** The fallacies the passage's mappings point at, as the navigation property loads them. */
  function GroundTruth(mappings: seq<GameTextFallacy>, catalogue: seq<LogicalFallacy>): (r: seq<LogicalFallacy>)
    ensures |r| <= |mappings|
    ensures forall k :: 0 <= k < |r| ==> r[k] in catalogue
  {
    if mappings == [] then []
    else
      (match FindById(catalogue, mappings[0].fallacyId)
       case Some(f) => [f]
       case None => [])
      + GroundTruth(mappings[1..], catalogue)
  }

  /** `(int)(completedAt - startedAt).TotalSeconds` for instants given in milliseconds. */
  function ElapsedSeconds(startedAtMs: int, completedAtMs: int): int
  {
    TruncDiv(completedAtMs - startedAtMs, 1000)
  }

  /**
   * What a submission of an open session answers: the whole seconds taken, the results
   * against the passage's fallacies, the score of their counts and the stats.
   */
  function SubmitResponse(catalogue: seq<LogicalFallacy>, gameText: GameText, difficulty: Difficulty,
                          startedAtMs: int, completedAtMs: int, selectedIds: seq<int>): GameSubmitResponse
  {
    var t := ElapsedSeconds(startedAtMs, completedAtMs);
    var gt := GroundTruth(gameText.fallacies, catalogue);
    var results := ExpectedResults(selectedIds, gt, catalogue, gameText.fullText);
    var score := Scoring.CalculateScore(Count(results, Correct), Count(results, Wrong),
                                        Count(results, Missed), t, difficulty);
    GameSubmitResponse(score, t, results, StatsOf(results, gt))
  }

  /** The answer rows stored for a list of results. */
  function AnswersFor(sessionId: int, results: seq<FallacyResult>): (r: seq<GameAnswer>)
    ensures |r| == |results|
    ensures forall k :: 0 <= k < |results| ==>
              r[k] == GameAnswer(sessionId, results[k].fallacyId, results[k].resultType == Correct, results[k].resultType)
  {
    seq(|results|, k requires 0 <= k < |results| =>
      GameAnswer(sessionId, results[k].fallacyId, results[k].resultType == Correct, results[k].resultType))
  }

  /** A game session; it is open until `completedAtMs` is set. */
  class GameSession {
    const id: int
    const playerName: string
    const difficulty: Difficulty
    const gameText: GameText
    const startedAtMs: int
    var completedAtMs: Option<int>
    var timeTakenSeconds: Option<int>
    var score: Option<int>

    constructor (id: int, playerName: string, difficulty: Difficulty, gameText: GameText, startedAtMs: int)
      ensures this.id == id && this.playerName == playerName && this.difficulty == difficulty
      ensures this.gameText == gameText && this.startedAtMs == startedAtMs
      ensures completedAtMs.None? && timeTakenSeconds.None? && score.None?
    {
      this.id := id;
      this.playerName := playerName;
      this.difficulty := difficulty;
      this.gameText := gameText;
      this.startedAtMs := startedAtMs;
      completedAtMs := None;
      timeTakenSeconds := None;
      score := None;
    }

    /** Closing the session records when it was completed, the time taken and the score. */
    method Complete(at: int, seconds: int, points: int)
      modifies this
      ensures completedAtMs == Some(at) && timeTakenSeconds == Some(seconds) && score == Some(points)
    {
      completedAtMs := Some(at);
      timeTakenSeconds := Some(seconds);
      score := Some(points);
    }
  }

  /** The service, over the catalogue, the sessions and the stored answers. */
  class GameService {
    const catalogue: seq<LogicalFallacy>
    var sessions: map<int, GameSession>
    var answers: seq<GameAnswer>

    constructor (catalogue: seq<LogicalFallacy>, sessions: map<int, GameSession>)
      requires forall k :: k in sessions ==> sessions[k].id == k
      ensures Valid()
      ensures this.catalogue == catalogue && this.sessions == sessions && answers == []
    {
      this.catalogue := catalogue;
      this.sessions := sessions;
      answers := [];
    }

    /** Every session is stored under its own id, as a lookup by `Id` finds it; so no two keys share a session. */
    predicate Valid()
      reads this
    {
      forall k :: k in sessions ==> sessions[k].id == k
    }

    /** The loop both lookups run: the index of the first word that occurs in the lower-cased passage. */
    static method FindFirstWord(words: seq<string>, lowerText: string) returns (r: Option<nat>)
      ensures r == FirstFoundWord(words, lowerText)
    {
      for i := 0 to |words|
        invariant forall k :: 0 <= k < i ==> Strings.IndexOf(lowerText, words[k]).None?
      {
        if Strings.IndexOf(lowerText, words[i]).Some? {
          FirstFoundWordAt(words, lowerText, i);
          return Some(i);
        }
      }
      return None;
    }

    /** `FindFallacyPosition`: where the first word of the name that occurs in the passage starts. */
    method FindFallacyPosition(gameText: string, fallacy: LogicalFallacy) returns (position: Option<int>)
      ensures position == Position(gameText, fallacy)
    {
      var words := NameWords(fallacy.name);
      var lowerText := Lower(gameText);
      var found := FindFirstWord(words, lowerText);
      if found.Some? {
        var index := Strings.IndexOf(lowerText, words[found.value]);
        return Some(index.value);
      }
      return None;
    }

    /** `ExtractFallacyReference`: up to 50 characters either side of that word, wrapped in "...". */
    method ExtractFallacyReference(gameText: string, fallacy: LogicalFallacy) returns (reference: Option<string>)
      ensures reference == Reference(gameText, fallacy)
    {
      var words := NameWords(fallacy.name);
      var lowerText := Lower(gameText);
      var found := FindFirstWord(words, lowerText);
      if found.Some? {
        var index := Strings.IndexOf(lowerText, words[found.value]).value;
        var start := Max(0, index - 50);
        var end := Min(|gameText|, index + |words[found.value]| + 50);
        assert Ellipsis + gameText[start..end] + Ellipsis == Excerpt(gameText, index, |words[found.value]|);
        return Some(Ellipsis + gameText[start..end] + Ellipsis);
      }
      return None;
    }

    /**
     * The loop `AnalyzeAnswers` runs over the correct answers and again over the missed
     * ones: one result per id, with the fallacy's excerpt and position.
     */
    method ReportEach(ids: seq<int>, correctFallacies: seq<LogicalFallacy>, gameText: string, t: ResultType)
      returns (part: seq<FallacyResult>)
      requires forall k :: 0 <= k < |ids| ==> ids[k] in Ids(correctFallacies)
      ensures part == Reports(ids, correctFallacies, gameText, t)
    {
      part := [];
      for i := 0 to |ids|
        invariant |part| == i
        invariant forall k :: 0 <= k < i ==> part[k] == Reported(gameText, FindById(correctFallacies, ids[k]).value, t)
      {
        var id := ids[i];
        var fallacy := FindById(correctFallacies, id).value;
        var reference := ExtractFallacyReference(gameText, fallacy);
        var position := FindFallacyPosition(gameText, fallacy);
        part := part + [FallacyResult(id, fallacy.name, fallacy.key, t, reference, position)];
      }
    }

    /** The loop over the wrong answers: a result for each id the catalogue knows, without excerpt or position. */
    method ReportWrong(ids: seq<int>) returns (part: seq<FallacyResult>)
      ensures part == WrongReports(ids, catalogue)
    {
      part := [];
      for i := 0 to |ids|
        invariant part == WrongReports(ids[..i], catalogue)
      {
        var id := ids[i];
        var fallacy := FindById(catalogue, id);
        WrongReportsPrefix(ids, catalogue, i);
        if fallacy.Some? {
          part := part + [FallacyResult(id, fallacy.value.name, fallacy.value.key, Wrong, None, None)];
        }
      }
      assert ids[..|ids|] == ids;
    }

    /** `AnalyzeAnswers`: the correct answers, then the wrong ones the catalogue knows, then the missed ones. */
    method AnalyzeAnswers(selectedIds: seq<int>, correctFallacies: seq<LogicalFallacy>, gameText: string)
      returns (results: seq<FallacyResult>)
      ensures results == ExpectedResults(selectedIds, correctFallacies, catalogue, gameText)
    {
      var correctIds := Ids(correctFallacies);
      var correctAnswers := Filter(selectedIds, (id: int) => id in correctIds);
      var correctPart := ReportEach(correctAnswers, correctFallacies, gameText, Correct);
      var wrongAnswers := Filter(selectedIds, (id: int) => id !in correctIds);
      var wrongPart := ReportWrong(wrongAnswers);
      var missedAnswers := Filter(Distinct(correctIds), (id: int) => id !in selectedIds);
      var missedPart := ReportEach(missedAnswers, correctFallacies, gameText, Missed);
      results := correctPart + wrongPart + missedPart;
    }

    /**
     * `SubmitGameAsync`: an unknown session and a finished session are rejected and
     * nothing changes; otherwise the results are computed against the passage's
     * fallacies, scored, stored as answers, and the session is closed.
     */
    method SubmitGame(sessionId: int, completedAtMs: int, selectedIds: seq<int>)
      returns (r: Result<GameSubmitResponse, SubmitError>)
      requires Valid()
      modifies this, if sessionId in sessions then {sessions[sessionId]} else {}
      ensures Valid() && sessions == old(sessions)
      ensures sessionId !in sessions ==> r == Failure(InvalidSessionId) && answers == old(answers)
      ensures sessionId in sessions && old(sessions[sessionId].completedAtMs).Some? ==>
                r == Failure(SessionAlreadyCompleted) && answers == old(answers) && unchanged(sessions[sessionId])
      ensures sessionId in sessions && old(sessions[sessionId].completedAtMs).None? ==>
                var s := sessions[sessionId];
                var response := SubmitResponse(catalogue, s.gameText, s.difficulty, s.startedAtMs, completedAtMs, selectedIds);
                r == Success(response)
                && s.completedAtMs == Some(completedAtMs)
                && s.timeTakenSeconds == Some(response.timeTakenSeconds) && s.score == Some(response.score)
                && answers == old(answers) + AnswersFor(sessionId, response.results)
    {
      if sessionId !in sessions {
        return Failure(InvalidSessionId);
      }
      var session := sessions[sessionId];
      if session.completedAtMs.Some? {
        return Failure(SessionAlreadyCompleted);
      }
      var response := Evaluate(session, completedAtMs, selectedIds);
      StoreAnswers(session.id, response.results);
      session.Complete(completedAtMs, response.timeTakenSeconds, response.score);
      r := Success(response);
    }

    /** The response for a submission of an open session: time taken, results, score and stats. */
    method Evaluate(session: GameSession, completedAtMs: int, selectedIds: seq<int>) returns (response: GameSubmitResponse)
      ensures response == SubmitResponse(catalogue, session.gameText, session.difficulty, session.startedAtMs,
                                         completedAtMs, selectedIds)
    {
      var timeTaken := ElapsedSeconds(session.startedAtMs, completedAtMs);
      var correctFallacies := GroundTruth(session.gameText.fallacies, catalogue);
      var results := AnalyzeAnswers(selectedIds, correctFallacies, session.gameText.fullText);
      var score := Scoring.CalculateScore(Count(results, Correct), Count(results, Wrong),
                                          Count(results, Missed), timeTaken, session.difficulty);
      response := GameSubmitResponse(score, timeTaken, results, StatsOf(results, correctFallacies));
    }

    /** One answer row per result, with `isCorrect` set exactly for the correct ones. */
    method StoreAnswers(sessionId: int, results: seq<FallacyResult>)
      modifies this
      ensures sessions == old(sessions)
      ensures answers == old(answers) + AnswersFor(sessionId, results)
    {
      for i := 0 to |results|
        invariant sessions == old(sessions)
        invariant answers == old(answers) + AnswersFor(sessionId, results[..i])
      {
        var result := results[i];
        assert AnswersFor(sessionId, results[..i + 1])
               == AnswersFor(sessionId, results[..i])
                  + [GameAnswer(sessionId, result.fallacyId, result.resultType == Correct, result.resultType)];
        answers := answers + [GameAnswer(sessionId, result.fallacyId, result.resultType == Correct, result.resultType)];
      }
      assert results[..|results|] == results;
    }

    /** A session can be submitted once: after a successful submission the next one is rejected. */
    method SubmitTwice(sessionId: int, firstAtMs: int, secondAtMs: int, firstIds: seq<int>, secondIds: seq<int>)
      returns (first: Result<GameSubmitResponse, SubmitError>, second: Result<GameSubmitResponse, SubmitError>)
      requires Valid()
      modifies this, if sessionId in sessions then {sessions[sessionId]} else {}
      ensures Valid()
      ensures first.Success? ==> second == Failure(SessionAlreadyCompleted)
    {
      first := SubmitGame(sessionId, firstAtMs, firstIds);
      second := SubmitGame(sessionId, secondAtMs, secondIds);
    }
  }
}
