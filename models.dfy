/** The reference data and stored entities of the first generation (the `CriticalThinking.Backend` models). */
module Models {
  import opened Common

  /** The difficulty scale; C# stores it as the enum values 0, 1, 2 and compares them with `<=`. */
  datatype Difficulty = Easy | Medium | Hard
  {
    function Value(): nat
    {
      match this
      case Easy => 0
      case Medium => 1
      case Hard => 2
    }

    /** `this <= other` on the enum values. */
    predicate AtMost(other: Difficulty)
    {
      Value() <= other.Value()
    }
  }

  datatype LogicalFallacy = LogicalFallacy(
    id: int,
    name: string,
    key: string,
    description: string,
    difficulty: Difficulty,
    example: string)

  /** The position hint a text block gets when none is given. */
  const DefaultPositionHint: string := "any"

  /** A fragment of prose exemplifying one fallacy, tagged with where it should go in a passage. */
  datatype TextBlock = TextBlock(
    id: int,
    fallacyId: int,
    content: string,
    context: Option<string>,
    positionHint: string)

  datatype Topic = Topic(
    id: int,
    name: string,
    description: Option<string>,
    difficulty: Difficulty,
    textBlocks: seq<TextBlock>)

  /** Where the fragment for one fallacy sits inside a generated passage. */
  datatype GameTextFallacy = GameTextFallacy(fallacyId: int, textPositionStart: int, textPositionEnd: int)

  /** A generated passage together with its fallacy mappings. */
  datatype GameText = GameText(
    topicId: int,
    title: string,
    fullText: string,
    difficulty: Difficulty,
    targetFallacyCount: int,
    fallacies: seq<GameTextFallacy>)

  /** No two fallacies of the catalogue share an id (the table's primary key). */
  predicate UniqueIds(fallacies: seq<LogicalFallacy>)
  {
    forall i, j :: 0 <= i < j < |fallacies| ==> fallacies[i].id != fallacies[j].id
  }

  /** In a catalogue with unique ids, an id determines the fallacy. */
  lemma SameIdSameFallacy(s: seq<LogicalFallacy>, x: LogicalFallacy, y: LogicalFallacy)
    requires UniqueIds(s) && x in s && y in s
    ensures x.id == y.id ==> x == y
  {
    var a :| 0 <= a < |s| && s[a] == x;
    var b :| 0 <= b < |s| && s[b] == y;
    assert a != b ==> x.id != y.id;
  }

  /** A catalogue with unique ids holds every fallacy at most once. */
  lemma UniqueIdsOccurOnce(s: seq<LogicalFallacy>, x: LogicalFallacy)
    requires UniqueIds(s)
    ensures multiset(s)[x] <= 1
  {
    if x in s {
      SingleOccurrence(s, x);
    }
  }

  /** Reordering a catalogue keeps its ids unique. */
  lemma PermutationKeepsUniqueIds(s: seq<LogicalFallacy>, r: seq<LogicalFallacy>)
    requires UniqueIds(s) && multiset(r) == multiset(s)
    ensures UniqueIds(r)
  {
    forall i, j | 0 <= i < j < |r| ensures r[i].id != r[j].id {
      assert r[i] in multiset(s) && r[j] in multiset(s);
      SameIdSameFallacy(s, r[i], r[j]);
      CountAtLeastTwo(r, i, j);
      UniqueIdsOccurOnce(s, r[i]);
    }
  }

  /** Filtering a catalogue keeps its ids unique. */
  lemma {:induction false} FilterKeepsUniqueIds(s: seq<LogicalFallacy>, p: LogicalFallacy -> bool)
    requires UniqueIds(s)
    ensures UniqueIds(Filter(s, p))
  {
    if s != [] {
      FilterKeepsUniqueIds(s[1..], p);
      var rest := Filter(s[1..], p);
      forall k | 0 <= k < |rest| ensures rest[k].id != s[0].id {
        var m :| 0 <= m < |s[1..]| && s[1..][m] == rest[k];
        assert s[m + 1] == rest[k];
      }
    }
  }
}
