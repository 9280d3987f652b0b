/**
 * `GameTextGenerationService`: builds a passage for a difficulty level by picking a
 * topic, choosing text blocks that exemplify distinct fallacies, arranging them by
 * their position hints, stitching them together with connecting phrases, and
 * recording where each fallacy's fragment sits in the result.
 *
 * The service's `Random` is modelled as a `RandomSource` object whose script of
 * values is consumed by every draw; every property below holds whatever the script is.
 */
module TextGeneration {
  import opened Common
  import opened Strings
  import opened Models

  /** The service's random number generator, as a script of the values it hands out. */
  class RandomSource {
    var draws: seq<nat>

    constructor (draws: seq<nat>)
      ensures this.draws == draws
    {
      this.draws := draws;
    }

    /** `Next(bound)`: a value below `bound` (0 when `bound` is 0); consumes one value of the script. */
    method Next(bound: nat) returns (k: nat)
      modifies this
      ensures bound > 0 ==> k < bound
      ensures bound == 0 ==> k == 0
      ensures draws == if old(draws) == [] then [] else old(draws)[1..]
    {
      if draws == [] {
        k := 0;
      } else {
        k := if bound == 0 then 0 else draws[0] % bound;
        draws := draws[1..];
      }
    }

    /** `Next(lo, hi)`: a value in `[lo, hi)`. */
    method NextInRange(lo: int, hi: int) returns (k: int)
      requires lo < hi
      modifies this
      ensures lo <= k < hi
    {
      var off := Next(hi - lo);
      k := lo + off;
    }

    /** `OrderBy(x => _random.Next())`: some reordering of `s` chosen by the script. */
    method Shuffle<T>(s: seq<T>) returns (r: seq<T>)
      modifies this
      ensures multiset(r) == multiset(s)
      ensures |r| == |s|
    {
      r := [];
      var rest := s;
      while rest != []
        invariant multiset(r) + multiset(rest) == multiset(s)
        invariant |r| + |rest| == |s|
        decreases |rest|
      {
        var k := Next(|rest|);
        RemoveAtMultiset(rest, k);
        r := r + [rest[k]];
        rest := RemoveAt(rest, k);
      }
    }
  }

  /** The generator's only error: no topic is easy enough for the requested level. */
  datatype GenerationError = NoTopicsAvailable

  function ErrorMessage(e: GenerationError): string
  {
    match e
    case NoTopicsAvailable => "No topics available for the specified difficulty level"
  }

  /** The numbers of fallacies a passage aims for at each level: 3-4, 5-6 and 7-9. */
  function TargetCounts(d: Difficulty): set<int>
  {
    match d
    case Easy => {3, 4}
    case Medium => {5, 6}
    case Hard => {7, 8, 9}
  }

  /** The recognised position hints; a block with any other hint is left out of the passage. */
  predicate KnownHint(h: string)
  {
    h == "early" || h == "middle" || h == "any" || h == "late"
  }

  /** The blocks carrying position hint `hint`, in their original order. */
  function HintGroup(blocks: seq<TextBlock>, hint: string): seq<TextBlock>
  {
    Filter(blocks, (b: TextBlock) => b.positionHint == hint)
  }

  /**
   * `arranged` lists the early-hinted blocks, then the middle, any and late ones, each
   * group in some order.
   */
  predicate IsArrangement(blocks: seq<TextBlock>, arranged: seq<TextBlock>)
  {
    var e, m, a := |HintGroup(blocks, "early")|, |HintGroup(blocks, "middle")|, |HintGroup(blocks, "any")|;
    |arranged| == e + m + a + |HintGroup(blocks, "late")|
    && multiset(arranged[..e]) == multiset(HintGroup(blocks, "early"))
    && multiset(arranged[e..e + m]) == multiset(HintGroup(blocks, "middle"))
    && multiset(arranged[e + m..e + m + a]) == multiset(HintGroup(blocks, "any"))
    && multiset(arranged[e + m + a..]) == multiset(HintGroup(blocks, "late"))
  }

  /** The four pieces of a concatenation are its slices at the running lengths. */
  lemma ConcatSlices<T>(e: seq<T>, m: seq<T>, a: seq<T>, l: seq<T>)
    ensures var x := e + m + a + l;
            x[..|e|] == e && x[|e|..|e| + |m|] == m && x[|e| + |m|..|e| + |m| + |a|] == a
            && x[|e| + |m| + |a|..] == l
  {
  }

  /** An arrangement holds the four hint groups' blocks, as many times as they occur. */
  lemma ArrangementMultiset(blocks: seq<TextBlock>, arranged: seq<TextBlock>)
    requires IsArrangement(blocks, arranged)
    ensures multiset(arranged) == multiset(HintGroup(blocks, "early")) + multiset(HintGroup(blocks, "middle"))
                                  + multiset(HintGroup(blocks, "any")) + multiset(HintGroup(blocks, "late"))
  {
    var early, middle, any, late := HintGroup(blocks, "early"), HintGroup(blocks, "middle"),
                                    HintGroup(blocks, "any"), HintGroup(blocks, "late");
    var e, m, a := |early|, |middle|, |any|;
    assert multiset(arranged[..e]) == multiset(early);
    assert multiset(arranged[e..e + m]) == multiset(middle);
    assert multiset(arranged[e + m..e + m + a]) == multiset(any);
    assert multiset(arranged[e + m + a..]) == multiset(late);
    MultisetOfSlices(arranged, e, m, a);
  }

  /** Cutting a sequence into four consecutive slices splits its multiset. */
  lemma MultisetOfSlices<T>(x: seq<T>, e: nat, m: nat, a: nat)
    requires e + m + a <= |x|
    ensures multiset(x) == multiset(x[..e]) + multiset(x[e..e + m]) + multiset(x[e + m..e + m + a]) + multiset(x[e + m + a..])
  {
    assert x == x[..e] + x[e..e + m] + x[e + m..e + m + a] + x[e + m + a..];
  }

  /** Every block with a recognised hint is placed in the arrangement. */
  lemma ArrangementKeepsKnownBlocks(blocks: seq<TextBlock>, arranged: seq<TextBlock>)
    requires IsArrangement(blocks, arranged)
    ensures forall k :: 0 <= k < |blocks| && KnownHint(blocks[k].positionHint) ==> blocks[k] in arranged
  {
    ArrangementMultiset(blocks, arranged);
    forall k | 0 <= k < |blocks| && KnownHint(blocks[k].positionHint) ensures blocks[k] in arranged {
      var b := blocks[k];
      var g := HintGroup(blocks, b.positionHint);
      assert b in g;
      assert b in multiset(arranged);
    }
  }

  /** The arrangement holds nothing but blocks with a recognised hint. */
  lemma ArrangementHasOnlyKnownBlocks(blocks: seq<TextBlock>, arranged: seq<TextBlock>)
    requires IsArrangement(blocks, arranged)
    ensures forall k :: 0 <= k < |arranged| ==> arranged[k] in blocks && KnownHint(arranged[k].positionHint)
  {
    ArrangementMultiset(blocks, arranged);
    forall k | 0 <= k < |arranged| ensures arranged[k] in blocks && KnownHint(arranged[k].positionHint) {
      var b := arranged[k];
      assert b in multiset(arranged);
      if b in multiset(HintGroup(blocks, "early")) { assert b in HintGroup(blocks, "early"); }
      else if b in multiset(HintGroup(blocks, "middle")) { assert b in HintGroup(blocks, "middle"); }
      else if b in multiset(HintGroup(blocks, "any")) { assert b in HintGroup(blocks, "any"); }
      else { assert b in HintGroup(blocks, "late"); }
    }
  }

  /** The fallacy ids a list of blocks covers. */
  function FallacyIdsOf(blocks: seq<TextBlock>): set<int>
  {
    set k | 0 <= k < |blocks| :: blocks[k].fallacyId
  }

  /** No two blocks exemplify the same fallacy. */
  predicate DistinctFallacies(blocks: seq<TextBlock>)
  {
    forall i, j :: 0 <= i < j < |blocks| ==> blocks[i].fallacyId != blocks[j].fallacyId
  }

  /** The fallacy ids the mappings of a passage mention. */
  function MappedIds(m: seq<GameTextFallacy>): set<int>
  {
    set k | 0 <= k < |m| :: m[k].fallacyId
  }

  /** No two mappings are for the same fallacy. */
  predicate DistinctMappings(m: seq<GameTextFallacy>)
  {
    forall i, j :: 0 <= i < j < |m| ==> m[i].fallacyId != m[j].fallacyId
  }

  /**
   * Mapping `g` places the fragment of block `b` in `text`: it names `b`'s fallacy and
   * spans a window of `text` as long as `b`'s content that equals it ignoring case.
   */
  predicate PlacesBlock(text: string, b: TextBlock, g: GameTextFallacy)
  {
    g.fallacyId == b.fallacyId
    && g.textPositionEnd == g.textPositionStart + |b.content|
    && MatchesIgnoreCaseAt(text, b.content, g.textPositionStart)
  }

  /**
   * The mappings `CreateFallacyMappings` records, going through `blocks` in order with
   * the fallacy ids already mapped in `processed`: a block whose fallacy is not yet
   * mapped and whose content occurs in `text` (ignoring case) is mapped to its first
   * occurrence.
   */
  function FallacyMappings(text: string, blocks: seq<TextBlock>, processed: set<int>): (r: seq<GameTextFallacy>)
    ensures |r| <= |blocks|
    ensures forall k :: 0 <= k < |r| ==> r[k].fallacyId !in processed
  {
    if blocks == [] then []
    else
      var b := blocks[0];
      if b.fallacyId in processed then
        FallacyMappings(text, blocks[1..], processed)
      else
        match IndexOfIgnoreCase(text, b.content)
        case None => FallacyMappings(text, blocks[1..], processed)
        case Some(i) =>
          [GameTextFallacy(b.fallacyId, i, i + |b.content|)] + FallacyMappings(text, blocks[1..], processed + {b.fallacyId})
  }

  /** One step of `FallacyMappings`: the first block is mapped or skipped, and the rest follows. */
  lemma MappingsStep(text: string, blocks: seq<TextBlock>, processed: set<int>)
    requires blocks != []
    ensures var b := blocks[0];
            var at := IndexOfIgnoreCase(text, b.content);
            FallacyMappings(text, blocks, processed)
            == if b.fallacyId in processed || at.None? then FallacyMappings(text, blocks[1..], processed)
               else [GameTextFallacy(b.fallacyId, at.value, at.value + |b.content|)]
                    + FallacyMappings(text, blocks[1..], processed + {b.fallacyId})
  {
  }

  /**
   * The loop of `CreateFallacyMappings` keeps `done + FallacyMappings(text, blocks[i..], processed)`
   * equal to the whole result; a block whose fallacy is already mapped, or whose content does
   * not occur, leaves it so without recording anything.
   */
  lemma MappingsSkip(text: string, blocks: seq<TextBlock>, i: int, processed: set<int>, done: seq<GameTextFallacy>)
    requires 0 <= i < |blocks|
    requires blocks[i].fallacyId in processed || IndexOfIgnoreCase(text, blocks[i].content).None?
    requires done + FallacyMappings(text, blocks[i..], processed) == FallacyMappings(text, blocks, {})
    ensures done + FallacyMappings(text, blocks[i + 1..], processed) == FallacyMappings(text, blocks, {})
  {
    assert blocks[i..][0] == blocks[i] && blocks[i..][1..] == blocks[i + 1..];
    MappingsStep(text, blocks[i..], processed);
  }

  /** ... and a block of a fallacy not yet mapped whose content occurs is recorded at its first occurrence. */
  lemma MappingsTake(text: string, blocks: seq<TextBlock>, i: int, processed: set<int>, done: seq<GameTextFallacy>)
    requires 0 <= i < |blocks|
    requires blocks[i].fallacyId !in processed && IndexOfIgnoreCase(text, blocks[i].content).Some?
    requires done + FallacyMappings(text, blocks[i..], processed) == FallacyMappings(text, blocks, {})
    ensures var at := IndexOfIgnoreCase(text, blocks[i].content).value;
            (done + [GameTextFallacy(blocks[i].fallacyId, at, at + |blocks[i].content|)])
            + FallacyMappings(text, blocks[i + 1..], processed + {blocks[i].fallacyId})
            == FallacyMappings(text, blocks, {})
  {
    assert blocks[i..][0] == blocks[i] && blocks[i..][1..] == blocks[i + 1..];
    MappingsStep(text, blocks[i..], processed);
    var at := IndexOfIgnoreCase(text, blocks[i].content).value;
    var g := GameTextFallacy(blocks[i].fallacyId, at, at + |blocks[i].content|);
    var tail := FallacyMappings(text, blocks[i + 1..], processed + {blocks[i].fallacyId});
    assert done + ([g] + tail) == (done + [g]) + tail;
  }

  /** A fallacy is mapped at most once. */
  lemma {:induction false} MappingsDistinct(text: string, blocks: seq<TextBlock>, processed: set<int>)
    ensures DistinctMappings(FallacyMappings(text, blocks, processed))
  {
    if blocks != [] {
      var b := blocks[0];
      if b.fallacyId in processed {
        MappingsDistinct(text, blocks[1..], processed);
      } else if IndexOfIgnoreCase(text, b.content).None? {
        MappingsDistinct(text, blocks[1..], processed);
      } else {
        MappingsDistinct(text, blocks[1..], processed + {b.fallacyId});
      }
    }
  }

  /** Some block of `blocks` is placed by mapping `g`. */
  predicate PlacesSomeBlock(text: string, blocks: seq<TextBlock>, g: GameTextFallacy)
  {
    exists j :: 0 <= j < |blocks| && PlacesBlock(text, blocks[j], g)
  }

  /** Every mapping places one of the blocks at a window of the text matching its content. */
  lemma {:induction false} MappingsPlaceBlocks(text: string, blocks: seq<TextBlock>, processed: set<int>)
    ensures forall g :: g in FallacyMappings(text, blocks, processed) ==> PlacesSomeBlock(text, blocks, g)
  {
    if blocks != [] {
      var b := blocks[0];
      var rest := blocks[1..];
      var r := FallacyMappings(text, blocks, processed);
      var next := if b.fallacyId in processed || IndexOfIgnoreCase(text, b.content).None? then processed
                  else processed + {b.fallacyId};
      MappingsPlaceBlocks(text, rest, next);
      var tail := FallacyMappings(text, rest, next);
      var shift := |r| - |tail|;
      assert r[shift..] == tail;
      forall g | g in r ensures PlacesSomeBlock(text, blocks, g) {
        var k :| 0 <= k < |r| && r[k] == g;
        if k < shift {
          assert PlacesBlock(text, blocks[0], r[k]);
        } else {
          assert r[k] == tail[k - shift];
          assert PlacesSomeBlock(text, rest, tail[k - shift]);
          var j :| 0 <= j < |rest| && PlacesBlock(text, rest[j], tail[k - shift]);
          assert blocks[j + 1] == rest[j];
        }
      }
    }
  }

  /** Every block whose fallacy is not yet mapped and whose content occurs in the text gets its fallacy mapped. */
  lemma {:induction false} MappingsComplete(text: string, blocks: seq<TextBlock>, processed: set<int>, j: int)
    requires 0 <= j < |blocks| && blocks[j].fallacyId !in processed
    requires IndexOfIgnoreCase(text, blocks[j].content).Some?
    ensures blocks[j].fallacyId in MappedIds(FallacyMappings(text, blocks, processed))
  {
    var b := blocks[0];
    var r := FallacyMappings(text, blocks, processed);
    MappingsStep(text, blocks, processed);
    if b.fallacyId !in processed && IndexOfIgnoreCase(text, b.content).Some? {
      var tail := FallacyMappings(text, blocks[1..], processed + {b.fallacyId});
      if blocks[j].fallacyId == b.fallacyId {
        assert r[0].fallacyId == blocks[j].fallacyId;
      } else {
        assert blocks[1..][j - 1] == blocks[j];
        MappingsComplete(text, blocks[1..], processed + {b.fallacyId}, j - 1);
        var k :| 0 <= k < |tail| && tail[k].fallacyId == blocks[j].fallacyId;
        assert r[k + 1] == tail[k];
      }
    } else {
      assert blocks[1..][j - 1] == blocks[j];
      MappingsComplete(text, blocks[1..], processed, j - 1);
    }
  }

  /**
   * The shape of a generated narrative: an intro, the blocks' contents in order with a
   * transition between each two consecutive ones, and a conclusion.
   */
  predicate IsNarrative(parts: seq<string>, intros: seq<string>, blocks: seq<TextBlock>)
  {
    |parts| == (if |blocks| == 0 then 2 else 2 * |blocks| + 1)
    && parts[0] in intros
    && parts[|parts| - 1] in Conclusions
    && (forall i :: 0 <= i < |blocks| ==> parts[2 * i + 1] == blocks[i].content)
    && (forall i :: 1 <= i < |blocks| ==> parts[2 * i] in Transitions)
  }

  /** The topic names the phrase and title tables are keyed by. */
  const SchoolTopic: string := "School and Education Debates"
  const HealthTopic: string := "Health and Nutrition"
  const TechnologyTopic: string := "Technology and Social Media"
  const EnvironmentTopic: string := "Environmental Policy"
  const HealthcareTopic: string := "Healthcare and Medicine"
  const UrbanTopic: string := "Urban Development"

  const SchoolIntros: seq<string> :=
    ["At yesterday's school board meeting,", "During the educational policy forum,", "At the parent-teacher conference,"]
  const HealthIntros: seq<string> :=
    ["At the community health fair,", "During the wellness workshop,", "At the nutrition symposium,"]
  const TechnologyIntros: seq<string> :=
    ["At the digital policy meeting,", "During the technology in schools discussion,", "At the social media impact forum,"]
  const DefaultIntros: seq<string> :=
    ["At the community meeting,", "During the public forum,", "At the policy discussion,"]

  /** The opening phrases for a topic. */
  function NarrativeIntros(topicName: string): (r: seq<string>)
    ensures |r| == 3
  {
    if topicName == SchoolTopic then SchoolIntros
    else if topicName == HealthTopic then HealthIntros
    else if topicName == TechnologyTopic then TechnologyIntros
    else DefaultIntros
  }

  /** The phrases placed between two consecutive blocks. */
  const Transitions: seq<string> :=
    ["Additionally,", "Furthermore,", "The speaker continued,", "In response,", "Moreover,",
     "The argument proceeded with", "The discussion then turned to", "Following this point,"]

  /** The closing sentences. */
  const Conclusions: seq<string> :=
    ["The meeting concluded with mixed reactions from the audience.",
     "The discussion ended without a clear consensus.",
     "The forum wrapped up with plans for further consideration.",
     "The session concluded with commitments to review the proposals.",
     "The debate ended with participants agreeing to disagree."]

  const SchoolTitles: seq<string> := ["The School Board Meeting", "Educational Policy Debate", "Funding Discussion"]
  const HealthTitles: seq<string> := ["Community Health Forum", "Wellness Workshop", "Nutrition Debate"]
  const TechnologyTitles: seq<string> := ["Digital Policy Meeting", "Technology in Schools", "Social Media Discussion"]
  const EnvironmentTitles: seq<string> := ["Climate Action Summit", "Environmental Policy Review", "Green Initiative Proposal"]
  const HealthcareTitles: seq<string> := ["Medical Conference", "Healthcare Policy Forum", "Treatment Options Debate"]
  const UrbanTitles: seq<string> := ["City Planning Meeting", "Development Proposal", "Urban Policy Discussion"]
  const DefaultTitles: seq<string> := ["Community Discussion", "Policy Debate", "Public Forum"]

  /** The candidate titles for a topic. */
  function TitleTemplates(topicName: string): (r: seq<string>)
    ensures |r| == 3
  {
    if topicName == SchoolTopic then SchoolTitles
    else if topicName == HealthTopic then HealthTitles
    else if topicName == TechnologyTopic then TechnologyTitles
    else if topicName == EnvironmentTopic then EnvironmentTitles
    else if topicName == HealthcareTopic then HealthcareTitles
    else if topicName == UrbanTopic then UrbanTitles
    else DefaultTitles
  }

  /** Appending a block adds exactly its fallacy id. */
  lemma FallacyIdsAppend(blocks: seq<TextBlock>, b: TextBlock)
    ensures FallacyIdsOf(blocks + [b]) == FallacyIdsOf(blocks) + {b.fallacyId}
  {
    var s := blocks + [b];
    assert forall k :: 0 <= k < |blocks| ==> s[k] == blocks[k];
    assert s[|blocks|] == b;
  }

  /** Appending a block of a fallacy not yet covered keeps the fallacies distinct. */
  lemma AppendKeepsDistinct(blocks: seq<TextBlock>, b: TextBlock)
    requires DistinctFallacies(blocks) && b.fallacyId !in FallacyIdsOf(blocks)
    ensures DistinctFallacies(blocks + [b])
    ensures FallacyIdsOf(blocks + [b]) == FallacyIdsOf(blocks) + {b.fallacyId}
  {
    FallacyIdsAppend(blocks, b);
    var s := blocks + [b];
    forall i, j | 0 <= i < j < |s| ensures s[i].fallacyId != s[j].fallacyId {
      if j == |blocks| {
        assert s[i] == blocks[i];
      }
    }
  }

  /** The blocks whose fallacy is not among `used`. */
  function Unused(blocks: seq<TextBlock>, used: set<int>): seq<TextBlock>
  {
    Filter(blocks, (b: TextBlock) => b.fallacyId !in used)
  }

  /** An unused block is one of the blocks, of a fallacy not yet used. */
  lemma UnusedBlock(blocks: seq<TextBlock>, used: set<int>, b: TextBlock)
    requires b in Unused(blocks, used)
    ensures b in blocks && b.fallacyId in FallacyIdsOf(blocks) - used
  {
    var k :| 0 <= k < |Unused(blocks, used)| && Unused(blocks, used)[k] == b;
    var j :| 0 <= j < |blocks| && blocks[j] == b;
  }

  /** When no block is unused, every fallacy of the blocks is used. */
  lemma NothingUnusedLeft(blocks: seq<TextBlock>, used: set<int>)
    requires Unused(blocks, used) == []
    ensures FallacyIdsOf(blocks) <= used
  {
    forall x | x in FallacyIdsOf(blocks) ensures x in used {
      var j :| 0 <= j < |blocks| && blocks[j].fallacyId == x;
    }
  }

  /** Each block of a narrative occurs verbatim in the joined text. */
  lemma NarrativeContainsBlock(parts: seq<string>, intros: seq<string>, blocks: seq<TextBlock>, i: int)
    requires IsNarrative(parts, intros, blocks) && 0 <= i < |blocks|
    ensures OccursAt(Join(parts, ' '), blocks[i].content, PartOffset(parts, 2 * i + 1))
  {
    JoinContainsPart(parts, ' ', 2 * i + 1);
  }

  /**
   * A block that made it into the narrative is mapped: its content occurs in the text,
   * so the ignore-case search finds it, and its fallacy ends up among the mappings.
   */
  lemma ArrangedBlockIsMapped(parts: seq<string>, intros: seq<string>, arranged: seq<TextBlock>,
                              selected: seq<TextBlock>, b: TextBlock)
    requires IsNarrative(parts, intros, arranged)
    requires b in arranged && b in selected
    ensures b.fallacyId in MappedIds(FallacyMappings(Join(parts, ' '), selected, {}))
  {
    var text := Join(parts, ' ');
    var i :| 0 <= i < |arranged| && arranged[i] == b;
    NarrativeContainsBlock(parts, intros, arranged, i);
    IgnoreCaseFindsOccurrence(text, b.content, PartOffset(parts, 2 * i + 1));
    var j :| 0 <= j < |selected| && selected[j] == b;
    MappingsComplete(text, selected, {}, j);
  }

  /** `GameTextGenerationService`, reading the topics and the fallacy catalogue it is given. */
  class GameTextGenerationService {
    const random: RandomSource

    constructor (random: RandomSource)
      ensures this.random == random
    {
      this.random := random;
    }

    /** The number of fallacies to aim for. */
    method DrawTargetCount(d: Difficulty) returns (n: int)
      modifies random
      ensures n in TargetCounts(d)
    {
      match d
      case Easy => n := random.NextInRange(3, 5);
      case Medium => n := random.NextInRange(5, 7);
      case Hard => n := random.NextInRange(7, 10);
    }

    /** The body of the pick loop: one of the topic's blocks for fallacy `id`, none when it has no such block. */
    method PickBlockFor(topic: Topic, id: int) returns (block: Option<TextBlock>)
      modifies random
      ensures block.None? <==> id !in FallacyIdsOf(topic.textBlocks)
      ensures block.Some? ==> block.value in topic.textBlocks && block.value.fallacyId == id
    {
      var fallacyBlocks := Filter(topic.textBlocks, (b: TextBlock) => b.fallacyId == id);
      if id in FallacyIdsOf(topic.textBlocks) {
        var j :| 0 <= j < |topic.textBlocks| && topic.textBlocks[j].fallacyId == id;
        assert topic.textBlocks[j] in fallacyBlocks;
      }
      if |fallacyBlocks| == 0 {
        return None;
      }
      var pick := random.Next(|fallacyBlocks|);
      assert fallacyBlocks[pick] in fallacyBlocks;
      return Some(fallacyBlocks[pick]);
    }

    /** For each chosen fallacy the topic has blocks for, one of those blocks. */
    method PickBlocksForFallacies(topic: Topic, chosen: seq<LogicalFallacy>) returns (selected: seq<TextBlock>)
      requires UniqueIds(chosen)
      modifies random
      ensures |selected| <= |chosen|
      ensures forall k :: 0 <= k < |selected| ==> selected[k] in topic.textBlocks
      ensures DistinctFallacies(selected)
      ensures forall k :: 0 <= k < |chosen| && chosen[k].id in FallacyIdsOf(topic.textBlocks)
                          ==> chosen[k].id in FallacyIdsOf(selected)
    {
      selected := [];
      ghost var from: seq<int> := [];
      for i := 0 to |chosen|
        invariant |selected| == |from| <= i
        invariant forall k :: 0 <= k < |selected| ==> selected[k] in topic.textBlocks
        invariant DistinctFallacies(selected)
        invariant forall k :: 0 <= k < |from| ==> 0 <= from[k] < i && selected[k].fallacyId == chosen[from[k]].id
        invariant forall k :: 0 <= k < i && chosen[k].id in FallacyIdsOf(topic.textBlocks) ==> chosen[k].id in FallacyIdsOf(selected)
      {
        var f := chosen[i];
        var block := PickBlockFor(topic, f.id);
        if block.Some? {
          var b := block.value;
          assert f.id !in FallacyIdsOf(selected) by {
            forall k | 0 <= k < |selected| ensures selected[k].fallacyId != f.id {
              assert from[k] < i;
            }
          }
          AppendKeepsDistinct(selected, b);
          var longer := selected + [b];
          assert forall k :: 0 <= k < |selected| ==> longer[k] == selected[k];
          selected := longer;
          from := from + [i];
        }
      }
    }

    /** Blocks of fallacies not yet used, added until the target is met or the topic has none left. */
    method Backfill(topic: Topic, picked: seq<TextBlock>, target: int) returns (selected: seq<TextBlock>)
      requires |picked| <= target
      requires forall k :: 0 <= k < |picked| ==> picked[k] in topic.textBlocks
      requires DistinctFallacies(picked)
      modifies random
      ensures |picked| <= |selected| <= target
      ensures selected[..|picked|] == picked
      ensures forall k :: 0 <= k < |selected| ==> selected[k] in topic.textBlocks
      ensures DistinctFallacies(selected)
      ensures |selected| == target || FallacyIdsOf(topic.textBlocks) <= FallacyIdsOf(selected)
    {
      selected := picked;
      var used: set<int> := FallacyIdsOf(picked);
      while |selected| < target
        invariant |picked| <= |selected| <= target
        invariant selected[..|picked|] == picked
        invariant forall k :: 0 <= k < |selected| ==> selected[k] in topic.textBlocks
        invariant DistinctFallacies(selected)
        invariant used == FallacyIdsOf(selected)
        decreases target - |selected|
      {
        var remaining := Unused(topic.textBlocks, used);
        if |remaining| == 0 {
          NothingUnusedLeft(topic.textBlocks, used);
          break;
        }
        var pick := random.Next(|remaining|);
        var b := remaining[pick];
        UnusedBlock(topic.textBlocks, used, b);
        AppendKeepsDistinct(selected, b);
        assert (selected + [b])[..|picked|] == selected[..|picked|];
        selected := selected + [b];
        used := used + {b.fallacyId};
      }
    }

    /** Blocks hinted early, then middle, then any, then late, each group shuffled; other hints are dropped. */
    method ArrangeTextBlocks(blocks: seq<TextBlock>) returns (arranged: seq<TextBlock>)
      modifies random
      ensures IsArrangement(blocks, arranged)
    {
      var early := HintGroup(blocks, "early");
      var middle := HintGroup(blocks, "middle");
      var late := HintGroup(blocks, "late");
      var any := HintGroup(blocks, "any");
      var e := random.Shuffle(early);
      var m := random.Shuffle(middle);
      var a := random.Shuffle(any);
      var l := random.Shuffle(late);
      arranged := e + m + a + l;
      ConcatSlices(e, m, a, l);
    }

    /** The loop of `CreateNarrativeText`: after the intro, each block, preceded from the second on by a drawn transition. */
    method AppendBlocks(intro: string, arranged: seq<TextBlock>, transitions: seq<string>) returns (textParts: seq<string>)
      requires |transitions| > 0
      modifies random
      ensures |textParts| == (if |arranged| == 0 then 1 else 2 * |arranged|)
      ensures textParts[0] == intro
      ensures forall k :: 0 <= k < |arranged| ==> textParts[2 * k + 1] == arranged[k].content
      ensures forall k :: 1 <= k < |arranged| ==> textParts[2 * k] in transitions
    {
      textParts := [intro];
      for i := 0 to |arranged|
        invariant |textParts| == (if i == 0 then 1 else 2 * i)
        invariant textParts[0] == intro
        invariant forall k :: 0 <= k < i ==> textParts[2 * k + 1] == arranged[k].content
        invariant forall k :: 1 <= k < i ==> textParts[2 * k] in transitions
      {
        var before := textParts;
        if i > 0 {
          var ti := random.Next(|transitions|);
          textParts := textParts + [transitions[ti]];
        }
        textParts := textParts + [arranged[i].content];
        assert forall k :: 0 <= k < |before| ==> textParts[k] == before[k];
      }
    }

    /** The intro, the blocks separated by transitions, and the conclusion, joined with single spaces. */
    method CreateNarrativeText(topic: Topic, arranged: seq<TextBlock>) returns (text: string, ghost parts: seq<string>)
      modifies random
      ensures IsNarrative(parts, NarrativeIntros(topic.name), arranged)
      ensures text == Join(parts, ' ')
    {
      var intros := NarrativeIntros(topic.name);
      var transitions := Transitions;
      var conclusions := Conclusions;
      var ii := random.Next(|intros|);
      var ci := random.Next(|conclusions|);
      var textParts := AppendBlocks(intros[ii], arranged, transitions);
      var body := textParts;
      textParts := textParts + [conclusions[ci]];
      assert forall k :: 0 <= k < |body| ==> textParts[k] == body[k];
      parts := textParts;
      text := Join(textParts, ' ');
    }

    /** A title among the topic's templates. */
    method GenerateTitle(topic: Topic) returns (title: string)
      modifies random
      ensures title in TitleTemplates(topic.name)
    {
      var templates := TitleTemplates(topic.name);
      var k := random.Next(|templates|);
      title := templates[k];
    }

    /** Records, for each fallacy, the first place its block's content occurs in the passage. */
    method CreateFallacyMappings(fullText: string, blocks: seq<TextBlock>) returns (mappings: seq<GameTextFallacy>)
      ensures mappings == FallacyMappings(fullText, blocks, {})
    {
      mappings := [];
      var processed: set<int> := {};
      for i := 0 to |blocks|
        invariant mappings + FallacyMappings(fullText, blocks[i..], processed) == FallacyMappings(fullText, blocks, {})
      {
        var block := blocks[i];
        if block.fallacyId !in processed {
          var start := IndexOfIgnoreCase(fullText, block.content);
          if start.Some? {
            var g := GameTextFallacy(block.fallacyId, start.value, start.value + |block.content|);
            MappingsTake(fullText, blocks, i, processed, mappings);
            mappings := mappings + [g];
            processed := processed + {block.fallacyId};
          } else {
            MappingsSkip(fullText, blocks, i, processed, mappings);
          }
        } else {
          MappingsSkip(fullText, blocks, i, processed, mappings);
        }
      }
    }

    /** The topics at or below the level, one of them drawn at random; none when there is no such topic. */
    method PickTopic(d: Difficulty, topics: seq<Topic>) returns (topic: Option<Topic>)
      modifies random
      ensures topic.None? <==> forall k :: 0 <= k < |topics| ==> !topics[k].difficulty.AtMost(d)
      ensures topic.Some? ==> topic.value in topics && topic.value.difficulty.AtMost(d)
    {
      var available := Filter(topics, (t: Topic) => t.difficulty.AtMost(d));
      if |available| == 0 {
        forall k | 0 <= k < |topics| ensures !topics[k].difficulty.AtMost(d) {
          assert topics[k] !in available;
        }
        return None;
      }
      var ti := random.Next(|available|);
      return Some(available[ti]);
    }

    /**
     * `GenerateCompositeText`: the blocks arranged into a narrative, a title, and the passage's
     * header fields; the fallacy mappings are attached afterwards.
     */
    method GenerateCompositeText(topic: Topic, blocks: seq<TextBlock>)
      returns (gameText: GameText, ghost arranged: seq<TextBlock>, ghost parts: seq<string>)
      modifies random
      ensures IsArrangement(blocks, arranged)
      ensures IsNarrative(parts, NarrativeIntros(topic.name), arranged)
      ensures gameText.fullText == Join(parts, ' ')
      ensures gameText.topicId == topic.id && gameText.difficulty == topic.difficulty
      ensures gameText.title in TitleTemplates(topic.name)
      ensures gameText.targetFallacyCount == |blocks| && gameText.fallacies == []
      ensures forall k :: 0 <= k < |blocks| && KnownHint(blocks[k].positionHint)
                          ==> blocks[k].fallacyId in MappedIds(FallacyMappings(gameText.fullText, blocks, {}))
    {
      var arrangedBlocks := ArrangeTextBlocks(blocks);
      arranged := arrangedBlocks;
      var fullText;
      fullText, parts := CreateNarrativeText(topic, arrangedBlocks);
      var title := GenerateTitle(topic);
      gameText := GameText(topic.id, title, fullText, topic.difficulty, |blocks|, []);
      ArrangementKeepsKnownBlocks(blocks, arranged);
      forall k | 0 <= k < |blocks| && KnownHint(blocks[k].positionHint)
        ensures blocks[k].fallacyId in MappedIds(FallacyMappings(fullText, blocks, {}))
      {
        ArrangedBlockIsMapped(parts, NarrativeIntros(topic.name), arranged, blocks, blocks[k]);
      }
    }

    /**
     * `GenerateGameTextAsync`: fails when no topic is at or below the level; otherwise
     * returns a passage on one of those topics whose blocks exemplify distinct fallacies,
     * no more than the drawn target, and whose mappings place every block the passage
     * contains. `topic`, `selected` and `target` expose the choices made along the way.
     */
    method GenerateGameText(d: Difficulty, topics: seq<Topic>, fallacies: seq<LogicalFallacy>)
      returns (r: Result<GameText, GenerationError>, ghost topic: Topic, ghost selected: seq<TextBlock>, ghost target: int)
      requires UniqueIds(fallacies)
      modifies random
      ensures r.Failure? <==> forall k :: 0 <= k < |topics| ==> !topics[k].difficulty.AtMost(d)
      ensures r.Failure? ==> r.error == NoTopicsAvailable
      ensures r.Success? ==> topic in topics && topic.difficulty.AtMost(d)
      ensures r.Success? ==> r.value.topicId == topic.id && r.value.difficulty == topic.difficulty
      ensures r.Success? ==> r.value.title in TitleTemplates(topic.name)
      ensures r.Success? ==> target in TargetCounts(d) && |selected| <= target
      ensures r.Success? ==> r.value.targetFallacyCount == |selected|
      ensures r.Success? ==> DistinctFallacies(selected)
                             && forall k :: 0 <= k < |selected| ==> selected[k] in topic.textBlocks
      ensures r.Success? ==> |selected| == target || FallacyIdsOf(topic.textBlocks) <= FallacyIdsOf(selected)
      ensures r.Success? ==> r.value.fallacies == FallacyMappings(r.value.fullText, selected, {})
      ensures r.Success? ==> forall k :: 0 <= k < |selected| && KnownHint(selected[k].positionHint)
                                         ==> selected[k].fallacyId in MappedIds(r.value.fallacies)
    {
      var picked := PickTopic(d, topics);
      if picked.None? {
        r := Failure(NoTopicsAvailable);
        topic, selected, target := Topic(0, "", None, Easy, []), [], 0;
        return;
      }
      var selectedTopic := picked.value;
      var targetCount := DrawTargetCount(d);
      var eligible := Filter(fallacies, (f: LogicalFallacy) => f.difficulty.AtMost(d));
      FilterKeepsUniqueIds(fallacies, (f: LogicalFallacy) => f.difficulty.AtMost(d));
      var shuffled := random.Shuffle(eligible);
      PermutationKeepsUniqueIds(eligible, shuffled);
      var chosen := if |shuffled| <= targetCount then shuffled else shuffled[..targetCount];
      var firstPicks := PickBlocksForFallacies(selectedTopic, chosen);
      var blocks := Backfill(selectedTopic, firstPicks, targetCount);
      ghost var arranged, parts;
      var gameText;
      gameText, arranged, parts := GenerateCompositeText(selectedTopic, blocks);
      var mappings := CreateFallacyMappings(gameText.fullText, blocks);
      topic, selected, target := selectedTopic, blocks, targetCount;
      r := Success(gameText.(fallacies := mappings));
    }
  }
}
