/**
 * The prompt composer's top level: appending and removing timeline entries,
 * and the YAML text a prompt is exported as.
 */
module YamlGenerator {
  import opened Text
  import opened Lists
  import opened Dict
  import opened Records
  import opened TimelineBuilder

  /** The most entries a timeline may hold. */
  const MaxSequences := 8

  // ---------------------------------------------------------------------------
  // Appending an entry

  /**
   * The entry `addSequence` appends: the default entry, renumbered, moved to
   * `start`, at most a second long, and labelled with its own start and end.
   */
  function NewEntry(number: int, start: int): (e: TimelineSequence)
    requires start < Budget
    ensures e.sequence == number && e.startTime == start && e.duration == 1
    ensures e.action == "" && e.audio == "" && Labelled(e)
  {
    var maxDuration := Budget - start;
    var e := DefaultSequence(number).(startTime := start, duration := Min(1, maxDuration));
    var stamped := e.(timestamp := Label(e.startTime, End(e)));
    assert stamped.startTime == e.startTime && End(stamped) == End(e);
    stamped
  }

  /**
   * `addSequence`: unless the timeline already holds eight entries or its
   * last entry ends at or past the budget, append a one-second entry that
   * starts where the last one ends.
   */
  function AddSequence(sequences: seq<TimelineSequence>): (r: seq<TimelineSequence>)
    requires |sequences| >= 1
    ensures |sequences| >= MaxSequences || End(sequences[|sequences| - 1]) >= Budget ==> r == sequences
    ensures |sequences| < MaxSequences && End(sequences[|sequences| - 1]) < Budget ==>
      && |r| == |sequences| + 1
      && r[..|sequences|] == sequences
      && var e := r[|sequences|];
         && e.sequence == |sequences| + 1
         && e.startTime == End(sequences[|sequences| - 1])
         && e.duration == 1
         && e.action == "" && e.audio == ""
         && Labelled(e)
  {
    if |sequences| >= MaxSequences then sequences
    else
      var lastSequence := sequences[|sequences| - 1];
      var newStartTime := lastSequence.startTime + lastSequence.duration;
      if newStartTime >= Budget then sequences
      else
        var newSequence := NewEntry(|sequences| + 1, newStartTime);
        assert (sequences + [newSequence])[|sequences|] == newSequence;
        assert (sequences + [newSequence])[..|sequences|] == sequences;
        sequences + [newSequence]
  }

  /** Appending an entry that starts where the last one ends, and ends within the budget, keeps a timeline fitting. */
  lemma SnocFits(s: seq<TimelineSequence>, e: TimelineSequence)
    requires Fits(s) && e.startTime == End(s[|s| - 1]) && e.duration >= 1 && End(e) <= Budget
    ensures Fits(s + [e])
  {
    var r := s + [e];
    forall j | 0 <= j < |s| ensures r[j] == s[j] {
    }
    assert r[|s|] == e;
  }

  /** Appending a labelled entry carrying the next number keeps labels consistent and the numbering dense. */
  lemma SnocNumbered(s: seq<TimelineSequence>, e: TimelineSequence)
    requires LabelsConsistent(s) && DenselyNumbered(s) && Labelled(e) && e.sequence == |s| + 1
    ensures LabelsConsistent(s + [e]) && DenselyNumbered(s + [e])
  {
    var r := s + [e];
    forall j | 0 <= j < |r| ensures Labelled(r[j]) && r[j].sequence == j + 1 {
      if j < |s| {
        assert r[j] == s[j];
        assert Labelled(s[j]);
      } else {
        assert r[j] == e;
      }
    }
  }

  /**
   * On a valid timeline, appending keeps it valid, and does nothing exactly
   * when the budget is used up.
   */
  lemma AddSequenceOnValid(sequences: seq<TimelineSequence>)
    requires ValidTimeline(sequences)
    ensures ValidTimeline(AddSequence(sequences))
    ensures AddSequence(sequences) == sequences <==> TotalDuration(sequences) == Budget
  {
    var n := |sequences|;
    ValidTimelineFits(sequences);
    var r := AddSequence(sequences);
    if n < MaxSequences && End(sequences[n - 1]) < Budget {
      assert |r| != n;
      var e := r[n];
      assert r == sequences + [e] by {
        assert r[..n] == sequences;
      }
      SnocFits(sequences, e);
      SnocNumbered(sequences, e);
    }
  }

  /** The hard-coded label of the default entry is the one `formatTime` gives its first second. */
  lemma DefaultLabelFormatted()
    ensures Label(0, 1) == "00:00-00:01"
  {
    PadTwoDigits(0);
    PadTwoDigits(1);
    assert FormatTime(0) == "00:00";
    assert FormatTime(1) == "00:01";
  }

  /** The timeline a new prompt starts with is valid. */
  lemma InitialTimelineValid()
    ensures ValidTimeline(InitialTimeline)
  {
    DefaultLabelFormatted();
    var e := InitialTimeline[0];
    assert e.startTime == 0 && End(e) == 1 && e.timestamp == "00:00-00:01";
    assert Labelled(e);
  }

  // ---------------------------------------------------------------------------
  // Removing an entry

  /** Each entry renumbered by its position, 1 to N. */
  function Renumbered(t: seq<TimelineSequence>): (r: seq<TimelineSequence>)
    ensures |r| == |t|
  {
    seq(|t|, j requires 0 <= j < |t| => t[j].(sequence := j + 1))
  }

  /**
   * `removeSequence` as written: on a timeline of two or more entries, drops
   * the entry at `index` and renumbers the others 1 to N-1, keeping their
   * starts, durations and labels as they were.
   */
  function RemoveSequence(sequences: seq<TimelineSequence>, index: int): (r: seq<TimelineSequence>)
    ensures |sequences| <= 1 ==> r == sequences
    ensures |sequences| > 1 ==>
      && |r| == (if 0 <= index < |sequences| then |sequences| - 1 else |sequences|)
      && forall j :: 0 <= j < |r| ==> r[j] == sequences[if 0 <= index <= j then j + 1 else j].(sequence := j + 1)
  {
    if |sequences| <= 1 then sequences
    else
      var newSequences := WithoutIndex(sequences, index);
      Renumbered(newSequences)
  }

  /** What `removeSequence` does keep: every label still matches its entry, and the numbering is dense. */
  lemma RemoveSequenceKeepsLabels(sequences: seq<TimelineSequence>, index: int)
    requires ValidTimeline(sequences) && 0 <= index < |sequences|
    ensures var r := RemoveSequence(sequences, index);
      |r| == Max(1, |sequences| - 1) && DenselyNumbered(r) && LabelsConsistent(r)
  {
    var r := RemoveSequence(sequences, index);
    forall j | 0 <= j < |r| ensures Labelled(r[j]) {
      var k := if |sequences| > 1 && index <= j then j + 1 else j;
      var u, e := r[j], sequences[k];
      assert Labelled(e);
      assert u.timestamp == e.timestamp && u.startTime == e.startTime && End(u) == End(e);
    }
  }

  /** Every entry `removeSequence` keeps is still at least a second long and ends within the budget. */
  lemma RemoveSequenceKeepsDurations(sequences: seq<TimelineSequence>, index: int)
    requires ValidTimeline(sequences) && 0 <= index < |sequences|
    ensures var r := RemoveSequence(sequences, index);
      forall j :: 0 <= j < |r| ==> 1 <= r[j].duration && End(r[j]) <= Budget
  {
    var r := RemoveSequence(sequences, index);
    FitsEndsWithinBudget(sequences);
    forall j | 0 <= j < |r| ensures 1 <= r[j].duration && End(r[j]) <= Budget {
      var k := if |sequences| > 1 && index <= j then j + 1 else j;
      assert r[j].duration == sequences[k].duration && End(r[j]) == End(sequences[k]);
    }
  }

  /** Every entry of a timeline that fits ends within the budget. */
  lemma FitsEndsWithinBudget(sequences: seq<TimelineSequence>)
    requires Fits(sequences)
    ensures forall k :: 0 <= k < |sequences| ==> End(sequences[k]) <= Budget
  {
    forall k | 0 <= k < |sequences| ensures End(sequences[k]) <= Budget {
      EndPlusRest(sequences, k);
      EndPlusRest(sequences, |sequences| - 1);
      SumDurationsAtLeastLength(sequences[k + 1..]);
    }
  }

  /**
   * `removeSequence` does not adjust timing: on a timeline that fits, the
   * result still fits exactly when the entry removed was the last one;
   * removing any other entry leaves a gap where it was.
   */
  lemma RemoveSequenceLeavesGap(sequences: seq<TimelineSequence>, index: int)
    requires Fits(sequences) && |sequences| > 1 && 0 <= index < |sequences|
    ensures Fits(RemoveSequence(sequences, index)) <==> index == |sequences| - 1
  {
    var r := RemoveSequence(sequences, index);
    var n := |sequences|;
    if index == n - 1 {
      forall j | 0 <= j < |r| ensures r[j].startTime == sequences[j].startTime && r[j].duration == sequences[j].duration {
      }
      assert End(r[|r| - 1]) == sequences[n - 1].startTime;
    } else if index == 0 {
      assert r[0].startTime == End(sequences[0]);
    } else {
      assert r[index].startTime == End(sequences[index]);
      assert End(r[index - 1]) == End(sequences[index - 1]);
    }
  }

  /** Removing the middle one of three contiguous entries leaves a gap between the other two. */
  lemma RemoveSequenceGapExample()
    ensures var s := [
        TimelineSequence(1, "00:00-00:01", "", "", 0, 1),
        TimelineSequence(2, "00:01-00:03", "", "", 1, 2),
        TimelineSequence(3, "00:03-00:04", "", "", 3, 1)];
      Fits(s) && !Fits(RemoveSequence(s, 1)) && RemoveSequence(s, 1)[1].startTime == 3
  {
    var s := [
      TimelineSequence(1, "00:00-00:01", "", "", 0, 1),
      TimelineSequence(2, "00:01-00:03", "", "", 1, 2),
      TimelineSequence(3, "00:03-00:04", "", "", 3, 1)];
    assert Fits(s);
    RemoveSequenceLeavesGap(s, 1);
  }

  /** The entries laid end to end from 0 in their order, each keeping its duration and texts, and renumbered 1 to N. */
  function LaidOut(t: seq<TimelineSequence>): (r: seq<TimelineSequence>)
    ensures |r| == |t| && DenselyNumbered(r)
    ensures forall j :: 0 <= j < |t| ==>
      && r[j].duration == t[j].duration && r[j].timestamp == t[j].timestamp
      && r[j].action == t[j].action && r[j].audio == t[j].audio
  {
    seq(|t|, j requires 0 <= j < |t| => t[j].(sequence := j + 1, startTime := SumDurations(t[..j])))
  }

  /** Every entry with its label recomputed from its start and end; nothing else changes. */
  function Relabelled(u: seq<TimelineSequence>): (r: seq<TimelineSequence>)
    ensures |r| == |u| && LabelsConsistent(r)
    ensures forall j :: 0 <= j < |u| ==> r[j] == u[j].(timestamp := r[j].timestamp)
  {
    var r := seq(|u|, j requires 0 <= j < |u| => u[j].(timestamp := Label(u[j].startTime, End(u[j]))));
    forall j | 0 <= j < |r| ensures Labelled(r[j]) {
      assert r[j].startTime == u[j].startTime && End(r[j]) == End(u[j]);
    }
    r
  }

  /** `removeSequence` as its comment intends: drop, renumber, and adjust the timing of what is left. */
  function RemoveSequenceRetimed(sequences: seq<TimelineSequence>, index: int): seq<TimelineSequence> {
    if |sequences| <= 1 then sequences
    else Relabelled(LaidOut(WithoutIndex(sequences, index)))
  }

  /** Whether a timeline fits depends only on the starts and durations of its entries. */
  lemma FitsSameTimes(u: seq<TimelineSequence>, r: seq<TimelineSequence>)
    requires Fits(u) && |r| == |u|
    requires forall j :: 0 <= j < |u| ==> r[j].startTime == u[j].startTime && r[j].duration == u[j].duration
    ensures Fits(r)
  {
    forall j | 0 < j < |r| ensures r[j].startTime == End(r[j - 1]) {
      assert u[j].startTime == End(u[j - 1]);
    }
  }

  /** Relabelling a timeline that fits and is numbered 1 to N makes it valid. */
  lemma RelabelledValid(u: seq<TimelineSequence>)
    requires Fits(u) && DenselyNumbered(u)
    ensures ValidTimeline(Relabelled(u))
  {
    var r := Relabelled(u);
    forall j | 0 <= j < |u|
      ensures r[j].startTime == u[j].startTime && r[j].duration == u[j].duration && r[j].sequence == u[j].sequence
    {
    }
    FitsSameTimes(u, r);
  }

  /** The running total of durations grows by each entry's duration. */
  lemma PrefixSumStep(t: seq<TimelineSequence>, j: int)
    requires 0 < j <= |t|
    ensures SumDurations(t[..j]) == SumDurations(t[..j - 1]) + t[j - 1].duration
  {
    assert t[..j] == t[..j - 1] + [t[j - 1]];
    SumDurationsConcat(t[..j - 1], [t[j - 1]]);
  }

  /** Each laid-out entry starts at the total duration of the entries before it. */
  lemma LaidOutTimes(t: seq<TimelineSequence>)
    ensures forall j :: 0 <= j < |t| ==> LaidOut(t)[j].startTime == SumDurations(t[..j]) && LaidOut(t)[j].duration == t[j].duration
  {
  }

  /** Laid-out entries follow one another without gaps. */
  lemma LaidOutContiguous(t: seq<TimelineSequence>)
    ensures Contiguous(LaidOut(t))
  {
    var r := LaidOut(t);
    LaidOutTimes(t);
    forall j | 0 < j < |r| ensures r[j].startTime == End(r[j - 1]) {
      PrefixSumStep(t, j);
    }
  }

  /** The laid-out timeline starts at 0 and ends at the sum of the durations. */
  lemma LaidOutEnds(t: seq<TimelineSequence>)
    requires |t| >= 1
    ensures LaidOut(t)[0].startTime == 0 && End(LaidOut(t)[|t| - 1]) == SumDurations(t)
  {
    LaidOutTimes(t);
    assert t[..0] == [];
    PrefixSumStep(t, |t|);
    assert t[..|t|] == t;
  }

  /** Laying entries of at least a second end to end from 0 gives a timeline that fits if their durations do. */
  lemma LaidOutFits(t: seq<TimelineSequence>)
    requires |t| >= 1 && (forall j :: 0 <= j < |t| ==> t[j].duration >= 1) && SumDurations(t) <= Budget
    ensures Fits(LaidOut(t))
  {
    LaidOutContiguous(t);
    LaidOutEnds(t);
  }

  /** Taking one entry out of the middle of a list takes its duration out of the total. */
  lemma SumDurationsSplit(a: seq<TimelineSequence>, x: TimelineSequence, b: seq<TimelineSequence>)
    ensures SumDurations(a + [x] + b) == SumDurations(a + b) + x.duration
  {
    SumDurationsConcat(a + [x], b);
    SumDurationsConcat(a, [x]);
    SumDurationsConcat(a, b);
  }

  /** Dropping an entry takes exactly its duration out of the total. */
  lemma SumWithoutIndex(sequences: seq<TimelineSequence>, index: int)
    requires 0 <= index < |sequences|
    ensures SumDurations(WithoutIndex(sequences, index)) + sequences[index].duration == SumDurations(sequences)
  {
    var a, x, b := sequences[..index], sequences[index], sequences[index + 1..];
    assert sequences == a + [x] + b;
    SumDurationsSplit(a, x, b);
  }

  /** Dropping one entry of a valid timeline leaves entries of at least a second whose durations still fit. */
  lemma WithoutIndexDurations(sequences: seq<TimelineSequence>, index: int)
    requires ValidTimeline(sequences) && |sequences| > 1 && 0 <= index < |sequences|
    ensures var t := WithoutIndex(sequences, index);
      && |t| == |sequences| - 1
      && (forall j :: 0 <= j < |t| ==> t[j] == sequences[if index <= j then j + 1 else j])
      && (forall j :: 0 <= j < |t| ==> t[j].duration >= 1)
      && SumDurations(t) <= Budget
  {
    WithoutIndexAt(sequences, index);
    TotalIsSum(sequences);
    SumWithoutIndex(sequences, index);
  }

  /** On the same three entries the corrected removal moves the last one up to start at 1. */
  lemma RemoveSequenceRetimedExample()
    ensures var r := RemoveSequenceRetimed([
        TimelineSequence(1, "00:00-00:01", "", "", 0, 1),
        TimelineSequence(2, "00:01-00:03", "", "", 1, 2),
        TimelineSequence(3, "00:03-00:04", "", "", 3, 1)], 1);
      |r| == 2 && r[0].startTime == 0 && r[1].sequence == 2 && r[1].startTime == 1 && r[1].duration == 1
  {
    var s := [
      TimelineSequence(1, "00:00-00:01", "", "", 0, 1),
      TimelineSequence(2, "00:01-00:03", "", "", 1, 2),
      TimelineSequence(3, "00:03-00:04", "", "", 3, 1)];
    var t := WithoutIndex(s, 1);
    assert t == [s[0], s[2]];
    assert t[..1] == [s[0]];
    LaidOutTimes(t);
    var u := LaidOut(t);
    var r := Relabelled(u);
    assert r[1].startTime == u[1].startTime && r[1].duration == u[1].duration && r[1].sequence == u[1].sequence;
    assert r[0].startTime == u[0].startTime;
    assert t[..0] == [];
  }

  /**
   * On a valid timeline of two or more entries, the corrected removal drops
   * exactly the entry at `index`, keeps the others' durations, texts and
   * order, and gives a valid timeline.
   */
  lemma RemoveSequenceRetimedValid(sequences: seq<TimelineSequence>, index: int)
    requires ValidTimeline(sequences) && |sequences| > 1 && 0 <= index < |sequences|
    ensures var r := RemoveSequenceRetimed(sequences, index);
      && |r| == |sequences| - 1
      && ValidTimeline(r)
      && forall j :: 0 <= j < |r| ==>
           var e := sequences[if index <= j then j + 1 else j];
           r[j].duration == e.duration && r[j].action == e.action && r[j].audio == e.audio
  {
    var t := WithoutIndex(sequences, index);
    WithoutIndexDurations(sequences, index);
    LaidOutFits(t);
    var u := LaidOut(t);
    RelabelledValid(u);
    var r := Relabelled(u);
    assert r == RemoveSequenceRetimed(sequences, index);
    forall j | 0 <= j < |r|
      ensures var e := sequences[if index <= j then j + 1 else j];
        r[j].duration == e.duration && r[j].action == e.action && r[j].audio == e.audio
    {
      assert r[j].duration == u[j].duration && r[j].action == u[j].action && r[j].audio == u[j].audio;
    }
  }

  // ---------------------------------------------------------------------------
  // YAML export

  /** `el.trim()` is truthy: the element is exported. */
  predicate Kept(el: string) {
    Trim(el) != ""
  }

  /** `list.filter((el) => el.trim())`. */
  function NonBlank(xs: seq<string>): (r: seq<string>)
    ensures forall i :: 0 <= i < |r| ==> !IsBlank(r[i])
  {
    assert forall x :: Kept(x) ==> !IsBlank(x) by {
      forall x ensures Kept(x) ==> !IsBlank(x) {
        TrimEmptyIffBlank(x);
      }
    }
    Filter(xs, Kept)
  }

  /** The export drops exactly the whitespace-only elements, every occurrence of them, and no other. */
  lemma NonBlankCounts(xs: seq<string>, x: string)
    ensures multiset(NonBlank(xs))[x] == if IsBlank(x) then 0 else multiset(xs)[x]
  {
    FilterCounts(xs, Kept, x);
    TrimEmptyIffBlank(x);
  }

  /** Filtering the blank elements out a second time removes nothing more. */
  lemma NonBlankIdempotent(xs: seq<string>)
    ensures NonBlank(NonBlank(xs)) == NonBlank(xs)
  {
    FilterIdempotent(xs, Kept);
  }

  /** The export keeps the order of what it keeps: it works element by element from the front. */
  lemma NonBlankSnoc(xs: seq<string>, x: string)
    ensures NonBlank(xs + [x]) == NonBlank(xs) + if IsBlank(x) then [] else [x]
  {
    FilterConcat(xs, [x], Kept);
    TrimEmptyIffBlank(x);
    assert [x][1..] == [];
    var tail := if IsBlank(x) then [] else [x];
    assert Filter([x], Kept) == tail + Filter([], Kept) == tail;
  }

  /** The filtered categories: the same names in the same order, each list without its blank elements. */
  function CleanCategories(c: Categories): (r: Categories)
    ensures Keys(r) == Keys(c)
    ensures forall k :: Lookup(r, k) == if k in Keys(c) then Some(NonBlank(Lookup(c, k).value)) else None
  {
    var r: Categories := seq(|c|, i requires 0 <= i < |c| => (c[i].0, NonBlank(c[i].1)));
    CleanLookups(c, r);
    r
  }

  /** Position by position cleaning leaves every name where it was, so each lookup finds the cleaned list. */
  lemma CleanLookups(c: Categories, r: Categories)
    requires |r| == |c| && forall i :: 0 <= i < |c| ==> r[i] == (c[i].0, NonBlank(c[i].1))
    ensures forall k :: Lookup(r, k) == if k in Keys(c) then Some(NonBlank(Lookup(c, k).value)) else None
  {
    assert Keys(r) == Keys(c);
    forall k | k in Keys(c) ensures Lookup(r, k) == Some(NonBlank(Lookup(c, k).value)) {
      var i := IndexOf(c, k);
      IndexOfUnique(r, i);
    }
  }

  /** A value between double quotes, without escaping. */
  function Quoted(value: string): string {
    "\"" + value + "\""
  }

  function ScalarLine(key: string, value: string): string {
    "  " + key + ": " + Quoted(value) + "\n"
  }

  function ItemLine(element: string): string {
    "    - " + Quoted(element) + "\n"
  }

  function ItemLines(elements: seq<string>): string
    decreases |elements|
  {
    if elements == [] then ""
    else ItemLines(elements[..|elements| - 1]) + ItemLine(elements[|elements| - 1])
  }

  /** A list under its key; nothing at all, not even the key, for an empty list. */
  function ListSection(key: string, elements: seq<string>): string {
    if |elements| > 0 then "  " + key + ":\n" + ItemLines(elements) else ""
  }

  function CategorySections(c: seq<(string, seq<string>)>): string
    decreases |c|
  {
    if c == [] then ""
    else CategorySections(c[..|c| - 1]) + ListSection(c[|c| - 1].0, c[|c| - 1].1)
  }

  /** One timeline entry: its number, label, action and audio; never its start or duration. */
  function SequenceBlock(e: TimelineSequence): string {
    "  - sequence: " + IntToString(e.sequence) + "\n"
    + "    timestamp: " + Quoted(e.timestamp) + "\n"
    + "    action: " + Quoted(e.action) + "\n"
    + "    audio: " + Quoted(e.audio) + "\n\n"
  }

  function SequenceBlocks(s: seq<TimelineSequence>): string
    decreases |s|
  {
    if s == [] then ""
    else SequenceBlocks(s[..|s| - 1]) + SequenceBlock(s[|s| - 1])
  }

  /** The five scalar lines, in a fixed order; the room description goes out as `environment_description`. */
  function MetadataHeader(m: MetadataFields): string {
    "metadata:\n"
    + ScalarLine("prompt_name", m.promptName)
    + ScalarLine("base_style", m.baseStyle)
    + ScalarLine("aspect_ratio", m.aspectRatio)
    + ScalarLine("environment_description", m.roomDescription)
    + ScalarLine("camera_setup", m.cameraSetup)
  }

  /** The document `generateYaml` produces. */
  function Document(m: MetadataFields, s: seq<TimelineSequence>): string {
    MetadataHeader(m)
    + ListSection("key_elements", NonBlank(m.keyElements))
    + CategorySections(CleanCategories(m.elementCategories))
    + ListSection("negative_prompts", NonBlank(m.negativePrompts))
    + "\ntimeline:\n"
    + SequenceBlocks(s)
  }

  /**
   * The export of a new prompt: the five default scalar lines, no list or
   * category section, and the block of the initial one-second entry.
   */
  lemma NewPromptExport()
    ensures Document(DefaultMetadata, InitialTimeline) ==
      MetadataHeader(DefaultMetadata) + "\ntimeline:\n" + InitialBlock()
  {
    var m := DefaultMetadata;
    var header, tail := MetadataHeader(m), "\ntimeline:\n" + SequenceBlocks(InitialTimeline);
    assert ListSection("key_elements", NonBlank(m.keyElements)) == "";
    assert CategorySections(CleanCategories(m.elementCategories)) == "";
    assert ListSection("negative_prompts", NonBlank(m.negativePrompts)) == "";
    assert Document(m, InitialTimeline) == header + "" + "" + "" + tail;
    assert header + "" + "" + "" == header;
    assert SequenceBlocks(InitialTimeline) == SequenceBlocks([]) + SequenceBlock(InitialTimeline[0]);
    assert SequenceBlocks(InitialTimeline) == InitialBlock();
  }

  /** The block of the initial entry. */
  function InitialBlock(): (b: string)
    ensures b == "  - sequence: 1\n" + "    timestamp: \"00:00-00:01\"\n" + "    action: \"\"\n" + "    audio: \"\"\n\n"
  {
    assert IntToString(1) == "1";
    SequenceBlock(InitialTimeline[0])
  }

  /** Appends a list under its key, one item per line, as each of the three list sections is written. */
  method AppendList(yaml: string, key: string, elements: seq<string>) returns (out: string)
    ensures out == yaml + ListSection(key, elements)
  {
    out := yaml;
    if |elements| > 0 {
      var header := "  " + key + ":\n";
      out := out + header;
      var i := 0;
      while i < |elements|
        invariant 0 <= i <= |elements|
        invariant out == yaml + header + ItemLines(elements[..i])
      {
        assert elements[..i + 1][..i] == elements[..i];
        ConcatAssoc(yaml + header, ItemLines(elements[..i]), ItemLine(elements[i]));
        out := out + ItemLine(elements[i]);
        i := i + 1;
      }
      assert elements[..i] == elements;
      ConcatAssoc(yaml, header, ItemLines(elements));
    }
  }

  /** Appends one section per category, in order; a category with no elements adds nothing. */
  method AppendCategories(yaml: string, categories: seq<(string, seq<string>)>) returns (out: string)
    ensures out == yaml + CategorySections(categories)
  {
    out := yaml;
    var i := 0;
    while i < |categories|
      invariant 0 <= i <= |categories|
      invariant out == yaml + CategorySections(categories[..i])
    {
      assert categories[..i + 1][..i] == categories[..i];
      ConcatAssoc(yaml, CategorySections(categories[..i]), ListSection(categories[i].0, categories[i].1));
      out := AppendList(out, categories[i].0, categories[i].1);
      i := i + 1;
    }
    assert categories[..i] == categories;
  }

  lemma BlocksSnoc(s: seq<TimelineSequence>, i: int)
    requires 0 <= i < |s|
    ensures SequenceBlocks(s[..i + 1]) == SequenceBlocks(s[..i]) + SequenceBlock(s[i])
  {
    assert s[..i + 1][..i] == s[..i];
  }

  /** Appends one block per timeline entry, in order. */
  method AppendBlocks(yaml: string, sequences: seq<TimelineSequence>) returns (out: string)
    ensures out == yaml + SequenceBlocks(sequences)
  {
    out := yaml;
    var i := 0;
    while i < |sequences|
      invariant 0 <= i <= |sequences|
      invariant out == yaml + SequenceBlocks(sequences[..i])
    {
      BlocksSnoc(sequences, i);
      ConcatAssoc(yaml, SequenceBlocks(sequences[..i]), SequenceBlock(sequences[i]));
      out := out + SequenceBlock(sequences[i]);
      i := i + 1;
    }
    assert sequences[..i] == sequences;
  }

  /** `generateYaml`: builds the export text piece by piece. */
  method GenerateYaml(metadata: MetadataFields, sequences: seq<TimelineSequence>) returns (yaml: string)
    ensures yaml == Document(metadata, sequences)
  {
    var keyElements := NonBlank(metadata.keyElements);
    var categories := CleanCategories(metadata.elementCategories);
    var negativePrompts := NonBlank(metadata.negativePrompts);

    yaml := "metadata:\n";
    yaml := yaml + ScalarLine("prompt_name", metadata.promptName);
    yaml := yaml + ScalarLine("base_style", metadata.baseStyle);
    yaml := yaml + ScalarLine("aspect_ratio", metadata.aspectRatio);
    yaml := yaml + ScalarLine("environment_description", metadata.roomDescription);
    yaml := yaml + ScalarLine("camera_setup", metadata.cameraSetup);
    yaml := AppendList(yaml, "key_elements", keyElements);
    yaml := AppendCategories(yaml, categories);
    yaml := AppendList(yaml, "negative_prompts", negativePrompts);
    yaml := yaml + "\ntimeline:\n";
    yaml := AppendBlocks(yaml, sequences);
  }

  /** The export opens with `metadata:` and the five scalar lines, before any list or the timeline. */
  lemma DocumentOpensWithHeader(m: MetadataFields, s: seq<TimelineSequence>)
    ensures "metadata:\n" <= MetadataHeader(m) <= Document(m, s)
  {
    var header := MetadataHeader(m);
    var a := header + ListSection("key_elements", NonBlank(m.keyElements));
    var b := a + CategorySections(CleanCategories(m.elementCategories));
    var c := b + ListSection("negative_prompts", NonBlank(m.negativePrompts));
    var d := c + "\ntimeline:\n";
    PrefixOfConcat(header, ListSection("key_elements", NonBlank(m.keyElements)));
    PrefixOfLonger(header, a, CategorySections(CleanCategories(m.elementCategories)));
    PrefixOfLonger(header, b, ListSection("negative_prompts", NonBlank(m.negativePrompts)));
    PrefixOfLonger(header, c, "\ntimeline:\n");
    PrefixOfLonger(header, d, SequenceBlocks(s));
    var h1 := "metadata:\n" + ScalarLine("prompt_name", m.promptName);
    var h2 := h1 + ScalarLine("base_style", m.baseStyle);
    var h3 := h2 + ScalarLine("aspect_ratio", m.aspectRatio);
    var h4 := h3 + ScalarLine("environment_description", m.roomDescription);
    PrefixOfConcat("metadata:\n", ScalarLine("prompt_name", m.promptName));
    PrefixOfLonger("metadata:\n", h1, ScalarLine("base_style", m.baseStyle));
    PrefixOfLonger("metadata:\n", h2, ScalarLine("aspect_ratio", m.aspectRatio));
    PrefixOfLonger("metadata:\n", h3, ScalarLine("environment_description", m.roomDescription));
    PrefixOfLonger("metadata:\n", h4, ScalarLine("camera_setup", m.cameraSetup));
  }

  /** A list's header line is exported exactly when one of its elements is not blank. */
  lemma ListShownIff(key: string, xs: seq<string>)
    ensures ListSection(key, NonBlank(xs)) != "" <==> exists i :: 0 <= i < |xs| && !IsBlank(xs[i])
  {
    FilterEmpty(xs, Kept);
    forall i | 0 <= i < |xs| ensures Kept(xs[i]) <==> !IsBlank(xs[i]) {
      TrimEmptyIffBlank(xs[i]);
    }
  }

  /** The timeline part holds one block per entry, in list order: a later entry adds its block at the end. */
  lemma DocumentAppendsBlock(m: MetadataFields, s: seq<TimelineSequence>, e: TimelineSequence)
    ensures Document(m, s + [e]) == Document(m, s) + SequenceBlock(e)
  {
    assert (s + [e])[..|s|] == s && (s + [e])[|s|] == e;
    var prefix := MetadataHeader(m)
      + ListSection("key_elements", NonBlank(m.keyElements))
      + CategorySections(CleanCategories(m.elementCategories))
      + ListSection("negative_prompts", NonBlank(m.negativePrompts))
      + "\ntimeline:\n";
    ConcatAssoc(prefix, SequenceBlocks(s), SequenceBlock(e));
  }

  /** Starts and durations never reach the export: entries that agree on the rest give the same blocks. */
  lemma {:induction false} BlocksIgnoreTiming(s: seq<TimelineSequence>, t: seq<TimelineSequence>)
    requires |s| == |t|
    requires forall j :: 0 <= j < |s| ==>
      s[j].sequence == t[j].sequence && s[j].timestamp == t[j].timestamp && s[j].action == t[j].action && s[j].audio == t[j].audio
    ensures SequenceBlocks(s) == SequenceBlocks(t)
    decreases |s|
  {
    if s != [] {
      var n := |s| - 1;
      BlocksIgnoreTiming(s[..n], t[..n]);
      assert SequenceBlock(s[n]) == SequenceBlock(t[n]);
    }
  }

  /** The export of a prompt does not depend on the starts and durations of its entries. */
  lemma DocumentIgnoresTiming(m: MetadataFields, s: seq<TimelineSequence>, t: seq<TimelineSequence>)
    requires |s| == |t|
    requires forall j :: 0 <= j < |s| ==>
      s[j].sequence == t[j].sequence && s[j].timestamp == t[j].timestamp && s[j].action == t[j].action && s[j].audio == t[j].audio
    ensures Document(m, s) == Document(m, t)
  {
    BlocksIgnoreTiming(s, t);
  }
}
