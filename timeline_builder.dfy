/**
 * The timeline editor: the `MM:SS` labels, single-entry patches, and the
 * duration edit that re-flows every later entry inside the 8-second budget.
 */
module TimelineBuilder {
  import opened Text
  import opened Lists
  import opened Records

  /** Total length of the timeline, in seconds. */
  const Budget := 8

  function Min(a: int, b: int): int { if a < b then a else b }
  function Max(a: int, b: int): int { if a < b then b else a }

  // ---------------------------------------------------------------------------
  // Labels

  /**
   * `formatTime`: minutes (`Math.floor(s / 60)`; Dafny's `/` by a positive
   * divisor is floor division) and seconds (JavaScript's `s % 60`), each
   * written with `String` and padded to two characters with '0'.
   */
  function FormatTime(seconds: int): string {
    PadStart(IntToString(seconds / 60), 2, '0') + ":" + PadStart(IntToString(JsRem(seconds, 60)), 2, '0')
  }

  /** Below 100 minutes the label is exactly `MM:SS`, both fields zero-padded. */
  lemma FormatTimeDigits(seconds: int)
    requires 0 <= seconds < 6000
    ensures var minutes, secs := seconds / 60, seconds % 60;
      FormatTime(seconds) == [Digit(minutes / 10), Digit(minutes % 10), ':', Digit(secs / 10), Digit(secs % 10)]
    ensures |FormatTime(seconds)| == 5
  {
    PadTwoDigits(seconds / 60);
    PadTwoDigits(seconds % 60);
  }

  /** Reads an `MM:SS` label back into seconds. */
  function ParseTime(t: string): Option<int> {
    if |t| == 5 && IsDigit(t[0]) && IsDigit(t[1]) && t[2] == ':' && IsDigit(t[3]) && IsDigit(t[4]) then
      Some((10 * DigitValue(t[0]) + DigitValue(t[1])) * 60 + 10 * DigitValue(t[3]) + DigitValue(t[4]))
    else None
  }

  /** `formatTime` loses nothing below 100 minutes: the label reads back as the same number of seconds. */
  lemma FormatTimeRoundTrip(seconds: int)
    requires 0 <= seconds < 6000
    ensures ParseTime(FormatTime(seconds)) == Some(seconds)
  {
    FormatTimeDigits(seconds);
    var minutes, secs := seconds / 60, seconds % 60;
    DigitRoundTrip(minutes / 10);
    DigitRoundTrip(minutes % 10);
    DigitRoundTrip(secs / 10);
    DigitRoundTrip(secs % 10);
  }

  /** The `timestamp` of an entry running from `start` to `end`. */
  function Label(start: int, end: int): string {
    FormatTime(start) + "-" + FormatTime(end)
  }

  function ParseLabel(t: string): Option<(int, int)> {
    if |t| == 11 && t[5] == '-' then
      match (ParseTime(t[..5]), ParseTime(t[6..]))
      case (Some(a), Some(b)) => Some((a, b))
      case _ => None
    else None
  }

  /** A label is always recomputable: it reads back as the start and end it was made from. */
  lemma LabelRoundTrip(start: int, end: int)
    requires 0 <= start < 6000 && 0 <= end < 6000
    ensures |Label(start, end)| == 11
    ensures ParseLabel(Label(start, end)) == Some((start, end))
  {
    FormatTimeRoundTrip(start);
    FormatTimeRoundTrip(end);
    var t := Label(start, end);
    assert t[..5] == FormatTime(start);
    assert t[6..] == FormatTime(end);
  }

  // ---------------------------------------------------------------------------
  // Timeline shape

  function End(e: TimelineSequence): int {
    e.startTime + e.duration
  }

  /** Every entry after the first starts where its predecessor ends. */
  predicate Contiguous(s: seq<TimelineSequence>) {
    forall j :: 0 < j < |s| ==> s[j].startTime == End(s[j - 1])
  }

  /** The entry's label is the one its start and end produce. */
  predicate Labelled(e: TimelineSequence) {
    e.timestamp == Label(e.startTime, End(e))
  }

  predicate LabelsConsistent(s: seq<TimelineSequence>) {
    forall j {:trigger Labelled(s[j])} :: 0 <= j < |s| ==> Labelled(s[j])
  }

  predicate DenselyNumbered(s: seq<TimelineSequence>) {
    forall j :: 0 <= j < |s| ==> s[j].sequence == j + 1
  }

  /**
   * The timing half of a well-formed timeline: at least one entry, starting
   * at 0, every entry at least a second long and starting where the
   * previous one ends, the last one ending within the budget.
   */
  predicate Fits(s: seq<TimelineSequence>) {
    && |s| >= 1
    && s[0].startTime == 0
    && (forall j :: 0 <= j < |s| ==> s[j].duration >= 1)
    && Contiguous(s)
    && End(s[|s| - 1]) <= Budget
  }

  /** The timeline the editor means to keep: it fits, is numbered 1..N, and every label matches its entry. */
  predicate ValidTimeline(s: seq<TimelineSequence>) {
    Fits(s) && LabelsConsistent(s) && DenselyNumbered(s)
  }

  /** The `reduce` that adds up durations. */
  function SumDurations(s: seq<TimelineSequence>): int
    decreases |s|
  {
    if s == [] then 0 else s[0].duration + SumDurations(s[1..])
  }

  lemma {:induction false} SumDurationsConcat(a: seq<TimelineSequence>, b: seq<TimelineSequence>)
    ensures SumDurations(a + b) == SumDurations(a) + SumDurations(b)
    decreases |a|
  {
    if a == [] {
      assert a + b == b;
    } else {
      assert (a + b)[1..] == a[1..] + b;
      SumDurationsConcat(a[1..], b);
    }
  }

  lemma {:induction false} SumDurationsAtLeastLength(s: seq<TimelineSequence>)
    requires forall j :: 0 <= j < |s| ==> s[j].duration >= 1
    ensures SumDurations(s) >= |s|
    decreases |s|
  {
    if s != [] {
      SumDurationsAtLeastLength(s[1..]);
    }
  }

  /** `getTotalDuration`: where the last entry ends, 0 for an empty timeline. */
  function TotalDuration(s: seq<TimelineSequence>): int {
    if |s| == 0 then 0 else End(s[|s| - 1])
  }

  /** On a contiguous timeline, an entry's end plus the durations after it is the total. */
  lemma {:induction false} EndPlusRest(s: seq<TimelineSequence>, i: int)
    requires Contiguous(s) && 0 <= i < |s|
    ensures End(s[i]) + SumDurations(s[i + 1..]) == TotalDuration(s)
    decreases |s| - i
  {
    if i + 1 < |s| {
      EndPlusRest(s, i + 1);
      assert s[i + 1..][1..] == s[i + 2..];
    }
  }

  /** On a contiguous timeline from 0, the total is the sum of all durations. */
  lemma TotalIsSum(s: seq<TimelineSequence>)
    requires Contiguous(s) && (|s| > 0 ==> s[0].startTime == 0)
    ensures TotalDuration(s) == SumDurations(s)
  {
    if |s| > 0 {
      EndPlusRest(s, 0);
    }
  }

  /** At most `Budget` one-second-or-longer entries fit: a valid timeline has at most 8 entries. */
  lemma ValidTimelineFits(s: seq<TimelineSequence>)
    requires Fits(s)
    ensures |s| <= TotalDuration(s) <= Budget
  {
    TotalIsSum(s);
    SumDurationsAtLeastLength(s);
  }

  /** `getMaxDurationForSequence`: the budget, less the entry's start and the durations after it. */
  function MaxDuration(s: seq<TimelineSequence>, index: int): int
    requires 0 <= index < |s|
  {
    Budget - s[index].startTime - SumDurations(s[index + 1..])
  }

  /** On a valid timeline the bound is the entry's own duration plus the unused part of the budget. */
  lemma MaxDurationIsRoom(s: seq<TimelineSequence>, index: int)
    requires Fits(s) && 0 <= index < |s|
    ensures MaxDuration(s, index) == s[index].duration + (Budget - TotalDuration(s))
    ensures MaxDuration(s, index) >= s[index].duration >= 1
  {
    EndPlusRest(s, index);
  }

  /** The duration `updateDuration` gives its target. */
  function ClampDuration(s: seq<TimelineSequence>, index: int, requested: int): (d: int)
    requires 0 <= index < |s|
    ensures d >= 1
    ensures d == 1 || d <= requested
    ensures d == 1 || d <= MaxDuration(s, index)
    ensures 1 <= requested <= MaxDuration(s, index) ==> d == requested
    ensures requested > MaxDuration(s, index) >= 1 ==> d == MaxDuration(s, index)
  {
    Max(1, Min(requested, MaxDuration(s, index)))
  }

  // ---------------------------------------------------------------------------
  // Single-entry patch

  /** `Partial<TimelineSequence>`: the fields an update names. */
  datatype SequencePatch = SequencePatch(
    sequence: Option<int>,
    timestamp: Option<string>,
    action: Option<string>,
    audio: Option<string>,
    startTime: Option<int>,
    duration: Option<int>)

  function Or<T>(o: Option<T>, default: T): T {
    if o.Some? then o.value else default
  }

  /** A patch that only edits the free text of an entry, as the action and audio inputs do. */
  predicate TextOnly(p: SequencePatch) {
    p.sequence.None? && p.timestamp.None? && p.startTime.None? && p.duration.None?
  }

  /**
   * `updateSequence`: merges the patch into one entry, then recomputes that
   * entry's timestamp when the patch names its duration or start.
   */
  function UpdateSequence(sequences: seq<TimelineSequence>, index: int, updates: SequencePatch): (r: seq<TimelineSequence>)
    requires 0 <= index < |sequences|
    ensures |r| == |sequences|
    ensures forall j :: 0 <= j < |r| && j != index ==> r[j] == sequences[j]
    ensures var e, u := sequences[index], r[index];
      && u.sequence == Or(updates.sequence, e.sequence)
      && u.action == Or(updates.action, e.action)
      && u.audio == Or(updates.audio, e.audio)
      && u.startTime == Or(updates.startTime, e.startTime)
      && u.duration == Or(updates.duration, e.duration)
      && if updates.duration.Some? || updates.startTime.Some?
         then Labelled(u)
         else u.timestamp == Or(updates.timestamp, e.timestamp)
  {
    var e := sequences[index];
    var merged := TimelineSequence(
      Or(updates.sequence, e.sequence), Or(updates.timestamp, e.timestamp),
      Or(updates.action, e.action), Or(updates.audio, e.audio),
      Or(updates.startTime, e.startTime), Or(updates.duration, e.duration));
    var patched := if updates.duration.Some? || updates.startTime.Some?
                   then merged.(timestamp := Label(merged.startTime, End(merged)))
                   else merged;
    assert patched.startTime == merged.startTime && End(patched) == End(merged);
    sequences[index := patched]
  }

  /** Editing an entry's action or audio changes no start, duration or number. */
  lemma UpdateTextKeepsShape(sequences: seq<TimelineSequence>, index: int, updates: SequencePatch)
    requires 0 <= index < |sequences| && TextOnly(updates)
    requires Fits(sequences) && DenselyNumbered(sequences)
    ensures Fits(UpdateSequence(sequences, index, updates))
    ensures DenselyNumbered(UpdateSequence(sequences, index, updates))
  {
    var r := UpdateSequence(sequences, index, updates);
    forall j | 0 <= j < |r|
      ensures r[j].startTime == sequences[j].startTime && r[j].duration == sequences[j].duration
      ensures r[j].sequence == sequences[j].sequence
    {
    }
  }

  /** Editing an entry's action or audio keeps a valid timeline valid. */
  lemma UpdateTextKeepsValid(sequences: seq<TimelineSequence>, index: int, updates: SequencePatch)
    requires ValidTimeline(sequences) && 0 <= index < |sequences| && TextOnly(updates)
    ensures ValidTimeline(UpdateSequence(sequences, index, updates))
  {
    UpdateTextKeepsShape(sequences, index, updates);
    var r := UpdateSequence(sequences, index, updates);
    forall j | 0 <= j < |r| ensures Labelled(r[j]) {
      var u, e := r[j], sequences[j];
      assert Labelled(e);
      assert u.timestamp == e.timestamp;
      assert u.startTime == e.startTime && End(u) == End(e);
    }
  }

  // ---------------------------------------------------------------------------
  // Duration edit with waterfall

  /**
   * How the waterfall treats one later entry: it starts where `prev` ends,
   * which must be before the budget, and is shortened to end by the budget;
   * its number, action and audio are kept.
   */
  predicate WaterfallStep(original: TimelineSequence, prev: TimelineSequence, e: TimelineSequence) {
    var start := End(prev);
    && start < Budget
    && e == original.(startTime := start, duration := Min(original.duration, Budget - start), timestamp := e.timestamp)
  }

  /** Entry `j` of `r` is entry `j` of `s` re-flowed after `r[j - 1]`. */
  predicate FlowsAt(s: seq<TimelineSequence>, r: seq<TimelineSequence>, j: int) {
    0 < j < |r| && j < |s| && WaterfallStep(s[j], r[j - 1], r[j])
  }

  /**
   * The timing half of `updateDuration(index, requested)` on `s`: the entries
   * before the target as they were; the target with its clamped duration;
   * then the later entries in order, each re-flowed by `WaterfallStep`; and
   * the list cut off only where the next start would be at or past the budget.
   */
  predicate ReflowedTimes(s: seq<TimelineSequence>, index: int, requested: int, r: seq<TimelineSequence>)
    requires 0 <= index < |s|
  {
    && index < |r| <= |s|
    && r[..index] == s[..index]
    && r[index] == s[index].(duration := ClampDuration(s, index, requested), timestamp := r[index].timestamp)
    && (forall j {:trigger FlowsAt(s, r, j)} :: index < j < |r| ==> FlowsAt(s, r, j))
    && (|r| < |s| ==> End(r[|r| - 1]) >= Budget)
  }

  /** `r` is what `updateDuration(index, requested)` makes of `s`: re-flowed, and relabelled from the target on. */
  predicate IsReflow(s: seq<TimelineSequence>, index: int, requested: int, r: seq<TimelineSequence>)
    requires 0 <= index < |s|
  {
    && ReflowedTimes(s, index, requested, r)
    && LabelsConsistent(r[index..])
  }

  /**
   * The state of the waterfall loop before position `i`: the target done,
   * the entries between it and `i` re-flowed, all of those relabelled, and
   * the rest untouched.
   */
  predicate ReflowedUpTo(s: seq<TimelineSequence>, index: int, requested: int, r: seq<TimelineSequence>, i: int)
    requires 0 <= index < |s|
  {
    && index < i <= |r| == |s|
    && r[..index] == s[..index]
    && r[index] == s[index].(duration := ClampDuration(s, index, requested), timestamp := r[index].timestamp)
    && (forall j {:trigger FlowsAt(s, r, j)} :: index < j < i ==> FlowsAt(s, r, j))
    && LabelsConsistent(r[index..i])
    && r[i..] == s[i..]
  }

  /** The loop starts with the relabelled target in place and everything after it untouched. */
  lemma ReflowStart(s: seq<TimelineSequence>, index: int, requested: int, e: TimelineSequence)
    requires 0 <= index < |s|
    requires e == s[index].(duration := ClampDuration(s, index, requested), timestamp := e.timestamp)
    requires Labelled(e)
    ensures ReflowedUpTo(s, index, requested, s[index := e], index + 1)
  {
    var r := s[index := e];
    assert r[..index] == s[..index];
    assert r[index + 1..] == s[index + 1..];
    LabelsSnoc([], e);
    assert r[index..index + 1] == [] + [e];
  }

  /** One turn of the waterfall loop: the entry at `i`, re-flowed and relabelled, extends the finished part. */
  lemma ReflowStep(s: seq<TimelineSequence>, index: int, requested: int, r: seq<TimelineSequence>, i: int, e: TimelineSequence)
    requires 0 <= index < |s| && ReflowedUpTo(s, index, requested, r, i) && i < |r|
    requires WaterfallStep(s[i], r[i - 1], e) && Labelled(e)
    ensures ReflowedUpTo(s, index, requested, r[i := e], i + 1)
  {
    var r' := r[i := e];
    assert r'[..index] == r[..index];
    assert r'[index] == r[index];
    assert r'[i + 1..] == r[i + 1..] == s[i + 1..] by {
      assert r[i + 1..] == r[i..][1..];
    }
    assert r[i] == r[i..][0] == s[i];
    forall j | index < j < i + 1 ensures FlowsAt(s, r', j) {
      if j < i {
        assert FlowsAt(s, r, j);
      }
    }
    LabelsSnoc(r[index..i], e);
    assert r'[index..i + 1] == r[index..i] + [e];
  }

  /** The waterfall loop ends with a re-flow: at the end of the list, or cut off at `i`. */
  lemma ReflowDone(s: seq<TimelineSequence>, index: int, requested: int, r: seq<TimelineSequence>, i: int)
    requires 0 <= index < |s| && ReflowedUpTo(s, index, requested, r, i)
    requires i == |r| || End(r[i - 1]) >= Budget
    ensures IsReflow(s, index, requested, r[..i])
  {
    var t := r[..i];
    assert t[..index] == r[..index];
    forall j | index < j < |t| ensures FlowsAt(s, t, j) {
      assert FlowsAt(s, r, j);
    }
    assert t[index..] == r[index..i];
  }

  /**
   * Writes an entry's `MM:SS-MM:SS` label from its start and end, as the
   * editor does whenever it retimes an entry.
   */
  method Stamp(e: TimelineSequence) returns (r: TimelineSequence)
    ensures r == e.(timestamp := r.timestamp)
    ensures Labelled(r)
  {
    var start, end := e.startTime, e.startTime + e.duration;
    r := e.(timestamp := Label(start, end));
    assert r.startTime == start && End(r) == end;
  }

  /** `updateDuration`: clamps the request, re-flows the later entries and drops those that no longer fit. */
  method UpdateDuration(sequences: seq<TimelineSequence>, index: int, newDuration: int)
    returns (result: seq<TimelineSequence>)
    requires 0 <= index < |sequences|
    ensures IsReflow(sequences, index, newDuration, result)
    ensures result[index].duration >= 1
    ensures forall j :: index < j < |result| ==> result[j].startTime == End(result[j - 1]) && End(result[j]) <= Budget
  {
    var newSequences := sequences;
    var sequence := newSequences[index];
    var subsequentDuration := SumDurations(sequences[index + 1..]);
    var maxDuration := Budget - sequence.startTime - subsequentDuration;
    var clampedDuration := Max(1, Min(newDuration, maxDuration));
    sequence := sequence.(duration := clampedDuration);
    assert sequence == sequences[index].(duration := ClampDuration(sequences, index, newDuration));
    sequence := Stamp(sequence);
    ReflowStart(sequences, index, newDuration, sequence);
    newSequences := newSequences[index := sequence];
    result := Waterfall(sequences, index, newDuration, newSequences);
    ReflowBounds(sequences, index, newDuration, result);
  }

  /**
   * The loop of `updateDuration`, once the target is in place: each later
   * entry moves to where its predecessor ends and is shortened to end by the
   * budget; the first one that would start at or past the budget is dropped
   * with everything after it.
   */
  method Waterfall(sequences: seq<TimelineSequence>, index: int, newDuration: int, start: seq<TimelineSequence>)
    returns (result: seq<TimelineSequence>)
    requires 0 <= index < |sequences|
    requires ReflowedUpTo(sequences, index, newDuration, start, index + 1)
    ensures IsReflow(sequences, index, newDuration, result)
  {
    var newSequences := start;
    var i := index + 1;
    while i < |newSequences|
      invariant ReflowedUpTo(sequences, index, newDuration, newSequences, i)
      decreases |newSequences| - i
    {
      var prevSequence := newSequences[i - 1];
      var entry := newSequences[i].(startTime := prevSequence.startTime + prevSequence.duration);
      if entry.startTime >= Budget {
        ReflowDone(sequences, index, newDuration, newSequences, i);
        return newSequences[..i];
      }
      var maxRemainingTime := Budget - entry.startTime;
      if entry.duration > maxRemainingTime {
        entry := entry.(duration := maxRemainingTime);
      }
      entry := Stamp(entry);
      ReflowStep(sequences, index, newDuration, newSequences, i, entry);
      newSequences := newSequences[i := entry];
      i := i + 1;
    }
    ReflowDone(sequences, index, newDuration, newSequences, i);
    assert newSequences[..i] == newSequences;
    result := newSequences;
  }

  /** Appending a consistently labelled entry keeps a list consistently labelled. */
  lemma LabelsSnoc(t: seq<TimelineSequence>, e: TimelineSequence)
    requires LabelsConsistent(t) && Labelled(e)
    ensures LabelsConsistent(t + [e])
  {
    forall j | 0 <= j < |t| + 1 ensures Labelled((t + [e])[j]) {
      if j < |t| {
        assert (t + [e])[j] == t[j];
      }
    }
  }

  /** After a re-flow the target lasts at least a second, and every later entry follows its predecessor and ends by the budget. */
  lemma ReflowBounds(s: seq<TimelineSequence>, index: int, requested: int, r: seq<TimelineSequence>)
    requires 0 <= index < |s| && ReflowedTimes(s, index, requested, r)
    ensures r[index].duration >= 1
    ensures forall j :: index < j < |r| ==> r[j].startTime == End(r[j - 1]) && End(r[j]) <= Budget
  {
    forall j | index < j < |r| ensures r[j].startTime == End(r[j - 1]) && End(r[j]) <= Budget {
      assert FlowsAt(s, r, j);
    }
  }

  /** Every surviving entry but the last ends before the budget: the next one was allowed to start. */
  lemma ReflowEndsBeforeNext(s: seq<TimelineSequence>, index: int, requested: int, r: seq<TimelineSequence>, k: int)
    requires 0 <= index < |s| && ReflowedTimes(s, index, requested, r)
    requires index <= k < |r| - 1
    ensures End(r[k]) < Budget
  {
    assert FlowsAt(s, r, k + 1);
  }

  /** Two re-flows of the same edit agree on every surviving entry, up to its label. */
  lemma {:induction false} ReflowAgree(s: seq<TimelineSequence>, index: int, requested: int,
                                       r1: seq<TimelineSequence>, r2: seq<TimelineSequence>, k: int)
    requires 0 <= index < |s|
    requires ReflowedTimes(s, index, requested, r1) && ReflowedTimes(s, index, requested, r2)
    requires 0 <= k < |r1| && k < |r2|
    ensures r1[k] == r2[k].(timestamp := r1[k].timestamp)
    ensures k < index ==> r1[k] == r2[k]
    decreases k
  {
    if k < index {
      assert r1[k] == r1[..index][k] == r2[..index][k] == r2[k];
    } else if k > index {
      ReflowAgree(s, index, requested, r1, r2, k - 1);
      assert FlowsAt(s, r1, k) && FlowsAt(s, r2, k);
    }
  }

  /** The re-flow is a function of its inputs: at most one list satisfies `IsReflow`. */
  lemma ReflowDeterministic(s: seq<TimelineSequence>, index: int, requested: int,
                            r1: seq<TimelineSequence>, r2: seq<TimelineSequence>)
    requires 0 <= index < |s|
    requires IsReflow(s, index, requested, r1) && IsReflow(s, index, requested, r2)
    ensures r1 == r2
  {
    if |r1| < |r2| {
      ReflowAgree(s, index, requested, r1, r2, |r1| - 1);
      ReflowEndsBeforeNext(s, index, requested, r2, |r1| - 1);
      assert false;
    }
    if |r2| < |r1| {
      ReflowAgree(s, index, requested, r1, r2, |r2| - 1);
      ReflowEndsBeforeNext(s, index, requested, r1, |r2| - 1);
      assert false;
    }
    forall k | 0 <= k < |r1| ensures r1[k] == r2[k].(timestamp := r1[k].timestamp) && (k < index ==> r1[k] == r2[k]) {
      ReflowAgree(s, index, requested, r1, r2, k);
    }
    SameTimesSameLabels(r1, r2, index);
  }

  /** Two timelines that differ at most in labels, and are labelled consistently where they may differ, are equal. */
  lemma SameTimesSameLabels(r1: seq<TimelineSequence>, r2: seq<TimelineSequence>, index: int)
    requires 0 <= index < |r1| == |r2|
    requires forall k :: 0 <= k < |r1| ==> r1[k] == r2[k].(timestamp := r1[k].timestamp) && (k < index ==> r1[k] == r2[k])
    requires LabelsConsistent(r1[index..]) && LabelsConsistent(r2[index..])
    ensures r1 == r2
  {
    forall k | index <= k < |r1| ensures r1[k] == r2[k] {
      assert r1[index..][k - index] == r1[k] && r2[index..][k - index] == r2[k];
      assert Labelled(r1[index..][k - index]) && Labelled(r2[index..][k - index]);
      assert r1[k].startTime == r2[k].startTime && End(r1[k]) == End(r2[k]);
    }
  }

  /**
   * On a timeline that fits, every surviving entry from the target on is
   * shifted by the change of the target's duration, and the later ones keep
   * their durations.
   */
  lemma {:induction false} ReflowShift(s: seq<TimelineSequence>, index: int, requested: int,
                                       r: seq<TimelineSequence>, k: int)
    requires Fits(s) && 0 <= index < |s| && ReflowedTimes(s, index, requested, r)
    requires index <= k < |r|
    ensures End(r[k]) == End(s[k]) + (r[index].duration - s[index].duration)
    ensures k > index ==> r[k].startTime == s[k].startTime + (r[index].duration - s[index].duration)
    ensures k > index ==> r[k].duration == s[k].duration
    decreases k
  {
    var delta := r[index].duration - s[index].duration;
    MaxDurationIsRoom(s, index);
    assert delta <= Budget - TotalDuration(s);
    if k > index {
      ReflowShift(s, index, requested, r, k - 1);
      assert FlowsAt(s, r, k);
      EndPlusRest(s, k);
      SumDurationsAtLeastLength(s[k + 1..]);
    }
  }

  /** On a timeline that fits, the waterfall never reaches the budget early, so no entry is dropped. */
  lemma ReflowKeepsAll(s: seq<TimelineSequence>, index: int, requested: int, r: seq<TimelineSequence>)
    requires Fits(s) && 0 <= index < |s| && ReflowedTimes(s, index, requested, r)
    ensures |r| == |s|
  {
    var last := |r| - 1;
    ReflowShift(s, index, requested, r, last);
    if last + 1 < |s| {
      MaxDurationIsRoom(s, index);
      SumDurationsAtLeastLength(s[last + 2..]);
      EndPlusRest(s, last + 1);
    }
  }

  /**
   * On a timeline that fits, the re-flow keeps every entry, shifts every
   * later one by the change of the target's duration without shortening it,
   * keeps the numbers, and fits again.
   */
  lemma ReflowFits(s: seq<TimelineSequence>, index: int, requested: int, r: seq<TimelineSequence>)
    requires Fits(s) && 0 <= index < |s| && ReflowedTimes(s, index, requested, r)
    ensures |r| == |s|
    ensures forall j :: index < j < |r| ==>
      r[j].duration == s[j].duration && r[j].startTime == s[j].startTime + (r[index].duration - s[index].duration)
    ensures forall j :: 0 <= j < |r| ==> r[j].sequence == s[j].sequence
    ensures Fits(r)
  {
    ReflowKeepsAll(s, index, requested, r);
    var delta := r[index].duration - s[index].duration;
    forall j | index <= j < |r|
      ensures End(r[j]) == End(s[j]) + delta
      ensures j > index ==> r[j].duration == s[j].duration && r[j].startTime == s[j].startTime + delta
    {
      ReflowShift(s, index, requested, r, j);
    }
    ReflowShape(s, index, requested, r);
    MaxDurationIsRoom(s, index);
    EndPlusRest(s, |s| - 1);
  }

  /** The re-flow keeps numbers, keeps every duration at least a second, and keeps the entries contiguous from 0. */
  lemma ReflowShape(s: seq<TimelineSequence>, index: int, requested: int, r: seq<TimelineSequence>)
    requires Fits(s) && 0 <= index < |s| && ReflowedTimes(s, index, requested, r)
    ensures forall j :: 0 <= j < |r| ==> r[j].sequence == s[j].sequence && r[j].duration >= 1
    ensures Contiguous(r) && r[0].startTime == 0
  {
    forall j | 0 <= j < |r| ensures r[j].sequence == s[j].sequence && r[j].duration >= 1 {
      if j < index {
        assert r[j] == r[..index][j];
      } else if j > index {
        assert FlowsAt(s, r, j);
      }
    }
    forall j | 0 < j < |r| ensures r[j].startTime == End(r[j - 1]) {
      if j < index {
        assert r[j] == r[..index][j] && r[j - 1] == r[..index][j - 1];
      } else if j > index {
        assert FlowsAt(s, r, j);
      } else {
        assert r[j - 1] == r[..index][j - 1];
      }
    }
    if index > 0 {
      assert r[0] == r[..index][0];
    }
  }

  /**
   * Editing a duration on a valid timeline drops no entry and shrinks none:
   * the later entries are only shifted, and the result is again valid.
   */
  lemma ReflowOnValid(s: seq<TimelineSequence>, index: int, requested: int, r: seq<TimelineSequence>)
    requires ValidTimeline(s) && 0 <= index < |s| && IsReflow(s, index, requested, r)
    ensures |r| == |s|
    ensures forall j :: index < j < |r| ==>
      r[j].duration == s[j].duration && r[j].startTime == s[j].startTime + (r[index].duration - s[index].duration)
    ensures ValidTimeline(r)
  {
    ReflowFits(s, index, requested, r);
    LabelsJoin(s, r, index);
  }

  /** A consistently labelled prefix followed by a consistently labelled rest is consistently labelled. */
  lemma LabelsJoin(s: seq<TimelineSequence>, r: seq<TimelineSequence>, index: int)
    requires 0 <= index <= |r| <= |s|
    requires r[..index] == s[..index] && LabelsConsistent(s) && LabelsConsistent(r[index..])
    ensures LabelsConsistent(r)
  {
    forall j | 0 <= j < |r| ensures Labelled(r[j]) {
      if j < index {
        assert r[j] == r[..index][j] == s[j];
      } else {
        assert r[index..][j - index] == r[j];
      }
    }
  }
}
