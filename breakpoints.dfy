/** The step/time breakpoints of frontend/src/CubeSolver.jsx: the running token count
    that maps each step of the solution to the index of its last move
    (`stepToLeafIndexMap`), the end-of-step timestamps read from the player's indexer,
    and the fallback of 1.5 seconds per step used when those timestamps are rejected. */
module Breakpoints {
  import opened Wrappers
  import opened Text

  /** One `{ stepIndex, endLeafIndex }` record. */
  datatype LeafEntry = LeafEntry(stepIndex: nat, endLeafIndex: nat)

  /** A token count: `split` always yields at least one piece. */
  type Count = n: nat | n >= 1 witness 1

  /** `moveLine.trim().split(/\s+/).length`; a blank line still counts one token. */
  function LeafCount(line: string): Count
  {
    |Tokens(line)|
  }

  /** The token count of every line. */
  function LeafCounts(moves: seq<string>): (cs: seq<Count>)
    ensures |cs| == |moves|
  {
    seq(|moves|, i requires 0 <= i < |moves| => LeafCount(moves[i]))
  }

  /** The sum of a sequence of counts: over the counts of the first i lines, the value
      `cumulative` holds after line i - 1. */
  function Sum(cs: seq<Count>): nat
  {
    if cs == [] then 0 else Sum(cs[..|cs| - 1]) + cs[|cs| - 1]
  }

  /** The running sum of the counts of the first i lines. */
  function EndLeaf(moves: seq<string>, i: nat): nat
    requires i <= |moves|
  {
    Sum(LeafCounts(moves)[..i])
  }

  /** `stepToLeafIndexMap`: step i ends after the tokens of lines 0..i. */
  method StepToLeafIndexMap(moves: seq<string>) returns (entries: seq<LeafEntry>)
    ensures |entries| == |moves|
    ensures forall i :: 0 <= i < |moves| ==> entries[i] == LeafEntry(i, EndLeaf(moves, i + 1))
  {
    ghost var cs := LeafCounts(moves);
    entries := [];
    var cumulative: nat := 0;
    var i := 0;
    while i < |moves|
      invariant 0 <= i <= |moves|
      invariant cumulative == Sum(cs[..i])
      invariant |entries| == i
      invariant forall k :: 0 <= k < i ==> entries[k] == LeafEntry(k, Sum(cs[..k + 1]))
    {
      var count := LeafCount(moves[i]);
      SumSnoc(cs, i);
      cumulative := cumulative + count;
      entries := entries + [LeafEntry(i, cumulative)];
      i := i + 1;
    }
  }

  /** Extending the prefix by one adds the next count. */
  lemma SumSnoc(cs: seq<Count>, i: nat)
    requires i < |cs|
    ensures Sum(cs[..i + 1]) == Sum(cs[..i]) + cs[i]
  {
    assert cs[..i + 1][..i] == cs[..i];
  }

  /** The sum is at least the length. */
  lemma {:induction false} SumAtLeast(cs: seq<Count>)
    ensures Sum(cs) >= |cs|
    decreases |cs|
  {
    if cs != [] {
      SumAtLeast(cs[..|cs| - 1]);
    }
  }

  /** A longer prefix has a strictly larger sum. */
  lemma {:induction false} SumIncreases(cs: seq<Count>, i: nat, j: nat)
    requires i < j <= |cs|
    ensures Sum(cs[..i]) < Sum(cs[..j])
    decreases j - i
  {
    SumSnoc(cs, j - 1);
    if i < j - 1 {
      SumIncreases(cs, i, j - 1);
    }
  }

  /** The end indices of `stepToLeafIndexMap` strictly increase, and the end index of
      step i is at least i + 1, so `endLeafIndex - 1` is never negative. */
  lemma EndLeavesIncrease(moves: seq<string>, i: nat, j: nat)
    requires i < j < |moves|
    ensures EndLeaf(moves, i + 1) < EndLeaf(moves, j + 1)
    ensures EndLeaf(moves, i + 1) >= i + 1
  {
    PrefixSums(LeafCounts(moves), i, j);
  }

  lemma PrefixSums(cs: seq<Count>, i: nat, j: nat)
    requires i < j < |cs|
    ensures Sum(cs[..i + 1]) < Sum(cs[..j + 1])
    ensures Sum(cs[..i + 1]) >= i + 1
  {
    SumIncreases(cs, i + 1, j + 1);
    SumAtLeast(cs[..i + 1]);
  }

  // ---------------------------------------------------------------------------
  // Timestamps
  // ---------------------------------------------------------------------------

  /** What the indexer reports for one move: `indexToMoveStartTimestamp` and
      `moveDuration`. */
  datatype MoveTiming = MoveTiming(start: real, duration: real)

  /** The breakpoint list and the total duration handed to the playback loop. */
  datatype Schedule = Schedule(stamps: seq<real>, duration: real)

  /** The stamp of one step: the end of its last move, 0 when `endLeafIndex - 1` is
      negative or the indexer throws (modelled by `timing` giving None). */
  function StampOf(timing: int -> Option<MoveTiming>, e: LeafEntry): real
  {
    var mIdx := e.endLeafIndex - 1;
    if mIdx < 0 then 0.0
    else match timing(mIdx)
      case None => 0.0
      case Some(t) => t.start + t.duration
  }

  function Stamps(timing: int -> Option<MoveTiming>, entries: seq<LeafEntry>): seq<real>
  {
    seq(|entries|, i requires 0 <= i < |entries| => StampOf(timing, entries[i]))
  }

  /** `stamps.filter(s => s > 0)`. */
  function Positive(xs: seq<real>): seq<real>
  {
    if xs == [] then [] else Positive(xs[..|xs| - 1]) + (if xs[|xs| - 1] > 0.0 then [xs[|xs| - 1]] else [])
  }

  /** The fallback: step i ends at (i + 1) * 1500 ms and the duration is the last of those.
      With no steps the source reads past the end of an empty list; 0 stands for that. */
  function Fallback(entries: seq<LeafEntry>): Schedule
  {
    var stamps := seq(|entries|, i requires 0 <= i < |entries| => (i + 1) as real * 1500.0);
    Schedule(stamps, if |stamps| > 0 then stamps[|stamps| - 1] else 0.0)
  }

  /** `waitForIndexer`: `indexer` is None when the model or its indexer is not ready. The
      stamps are kept with the last positive one (or 5000) as duration unless fewer are
      positive than there are steps; otherwise, and when the indexer is missing, the
      fallback is used. */
  function LoadBreakpoints(indexer: Option<int -> Option<MoveTiming>>, entries: seq<LeafEntry>): Schedule
  {
    match indexer
    case None => Fallback(entries)
    case Some(timing) =>
      var stamps := Stamps(timing, entries);
      var valid := Positive(stamps);
      var totalDur := if |valid| > 0 then valid[|valid| - 1] else 5000.0;
      if |valid| < |entries| then Fallback(entries) else Schedule(stamps, totalDur)
  }

  predicate AllPositive(xs: seq<real>)
  {
    forall i :: 0 <= i < |xs| ==> xs[i] > 0.0
  }

  /** The filter keeps every element exactly when all are positive, and then it is the
      identity; otherwise it keeps fewer. */
  lemma {:induction false} PositiveLength(xs: seq<real>)
    ensures |Positive(xs)| <= |xs|
    ensures |Positive(xs)| == |xs| <==> AllPositive(xs)
    ensures AllPositive(xs) ==> Positive(xs) == xs
    decreases |xs|
  {
    if xs != [] {
      var init := xs[..|xs| - 1];
      PositiveLength(init);
      if AllPositive(xs) {
        assert AllPositive(init) by {
          forall i | 0 <= i < |init| ensures init[i] > 0.0 { assert init[i] == xs[i]; }
        }
        assert xs == init + [xs[|xs| - 1]];
      } else if AllPositive(init) {
        assert xs[|xs| - 1] <= 0.0;
      }
    }
  }

  /** The indexer's stamps are accepted exactly when the indexer is there and every stamp
      is positive; they then come back unchanged with the last one as duration (5000 for
      no steps at all). */
  lemma LoadAccepted(indexer: Option<int -> Option<MoveTiming>>, entries: seq<LeafEntry>)
    ensures indexer.Some? && AllPositive(Stamps(indexer.value, entries)) ==>
      var stamps := Stamps(indexer.value, entries);
      LoadBreakpoints(indexer, entries)
        == Schedule(stamps, if |stamps| > 0 then stamps[|stamps| - 1] else 5000.0)
    ensures !(indexer.Some? && AllPositive(Stamps(indexer.value, entries))) ==>
      LoadBreakpoints(indexer, entries) == Fallback(entries)
  {
    if indexer.Some? {
      PositiveLength(Stamps(indexer.value, entries));
    }
  }

  /** The fallback stamps are positive and strictly increasing, one per step. */
  lemma FallbackShape(entries: seq<LeafEntry>)
    ensures var b := Fallback(entries);
      && |b.stamps| == |entries| && AllPositive(b.stamps)
      && (forall i, j :: 0 <= i < j < |b.stamps| ==> b.stamps[i] < b.stamps[j])
      && (forall i :: 0 <= i < |b.stamps| ==> b.stamps[i] == (i + 1) as real * 1500.0)
  {
  }

  /** Whichever way the breakpoints are derived, there is one per step, every one is
      positive, and for a non-empty solution the duration is the last of them. */
  lemma LoadShape(indexer: Option<int -> Option<MoveTiming>>, entries: seq<LeafEntry>)
    ensures var b := LoadBreakpoints(indexer, entries);
      && |b.stamps| == |entries| && AllPositive(b.stamps)
      && (|entries| > 0 ==> b.duration == b.stamps[|b.stamps| - 1])
  {
    LoadAccepted(indexer, entries);
    FallbackShape(entries);
  }

  /** For the entries `stepToLeafIndexMap` builds, the stamp of step i is read from the
      indexer at the step's last move, never from the `mIdx < 0` branch. */
  lemma StampReadsLastMove(timing: int -> Option<MoveTiming>, moves: seq<string>, i: nat)
    requires i < |moves|
    ensures var end := EndLeaf(moves, i + 1);
      end - 1 >= i
      && StampOf(timing, LeafEntry(i, end))
         == (match timing(end - 1) case None => 0.0 case Some(t) => t.start + t.duration)
  {
    SumAtLeast(LeafCounts(moves)[..i + 1]);
  }
}
