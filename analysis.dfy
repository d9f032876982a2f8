/** The `analyzedSteps` computation of frontend/src/CubeSolver.jsx: one simulator is
    scrambled, then each group of the solution is applied in turn and classified from
    the checkers read before and after it. */
module Analysis {
  import opened Wrappers
  import opened Text
  import opened Facelets
  import opened Checkers
  import opened Algorithms
  import opened StepAnalyzer
  import opened Simulator

  /** `[f2l.fr, f2l.fl, f2l.bl, f2l.br].filter(Boolean).length`. */
  function SlotCount(st: F2LStatus): (n: nat)
    ensures n <= 4
    ensures n == 4 <==> AllSlots(st)
    ensures n == 0 <==> !st.fr && !st.fl && !st.bl && !st.br
  {
    Indicator(st.fr) + Indicator(st.fl) + Indicator(st.bl) + Indicator(st.br)
  }

  /** The stage after a group: the first of cross, slots and OLL still missing, else PLL. */
  function StageOf(s: seq<char>): (st: Stage)
    requires IsState(s)
    ensures st == CROSS <==> !CheckCross(s)
    ensures st == PLL <==> CheckF2L(s) && CheckOLL(s)
    ensures st == F2L <==> CheckCross(s) && !CheckF2L(s)
    ensures st == OLL <==> CheckF2L(s) && !CheckOLL(s)
  {
    if !CheckCross(s) then CROSS
    else if !AllSlots(GetF2LStatus(s)) then F2L
    else if !CheckOLL(s) then OLL
    else PLL
  }

  /** The `diff` object: changes of the cross count, newly filled slots, newly solved
      OLL and PLL, and the cross and slots after the group. */
  function ComputeDiff(before: seq<char>, after: seq<char>): (d: Diff)
    requires IsState(before) && IsState(after)
    ensures -4 <= d.crossChange <= 4
    ensures d.crossChange + CrossCount(before) == CrossCount(after)
    ensures d.f2lChange.fr <==> !GetF2LStatus(before).fr && GetF2LStatus(after).fr
    ensures d.f2lChange.fl <==> !GetF2LStatus(before).fl && GetF2LStatus(after).fl
    ensures d.f2lChange.bl <==> !GetF2LStatus(before).bl && GetF2LStatus(after).bl
    ensures d.f2lChange.br <==> !GetF2LStatus(before).br && GetF2LStatus(after).br
    ensures d.ollSolved <==> !CheckOLL(before) && CheckOLL(after)
    ensures d.pllSolved <==> !CheckPLL(before) && CheckPLL(after)
    ensures d.isCrossDone == CheckCross(after) && d.isF2LDone == AllSlots(GetF2LStatus(after))
  {
    var prev := GetF2LStatus(before);
    var f2l := GetF2LStatus(after);
    Diff(CrossCount(after) - CrossCount(before),
         F2LChange(f2l.fr && !prev.fr, f2l.fl && !prev.fl, f2l.bl && !prev.bl, f2l.br && !prev.br),
         CheckOLL(after) && !CheckOLL(before), CheckPLL(after) && !CheckPLL(before),
         CheckCross(after), f2l.fr && f2l.fl && f2l.bl && f2l.br)
  }

  function CountsOf(after: seq<char>): (c: Counts)
    requires IsState(after)
    ensures 0 <= c.cross <= 4 && 0 <= c.f2l <= 4
  {
    Counts(CrossCount(after), SlotCount(GetF2LStatus(after)))
  }

  /** The simulator's contents once the scramble and the first k groups are applied. */
  function StateAfter(scramble: string, groups: seq<string>, k: nat): (s: seq<char>)
    requires k <= |groups|
    ensures IsState(s)
  {
    if k == 0 then ApplyAlgorithmWithRotations(ResetState(), scramble)
    else ApplyAlgorithmWithRotations(StateAfter(scramble, groups, k - 1), groups[k - 1])
  }

  /** The record for group k: analysed with the stage, diff and counts around it. */
  function StepAt(catalogue: seq<Pattern>, scramble: string, groups: seq<string>, k: nat): StepRecord
    requires k < |groups|
  {
    var before := StateAfter(scramble, groups, k);
    var after := ApplyAlgorithmWithRotations(before, groups[k]);
    AnalyzeStep(catalogue, groups[k], k, |groups|, Some(StageOf(after)), Some(ComputeDiff(before, after)), Some(CountsOf(after)))
  }

  /** The body of one `analyzedSteps` iteration between the two snapshots: the checker
      readings before and after the group, the `diff` built from them and the stage
      chosen by the if-chain. */
  method ClassifyGroup(before: seq<char>, after: seq<char>) returns (stage: Stage, diff: Diff, counts: Counts)
    requires IsState(before) && IsState(after)
    ensures stage == StageOf(after) && diff == ComputeDiff(before, after) && counts == CountsOf(after)
  {
    var prevCross: int := CrossCount(before);
    var prevF2L := GetF2LStatus(before);
    var prevOLL := CheckOLL(before);
    var prevPLL := CheckPLL(before);

    var cross: int := CrossCount(after);
    var f2l := GetF2LStatus(after);
    var isCrossDone := CheckCross(after);
    var isOLL := CheckOLL(after);
    var isPLL := CheckPLL(after);

    diff := Diff(cross - prevCross,
                 F2LChange(f2l.fr && !prevF2L.fr, f2l.fl && !prevF2L.fl, f2l.bl && !prevF2L.bl, f2l.br && !prevF2L.br),
                 isOLL && !prevOLL, isPLL && !prevPLL, isCrossDone, f2l.fr && f2l.fl && f2l.bl && f2l.br);

    stage := PLL;
    if !isCrossDone {
      stage := CROSS;
    } else if !diff.isF2LDone {
      stage := F2L;
    } else if !isOLL {
      stage := OLL;
    }
    counts := Counts(cross, SlotCount(f2l));
  }

  lemma ExtendSteps(catalogue: seq<Pattern>, scramble: string, groups: seq<string>, steps: seq<StepRecord>, step: StepRecord)
    requires |steps| < |groups|
    requires forall k :: 0 <= k < |steps| ==> steps[k] == StepAt(catalogue, scramble, groups, k)
    requires step == StepAt(catalogue, scramble, groups, |steps|)
    ensures forall k :: 0 <= k < |steps| + 1 ==> (steps + [step])[k] == StepAt(catalogue, scramble, groups, k)
  {
    forall k | 0 <= k < |steps| + 1
      ensures (steps + [step])[k] == StepAt(catalogue, scramble, groups, k)
    {
      ConcatIndex(steps, step, k);
      if k < |steps| {
        assert steps[k] == StepAt(catalogue, scramble, groups, k);
      }
    }
  }

  lemma ConcatIndex<T>(r: seq<T>, x: T, k: nat)
    requires k <= |r|
    ensures (r + [x])[k] == if k < |r| then r[k] else x
  {
  }

  /** One iteration of `analyzedSteps`: read the checkers, apply the group to the
      simulator, read them again and analyse the group. */
  method AnalyzeGroup(v: VirtualCube, catalogue: seq<Pattern>, scramble: string, groups: seq<string>, index: nat) returns (step: StepRecord)
    requires index < |groups| && v.Valid()
    requires v.state[..] == StateAfter(scramble, groups, index)
    modifies v.state
    ensures v.state[..] == StateAfter(scramble, groups, index + 1)
    ensures step == StepAt(catalogue, scramble, groups, index)
  {
    var moves := groups[index];
    var before := v.state[..];
    v.ApplyAlgorithmWithRotations(moves);
    var after := v.state[..];
    var stage, diff, counts := ClassifyGroup(before, after);
    step := AnalyzeStep(catalogue, moves, index, |groups|, Some(stage), Some(diff), Some(counts));
  }

  /** `analyzedSteps`: the scramble and then each group applied to one simulator. */
  method AnalyzeSteps(catalogue: seq<Pattern>, scramble: string, groups: seq<string>) returns (steps: seq<StepRecord>)
    ensures |steps| == |groups|
    ensures forall k :: 0 <= k < |groups| ==> steps[k] == StepAt(catalogue, scramble, groups, k)
  {
    var v := new VirtualCube();
    v.ApplyAlgorithmWithRotations(scramble);
    steps := [];
    var index := 0;
    while index < |groups|
      invariant 0 <= index <= |groups| && v.Valid() && fresh(v.state)
      invariant v.state[..] == StateAfter(scramble, groups, index)
      invariant |steps| == index
      invariant forall k :: 0 <= k < index ==> steps[k] == StepAt(catalogue, scramble, groups, k)
    {
      var step := AnalyzeGroup(v, catalogue, scramble, groups, index);
      ExtendSteps(catalogue, scramble, groups, steps, step);
      steps := steps + [step];
      index := index + 1;
    }
  }

  // ---------------------------------------------------------------------------
  // Properties of the classification
  // ---------------------------------------------------------------------------

  /** Every step's stage is the simulated one, and a step is classified PLL exactly when
      its result has the cross, all four slots and a solved U face. */
  lemma StepStage(catalogue: seq<Pattern>, scramble: string, groups: seq<string>, k: nat)
    requires k < |groups|
    ensures var s := StateAfter(scramble, groups, k + 1);
      StepAt(catalogue, scramble, groups, k).stage == Some(StageOf(s))
      && (StepAt(catalogue, scramble, groups, k).stage == Some(PLL) <==> CheckCross(s) && AllSlots(GetF2LStatus(s)) && CheckOLL(s))
  {
  }

  /** The D face of the reset cube is yellow while the cross checks look for white, so a
      cube left solved by the scramble is still classified CROSS. */
  lemma SolvedCubeIsCrossStage()
    ensures StageOf(ResetState()) == CROSS
  {
    ResetChecks();
  }

  /** A cube whose D face is white is classified PLL exactly when it is solved up to the
      D face. */
  lemma SolvedWhiteDownIsPLL(s: seq<char>)
    requires IsState(s) && CheckSolved(s) && s[31] == White
    ensures StageOf(s) == PLL
  {
    SolvedCrossIffWhiteDown(s);
    CheckerChain(s);
  }

  /** Tokens that all name U quarter or half turns. */
  predicate AllUTurns(ts: seq<string>)
  {
    forall i :: 0 <= i < |ts| ==> TokenTurn(ts[i]) == Some(U)
  }

  lemma {:induction false} UTurnTokensKeepLowerLayers(s: seq<char>, ts: seq<string>)
    requires IsState(s) && AllUTurns(ts)
    ensures SameLowerLayers(s, ApplyTokensWithRotations(s, ts))
    decreases |ts|
  {
    if ts != [] {
      var m := ts[0];
      assert TokenTurn(m) == Some(U);
      assert LowerChar(m[0]) !in "xyz" by {
        assert UpperChar(m[0]) == 'U';
      }
      assert !IgnoredRotation(m);
      RotationStepIs(s, m);
      MoveReads(s, m);
      var s1 := RotationStep(s, m);
      RepeatUKeepsLowerLayers(s, RepeatCount(m[1..]));
      assert AllUTurns(ts[1..]) by {
        forall i | 0 <= i < |ts[1..]| ensures TokenTurn(ts[1..][i]) == Some(U) { assert ts[1..][i] == ts[i + 1]; }
      }
      UTurnTokensKeepLowerLayers(s1, ts[1..]);
      SameLowerLayersTrans(s, s1, ApplyTokensWithRotations(s1, ts[1..]));
    }
  }

  /** A group made only of U turns is never credited with a cross edge or a slot: the
      cross count, the cross check and every slot flag are as before it. */
  lemma UTurnGroupChangesNoLowerProgress(scramble: string, groups: seq<string>, k: nat)
    requires k < |groups| && AllUTurns(Tokens(groups[k]))
    ensures var d := ComputeDiff(StateAfter(scramble, groups, k), StateAfter(scramble, groups, k + 1));
      d.crossChange == 0 && d.f2lChange == F2LChange(false, false, false, false)
      && d.isCrossDone == CheckCross(StateAfter(scramble, groups, k))
  {
    var before := StateAfter(scramble, groups, k);
    var after := StateAfter(scramble, groups, k + 1);
    if groups[k] != "" {
      UTurnTokensKeepLowerLayers(before, Tokens(groups[k]));
    }
    LowerCheckersAgree(before, after);
  }
}
