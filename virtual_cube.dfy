/** The simulator object of frontend/src/utils/VirtualCube.js: one mutable array of 54
    colour characters, changed in place by `cycle` and everything built on it. Each
    method is proved to leave the array holding exactly what the corresponding
    function of the Facelets and Algorithms modules computes from the old contents. */
module Simulator {
  import opened Text
  import opened Facelets
  import opened Algorithms

  class VirtualCube {
    var state: array<char>

    ghost predicate Valid()
      reads this
    {
      state.Length == 54
    }

    constructor()
      ensures Valid() && fresh(state) && state[..] == ResetState()
    {
      new;
      Reset();
    }

    /** `reset`: a fresh array holding the solved colouring. */
    method Reset()
      modifies this
      ensures Valid() && fresh(state) && state[..] == ResetState()
    {
      var colours := ResetState();
      state := new char[54](i => if 0 <= i < 54 then colours[i] else 'w');
    }

    /** `cycle(indices)`: the backwards shifting loop, then the saved last value at the front. */
    method Cycle(indices: seq<int>)
      requires Valid() && |indices| >= 1 && FaceletIndices(indices)
      modifies state
      ensures InBounds(old(state[..]), indices)
      ensures state[..] == Facelets.Cycle(old(state[..]), indices)
    {
      var last := |indices| - 1;
      var temp := state[indices[last]];
      var i := last;
      while i > 0
        invariant 0 <= i <= last
        invariant InBounds(state[..], indices)
        invariant Shift(state[..], indices, i) == Shift(old(state[..]), indices, last)
        decreases i
      {
        state[indices[i]] := state[indices[i - 1]];
        i := i - 1;
      }
      state[indices[0]] := temp;
    }

    /** `rotateFaceClockwise(base)`. */
    method RotateFaceClockwise(base: int)
      requires Valid() && 0 <= base <= 45
      modifies state
      ensures state[..] == Facelets.RotateFaceClockwise(old(state[..]), base)
    {
      Cycle([base + 0, base + 2, base + 8, base + 6]);
      Cycle([base + 1, base + 5, base + 7, base + 3]);
    }

    method MoveU()
      requires Valid()
      modifies state
      ensures state[..] == Turned(U, old(state[..]))
    {
      ghost var s0 := state[..];
      RotateFaceClockwise(0);
      Cycle([18, 36, 45, 9]);
      Cycle([19, 37, 46, 10]);
      Cycle([20, 38, 47, 11]);
      MoveUIsTurned(s0);
    }

    method MoveD()
      requires Valid()
      modifies state
      ensures state[..] == Turned(D, old(state[..]))
    {
      ghost var s0 := state[..];
      RotateFaceClockwise(27);
      Cycle([24, 42, 51, 15]);
      Cycle([25, 43, 52, 16]);
      Cycle([26, 44, 53, 17]);
      MoveDIsTurned(s0);
    }

    method MoveL()
      requires Valid()
      modifies state
      ensures state[..] == Turned(L, old(state[..]))
    {
      ghost var s0 := state[..];
      RotateFaceClockwise(36);
      Cycle([18, 27, 53, 0]);
      Cycle([21, 30, 50, 3]);
      Cycle([24, 33, 47, 6]);
      MoveLIsTurned(s0);
    }

    method MoveR()
      requires Valid()
      modifies state
      ensures state[..] == Turned(R, old(state[..]))
    {
      ghost var s0 := state[..];
      RotateFaceClockwise(9);
      Cycle([26, 8, 45, 35]);
      Cycle([23, 5, 48, 32]);
      Cycle([20, 2, 51, 29]);
      MoveRIsTurned(s0);
    }

    method MoveF()
      requires Valid()
      modifies state
      ensures state[..] == Turned(F, old(state[..]))
    {
      ghost var s0 := state[..];
      RotateFaceClockwise(18);
      Cycle([6, 9, 29, 44]);
      Cycle([7, 12, 28, 41]);
      Cycle([8, 15, 27, 38]);
      MoveFIsTurned(s0);
    }

    method MoveB()
      requires Valid()
      modifies state
      ensures state[..] == Turned(B, old(state[..]))
    {
      ghost var s0 := state[..];
      RotateFaceClockwise(45);
      Cycle([2, 36, 33, 17]);
      Cycle([1, 39, 34, 14]);
      Cycle([0, 42, 35, 11]);
      MoveBIsTurned(s0);
    }

    method RotateX()
      requires Valid()
      modifies state
      ensures state[..] == Turned(X, old(state[..]))
    {
      ghost var s0 := state[..];
      MoveR();
      MoveL();
      MoveL();
      MoveL();
      QuadIndices(1, 19, 34, 46);
      QuadIndices(4, 22, 31, 49);
      QuadIndices(7, 25, 28, 52);
      Cycle([1, 19, 34, 46]);
      Cycle([4, 22, 31, 49]);
      Cycle([7, 25, 28, 52]);
      RotateXSteps(s0);
    }

    method RotateY()
      requires Valid()
      modifies state
      ensures state[..] == Turned(Y, old(state[..]))
    {
      ghost var s0 := state[..];
      RotateFaceClockwise(0);
      RotateFaceClockwise(27);
      RotateFaceClockwise(27);
      RotateFaceClockwise(27);
      ghost var faces := state[..];
      for i := 0 to 9
        invariant state[..] == YSlices(faces, i)
      {
        Cycle([18 + i, 9 + i, 45 + i, 36 + i]);
      }
      assert state[..] == Facelets.RotateY(s0);
      RotateYIsTurned(s0);
    }

    method RotateZ()
      requires Valid()
      modifies state
      ensures state[..] == Turned(Z, old(state[..]))
    {
      ghost var s0 := state[..];
      RotateFaceClockwise(18);
      RotateFaceClockwise(45);
      RotateFaceClockwise(45);
      RotateFaceClockwise(45);
      QuadIndices(0, 38, 35, 11);
      QuadIndices(1, 41, 34, 14);
      QuadIndices(2, 44, 33, 17);
      QuadIndices(3, 37, 32, 10);
      QuadIndices(4, 40, 31, 13);
      QuadIndices(5, 43, 30, 16);
      QuadIndices(6, 36, 29, 9);
      QuadIndices(7, 39, 28, 12);
      QuadIndices(8, 42, 27, 15);
      Cycle([0, 38, 35, 11]);
      Cycle([1, 41, 34, 14]);
      Cycle([2, 44, 33, 17]);
      Cycle([3, 37, 32, 10]);
      Cycle([4, 40, 31, 13]);
      Cycle([5, 43, 30, 16]);
      Cycle([6, 36, 29, 9]);
      Cycle([7, 39, 28, 12]);
      Cycle([8, 42, 27, 15]);
      assert state[..] == Facelets.RotateZ(s0);
      RotateZIsTurned(s0);
    }

    /** `move(m)`: `times` rounds of the switch on the upper-cased first letter. */
    method Move(m: string)
      requires Valid()
      modifies state
      ensures state[..] == Algorithms.Move(old(state[..]), m)
    {
      if m == "" {
        return;
      }
      var c := UpperChar(m[0]);
      var suffix := if |m| > 1 then m[1..] else "";
      var times := 1;
      if '\'' in suffix {
        times := 3;
      } else if '2' in suffix {
        times := 2;
      }
      assert times == RepeatCount(suffix);
      ghost var start := state[..];
      Rounds(c, times);
      if TurnOfLetter(c).Some? {
        MoveReads(start, m);
        assert m[1..] == suffix;
      }
    }

    /** The loop of `move`: `times` rounds of the switch on letter c. */
    method Rounds(c: char, times: nat)
      requires Valid()
      modifies state
      ensures TurnOfLetter(c).None? ==> state[..] == old(state[..])
      ensures TurnOfLetter(c).Some? ==> state[..] == Repeat(TurnOfLetter(c).value, old(state[..]), times)
    {
      ghost var start := state[..];
      ghost var turn := TurnOfLetter(c);
      var i := 0;
      while i < times
        invariant 0 <= i <= times
        invariant turn.None? ==> state[..] == start
        invariant turn.Some? ==> state[..] == Repeat(turn.value, start, i)
      {
        Switch(c);
        if turn.Some? {
          RepeatLast(turn.value, start, i);
        }
        i := i + 1;
      }
    }

    /** The `switch` inside the loop of `move`: one turn for a known letter, nothing otherwise. */
    method Switch(c: char)
      requires Valid()
      modifies state
      ensures TurnOfLetter(c).None? ==> state[..] == old(state[..])
      ensures TurnOfLetter(c).Some? ==> state[..] == Turned(TurnOfLetter(c).value, old(state[..]))
    {
      match c {
        case 'U' => MoveU();
        case 'D' => MoveD();
        case 'L' => MoveL();
        case 'R' => MoveR();
        case 'F' => MoveF();
        case 'B' => MoveB();
        case 'X' => RotateX();
        case 'Y' => RotateY();
        case 'Z' => RotateZ();
        case _ =>
      }
    }

    /** `applyAlgorithm(alg)`: each token of the trimmed, split string, left to right. */
    method ApplyAlgorithm(alg: string)
      requires Valid()
      modifies state
      ensures state[..] == Algorithms.ApplyAlgorithm(old(state[..]), alg)
    {
      if alg == "" {
        return;
      }
      var moves := Tokens(alg);
      var i := 0;
      while i < |moves|
        invariant 0 <= i <= |moves|
        invariant ApplyTokens(state[..], moves[i..]) == ApplyTokens(old(state[..]), moves)
      {
        assert moves[i..][1..] == moves[i + 1..];
        Move(moves[i]);
        i := i + 1;
      }
    }

    /** The body of the `forEach` in `applyAlgorithmWithRotations`. */
    method RotationStep(m: string)
      requires Valid()
      modifies state
      ensures state[..] == Algorithms.RotationStep(old(state[..]), m)
    {
      ghost var s := state[..];
      if m != "" && LowerChar(m[0]) == 'y' {
        if m == "y" {
          RotateY();
        } else if m == "y'" {
          RotateY(); RotateY(); RotateY();
        } else if m == "y2" {
          RotateY(); RotateY();
        }
      } else if m != "" && LowerChar(m[0]) == 'x' {
        if m == "x" {
          RotateX();
        } else if m == "x'" {
          RotateX(); RotateX(); RotateX();
        } else if m == "x2" {
          RotateX(); RotateX();
        }
      } else if m != "" && LowerChar(m[0]) == 'z' {
        if m == "z" {
          RotateZ();
        } else if m == "z'" {
          RotateZ(); RotateZ(); RotateZ();
        } else if m == "z2" {
          RotateZ(); RotateZ();
        }
      } else {
        Move(m);
      }
      RepeatUnfold(Y, s);
      RepeatUnfold(X, s);
      RepeatUnfold(Z, s);
    }

    /** `applyAlgorithmWithRotations(alg)`. */
    method ApplyAlgorithmWithRotations(alg: string)
      requires Valid()
      modifies state
      ensures state[..] == Algorithms.ApplyAlgorithmWithRotations(old(state[..]), alg)
    {
      if alg == "" {
        return;
      }
      var moves := Tokens(alg);
      var i := 0;
      while i < |moves|
        invariant 0 <= i <= |moves|
        invariant ApplyTokensWithRotations(state[..], moves[i..]) == ApplyTokensWithRotations(old(state[..]), moves)
      {
        assert moves[i..][1..] == moves[i + 1..];
        RotationStep(moves[i]);
        i := i + 1;
      }
    }
  }

  /** Indices that are valid positions of a 54-facelet state. */
  predicate FaceletIndices(idx: seq<int>)
  {
    forall j :: 0 <= j < |idx| ==> 0 <= idx[j] < 54
  }

  lemma QuadIndices(a: int, b: int, c: int, d: int)
    requires 0 <= a < 54 && 0 <= b < 54 && 0 <= c < 54 && 0 <= d < 54
    ensures FaceletIndices([a, b, c, d])
  {
  }
}
