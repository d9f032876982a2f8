/** The 54 facelets of the simulated cube as a pure value, and every move the
    simulator builds from its one primitive, the four-index cycle.

    Facelets 0-8 are U, 9-17 R, 18-26 F, 27-35 D, 36-44 L and 45-53 B; within a face
    the nine indices run row by row, so base + 4 is the centre.  Every move below
    uses the index lists of frontend/src/utils/VirtualCube.js exactly as written. */
module Facelets {

  /** A cube state is a sequence of 54 colour characters. */
  predicate IsState(s: seq<char>) { |s| == 54 }

  /** The colour `reset` gives to the face starting at `9 * face`. */
  function ResetColour(face: int): char
  {
    if face == 0 then 'w' else if face == 1 then 'r' else if face == 2 then 'g'
    else if face == 3 then 'y' else if face == 4 then 'o' else 'b'
  }

  /** The state `reset` builds: six blocks of nine equal letters. */
  function ResetState(): (s: seq<char>)
    ensures |s| == 54
    ensures forall i :: 0 <= i < 9 ==> s[i] == 'w'
    ensures forall i :: 9 <= i < 18 ==> s[i] == 'r'
    ensures forall i :: 18 <= i < 27 ==> s[i] == 'g'
    ensures forall i :: 27 <= i < 36 ==> s[i] == 'y'
    ensures forall i :: 36 <= i < 45 ==> s[i] == 'o'
    ensures forall i :: 45 <= i < 54 ==> s[i] == 'b'
  {
    "wwwwwwwww" + "rrrrrrrrr" + "ggggggggg" + "yyyyyyyyy" + "ooooooooo" + "bbbbbbbbb"
  }

  // ---------------------------------------------------------------------------
  // The primitive: cycle(indices)
  // ---------------------------------------------------------------------------

  predicate InBounds(s: seq<char>, idx: seq<int>)
  {
    forall j :: 0 <= j < |idx| ==> 0 <= idx[j] < |s|
  }

  /** The backwards loop of `cycle`: for j = i down to 1, position idx[j] takes the
      current value at idx[j - 1]. */
  function Shift(s: seq<char>, idx: seq<int>, i: nat): (r: seq<char>)
    requires i < |idx| && InBounds(s, idx)
    ensures |r| == |s|
    decreases i
  {
    if i == 0 then s else Shift(s[idx[i] := s[idx[i - 1]]], idx, i - 1)
  }

  /** `cycle(indices)`: save the value at the last index, shift backwards, and put
      the saved value at the first index. */
  function Cycle(s: seq<char>, idx: seq<int>): (r: seq<char>)
    requires |idx| >= 1 && InBounds(s, idx)
    ensures |r| == |s|
  {
    Shift(s, idx, |idx| - 1)[idx[0] := s[idx[|idx| - 1]]]
  }

  /** Where the value that a four-cycle puts at k comes from. */
  function CycleOrigin(a: int, b: int, c: int, d: int, k: int): int
  {
    if k == b then a else if k == c then b else if k == d then c else if k == a then d else k
  }

  predicate Distinct4(a: int, b: int, c: int, d: int)
  {
    a != b && a != c && a != d && b != c && b != d && c != d
  }

  /** On four distinct indices, `cycle` moves the value at a to b, b to c, c to d and
      d to a, and leaves every other position alone. */
  lemma CycleAt(s: seq<char>, a: int, b: int, c: int, d: int, k: int)
    requires 0 <= a < |s| && 0 <= b < |s| && 0 <= c < |s| && 0 <= d < |s| && 0 <= k < |s|
    requires Distinct4(a, b, c, d)
    ensures 0 <= CycleOrigin(a, b, c, d, k) < |s|
    ensures Cycle(s, [a, b, c, d])[k] == s[CycleOrigin(a, b, c, d, k)]
  {
    var idx := [a, b, c, d];
    var s1 := s[d := s[c]];
    var s2 := s1[c := s1[b]];
    var s3 := s2[b := s2[a]];
    assert Shift(s, idx, 3) == Shift(s1, idx, 2) == Shift(s2, idx, 1) == Shift(s3, idx, 0) == s3;
  }

  /** A single four-cycle, applied four times, is the identity. */
  lemma CycleOrigin4(a: int, b: int, c: int, d: int, k: int)
    requires Distinct4(a, b, c, d)
    ensures CycleOrigin(a, b, c, d, CycleOrigin(a, b, c, d, CycleOrigin(a, b, c, d, CycleOrigin(a, b, c, d, k)))) == k
  {
  }

  /** Cycling keeps the multiset of colours. */
  lemma CyclePermutes(s: seq<char>, a: int, b: int, c: int, d: int)
    requires 0 <= a < |s| && 0 <= b < |s| && 0 <= c < |s| && 0 <= d < |s|
    requires Distinct4(a, b, c, d)
    ensures multiset(Cycle(s, [a, b, c, d])) == multiset(s)
  {
    var idx := [a, b, c, d];
    var s1 := s[d := s[c]];
    var s2 := s1[c := s1[b]];
    var s3 := s2[b := s2[a]];
    var s4 := s3[a := s[d]];
    assert Shift(s, idx, 3) == Shift(s1, idx, 2) == Shift(s2, idx, 1) == Shift(s3, idx, 0) == s3;
    // read as four transpositions: swap(c,d), swap(b,c), swap(a,b)
    var t1 := s[c := s[d]][d := s[c]];
    var t2 := t1[b := t1[c]][c := t1[b]];
    var t3 := t2[a := t2[b]][b := t2[a]];
    assert t3 == s4;
    SwapPermutes(s, c, d);
    SwapPermutes(t1, b, c);
    SwapPermutes(t2, a, b);
  }

  lemma SwapPermutes(s: seq<char>, i: int, j: int)
    requires 0 <= i < |s| && 0 <= j < |s|
    ensures multiset(s[i := s[j]][j := s[i]]) == multiset(s)
  {
    if i != j {
      calc {
        multiset(s[i := s[j]][j := s[i]]);
        multiset(s[i := s[j]]) - multiset{s[i := s[j]][j]} + multiset{s[i]};
        multiset(s) - multiset{s[i]} + multiset{s[j]} - multiset{s[j]} + multiset{s[i]};
        multiset(s);
      }
    }
  }

  // ---------------------------------------------------------------------------
  // rotateFaceClockwise and the six face turns
  // ---------------------------------------------------------------------------

  /** `rotateFaceClockwise(base)`: corners, then edges, of the face at `base`. */
  function RotateFaceClockwise(s: seq<char>, base: int): (r: seq<char>)
    requires IsState(s) && 0 <= base <= 45
    ensures IsState(r)
  {
    Cycle(Cycle(s, [base + 0, base + 2, base + 8, base + 6]), [base + 1, base + 5, base + 7, base + 3])
  }

  function MoveU(s: seq<char>): (r: seq<char>) requires IsState(s) ensures IsState(r)
  {
    Cycle(Cycle(Cycle(RotateFaceClockwise(s, 0), [18, 36, 45, 9]), [19, 37, 46, 10]), [20, 38, 47, 11])
  }

  function MoveD(s: seq<char>): (r: seq<char>) requires IsState(s) ensures IsState(r)
  {
    Cycle(Cycle(Cycle(RotateFaceClockwise(s, 27), [24, 42, 51, 15]), [25, 43, 52, 16]), [26, 44, 53, 17])
  }

  function MoveL(s: seq<char>): (r: seq<char>) requires IsState(s) ensures IsState(r)
  {
    Cycle(Cycle(Cycle(RotateFaceClockwise(s, 36), [18, 27, 53, 0]), [21, 30, 50, 3]), [24, 33, 47, 6])
  }

  function MoveR(s: seq<char>): (r: seq<char>) requires IsState(s) ensures IsState(r)
  {
    Cycle(Cycle(Cycle(RotateFaceClockwise(s, 9), [26, 8, 45, 35]), [23, 5, 48, 32]), [20, 2, 51, 29])
  }

  function MoveF(s: seq<char>): (r: seq<char>) requires IsState(s) ensures IsState(r)
  {
    Cycle(Cycle(Cycle(RotateFaceClockwise(s, 18), [6, 9, 29, 44]), [7, 12, 28, 41]), [8, 15, 27, 38])
  }

  function MoveB(s: seq<char>): (r: seq<char>) requires IsState(s) ensures IsState(r)
  {
    Cycle(Cycle(Cycle(RotateFaceClockwise(s, 45), [2, 36, 33, 17]), [1, 39, 34, 14]), [0, 42, 35, 11])
  }

  // ---------------------------------------------------------------------------
  // The whole-cube rotations
  // ---------------------------------------------------------------------------

  /** `rotateX`: R, then L three times, then the three middle-column cycles. */
  function RotateX(s: seq<char>): (r: seq<char>) requires IsState(s) ensures IsState(r)
  {
    XSlices(MoveL(MoveL(MoveL(MoveR(s)))))
  }

  /** The three middle-column cycles that end `rotateX`. */
  function XSlices(t: seq<char>): (r: seq<char>) requires IsState(t) ensures IsState(r)
  {
    Cycle(Cycle(Cycle(t, [1, 19, 34, 46]), [4, 22, 31, 49]), [7, 25, 28, 52])
  }

  /** The indices `rotateY` cycles in round i of its loop. */
  function YSliceCycle(i: int): seq<int>
  {
    [18 + i, 9 + i, 45 + i, 36 + i]
  }

  /** The first n rounds of the loop in `rotateY`. */
  function YSlices(s: seq<char>, n: nat): (r: seq<char>)
    requires IsState(s) && n <= 9
    ensures IsState(r)
  {
    if n == 0 then s else Cycle(YSlices(s, n - 1), YSliceCycle(n - 1))
  }

  /** `rotateY`: U clockwise, D three times clockwise, then nine side cycles. */
  function RotateY(s: seq<char>): (r: seq<char>) requires IsState(s) ensures IsState(r)
  {
    var t := RotateFaceClockwise(s, 0);
    var t' := RotateFaceClockwise(RotateFaceClockwise(RotateFaceClockwise(t, 27), 27), 27);
    YSlices(t', 9)
  }

  /** `rotateZ`: F clockwise, B three times clockwise, then nine U/L/D/R cycles. */
  function RotateZ(s: seq<char>): (r: seq<char>) requires IsState(s) ensures IsState(r)
  {
    var t := RotateFaceClockwise(s, 18);
    var t' := RotateFaceClockwise(RotateFaceClockwise(RotateFaceClockwise(t, 45), 45), 45);
    ZSlices(t')
  }

  /** The nine U/L/D/R cycles that end `rotateZ`, three rows at a time. */
  function ZSlices(t: seq<char>): (r: seq<char>) requires IsState(t) ensures IsState(r)
  {
    var top := Cycle(Cycle(Cycle(t, [0, 38, 35, 11]), [1, 41, 34, 14]), [2, 44, 33, 17]);
    var mid := Cycle(Cycle(Cycle(top, [3, 37, 32, 10]), [4, 40, 31, 13]), [5, 43, 30, 16]);
    Cycle(Cycle(Cycle(mid, [6, 36, 29, 9]), [7, 39, 28, 12]), [8, 42, 27, 15])
  }

  // ---------------------------------------------------------------------------
  // The nine primitive turns as one type
  // ---------------------------------------------------------------------------

  /** The nine cases of the `switch` in `move`. */
  datatype Turn = U | D | L | R | F | B | X | Y | Z

  /** Turn t as the permutation it performs: position k receives the colour at
      Origin(t, k).  The lemmas MoveUIsTurned through RotateZIsTurned below prove that
      this is exactly what the cycles of the corresponding method do. */
  function Turned(t: Turn, s: seq<char>): (r: seq<char>)
    requires IsState(s)
    ensures IsState(r)
  {
    seq(54, k requires 0 <= k < 54 => s[Origin(t, k)])
  }

  /** Turn t as a step on any sequence; sequences that are not cube states are left
      as they are. */
  function TurnStep(t: Turn): seq<char> -> seq<char>
  {
    x => if IsState(x) then Turned(t, x) else x
  }

  /** n applications of one step, the first one first. */
  function Iterate(step: seq<char> -> seq<char>, s: seq<char>, n: nat): seq<char>
    decreases n
  {
    if n == 0 then s else Iterate(step, step(s), n - 1)
  }

  /** `times` repetitions of one turn, as the loop in `move` runs them. */
  function Repeat(t: Turn, s: seq<char>, times: nat): (r: seq<char>)
    requires IsState(s)
    ensures IsState(r)
  {
    IterateKeepsState(t, s, times);
    Iterate(TurnStep(t), s, times)
  }

  lemma {:induction false} IterateKeepsState(t: Turn, s: seq<char>, n: nat)
    requires IsState(s)
    ensures IsState(Iterate(TurnStep(t), s, n))
    decreases n
  {
    if n > 0 {
      IterateKeepsState(t, TurnStep(t)(s), n - 1);
    }
  }

  predicate IsFaceTurn(t: Turn) { t != X && t != Y && t != Z }

  // ---------------------------------------------------------------------------
  // Where each facelet's new colour comes from
  // ---------------------------------------------------------------------------

  function FaceOrigin(base: int, k: int): (r: int)
    ensures 0 <= base <= 45 && 0 <= k < 54 ==> 0 <= r < 54
  {
    CycleOrigin(base + 0, base + 2, base + 8, base + 6, CycleOrigin(base + 1, base + 5, base + 7, base + 3, k))
  }

  /** The three side cycles of moveU. */
  function USideOrigin(k: int): int
  {
    CycleOrigin(18, 36, 45, 9, CycleOrigin(19, 37, 46, 10, CycleOrigin(20, 38, 47, 11, k)))
  }

  function UOrigin(k: int): (r: int)
    ensures 0 <= k < 54 ==> 0 <= r < 54
  {
    FaceOrigin(0, USideOrigin(k))
  }

  /** The three side cycles of moveD. */
  function DSideOrigin(k: int): int
  {
    CycleOrigin(24, 42, 51, 15, CycleOrigin(25, 43, 52, 16, CycleOrigin(26, 44, 53, 17, k)))
  }

  function DOrigin(k: int): (r: int)
    ensures 0 <= k < 54 ==> 0 <= r < 54
  {
    FaceOrigin(27, DSideOrigin(k))
  }

  /** The three side cycles of moveL. */
  function LSideOrigin(k: int): int
  {
    CycleOrigin(18, 27, 53, 0, CycleOrigin(21, 30, 50, 3, CycleOrigin(24, 33, 47, 6, k)))
  }

  function LOrigin(k: int): (r: int)
    ensures 0 <= k < 54 ==> 0 <= r < 54
  {
    FaceOrigin(36, LSideOrigin(k))
  }

  /** The three side cycles of moveR. */
  function RSideOrigin(k: int): int
  {
    CycleOrigin(26, 8, 45, 35, CycleOrigin(23, 5, 48, 32, CycleOrigin(20, 2, 51, 29, k)))
  }

  function ROrigin(k: int): (r: int)
    ensures 0 <= k < 54 ==> 0 <= r < 54
  {
    FaceOrigin(9, RSideOrigin(k))
  }

  /** The three side cycles of moveF. */
  function FSideOrigin(k: int): int
  {
    CycleOrigin(6, 9, 29, 44, CycleOrigin(7, 12, 28, 41, CycleOrigin(8, 15, 27, 38, k)))
  }

  function FOrigin(k: int): (r: int)
    ensures 0 <= k < 54 ==> 0 <= r < 54
  {
    FaceOrigin(18, FSideOrigin(k))
  }

  /** The three side cycles of moveB. */
  function BSideOrigin(k: int): int
  {
    CycleOrigin(2, 36, 33, 17, CycleOrigin(1, 39, 34, 14, CycleOrigin(0, 42, 35, 11, k)))
  }

  function BOrigin(k: int): (r: int)
    ensures 0 <= k < 54 ==> 0 <= r < 54
  {
    FaceOrigin(45, BSideOrigin(k))
  }

  /** The middle-column cycles of `rotateX`. */
  function MOrigin(k: int): int
  {
    CycleOrigin(1, 19, 34, 46, CycleOrigin(4, 22, 31, 49, CycleOrigin(7, 25, 28, 52, k)))
  }

  function XOrigin(k: int): (r: int)
    ensures 0 <= k < 54 ==> 0 <= r < 54
  {
    ROrigin(LOrigin(LOrigin(LOrigin(MOrigin(k)))))
  }

  function YSliceOrigin(i: int, k: int): int
  {
    CycleOrigin(18 + i, 9 + i, 45 + i, 36 + i, k)
  }

  function YSlicesOrigin(n: nat, k: int): (r: int)
    ensures n <= 9 && 0 <= k < 54 ==> 0 <= r < 54
    decreases n
  {
    if n == 0 then k else YSlicesOrigin(n - 1, YSliceOrigin(n - 1, k))
  }

  function YOrigin(k: int): (r: int)
    ensures 0 <= k < 54 ==> 0 <= r < 54
  {
    FaceOrigin(0, FaceOrigin(27, FaceOrigin(27, FaceOrigin(27, YSlicesOrigin(9, k)))))
  }

  /** The nine U/L/D/R cycles of `rotateZ`. */
  function ZRingOrigin(k: int): int
  {
    CycleOrigin(0, 38, 35, 11, CycleOrigin(1, 41, 34, 14, CycleOrigin(2, 44, 33, 17,
    CycleOrigin(3, 37, 32, 10, CycleOrigin(4, 40, 31, 13, CycleOrigin(5, 43, 30, 16,
    CycleOrigin(6, 36, 29, 9, CycleOrigin(7, 39, 28, 12, CycleOrigin(8, 42, 27, 15, k)))))))))
  }

  function ZOrigin(k: int): (r: int)
    ensures 0 <= k < 54 ==> 0 <= r < 54
  {
    FaceOrigin(18, FaceOrigin(45, FaceOrigin(45, FaceOrigin(45, ZRingOrigin(k)))))
  }

  /** The origin map of each turn, as a function value, so that a proof about an
      unknown turn never sees the maps of all nine at once. */
  function OriginMap(t: Turn): int -> int
  {
    match t
    case U => UOrigin
    case D => DOrigin
    case L => LOrigin
    case R => ROrigin
    case F => FOrigin
    case B => BOrigin
    case X => XOrigin
    case Y => YOrigin
    case Z => ZOrigin
  }

  function Origin(t: Turn, k: int): (r: int)
    ensures 0 <= k < 54 ==> 0 <= r < 54
  {
    OriginMap(t)(k)
  }

  // ---------------------------------------------------------------------------
  // Each move is the permutation its origin map describes
  // ---------------------------------------------------------------------------

  lemma RotateFaceAt(s: seq<char>, base: int, k: int)
    requires IsState(s) && 0 <= base <= 45 && 0 <= k < 54
    ensures 0 <= FaceOrigin(base, k) < 54
    ensures RotateFaceClockwise(s, base)[k] == s[FaceOrigin(base, k)]
  {
    CycleAt(Cycle(s, [base + 0, base + 2, base + 8, base + 6]), base + 1, base + 5, base + 7, base + 3, k);
    CycleAt(s, base + 0, base + 2, base + 8, base + 6, CycleOrigin(base + 1, base + 5, base + 7, base + 3, k));
  }

  predicate Cycle4Ok(a: int, b: int, c: int, d: int)
  {
    0 <= a < 54 && 0 <= b < 54 && 0 <= c < 54 && 0 <= d < 54 && Distinct4(a, b, c, d)
  }

  /** Three consecutive four-cycles, each given by its four indices. */
  lemma ThreeCyclesAt(s: seq<char>, a1: int, b1: int, c1: int, d1: int, a2: int, b2: int, c2: int, d2: int,
                      a3: int, b3: int, c3: int, d3: int, k: int)
    requires IsState(s) && 0 <= k < 54
    requires Cycle4Ok(a1, b1, c1, d1) && Cycle4Ok(a2, b2, c2, d2) && Cycle4Ok(a3, b3, c3, d3)
    ensures
      var k1 := CycleOrigin(a1, b1, c1, d1, CycleOrigin(a2, b2, c2, d2, CycleOrigin(a3, b3, c3, d3, k)));
      && 0 <= k1 < 54
      && Cycle(Cycle(Cycle(s, [a1, b1, c1, d1]), [a2, b2, c2, d2]), [a3, b3, c3, d3])[k] == s[k1]
  {
    var s2 := Cycle(s, [a1, b1, c1, d1]);
    var s3 := Cycle(s2, [a2, b2, c2, d2]);
    var k3 := CycleOrigin(a3, b3, c3, d3, k);
    var k2 := CycleOrigin(a2, b2, c2, d2, k3);
    CycleAt(s3, a3, b3, c3, d3, k);
    CycleAt(s2, a2, b2, c2, d2, k3);
    CycleAt(s, a1, b1, c1, d1, k2);
  }

  /** The shape shared by the six face turns: a face rotation, then three cycles. */
  lemma FaceTurnAt(s: seq<char>, base: int, a1: int, b1: int, c1: int, d1: int, a2: int, b2: int, c2: int, d2: int,
                   a3: int, b3: int, c3: int, d3: int, k: int)
    requires IsState(s) && 0 <= base <= 45 && 0 <= k < 54
    requires Cycle4Ok(a1, b1, c1, d1) && Cycle4Ok(a2, b2, c2, d2) && Cycle4Ok(a3, b3, c3, d3)
    ensures
      var k1 := CycleOrigin(a1, b1, c1, d1, CycleOrigin(a2, b2, c2, d2, CycleOrigin(a3, b3, c3, d3, k)));
      && 0 <= FaceOrigin(base, k1) < 54
      && Cycle(Cycle(Cycle(RotateFaceClockwise(s, base), [a1, b1, c1, d1]), [a2, b2, c2, d2]), [a3, b3, c3, d3])[k]
         == s[FaceOrigin(base, k1)]
  {
    var k1 := CycleOrigin(a1, b1, c1, d1, CycleOrigin(a2, b2, c2, d2, CycleOrigin(a3, b3, c3, d3, k)));
    ThreeCyclesAt(RotateFaceClockwise(s, base), a1, b1, c1, d1, a2, b2, c2, d2, a3, b3, c3, d3, k);
    RotateFaceAt(s, base, k1);
  }

  lemma MoveLAt(s: seq<char>, k: int)
    requires IsState(s) && 0 <= k < 54
    ensures 0 <= LOrigin(k) < 54 && MoveL(s)[k] == s[LOrigin(k)]
  {
    FaceTurnAt(s, 36, 18, 27, 53, 0, 21, 30, 50, 3, 24, 33, 47, 6, k);
  }

  lemma MoveRAt(s: seq<char>, k: int)
    requires IsState(s) && 0 <= k < 54
    ensures 0 <= ROrigin(k) < 54 && MoveR(s)[k] == s[ROrigin(k)]
  {
    FaceTurnAt(s, 9, 26, 8, 45, 35, 23, 5, 48, 32, 20, 2, 51, 29, k);
  }

  lemma YSlicesAt(s: seq<char>, n: nat, k: int)
    requires IsState(s) && n <= 9 && 0 <= k < 54
    ensures 0 <= YSlicesOrigin(n, k) < 54 && YSlices(s, n)[k] == s[YSlicesOrigin(n, k)]
    decreases n
  {
    if n > 0 {
      var i := n - 1;
      assert YSliceCycle(i) == [18 + i, 9 + i, 45 + i, 36 + i];
      CycleAt(YSlices(s, i), 18 + i, 9 + i, 45 + i, 36 + i, k);
      YSlicesAt(s, i, YSliceOrigin(i, k));
    }
  }

  lemma MoveUAt(s: seq<char>, k: int)
    requires IsState(s) && 0 <= k < 54
    ensures 0 <= UOrigin(k) < 54 && MoveU(s)[k] == s[UOrigin(k)]
  {
    FaceTurnAt(s, 0, 18, 36, 45, 9, 19, 37, 46, 10, 20, 38, 47, 11, k);
  }

  lemma MoveDAt(s: seq<char>, k: int)
    requires IsState(s) && 0 <= k < 54
    ensures 0 <= DOrigin(k) < 54 && MoveD(s)[k] == s[DOrigin(k)]
  {
    FaceTurnAt(s, 27, 24, 42, 51, 15, 25, 43, 52, 16, 26, 44, 53, 17, k);
  }

  lemma MoveFAt(s: seq<char>, k: int)
    requires IsState(s) && 0 <= k < 54
    ensures 0 <= FOrigin(k) < 54 && MoveF(s)[k] == s[FOrigin(k)]
  {
    FaceTurnAt(s, 18, 6, 9, 29, 44, 7, 12, 28, 41, 8, 15, 27, 38, k);
  }

  lemma MoveBAt(s: seq<char>, k: int)
    requires IsState(s) && 0 <= k < 54
    ensures 0 <= BOrigin(k) < 54 && MoveB(s)[k] == s[BOrigin(k)]
  {
    FaceTurnAt(s, 45, 2, 36, 33, 17, 1, 39, 34, 14, 0, 42, 35, 11, k);
  }

  lemma RotateXAt(s: seq<char>, k: int)
    requires IsState(s) && 0 <= k < 54
    ensures 0 <= XOrigin(k) < 54 && RotateX(s)[k] == s[XOrigin(k)]
  {
    var s1 := MoveR(s);
    var s2 := MoveL(s1);
    var s3 := MoveL(s2);
    var s4 := MoveL(s3);
    var m := MOrigin(k);
    var l1 := LOrigin(m);
    var l2 := LOrigin(l1);
    var l3 := LOrigin(l2);
    ThreeCyclesAt(s4, 1, 19, 34, 46, 4, 22, 31, 49, 7, 25, 28, 52, k);
    assert RotateX(s)[k] == s4[m];
    MoveLAt(s3, m);
    assert s4[m] == s3[l1];
    MoveLAt(s2, l1);
    assert s3[l1] == s2[l2];
    MoveLAt(s1, l2);
    assert s2[l2] == s1[l3];
    MoveRAt(s, l3);
    assert s1[l3] == s[ROrigin(l3)];
    assert XOrigin(k) == ROrigin(l3);
  }

  lemma RotateYAt(s: seq<char>, k: int)
    requires IsState(s) && 0 <= k < 54
    ensures 0 <= YOrigin(k) < 54 && RotateY(s)[k] == s[YOrigin(k)]
  {
    var s1 := RotateFaceClockwise(s, 0);
    var s2 := RotateFaceClockwise(s1, 27);
    var s3 := RotateFaceClockwise(s2, 27);
    var s4 := RotateFaceClockwise(s3, 27);
    var y := YSlicesOrigin(9, k);
    YSlicesAt(s4, 9, k);
    RotateFaceAt(s3, 27, y);
    RotateFaceAt(s2, 27, FaceOrigin(27, y));
    RotateFaceAt(s1, 27, FaceOrigin(27, FaceOrigin(27, y)));
    RotateFaceAt(s, 0, FaceOrigin(27, FaceOrigin(27, FaceOrigin(27, y))));
  }

  lemma RotateZAt(s: seq<char>, k: int)
    requires IsState(s) && 0 <= k < 54
    ensures 0 <= ZOrigin(k) < 54 && RotateZ(s)[k] == s[ZOrigin(k)]
  {
    var s1 := RotateFaceClockwise(s, 18);
    var s2 := RotateFaceClockwise(s1, 45);
    var s3 := RotateFaceClockwise(s2, 45);
    var s4 := RotateFaceClockwise(s3, 45);
    var top := Cycle(Cycle(Cycle(s4, [0, 38, 35, 11]), [1, 41, 34, 14]), [2, 44, 33, 17]);
    var mid := Cycle(Cycle(Cycle(top, [3, 37, 32, 10]), [4, 40, 31, 13]), [5, 43, 30, 16]);
    var kb := CycleOrigin(6, 36, 29, 9, CycleOrigin(7, 39, 28, 12, CycleOrigin(8, 42, 27, 15, k)));
    var km := CycleOrigin(3, 37, 32, 10, CycleOrigin(4, 40, 31, 13, CycleOrigin(5, 43, 30, 16, kb)));
    var z := ZRingOrigin(k);
    ThreeCyclesAt(mid, 6, 36, 29, 9, 7, 39, 28, 12, 8, 42, 27, 15, k);
    ThreeCyclesAt(top, 3, 37, 32, 10, 4, 40, 31, 13, 5, 43, 30, 16, kb);
    ThreeCyclesAt(s4, 0, 38, 35, 11, 1, 41, 34, 14, 2, 44, 33, 17, km);
    RotateFaceAt(s3, 45, z);
    RotateFaceAt(s2, 45, FaceOrigin(45, z));
    RotateFaceAt(s1, 45, FaceOrigin(45, FaceOrigin(45, z)));
    RotateFaceAt(s, 18, FaceOrigin(45, FaceOrigin(45, FaceOrigin(45, z))));
  }

  /** Turn t moves the colour at Origin(t, k) to k. */
  lemma TurnedAt(t: Turn, s: seq<char>, k: int)
    requires IsState(s) && 0 <= k < 54
    ensures 0 <= Origin(t, k) < 54 && Turned(t, s)[k] == s[Origin(t, k)]
  {
  }

  // ---------------------------------------------------------------------------
  // Each move's cycles perform the permutation of its turn
  // ---------------------------------------------------------------------------

  lemma MoveUIsTurned(s: seq<char>)
    requires IsState(s)
    ensures MoveU(s) == Turned(U, s)
  {
    forall k | 0 <= k < 54
      ensures MoveU(s)[k] == Turned(U, s)[k]
    {
      MoveUAt(s, k);
      TurnedAt(U, s, k);
      assert Origin(U, k) == UOrigin(k);
    }
  }

  lemma MoveDIsTurned(s: seq<char>)
    requires IsState(s)
    ensures MoveD(s) == Turned(D, s)
  {
    forall k | 0 <= k < 54
      ensures MoveD(s)[k] == Turned(D, s)[k]
    {
      MoveDAt(s, k);
      TurnedAt(D, s, k);
      assert Origin(D, k) == DOrigin(k);
    }
  }

  lemma MoveLIsTurned(s: seq<char>)
    requires IsState(s)
    ensures MoveL(s) == Turned(L, s)
  {
    forall k | 0 <= k < 54
      ensures MoveL(s)[k] == Turned(L, s)[k]
    {
      MoveLAt(s, k);
      TurnedAt(L, s, k);
      assert Origin(L, k) == LOrigin(k);
    }
  }

  lemma MoveRIsTurned(s: seq<char>)
    requires IsState(s)
    ensures MoveR(s) == Turned(R, s)
  {
    forall k | 0 <= k < 54
      ensures MoveR(s)[k] == Turned(R, s)[k]
    {
      MoveRAt(s, k);
      TurnedAt(R, s, k);
      assert Origin(R, k) == ROrigin(k);
    }
  }

  lemma MoveFIsTurned(s: seq<char>)
    requires IsState(s)
    ensures MoveF(s) == Turned(F, s)
  {
    forall k | 0 <= k < 54
      ensures MoveF(s)[k] == Turned(F, s)[k]
    {
      MoveFAt(s, k);
      TurnedAt(F, s, k);
      assert Origin(F, k) == FOrigin(k);
    }
  }

  lemma MoveBIsTurned(s: seq<char>)
    requires IsState(s)
    ensures MoveB(s) == Turned(B, s)
  {
    forall k | 0 <= k < 54
      ensures MoveB(s)[k] == Turned(B, s)[k]
    {
      MoveBAt(s, k);
      TurnedAt(B, s, k);
      assert Origin(B, k) == BOrigin(k);
    }
  }

  lemma RotateXIsTurned(s: seq<char>)
    requires IsState(s)
    ensures RotateX(s) == Turned(X, s)
  {
    forall k | 0 <= k < 54
      ensures RotateX(s)[k] == Turned(X, s)[k]
    {
      RotateXAt(s, k);
      TurnedAt(X, s, k);
      assert Origin(X, k) == XOrigin(k);
    }
  }

  lemma RotateYIsTurned(s: seq<char>)
    requires IsState(s)
    ensures RotateY(s) == Turned(Y, s)
  {
    forall k | 0 <= k < 54
      ensures RotateY(s)[k] == Turned(Y, s)[k]
    {
      RotateYAt(s, k);
      TurnedAt(Y, s, k);
      assert Origin(Y, k) == YOrigin(k);
    }
  }

  lemma RotateZIsTurned(s: seq<char>)
    requires IsState(s)
    ensures RotateZ(s) == Turned(Z, s)
  {
    forall k | 0 <= k < 54
      ensures RotateZ(s)[k] == Turned(Z, s)[k]
    {
      RotateZAt(s, k);
      TurnedAt(Z, s, k);
      assert Origin(Z, k) == ZOrigin(k);
    }
  }

  /** The steps of `rotateX`, each read as a turn, make up the X turn. */
  lemma RotateXSteps(s: seq<char>)
    requires IsState(s)
    ensures XSlices(Turned(L, Turned(L, Turned(L, Turned(R, s))))) == Turned(X, s)
  {
    var s1 := Turned(R, s);
    var s2 := Turned(L, s1);
    var s3 := Turned(L, s2);
    MoveRIsTurned(s);
    MoveLIsTurned(s1);
    MoveLIsTurned(s2);
    MoveLIsTurned(s3);
    RotateXIsTurned(s);
  }

  // ---------------------------------------------------------------------------
  // Every turn has order four
  // ---------------------------------------------------------------------------

  predicate InCycle(a: int, b: int, c: int, d: int, k: int)
  {
    k == a || k == b || k == c || k == d
  }

  /** The eight non-centre facelets of the face at `base`. */
  predicate OnRing(base: int, k: int)
  {
    base <= k < base + 9 && k != base + 4
  }

  lemma FaceOriginSupport(base: int, k: int)
    ensures OnRing(base, k) ==> OnRing(base, FaceOrigin(base, k))
    ensures !OnRing(base, k) ==> FaceOrigin(base, k) == k
  {
  }

  lemma FaceOrigin4(base: int, k: int)
    ensures FaceOrigin(base, FaceOrigin(base, FaceOrigin(base, FaceOrigin(base, k)))) == k
  {
  }

  function Face3(base: int, k: int): int
  {
    FaceOrigin(base, FaceOrigin(base, FaceOrigin(base, k)))
  }

  lemma Face3Support(base: int, k: int)
    ensures OnRing(base, k) ==> OnRing(base, Face3(base, k))
    ensures !OnRing(base, k) ==> Face3(base, k) == k
  {
    FaceOriginSupport(base, k);
    FaceOriginSupport(base, FaceOrigin(base, k));
    FaceOriginSupport(base, FaceOrigin(base, FaceOrigin(base, k)));
  }

  lemma Face3Order4(base: int, k: int)
    ensures Face3(base, Face3(base, Face3(base, Face3(base, k)))) == k
  {
    var k4 := FaceOrigin(base, Face3(base, k));
    var k8 := FaceOrigin(base, Face3(base, Face3(base, Face3(base, k)))) ;
    FaceOrigin4(base, k);
    FaceOrigin4(base, k4);
    assert Face3(base, Face3(base, k)) == FaceOrigin(base, FaceOrigin(base, k4));
    FaceOrigin4(base, FaceOrigin(base, FaceOrigin(base, k4)));
  }

  /** A face turn is its face rotation on the face's ring and its side cycles elsewhere. */
  lemma FaceTurnOn(base: int, k: int, inSide: bool, side: int)
    requires inSide ==> !OnRing(base, k) && !OnRing(base, side)
    requires !inSide ==> side == k
    ensures OnRing(base, k) ==> FaceOrigin(base, side) == FaceOrigin(base, k) && OnRing(base, FaceOrigin(base, k))
    ensures !OnRing(base, k) ==> FaceOrigin(base, side) == side
  {
    FaceOriginSupport(base, k);
    FaceOriginSupport(base, side);
  }

  predicate USide(k: int)
  {
    InCycle(18, 36, 45, 9, k) || InCycle(19, 37, 46, 10, k) || InCycle(20, 38, 47, 11, k)
  }

  lemma USideSupport(k: int)
    ensures USide(k) ==> USide(USideOrigin(k))
    ensures !USide(k) ==> USideOrigin(k) == k
    ensures USide(k) ==> !OnRing(0, k) && !OnRing(0, USideOrigin(k))
  {
  }

  lemma USideOrigin4(k: int)
    ensures USideOrigin(USideOrigin(USideOrigin(USideOrigin(k)))) == k
  {
  }

  lemma UOrigin4(k: int)
    ensures UOrigin(UOrigin(UOrigin(UOrigin(k)))) == k
  {
    var k1 := UOrigin(k);
    var k2 := UOrigin(k1);
    var k3 := UOrigin(k2);
    USideSupport(k); USideSupport(k1); USideSupport(k2); USideSupport(k3);
    FaceTurnOn(0, k, USide(k), USideOrigin(k));
    FaceTurnOn(0, k1, USide(k1), USideOrigin(k1));
    FaceTurnOn(0, k2, USide(k2), USideOrigin(k2));
    FaceTurnOn(0, k3, USide(k3), USideOrigin(k3));
    if OnRing(0, k) {
      FaceOrigin4(0, k);
    } else if USide(k) {
      USideOrigin4(k);
    }
  }

  predicate DSide(k: int)
  {
    InCycle(24, 42, 51, 15, k) || InCycle(25, 43, 52, 16, k) || InCycle(26, 44, 53, 17, k)
  }

  lemma DSideSupport(k: int)
    ensures DSide(k) ==> DSide(DSideOrigin(k))
    ensures !DSide(k) ==> DSideOrigin(k) == k
    ensures DSide(k) ==> !OnRing(27, k) && !OnRing(27, DSideOrigin(k))
  {
  }

  lemma DSideOrigin4(k: int)
    ensures DSideOrigin(DSideOrigin(DSideOrigin(DSideOrigin(k)))) == k
  {
  }

  lemma DOrigin4(k: int)
    ensures DOrigin(DOrigin(DOrigin(DOrigin(k)))) == k
  {
    var k1 := DOrigin(k);
    var k2 := DOrigin(k1);
    var k3 := DOrigin(k2);
    DSideSupport(k); DSideSupport(k1); DSideSupport(k2); DSideSupport(k3);
    FaceTurnOn(27, k, DSide(k), DSideOrigin(k));
    FaceTurnOn(27, k1, DSide(k1), DSideOrigin(k1));
    FaceTurnOn(27, k2, DSide(k2), DSideOrigin(k2));
    FaceTurnOn(27, k3, DSide(k3), DSideOrigin(k3));
    if OnRing(27, k) {
      FaceOrigin4(27, k);
    } else if DSide(k) {
      DSideOrigin4(k);
    }
  }

  predicate LSide(k: int)
  {
    InCycle(18, 27, 53, 0, k) || InCycle(21, 30, 50, 3, k) || InCycle(24, 33, 47, 6, k)
  }

  lemma LSideSupport(k: int)
    ensures LSide(k) ==> LSide(LSideOrigin(k))
    ensures !LSide(k) ==> LSideOrigin(k) == k
    ensures LSide(k) ==> !OnRing(36, k) && !OnRing(36, LSideOrigin(k))
  {
  }

  lemma LSideOrigin4(k: int)
    ensures LSideOrigin(LSideOrigin(LSideOrigin(LSideOrigin(k)))) == k
  {
  }

  lemma LOrigin4(k: int)
    ensures LOrigin(LOrigin(LOrigin(LOrigin(k)))) == k
  {
    var k1 := LOrigin(k);
    var k2 := LOrigin(k1);
    var k3 := LOrigin(k2);
    LSideSupport(k); LSideSupport(k1); LSideSupport(k2); LSideSupport(k3);
    FaceTurnOn(36, k, LSide(k), LSideOrigin(k));
    FaceTurnOn(36, k1, LSide(k1), LSideOrigin(k1));
    FaceTurnOn(36, k2, LSide(k2), LSideOrigin(k2));
    FaceTurnOn(36, k3, LSide(k3), LSideOrigin(k3));
    if OnRing(36, k) {
      FaceOrigin4(36, k);
    } else if LSide(k) {
      LSideOrigin4(k);
    }
  }

  predicate RSide(k: int)
  {
    InCycle(26, 8, 45, 35, k) || InCycle(23, 5, 48, 32, k) || InCycle(20, 2, 51, 29, k)
  }

  lemma RSideSupport(k: int)
    ensures RSide(k) ==> RSide(RSideOrigin(k))
    ensures !RSide(k) ==> RSideOrigin(k) == k
    ensures RSide(k) ==> !OnRing(9, k) && !OnRing(9, RSideOrigin(k))
  {
  }

  lemma RSideOrigin4(k: int)
    ensures RSideOrigin(RSideOrigin(RSideOrigin(RSideOrigin(k)))) == k
  {
  }

  lemma ROrigin4(k: int)
    ensures ROrigin(ROrigin(ROrigin(ROrigin(k)))) == k
  {
    var k1 := ROrigin(k);
    var k2 := ROrigin(k1);
    var k3 := ROrigin(k2);
    RSideSupport(k); RSideSupport(k1); RSideSupport(k2); RSideSupport(k3);
    FaceTurnOn(9, k, RSide(k), RSideOrigin(k));
    FaceTurnOn(9, k1, RSide(k1), RSideOrigin(k1));
    FaceTurnOn(9, k2, RSide(k2), RSideOrigin(k2));
    FaceTurnOn(9, k3, RSide(k3), RSideOrigin(k3));
    if OnRing(9, k) {
      FaceOrigin4(9, k);
    } else if RSide(k) {
      RSideOrigin4(k);
    }
  }

  predicate FSide(k: int)
  {
    InCycle(6, 9, 29, 44, k) || InCycle(7, 12, 28, 41, k) || InCycle(8, 15, 27, 38, k)
  }

  lemma FSideSupport(k: int)
    ensures FSide(k) ==> FSide(FSideOrigin(k))
    ensures !FSide(k) ==> FSideOrigin(k) == k
    ensures FSide(k) ==> !OnRing(18, k) && !OnRing(18, FSideOrigin(k))
  {
  }

  lemma FSideOrigin4(k: int)
    ensures FSideOrigin(FSideOrigin(FSideOrigin(FSideOrigin(k)))) == k
  {
  }

  lemma FOrigin4(k: int)
    ensures FOrigin(FOrigin(FOrigin(FOrigin(k)))) == k
  {
    var k1 := FOrigin(k);
    var k2 := FOrigin(k1);
    var k3 := FOrigin(k2);
    FSideSupport(k); FSideSupport(k1); FSideSupport(k2); FSideSupport(k3);
    FaceTurnOn(18, k, FSide(k), FSideOrigin(k));
    FaceTurnOn(18, k1, FSide(k1), FSideOrigin(k1));
    FaceTurnOn(18, k2, FSide(k2), FSideOrigin(k2));
    FaceTurnOn(18, k3, FSide(k3), FSideOrigin(k3));
    if OnRing(18, k) {
      FaceOrigin4(18, k);
    } else if FSide(k) {
      FSideOrigin4(k);
    }
  }

  predicate BSide(k: int)
  {
    InCycle(2, 36, 33, 17, k) || InCycle(1, 39, 34, 14, k) || InCycle(0, 42, 35, 11, k)
  }

  lemma BSideSupport(k: int)
    ensures BSide(k) ==> BSide(BSideOrigin(k))
    ensures !BSide(k) ==> BSideOrigin(k) == k
    ensures BSide(k) ==> !OnRing(45, k) && !OnRing(45, BSideOrigin(k))
  {
  }

  lemma BSideOrigin4(k: int)
    ensures BSideOrigin(BSideOrigin(BSideOrigin(BSideOrigin(k)))) == k
  {
  }

  lemma BOrigin4(k: int)
    ensures BOrigin(BOrigin(BOrigin(BOrigin(k)))) == k
  {
    var k1 := BOrigin(k);
    var k2 := BOrigin(k1);
    var k3 := BOrigin(k2);
    BSideSupport(k); BSideSupport(k1); BSideSupport(k2); BSideSupport(k3);
    FaceTurnOn(45, k, BSide(k), BSideOrigin(k));
    FaceTurnOn(45, k1, BSide(k1), BSideOrigin(k1));
    FaceTurnOn(45, k2, BSide(k2), BSideOrigin(k2));
    FaceTurnOn(45, k3, BSide(k3), BSideOrigin(k3));
    if OnRing(45, k) {
      FaceOrigin4(45, k);
    } else if BSide(k) {
      BSideOrigin4(k);
    }
  }

  // rotateX: the R turn, the L turn and the middle column move disjoint facelets.

  predicate InR(k: int)
  {
    OnRing(9, k) || InCycle(26, 8, 45, 35, k) || InCycle(23, 5, 48, 32, k) || InCycle(20, 2, 51, 29, k)
  }

  predicate InL(k: int)
  {
    OnRing(36, k) || InCycle(18, 27, 53, 0, k) || InCycle(21, 30, 50, 3, k) || InCycle(24, 33, 47, 6, k)
  }

  predicate InM(k: int)
  {
    InCycle(1, 19, 34, 46, k) || InCycle(4, 22, 31, 49, k) || InCycle(7, 25, 28, 52, k)
  }

  lemma RSupport(k: int)
    ensures InR(k) ==> InR(ROrigin(k))
    ensures !InR(k) ==> ROrigin(k) == k
  {
  }

  lemma LSupport(k: int)
    ensures InL(k) ==> InL(LOrigin(k))
    ensures !InL(k) ==> LOrigin(k) == k
  {
  }

  lemma MSupport(k: int)
    ensures InM(k) ==> InM(MOrigin(k))
    ensures !InM(k) ==> MOrigin(k) == k
  {
  }

  lemma XSupportsDisjoint(k: int)
    ensures !(InR(k) && InL(k)) && !(InR(k) && InM(k)) && !(InL(k) && InM(k))
  {
  }

  lemma MOrigin4(k: int)
    ensures MOrigin(MOrigin(MOrigin(MOrigin(k)))) == k
  {
  }

  function L3(k: int): int
  {
    LOrigin(LOrigin(LOrigin(k)))
  }

  lemma L3Support(k: int)
    ensures InL(k) ==> InL(L3(k))
    ensures !InL(k) ==> L3(k) == k
  {
    LSupport(k);
    LSupport(LOrigin(k));
    LSupport(LOrigin(LOrigin(k)));
  }

  lemma L3Order4(k: int)
    ensures L3(L3(L3(L3(k)))) == k
  {
    var k4 := LOrigin(L3(k));
    assert L3(L3(k)) == LOrigin(LOrigin(k4));
    var k8 := LOrigin(L3(L3(L3(k))));
    LOrigin4(k);
    LOrigin4(k4);
    LOrigin4(LOrigin(LOrigin(k4)));
  }

  /** On each support, rotateX acts as exactly one of its three parts. */
  lemma XOriginOn(k: int)
    ensures InM(k) ==> XOrigin(k) == MOrigin(k) && InM(XOrigin(k))
    ensures InL(k) ==> XOrigin(k) == L3(k) && InL(XOrigin(k))
    ensures InR(k) ==> XOrigin(k) == ROrigin(k) && InR(XOrigin(k))
    ensures !InM(k) && !InL(k) && !InR(k) ==> XOrigin(k) == k
  {
    XSupportsDisjoint(k);
    MSupport(k);
    var m := MOrigin(k);
    XSupportsDisjoint(m);
    L3Support(m);
    var l := L3(m);
    XSupportsDisjoint(l);
    RSupport(l);
  }

  lemma XOrigin4(k: int)
    ensures XOrigin(XOrigin(XOrigin(XOrigin(k)))) == k
  {
    var k1 := XOrigin(k);
    var k2 := XOrigin(k1);
    var k3 := XOrigin(k2);
    XOriginOn(k);
    XOriginOn(k1);
    XOriginOn(k2);
    XOriginOn(k3);
    if InM(k) {
      MOrigin4(k);
    } else if InL(k) {
      L3Order4(k);
    } else if InR(k) {
      ROrigin4(k);
    }
  }

  // rotateY: the U face, the D face and the nine slices move disjoint facelets.

  predicate InSlices(k: int)
  {
    9 <= k < 27 || 36 <= k < 54
  }

  /** The round of the `rotateY` loop that moves facelet k (for k on a slice). */
  function SliceColumn(k: int): int
  {
    if k < 18 then k - 9 else if k < 27 then k - 18 else if k < 45 then k - 36 else k - 45
  }

  lemma YSliceOriginColumn(i: int, k: int)
    requires 0 <= i < 9
    ensures InSlices(k) && SliceColumn(k) == i ==> InSlices(YSliceOrigin(i, k)) && SliceColumn(YSliceOrigin(i, k)) == i
    ensures !(InSlices(k) && SliceColumn(k) == i) ==> YSliceOrigin(i, k) == k
  {
  }

  /** After n rounds, a facelet in column i < n has moved exactly once, by round i. */
  lemma {:induction false} YSlicesOriginIs(n: nat, k: int)
    requires n <= 9
    ensures YSlicesOrigin(n, k) == if InSlices(k) && SliceColumn(k) < n then YSliceOrigin(SliceColumn(k), k) else k
    decreases n
  {
    if n > 0 {
      var k' := YSliceOrigin(n - 1, k);
      YSliceOriginColumn(n - 1, k);
      YSlicesOriginIs(n - 1, k');
      if InSlices(k) && SliceColumn(k) == n - 1 {
        assert !(SliceColumn(k') < n - 1);
      } else {
        assert k' == k;
      }
    }
  }

  lemma YOriginOn(k: int)
    ensures OnRing(0, k) ==> YOrigin(k) == FaceOrigin(0, k) && OnRing(0, YOrigin(k))
    ensures OnRing(27, k) ==> YOrigin(k) == Face3(27, k) && OnRing(27, YOrigin(k))
    ensures InSlices(k) ==>
      (YOrigin(k) == YSliceOrigin(SliceColumn(k), k) && InSlices(YOrigin(k)) && SliceColumn(YOrigin(k)) == SliceColumn(k))
    ensures !OnRing(0, k) && !OnRing(27, k) && !InSlices(k) ==> YOrigin(k) == k
  {
    YSlicesOriginIs(9, k);
    if InSlices(k) {
      YSliceOriginColumn(SliceColumn(k), k);
    }
    var y := YSlicesOrigin(9, k);
    Face3Support(27, y);
    FaceOriginSupport(0, Face3(27, y));
  }

  lemma YOrigin4(k: int)
    ensures YOrigin(YOrigin(YOrigin(YOrigin(k)))) == k
  {
    var k1 := YOrigin(k);
    var k2 := YOrigin(k1);
    var k3 := YOrigin(k2);
    YOriginOn(k);
    YOriginOn(k1);
    YOriginOn(k2);
    YOriginOn(k3);
    if OnRing(0, k) {
      FaceOrigin4(0, k);
    } else if OnRing(27, k) {
      Face3Order4(27, k);
    } else if InSlices(k) {
      CycleOrigin4(18 + SliceColumn(k), 9 + SliceColumn(k), 45 + SliceColumn(k), 36 + SliceColumn(k), k);
    }
  }

  // rotateZ: the F face, the B face and three bands of three cycles.

  predicate InZTop(k: int)
  {
    InCycle(0, 38, 35, 11, k) || InCycle(1, 41, 34, 14, k) || InCycle(2, 44, 33, 17, k)
  }

  predicate InZMid(k: int)
  {
    InCycle(3, 37, 32, 10, k) || InCycle(4, 40, 31, 13, k) || InCycle(5, 43, 30, 16, k)
  }

  predicate InZBot(k: int)
  {
    InCycle(6, 36, 29, 9, k) || InCycle(7, 39, 28, 12, k) || InCycle(8, 42, 27, 15, k)
  }

  function ZTopOrigin(k: int): int
  {
    CycleOrigin(0, 38, 35, 11, CycleOrigin(1, 41, 34, 14, CycleOrigin(2, 44, 33, 17, k)))
  }

  function ZMidOrigin(k: int): int
  {
    CycleOrigin(3, 37, 32, 10, CycleOrigin(4, 40, 31, 13, CycleOrigin(5, 43, 30, 16, k)))
  }

  function ZBotOrigin(k: int): int
  {
    CycleOrigin(6, 36, 29, 9, CycleOrigin(7, 39, 28, 12, CycleOrigin(8, 42, 27, 15, k)))
  }

  lemma ZBandsDisjoint(k: int)
    ensures !(InZTop(k) && InZMid(k)) && !(InZTop(k) && InZBot(k)) && !(InZMid(k) && InZBot(k))
  {
  }

  lemma ZTopSupport(k: int)
    ensures InZTop(k) ==> InZTop(ZTopOrigin(k))
    ensures !InZTop(k) ==> ZTopOrigin(k) == k
    ensures ZTopOrigin(ZTopOrigin(ZTopOrigin(ZTopOrigin(k)))) == k
  {
  }

  lemma ZMidSupport(k: int)
    ensures InZMid(k) ==> InZMid(ZMidOrigin(k))
    ensures !InZMid(k) ==> ZMidOrigin(k) == k
    ensures ZMidOrigin(ZMidOrigin(ZMidOrigin(ZMidOrigin(k)))) == k
  {
  }

  lemma ZBotSupport(k: int)
    ensures InZBot(k) ==> InZBot(ZBotOrigin(k))
    ensures !InZBot(k) ==> ZBotOrigin(k) == k
    ensures ZBotOrigin(ZBotOrigin(ZBotOrigin(ZBotOrigin(k)))) == k
  {
  }

  lemma ZBandsSupport(k: int)
    ensures InZTop(k) ==> InZTop(ZTopOrigin(k)) && !InZMid(k) && !InZBot(k)
    ensures InZMid(k) ==> InZMid(ZMidOrigin(k)) && !InZBot(k)
    ensures InZBot(k) ==> InZBot(ZBotOrigin(k))
    ensures !InZTop(k) ==> ZTopOrigin(k) == k
    ensures !InZMid(k) ==> ZMidOrigin(k) == k
    ensures !InZBot(k) ==> ZBotOrigin(k) == k
    ensures ZTopOrigin(ZTopOrigin(ZTopOrigin(ZTopOrigin(k)))) == k
    ensures ZMidOrigin(ZMidOrigin(ZMidOrigin(ZMidOrigin(k)))) == k
    ensures ZBotOrigin(ZBotOrigin(ZBotOrigin(ZBotOrigin(k)))) == k
  {
    ZBandsDisjoint(k);
    ZTopSupport(k);
    ZMidSupport(k);
    ZBotSupport(k);
  }

  predicate InZRing(k: int)
  {
    InZTop(k) || InZMid(k) || InZBot(k)
  }

  lemma ZOriginOn(k: int)
    ensures OnRing(18, k) ==> ZOrigin(k) == FaceOrigin(18, k) && OnRing(18, ZOrigin(k))
    ensures OnRing(45, k) ==> ZOrigin(k) == Face3(45, k) && OnRing(45, ZOrigin(k))
    ensures InZTop(k) ==> ZOrigin(k) == ZTopOrigin(k) && InZTop(ZOrigin(k))
    ensures InZMid(k) ==> ZOrigin(k) == ZMidOrigin(k) && InZMid(ZOrigin(k))
    ensures InZBot(k) ==> ZOrigin(k) == ZBotOrigin(k) && InZBot(ZOrigin(k))
    ensures !OnRing(18, k) && !OnRing(45, k) && !InZRing(k) ==> ZOrigin(k) == k
  {
    ZBandsSupport(k);
    var b := ZBotOrigin(k);
    ZBandsSupport(b);
    var m := ZMidOrigin(b);
    ZBandsSupport(m);
    var z := ZTopOrigin(m);
    assert ZRingOrigin(k) == z;
    Face3Support(45, z);
    FaceOriginSupport(18, Face3(45, z));
  }

  lemma ZOrigin4(k: int)
    ensures ZOrigin(ZOrigin(ZOrigin(ZOrigin(k)))) == k
  {
    var k1 := ZOrigin(k);
    var k2 := ZOrigin(k1);
    var k3 := ZOrigin(k2);
    ZOriginOn(k);
    ZOriginOn(k1);
    ZOriginOn(k2);
    ZOriginOn(k3);
    ZBandsSupport(k);
    if OnRing(18, k) {
      FaceOrigin4(18, k);
    } else if OnRing(45, k) {
      Face3Order4(45, k);
    }
  }

  lemma OriginOrder4(t: Turn, k: int)
    ensures Origin(t, Origin(t, Origin(t, Origin(t, k)))) == k
  {
    match t
    case X => XOrigin4(k);
    case Y => YOrigin4(k);
    case Z => ZOrigin4(k);
    case U => UOrigin4(k);
    case D => DOrigin4(k);
    case L => LOrigin4(k);
    case R => ROrigin4(k);
    case F => FOrigin4(k);
    case B => BOrigin4(k);
  }

  /** Four applications of any of the nine turns restore the cube. */
  lemma TurnOrder4(t: Turn, s: seq<char>)
    requires IsState(s)
    ensures Turned(t, Turned(t, Turned(t, Turned(t, s)))) == s
  {
    var s1 := Turned(t, s);
    var s2 := Turned(t, s1);
    var s3 := Turned(t, s2);
    forall k | 0 <= k < 54
      ensures Turned(t, s3)[k] == s[k]
    {
      TurnedAt(t, s3, k);
      TurnedAt(t, s2, Origin(t, k));
      TurnedAt(t, s1, Origin(t, Origin(t, k)));
      TurnedAt(t, s, Origin(t, Origin(t, Origin(t, k))));
      OriginOrder4(t, k);
    }
  }

  /** The first of n > 0 repetitions of a turn is that turn. */
  lemma RepeatStep(t: Turn, s: seq<char>, n: nat)
    requires IsState(s) && n > 0
    ensures Repeat(t, s, n) == Repeat(t, Turned(t, s), n - 1)
  {
  }

  /** Steps compose: m steps after n steps are n + m steps. */
  lemma {:induction false} IterateAdd(step: seq<char> -> seq<char>, s: seq<char>, n: nat, m: nat)
    ensures Iterate(step, Iterate(step, s, n), m) == Iterate(step, s, n + m)
    decreases n
  {
    if n > 0 {
      IterateAdd(step, step(s), n - 1, m);
    }
  }

  /** Repetitions compose: m turns after n turns are n + m turns. */
  lemma RepeatAdd(t: Turn, s: seq<char>, n: nat, m: nat)
    requires IsState(s)
    ensures Repeat(t, Repeat(t, s, n), m) == Repeat(t, s, n + m)
  {
    IterateAdd(TurnStep(t), s, n, m);
  }

  /** The last of n + 1 repetitions comes after the first n. */
  lemma RepeatLast(t: Turn, s: seq<char>, n: nat)
    requires IsState(s)
    ensures Repeat(t, s, n + 1) == Turned(t, Repeat(t, s, n))
  {
    IterateAdd(TurnStep(t), s, n, 1);
  }

  /** Four turns of one kind restore the cube. */
  lemma RepeatFour(t: Turn, s: seq<char>)
    requires IsState(s)
    ensures Repeat(t, s, 4) == s
  {
    var s1 := Turned(t, s);
    var s2 := Turned(t, s1);
    var s3 := Turned(t, s2);
    RepeatStep(t, s, 4);
    RepeatStep(t, s1, 3);
    RepeatStep(t, s2, 2);
    RepeatStep(t, s3, 1);
    TurnOrder4(t, s);
  }

  /** One, two and three repetitions written out. */
  lemma RepeatUnfold(t: Turn, s: seq<char>)
    requires IsState(s)
    ensures Repeat(t, s, 1) == Turned(t, s)
    ensures Repeat(t, s, 2) == Turned(t, Turned(t, s))
    ensures Repeat(t, s, 3) == Turned(t, Turned(t, Turned(t, s)))
  {
    RepeatLast(t, s, 0);
    RepeatLast(t, s, 1);
    RepeatLast(t, s, 2);
  }

  /** Applying a turn n + 4 times is the same as applying it n times. */
  lemma RepeatModulo4(t: Turn, s: seq<char>, n: nat)
    requires IsState(s)
    ensures Repeat(t, s, n + 4) == Repeat(t, s, n)
  {
    RepeatAdd(t, s, 4, n);
    RepeatFour(t, s);
  }

  /** One turn followed by three more of the same kind undoes it, in either order. */
  lemma TurnThenThree(t: Turn, s: seq<char>)
    requires IsState(s)
    ensures Repeat(t, Repeat(t, s, 1), 3) == s
    ensures Repeat(t, Repeat(t, s, 3), 1) == s
  {
    RepeatAdd(t, s, 1, 3);
    RepeatAdd(t, s, 3, 1);
    RepeatFour(t, s);
  }

  /** Quarter turns of one kind that add up to a full revolution undo each other. */
  lemma RepeatFullTurn(t: Turn, s: seq<char>, n: nat, m: nat)
    requires IsState(s) && n + m == 4
    ensures Repeat(t, Repeat(t, s, n), m) == s
  {
    RepeatAdd(t, s, n, m);
    RepeatFour(t, s);
  }

  // ---------------------------------------------------------------------------
  // Turns only permute colours
  // ---------------------------------------------------------------------------

  /** Reading s through an injective index map that covers r keeps the multiset. */
  lemma {:induction false} ReindexPermutes(s: seq<char>, r: seq<char>, p: int -> int)
    requires |r| == |s|
    requires forall k :: 0 <= k < |r| ==> 0 <= p(k) < |s| && r[k] == s[p(k)]
    requires forall a, b :: 0 <= a < |r| && 0 <= b < |r| && a != b ==> p(a) != p(b)
    ensures multiset(r) == multiset(s)
    decreases |r|
  {
    if |r| > 0 {
      var n := |r| - 1;
      var j := p(n);
      ReindexDrop(s, r, p);
      ReindexPermutes(s[..j] + s[j + 1..], r[..n], Skipping(p, j));
      DropAt(s, j);
      DropAt(r, n);
    }
  }

  /** The index map p with the image j closed up. */
  function Skipping(p: int -> int, j: int): int -> int
  {
    k => if p(k) < j then p(k) else p(k) - 1
  }

  /** Dropping the last facelet of r and its image in s keeps r a reindexing of s. */
  lemma ReindexDrop(s: seq<char>, r: seq<char>, p: int -> int)
    requires |r| == |s| > 0
    requires forall k :: 0 <= k < |r| ==> 0 <= p(k) < |s| && r[k] == s[p(k)]
    requires forall a, b :: 0 <= a < |r| && 0 <= b < |r| && a != b ==> p(a) != p(b)
    ensures var n, j := |r| - 1, p(|r| - 1);
      var rest, q := s[..j] + s[j + 1..], Skipping(p, j);
      && (forall k :: 0 <= k < n ==> 0 <= q(k) < |rest| && r[..n][k] == rest[q(k)])
      && (forall a, b :: 0 <= a < n && 0 <= b < n && a != b ==> q(a) != q(b))
  {
    var n := |r| - 1;
    var j := p(n);
    var rest := s[..j] + s[j + 1..];
    var q := Skipping(p, j);
    forall k | 0 <= k < n
      ensures 0 <= q(k) < |rest| && r[..n][k] == rest[q(k)]
    {
      assert p(k) != j;
    }
    forall a, b | 0 <= a < n && 0 <= b < n && a != b
      ensures q(a) != q(b)
    {
      assert p(a) != j && p(b) != j;
    }
  }

  lemma DropAt(s: seq<char>, j: int)
    requires 0 <= j < |s|
    ensures multiset(s) == multiset(s[..j] + s[j + 1..]) + multiset{s[j]}
  {
    assert s == s[..j] + [s[j]] + s[j + 1..];
  }

  /** No turn adds or removes a colour: the multiset of facelets is unchanged. */
  lemma TurnPermutes(t: Turn, s: seq<char>)
    requires IsState(s)
    ensures multiset(Turned(t, s)) == multiset(s)
  {
    var p := OriginMap(t);
    forall k | 0 <= k < 54
      ensures 0 <= p(k) < 54 && Turned(t, s)[k] == s[p(k)]
    {
      TurnedAt(t, s, k);
    }
    forall a, b | 0 <= a < 54 && 0 <= b < 54 && a != b
      ensures p(a) != p(b)
    {
      OriginOrder4(t, a);
      OriginOrder4(t, b);
    }
    ReindexPermutes(s, Turned(t, s), p);
  }

  /** A step that keeps the multiset of every sequence keeps it however often it is
      applied. */
  lemma {:induction false} IteratePermutes(step: seq<char> -> seq<char>, s: seq<char>, n: nat)
    requires forall x :: multiset(step(x)) == multiset(x)
    ensures multiset(Iterate(step, s, n)) == multiset(s)
    decreases n
  {
    if n > 0 {
      IteratePermutes(step, step(s), n - 1);
    }
  }

  lemma TurnStepPermutes(t: Turn)
    ensures forall x :: multiset(TurnStep(t)(x)) == multiset(x)
  {
    forall x
      ensures multiset(TurnStep(t)(x)) == multiset(x)
    {
      if IsState(x) {
        TurnPermutes(t, x);
      }
    }
  }

  /** Any number of repetitions of a turn only permutes the colours. */
  lemma RepeatPermutes(t: Turn, s: seq<char>, n: nat)
    requires IsState(s)
    ensures multiset(Repeat(t, s, n)) == multiset(s)
  {
    TurnStepPermutes(t);
    IteratePermutes(TurnStep(t), s, n);
  }

  /** No face turn takes a centre's colour from anywhere else. */
  lemma FaceTurnFixesCentres(t: Turn)
    requires IsFaceTurn(t)
    ensures Origin(t, 4) == 4 && Origin(t, 13) == 13 && Origin(t, 22) == 22
    ensures Origin(t, 31) == 31 && Origin(t, 40) == 40 && Origin(t, 49) == 49
  {
    match t
    case U => UFixesCentres();
    case D => DFixesCentres();
    case L => LFixesCentres();
    case R => RFixesCentres();
    case F => FFixesCentres();
    case B => BFixesCentres();
  }

  lemma UFixesCentres()
    ensures UOrigin(4) == 4 && UOrigin(13) == 13 && UOrigin(22) == 22
    ensures UOrigin(31) == 31 && UOrigin(40) == 40 && UOrigin(49) == 49
  {
  }

  lemma DFixesCentres()
    ensures DOrigin(4) == 4 && DOrigin(13) == 13 && DOrigin(22) == 22
    ensures DOrigin(31) == 31 && DOrigin(40) == 40 && DOrigin(49) == 49
  {
  }

  lemma LFixesCentres()
    ensures LOrigin(4) == 4 && LOrigin(13) == 13 && LOrigin(22) == 22
    ensures LOrigin(31) == 31 && LOrigin(40) == 40 && LOrigin(49) == 49
  {
  }

  lemma RFixesCentres()
    ensures ROrigin(4) == 4 && ROrigin(13) == 13 && ROrigin(22) == 22
    ensures ROrigin(31) == 31 && ROrigin(40) == 40 && ROrigin(49) == 49
  {
  }

  lemma FFixesCentres()
    ensures FOrigin(4) == 4 && FOrigin(13) == 13 && FOrigin(22) == 22
    ensures FOrigin(31) == 31 && FOrigin(40) == 40 && FOrigin(49) == 49
  {
  }

  lemma BFixesCentres()
    ensures BOrigin(4) == 4 && BOrigin(13) == 13 && BOrigin(22) == 22
    ensures BOrigin(31) == 31 && BOrigin(40) == 40 && BOrigin(49) == 49
  {
  }

  /** Face turns never move a centre facelet. */
  lemma FaceTurnKeepsCentres(t: Turn, s: seq<char>)
    requires IsState(s) && IsFaceTurn(t)
    ensures Turned(t, s)[4] == s[4]
    ensures Turned(t, s)[13] == s[13]
    ensures Turned(t, s)[22] == s[22]
    ensures Turned(t, s)[31] == s[31]
    ensures Turned(t, s)[40] == s[40]
    ensures Turned(t, s)[49] == s[49]
  {
    FaceTurnFixesCentres(t);
  }
}
