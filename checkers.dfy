/** The read-only stage checkers of the simulator, as functions of the 54 facelets. */
module Checkers {
  import opened Facelets

  /** The D-face edges, compared against the literal 'w' rather than the D centre. */
  const White: char := 'w'

  /** The four cross edges in the order `getCrossCount` visits them (F, L, R, B): the D
      facelet, the side facelet next to it and that side's centre. */
  predicate CrossEdge(s: seq<char>, d: int, side: int, centre: int)
    requires IsState(s) && 0 <= d < 54 && 0 <= side < 54 && 0 <= centre < 54
  {
    s[d] == White && s[side] == s[centre]
  }

  /** `checkCross`: all four D edges white, then all four side stickers on their centres. */
  function CheckCross(s: seq<char>): (b: bool)
    requires IsState(s)
    ensures b <==> CrossEdge(s, 28, 25, 22) && CrossEdge(s, 30, 43, 40) && CrossEdge(s, 32, 16, 13)
                   && CrossEdge(s, 34, 52, 49)
  {
    var dMatch := s[28] == White && s[30] == White && s[32] == White && s[34] == White;
    if !dMatch then false
    else s[25] == s[22] && s[43] == s[40] && s[16] == s[13] && s[52] == s[49]
  }

  function Indicator(b: bool): nat
  {
    if b then 1 else 0
  }

  /** `getCrossCount`: how many of the four cross edges are in place. */
  function CrossCount(s: seq<char>): (n: nat)
    requires IsState(s)
    ensures n <= 4
    ensures n == 4 <==> CheckCross(s)
    ensures n == 0 <==> !CrossEdge(s, 28, 25, 22) && !CrossEdge(s, 30, 43, 40) && !CrossEdge(s, 32, 16, 13)
                        && !CrossEdge(s, 34, 52, 49)
  {
    Indicator(s[28] == White && s[25] == s[22]) + Indicator(s[30] == White && s[43] == s[40])
    + Indicator(s[32] == White && s[16] == s[13]) + Indicator(s[34] == White && s[52] == s[49])
  }

  /** The result of `getF2LStatus`: one flag per first-two-layers slot. */
  datatype F2LStatus = F2LStatus(fr: bool, fl: bool, bl: bool, br: bool)

  predicate AllSlots(st: F2LStatus)
  {
    st.fr && st.fl && st.bl && st.br
  }

  /** `getF2LStatus`: each slot's corner (three facelets) and edge (two facelets) against
      the centres of its faces. */
  function GetF2LStatus(s: seq<char>): F2LStatus
    requires IsState(s)
  {
    var cF := s[22];
    var cR := s[13];
    var cB := s[49];
    var cL := s[40];
    var cD := s[31];
    F2LStatus(
      s[26] == cF && s[15] == cR && s[29] == cD && s[23] == cF && s[12] == cR,
      s[24] == cF && s[44] == cL && s[27] == cD && s[21] == cF && s[41] == cL,
      s[53] == cB && s[42] == cL && s[33] == cD && s[50] == cB && s[39] == cL,
      s[51] == cB && s[17] == cR && s[35] == cD && s[48] == cB && s[14] == cR)
  }

  /** `checkF2L`: the cross, then all four slots. */
  function CheckF2L(s: seq<char>): (b: bool)
    requires IsState(s)
    ensures b ==> CheckCross(s)
    ensures b <==> CheckCross(s) && AllSlots(GetF2LStatus(s))
  {
    if !CheckCross(s) then false
    else
      var status := GetF2LStatus(s);
      status.fr && status.fl && status.bl && status.br
  }

  /** Every facelet of the face at `base` has the colour of that face's centre. */
  predicate FaceSolved(s: seq<char>, base: int)
    requires IsState(s) && 0 <= base <= 45
  {
    forall i :: base <= i < base + 9 ==> s[i] == s[base + 4]
  }

  /** `checkOLL`: the U face is one colour. */
  function CheckOLL(s: seq<char>): bool
    requires IsState(s)
  {
    FaceSolved(s, 0)
  }

  /** `checkPLL`: OLL, then the F, R, B and L faces. */
  function CheckPLL(s: seq<char>): (b: bool)
    requires IsState(s)
    ensures b ==> CheckOLL(s)
  {
    if !CheckOLL(s) then false
    else FaceSolved(s, 18) && FaceSolved(s, 9) && FaceSolved(s, 45) && FaceSolved(s, 36)
  }

  /** `checkSolved`: all six faces, U, R, F, D, L, B. */
  function CheckSolved(s: seq<char>): (b: bool)
    requires IsState(s)
    ensures b ==> CheckPLL(s)
    ensures b <==> CheckPLL(s) && FaceSolved(s, 27)
  {
    FaceSolved(s, 0) && FaceSolved(s, 9) && FaceSolved(s, 18) && FaceSolved(s, 27) && FaceSolved(s, 36)
    && FaceSolved(s, 45)
  }

  // ---------------------------------------------------------------------------
  // How the checkers relate
  // ---------------------------------------------------------------------------

  /** The checkers form a chain: solved, then PLL, then OLL; F2L needs the cross. */
  lemma CheckerChain(s: seq<char>)
    requires IsState(s)
    ensures CheckSolved(s) ==> CheckPLL(s)
    ensures CheckPLL(s) ==> CheckOLL(s)
    ensures CheckF2L(s) ==> CheckCross(s)
    ensures CheckSolved(s) <==> CheckPLL(s) && FaceSolved(s, 27)
  {
  }

  /** A solved cube has all four slots in place, whatever its colours. */
  lemma SolvedHasAllSlots(s: seq<char>)
    requires IsState(s) && CheckSolved(s)
    ensures AllSlots(GetF2LStatus(s))
  {
    assert s[26] == s[22] && s[23] == s[22] && s[24] == s[22] && s[21] == s[22];
    assert s[15] == s[13] && s[12] == s[13] && s[17] == s[13] && s[14] == s[13];
    assert s[29] == s[31] && s[27] == s[31] && s[33] == s[31] && s[35] == s[31];
    assert s[44] == s[40] && s[41] == s[40] && s[42] == s[40] && s[39] == s[40];
    assert s[53] == s[49] && s[50] == s[49] && s[51] == s[49] && s[48] == s[49];
  }

  /** On a solved cube the cross is complete exactly when the D face is white. */
  lemma SolvedCrossIffWhiteDown(s: seq<char>)
    requires IsState(s) && CheckSolved(s)
    ensures CheckCross(s) <==> s[31] == White
    ensures CheckF2L(s) <==> s[31] == White
  {
    assert s[28] == s[31] && s[30] == s[31] && s[32] == s[31] && s[34] == s[31];
    assert s[25] == s[22] && s[43] == s[40] && s[16] == s[13] && s[52] == s[49];
    SolvedHasAllSlots(s);
  }

  /** The reset cube is solved, so every checker but the cross holds on it; its D face
      is yellow, so the cross checks, which look for white, see no edge at all. */
  lemma ResetChecks()
    ensures CheckSolved(ResetState()) && CheckPLL(ResetState()) && CheckOLL(ResetState())
    ensures GetF2LStatus(ResetState()) == F2LStatus(true, true, true, true)
    ensures !CheckCross(ResetState()) && CrossCount(ResetState()) == 0
    ensures !CheckF2L(ResetState())
  {
    var s := ResetState();
    assert CheckSolved(s);
    SolvedHasAllSlots(s);
    assert s[28] == 'y' && s[30] == 'y' && s[32] == 'y' && s[34] == 'y';
  }

  // ---------------------------------------------------------------------------
  // A U turn does not disturb what the cross and F2L checkers read
  // ---------------------------------------------------------------------------

  /** The facelets of the R, F, D, L and B faces below their top rows. */
  predicate LowerFacelet(i: int)
  {
    12 <= i < 18 || 21 <= i < 36 || 39 <= i < 45 || 48 <= i < 54
  }

  predicate SameLowerLayers(s: seq<char>, t: seq<char>)
    requires IsState(s) && IsState(t)
  {
    forall i :: 0 <= i < 54 && LowerFacelet(i) ==> t[i] == s[i]
  }

  /** Every facelet the cross and F2L checkers read is fixed by a U turn. */
  lemma UTurnFixesLowerFacelet(s: seq<char>, i: int)
    requires IsState(s) && LowerFacelet(i)
    ensures Turned(U, s)[i] == s[i]
  {
    TurnedAt(U, s, i);
    assert Origin(U, i) == UOrigin(i) == i;
  }

  lemma {:induction false} RepeatUFixesLowerFacelet(s: seq<char>, n: nat, i: int)
    requires IsState(s) && LowerFacelet(i)
    ensures Repeat(U, s, n)[i] == s[i]
    decreases n
  {
    if n > 0 {
      RepeatStep(U, s, n);
      UTurnFixesLowerFacelet(s, i);
      RepeatUFixesLowerFacelet(Turned(U, s), n - 1, i);
    }
  }

  /** Any number of U quarter turns leaves every lower-layer facelet where it was. */
  lemma RepeatUKeepsLowerLayers(s: seq<char>, n: nat)
    requires IsState(s)
    ensures SameLowerLayers(s, Repeat(U, s, n))
  {
    forall i | 0 <= i < 54 && LowerFacelet(i)
      ensures Repeat(U, s, n)[i] == s[i]
    {
      RepeatUFixesLowerFacelet(s, n, i);
    }
  }

  /** The cross and F2L checkers read only the facelets `SameLowerLayers` compares. */
  lemma LowerCheckersAgree(s: seq<char>, t: seq<char>)
    requires IsState(s) && IsState(t) && SameLowerLayers(s, t)
    ensures CheckCross(t) == CheckCross(s)
    ensures CrossCount(t) == CrossCount(s)
    ensures GetF2LStatus(t) == GetF2LStatus(s)
  {
    assert t[13] == s[13] && t[16] == s[16] && t[22] == s[22] && t[25] == s[25];
    assert t[28] == s[28] && t[30] == s[30] && t[32] == s[32] && t[34] == s[34];
    assert t[40] == s[40] && t[43] == s[43] && t[49] == s[49] && t[52] == s[52];
    assert t[12] == s[12] && t[14] == s[14] && t[15] == s[15] && t[17] == s[17];
    assert t[21] == s[21] && t[23] == s[23] && t[24] == s[24] && t[26] == s[26];
    assert t[27] == s[27] && t[29] == s[29] && t[31] == s[31] && t[33] == s[33] && t[35] == s[35];
    assert t[39] == s[39] && t[41] == s[41] && t[42] == s[42] && t[44] == s[44];
    assert t[48] == s[48] && t[50] == s[50] && t[51] == s[51] && t[53] == s[53];
  }

  lemma SameLowerLayersTrans(s: seq<char>, t: seq<char>, u: seq<char>)
    requires IsState(s) && IsState(t) && IsState(u) && SameLowerLayers(s, t) && SameLowerLayers(t, u)
    ensures SameLowerLayers(s, u)
  {
  }

  /** Any number of U quarter turns (so U, U' and U2) leaves `checkCross`,
      `getCrossCount` and `getF2LStatus` unchanged. */
  lemma RepeatUKeepsLowerCheckers(s: seq<char>, n: nat)
    requires IsState(s)
    ensures CheckCross(Repeat(U, s, n)) == CheckCross(s)
    ensures CrossCount(Repeat(U, s, n)) == CrossCount(s)
    ensures GetF2LStatus(Repeat(U, s, n)) == GetF2LStatus(s)
  {
    RepeatUKeepsLowerLayers(s, n);
    LowerCheckersAgree(s, Repeat(U, s, n));
  }
}
