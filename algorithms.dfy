/** The token interpreter `move` and the two string drivers `applyAlgorithm` and
    `applyAlgorithmWithRotations`, as functions of the facelet state. */
module Algorithms {
  import opened Wrappers
  import opened Text
  import opened Facelets

  /** The `switch` of `move`, on the upper-cased first character. */
  function TurnOfLetter(c: char): (r: Option<Turn>)
    ensures r.None? <==> !(c in "UDLRFBXYZ")
  {
    match c
    case 'U' => Some(U)
    case 'D' => Some(D)
    case 'L' => Some(L)
    case 'R' => Some(R)
    case 'F' => Some(F)
    case 'B' => Some(B)
    case 'X' => Some(X)
    case 'Y' => Some(Y)
    case 'Z' => Some(Z)
    case _ => None
  }

  /** `times`: three when the suffix contains an apostrophe, else two when it contains
      a '2', else one. */
  function RepeatCount(suffix: string): (n: nat)
    ensures 1 <= n <= 3
    ensures n == 3 <==> '\'' in suffix
    ensures n == 2 <==> '\'' !in suffix && '2' in suffix
  {
    if '\'' in suffix then 3 else if '2' in suffix then 2 else 1
  }

  /** The turn a token names, if its first letter names one (read case-insensitively). */
  function TokenTurn(m: string): Option<Turn>
  {
    if m == "" then None else TurnOfLetter(UpperChar(m[0]))
  }

  /** `move(m)`. */
  function Move(s: seq<char>, m: string): (r: seq<char>)
    requires IsState(s)
    ensures IsState(r)
    ensures TokenTurn(m).None? ==> r == s
  {
    if m == "" then s
    else
      match TurnOfLetter(UpperChar(m[0]))
      case None => s
      case Some(t) => Repeat(t, s, RepeatCount(if |m| > 1 then m[1..] else ""))
  }

  /** The `forEach` over the tokens: strictly left to right. */
  function ApplyTokens(s: seq<char>, ts: seq<string>): (r: seq<char>)
    requires IsState(s)
    ensures IsState(r)
    decreases |ts|
  {
    if ts == [] then s else ApplyTokens(Move(s, ts[0]), ts[1..])
  }

  /** `applyAlgorithm(alg)`; a null or empty string is modelled as "". */
  function ApplyAlgorithm(s: seq<char>, alg: string): (r: seq<char>)
    requires IsState(s)
    ensures IsState(r)
  {
    if alg == "" then s else ApplyTokens(s, Tokens(alg))
  }

  /** The nine rotation tokens `applyAlgorithmWithRotations` acts on. */
  predicate ExactRotation(m: string)
  {
    m in {"x", "x'", "x2", "y", "y'", "y2", "z", "z'", "z2"}
  }

  /** A token that starts with x, y or z in either case but is not one of the nine. */
  predicate IgnoredRotation(m: string)
  {
    m != "" && LowerChar(m[0]) in "xyz" && !ExactRotation(m)
  }

  /** One rotation step: exactly `r`, `r'`, `r2` for r in y, x, z rotates 1, 3 or 2 times. */
  function RotationToken(s: seq<char>, m: string, r: char, t: Turn): seq<char>
    requires IsState(s)
  {
    if m == [r] then Repeat(t, s, 1)
    else if m == [r, '\''] then Repeat(t, s, 3)
    else if m == [r, '2'] then Repeat(t, s, 2)
    else s
  }

  /** The body of the `forEach` in `applyAlgorithmWithRotations`. */
  function RotationStep(s: seq<char>, m: string): seq<char>
    requires IsState(s)
  {
    if m != "" && LowerChar(m[0]) == 'y' then RotationToken(s, m, 'y', Y)
    else if m != "" && LowerChar(m[0]) == 'x' then RotationToken(s, m, 'x', X)
    else if m != "" && LowerChar(m[0]) == 'z' then RotationToken(s, m, 'z', Z)
    else Move(s, m)
  }

  function ApplyTokensWithRotations(s: seq<char>, ts: seq<string>): (r: seq<char>)
    requires IsState(s)
    ensures IsState(r)
    decreases |ts|
  {
    if ts == [] then s else ApplyTokensWithRotations(RotationStep(s, ts[0]), ts[1..])
  }

  /** `applyAlgorithmWithRotations(alg)`. */
  function ApplyAlgorithmWithRotations(s: seq<char>, alg: string): (r: seq<char>)
    requires IsState(s)
    ensures IsState(r)
  {
    if alg == "" then s else ApplyTokensWithRotations(s, Tokens(alg))
  }

  // ---------------------------------------------------------------------------
  // move
  // ---------------------------------------------------------------------------

  /** How `move` reads a token: its first letter case-insensitively, and the number
      of quarter turns from the rest. */
  lemma MoveReads(s: seq<char>, m: string)
    requires IsState(s) && TokenTurn(m).Some?
    ensures Move(s, m) == Repeat(TokenTurn(m).value, s, RepeatCount(m[1..]))
    ensures '\'' in m[1..] ==> Move(s, m) == Repeat(TokenTurn(m).value, s, 3)
    ensures '\'' !in m[1..] && '2' in m[1..] ==> Move(s, m) == Repeat(TokenTurn(m).value, s, 2)
    ensures '\'' !in m[1..] && '2' !in m[1..] ==> Move(s, m) == Turned(TokenTurn(m).value, s)
  {
    if |m| == 1 {
      assert m[1..] == "";
    }
  }

  /** Lower and upper case first letters are read alike. */
  lemma MoveCaseInsensitive(s: seq<char>, c: char, suffix: string)
    requires IsState(s)
    ensures Move(s, [c] + suffix) == Move(s, [UpperChar(c)] + suffix)
  {
    assert ([c] + suffix)[1..] == suffix && ([UpperChar(c)] + suffix)[1..] == suffix;
  }

  /** The empty token, and a token whose first letter names no turn, change nothing. */
  lemma MoveIgnores(s: seq<char>, m: string)
    requires IsState(s)
    requires m == "" || !(UpperChar(m[0]) in "UDLRFBXYZ")
    ensures Move(s, m) == s
  {
  }

  /** A single quarter-turn token followed by the same token with an apostrophe
      appended, in either order, is the identity. */
  lemma MoveThenPrime(s: seq<char>, m: string)
    requires IsState(s) && m != "" && '\'' !in m[1..] && '2' !in m[1..]
    ensures Move(Move(s, m), m + "'") == s
    ensures Move(Move(s, m + "'"), m) == s
  {
    assert (m + "'")[0] == m[0] && (m + "'")[1..] == m[1..] + "'";
    assert '\'' in (m + "'")[1..];
    match TokenTurn(m)
    case None =>
    case Some(t) =>
      MoveReads(s, m);
      MoveReads(Move(s, m), m + "'");
      MoveReads(s, m + "'");
      MoveReads(Move(s, m + "'"), m);
      TurnThenThree(t, s);
  }

  /** A half-turn token followed by the same token with an apostrophe appended is one
      quarter turn, not the identity: 2 + 3 quarter turns. */
  lemma HalfTurnThenPrime(s: seq<char>, m: string)
    requires IsState(s) && TokenTurn(m).Some? && '\'' !in m[1..] && '2' in m[1..]
    ensures Move(Move(s, m), m + "'") == Turned(TokenTurn(m).value, s)
  {
    var t := TokenTurn(m).value;
    assert (m + "'")[0] == m[0] && (m + "'")[1..] == m[1..] + "'";
    assert '\'' in (m + "'")[1..];
    MoveReads(s, m);
    MoveReads(Move(s, m), m + "'");
    var s1 := Turned(t, s);
    RepeatUnfold(t, s);
    RepeatUnfold(t, Turned(t, s1));
    TurnOrder4(t, s1);
  }

  // ---------------------------------------------------------------------------
  // applyAlgorithm
  // ---------------------------------------------------------------------------

  /** An empty or blank algorithm leaves the cube unchanged. */
  lemma ApplyAlgorithmBlank(s: seq<char>, alg: string)
    requires IsState(s) && Blank(alg)
    ensures ApplyAlgorithm(s, alg) == s
  {
    if alg != "" {
      TokensOfBlank(alg);
      assert ApplyTokens(s, [""]) == ApplyTokens(Move(s, ""), []);
    }
  }

  /** Tokens are applied strictly left to right. */
  lemma {:induction false} ApplyTokensAppend(s: seq<char>, a: seq<string>, b: seq<string>)
    requires IsState(s)
    ensures ApplyTokens(s, a + b) == ApplyTokens(ApplyTokens(s, a), b)
    decreases |a|
  {
    if a == [] {
      assert a + b == b;
    } else {
      assert (a + b)[0] == a[0] && (a + b)[1..] == a[1..] + b;
      ApplyTokensAppend(Move(s, a[0]), a[1..], b);
    }
  }

  /** A space-joined list of words is applied token by token. */
  lemma ApplyAlgorithmJoin(s: seq<char>, ts: seq<string>)
    requires IsState(s) && |ts| >= 1 && AllWords(ts)
    ensures ApplyAlgorithm(s, Join(ts, " ")) == ApplyTokens(s, ts)
  {
    JoinShape(ts);
    TokensJoin(ts);
  }

  /** Applying the words of a then those of b is applying a then b. */
  lemma ApplyAlgorithmSequential(s: seq<char>, a: seq<string>, b: seq<string>)
    requires IsState(s) && |a| >= 1 && |b| >= 1 && AllWords(a) && AllWords(b)
    ensures ApplyAlgorithm(s, Join(a + b, " ")) == ApplyAlgorithm(ApplyAlgorithm(s, Join(a, " ")), Join(b, " "))
  {
    ApplyAlgorithmJoin(s, a + b);
    ApplyAlgorithmJoin(s, a);
    ApplyAlgorithmJoin(ApplyAlgorithm(s, Join(a, " ")), b);
    ApplyTokensAppend(s, a, b);
  }

  // ---------------------------------------------------------------------------
  // applyAlgorithmWithRotations
  // ---------------------------------------------------------------------------

  /** A rotation-prefixed token rotates only when it is exactly one of the nine lower-case
      rotation tokens, and then exactly as `move` would; every other such token is
      ignored; every token not starting with x, y or z goes to `move`. */
  lemma RotationStepIs(s: seq<char>, m: string)
    requires IsState(s)
    ensures RotationStep(s, m) == if IgnoredRotation(m) then s else Move(s, m)
  {
    if m != "" && LowerChar(m[0]) == 'y' {
      ExactRotationMoves(s, m, 'y', Y);
    } else if m != "" && LowerChar(m[0]) == 'x' {
      ExactRotationMoves(s, m, 'x', X);
    } else if m != "" && LowerChar(m[0]) == 'z' {
      ExactRotationMoves(s, m, 'z', Z);
    }
  }

  /** On the three exact tokens of one rotation, `move` does what the rotation-aware
      driver does. */
  lemma ExactRotationMoves(s: seq<char>, m: string, r: char, t: Turn)
    requires IsState(s) && m != "" && LowerChar(m[0]) == r && r in "xyz"
    requires TurnOfLetter(UpperChar(r)) == Some(t)
    ensures ExactRotation(m) <==> m in {[r], [r, '\''], [r, '2']}
    ensures ExactRotation(m) ==> RotationToken(s, m, r, t) == Move(s, m)
    ensures !ExactRotation(m) ==> RotationToken(s, m, r, t) == s
  {
    if m in {[r], [r, '\''], [r, '2']} {
      assert TokenTurn(m) == Some(t);
      MoveReads(s, m);
      if m == [r] {
        assert m[1..] == "";
      } else {
        assert m[1..] in {"'", "2"};
      }
    }
  }

  /** An upper-case rotation letter is ignored by the rotation-aware driver, while `move`
      turns the cube for it. */
  lemma UpperRotationIgnored(s: seq<char>)
    requires IsState(s)
    ensures RotationStep(s, "Y") == s && Move(s, "Y") == Turned(Y, s)
  {
    RotationStepIs(s, "Y");
    assert TokenTurn("Y") == Some(Y) && "Y"[1..] == "";
    MoveReads(s, "Y");
  }

  /** So is a rotation token with two modifiers; `move` reads it as three quarter turns. */
  lemma DoubleModifierRotationIgnored(s: seq<char>)
    requires IsState(s)
    ensures RotationStep(s, "x2'") == s && Move(s, "x2'") == Repeat(X, s, 3)
  {
    RotationStepIs(s, "x2'");
    assert TokenTurn("x2'") == Some(X) && "x2'"[1..] == "2'";
    MoveReads(s, "x2'");
  }

  lemma {:induction false} ApplyTokensWithRotationsAgrees(s: seq<char>, ts: seq<string>)
    requires IsState(s)
    requires forall i :: 0 <= i < |ts| ==> !IgnoredRotation(ts[i])
    ensures ApplyTokensWithRotations(s, ts) == ApplyTokens(s, ts)
    decreases |ts|
  {
    if ts != [] {
      RotationStepIs(s, ts[0]);
      ApplyTokensWithRotationsAgrees(Move(s, ts[0]), ts[1..]);
    }
  }

  /** Without odd rotation tokens the two drivers agree. */
  lemma WithRotationsAgrees(s: seq<char>, alg: string)
    requires IsState(s)
    requires forall i :: 0 <= i < |Tokens(alg)| ==> !IgnoredRotation(Tokens(alg)[i])
    ensures ApplyAlgorithmWithRotations(s, alg) == ApplyAlgorithm(s, alg)
  {
    if alg != "" {
      ApplyTokensWithRotationsAgrees(s, Tokens(alg));
    }
  }

  lemma {:induction false} ApplyTokensWithRotationsAppend(s: seq<char>, a: seq<string>, b: seq<string>)
    requires IsState(s)
    ensures ApplyTokensWithRotations(s, a + b) == ApplyTokensWithRotations(ApplyTokensWithRotations(s, a), b)
    decreases |a|
  {
    if a == [] {
      assert a + b == b;
    } else {
      assert (a + b)[0] == a[0] && (a + b)[1..] == a[1..] + b;
      ApplyTokensWithRotationsAppend(RotationStep(s, a[0]), a[1..], b);
    }
  }

  /** A token only permutes the colours. */
  lemma MovePermutes(s: seq<char>, m: string)
    requires IsState(s)
    ensures multiset(Move(s, m)) == multiset(s)
  {
    if TokenTurn(m).Some? {
      MoveReads(s, m);
      RepeatPermutes(TokenTurn(m).value, s, RepeatCount(m[1..]));
    }
  }

  /** `applyAlgorithm` only permutes the colours. */
  lemma {:induction false} ApplyTokensPermutes(s: seq<char>, ts: seq<string>)
    requires IsState(s)
    ensures multiset(ApplyTokens(s, ts)) == multiset(s)
    decreases |ts|
  {
    if ts != [] {
      MovePermutes(s, ts[0]);
      ApplyTokensPermutes(Move(s, ts[0]), ts[1..]);
    }
  }

  lemma ApplyAlgorithmPermutes(s: seq<char>, alg: string)
    requires IsState(s)
    ensures multiset(ApplyAlgorithm(s, alg)) == multiset(s)
  {
    if alg != "" {
      ApplyTokensPermutes(s, Tokens(alg));
    }
  }

  /** The rotation-aware driver, too, only permutes colours. */
  lemma {:induction false} ApplyTokensWithRotationsPermutes(s: seq<char>, ts: seq<string>)
    requires IsState(s)
    ensures multiset(ApplyTokensWithRotations(s, ts)) == multiset(s)
    decreases |ts|
  {
    if ts != [] {
      var m := ts[0];
      RotationStepIs(s, m);
      MovePermutes(s, m);
      ApplyTokensWithRotationsPermutes(RotationStep(s, m), ts[1..]);
    }
  }
}
