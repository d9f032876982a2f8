/** `invertMoves` of frontend/src/CubeSolver.jsx, which the page uses to derive a
    scramble from a solution, and a corrected variant that treats half turns as their
    own inverse. */
module Inversion {
  import opened Wrappers
  import opened Text
  import opened Facelets
  import opened Algorithms

  /** The index of the first apostrophe of t, or |t| when there is none. */
  function FirstQuote(t: string): (p: nat)
    ensures p <= |t| && '\'' !in t[..p]
    ensures p < |t| <==> '\'' in t
    ensures p < |t| ==> t[p] == '\''
  {
    if t == [] then 0
    else if t[0] == '\'' then 0
    else
      assert t[..1 + FirstQuote(t[1..])] == [t[0]] + t[1..][..FirstQuote(t[1..])];
      1 + FirstQuote(t[1..])
  }

  /** `t.replace("'", "")`: the first apostrophe, if any, is cut out. */
  function RemoveFirstQuote(t: string): (r: string)
    ensures '\'' !in t ==> r == t
    ensures '\'' in t ==> |r| == |t| - 1
    ensures forall i :: 0 <= i < |t| && t[i] != '\'' && '\'' !in t[..i] ==> r[i] == t[i]
    ensures '\'' in t ==> r == t[..FirstQuote(t)] + t[FirstQuote(t) + 1..]
  {
    var p := FirstQuote(t);
    if p < |t| then t[..p] + t[p + 1..] else t
  }

  /** Whatever precedes and follows the first apostrophe is kept, in order. */
  lemma RemoveFirstQuoteAt(t: string, p: nat)
    requires p < |t| && t[p] == '\'' && '\'' !in t[..p]
    ensures RemoveFirstQuote(t) == t[..p] + t[p + 1..]
  {
  }

  /** The `map` callback of `invertMoves`. */
  function InvertToken(t: string): string
  {
    if '\'' in t then RemoveFirstQuote(t) else t + "'"
  }

  /** The `map` over the tokens. */
  function MapTokens<T>(f: T -> T, ts: seq<T>): seq<T>
  {
    seq(|ts|, i requires 0 <= i < |ts| => f(ts[i]))
  }

  /** `invertMoves(moveString)`; null and undefined are modelled as "". */
  function InvertMoves(s: string): string
  {
    if s == "" then "" else Join(Reverse(MapTokens(InvertToken, Tokens(s))), " ")
  }

  /** The empty string inverts to itself; a blank one tokenises to a single empty token,
      which inverts to a lone apostrophe. */
  lemma InvertMovesEdgeCases(s: string)
    ensures s == "" ==> InvertMoves(s) == ""
    ensures s != "" && Blank(s) ==> InvertMoves(s) == "'"
  {
    if s != "" && Blank(s) {
      TokensOfBlank(s);
      var m := MapTokens(InvertToken, [""]);
      assert m[0] == InvertToken("") == "'";
      assert m == ["'"];
      assert Reverse(m) == m;
    }
  }

  // ---------------------------------------------------------------------------
  // Shape of the result
  // ---------------------------------------------------------------------------

  /** The part of a token before an optional final apostrophe. */
  function Base(t: string): string
  {
    if t != [] && t[|t| - 1] == '\'' then t[..|t| - 1] else t
  }

  /** A token whose only apostrophe, if any, is its last character. */
  predicate WellQuoted(t: string)
  {
    IsWord(t) && Base(t) != "" && '\'' !in Base(t)
  }

  lemma RemoveFinalQuote(b: string)
    requires '\'' !in b
    ensures RemoveFirstQuote(b + "'") == b
  {
    if b != [] {
      assert (b + "'")[1..] == b[1..] + "'";
      RemoveFinalQuote(b[1..]);
    }
  }

  /** On a well-quoted token, inverting toggles the final apostrophe. */
  lemma InvertWellQuoted(t: string)
    requires WellQuoted(t)
    ensures Base(InvertToken(t)) == Base(t)
    ensures InvertToken(t) == if t[|t| - 1] == '\'' then Base(t) else t + "'"
    ensures WellQuoted(InvertToken(t))
    ensures InvertToken(InvertToken(t)) == t
  {
    var b := Base(t);
    if t[|t| - 1] == '\'' {
      assert t == b + "'";
      RemoveFinalQuote(b);
      assert '\'' !in b;
      assert (b + "'")[..|b|] == b;
    } else {
      assert '\'' !in t;
      assert (t + "'")[..|t|] == t;
      RemoveFinalQuote(t);
    }
  }

  predicate AllWellQuoted(ts: seq<string>)
  {
    forall i :: 0 <= i < |ts| ==> WellQuoted(ts[i])
  }

  /** Inverting each well-quoted token of a list, in reverse order, gives well-quoted tokens. */
  lemma ReverseInvertedWellQuoted(ts: seq<string>)
    requires AllWellQuoted(ts)
    ensures AllWellQuoted(Reverse(MapTokens(InvertToken, ts)))
  {
    var inv := Reverse(MapTokens(InvertToken, ts));
    forall i | 0 <= i < |inv|
      ensures WellQuoted(inv[i])
    {
      ReverseMapAt(InvertToken, ts, i);
      InvertKeepsWellQuoted(ts[|ts| - 1 - i]);
    }
  }

  lemma ReverseMapAt<T>(f: T -> T, ts: seq<T>, i: int)
    requires 0 <= i < |ts|
    ensures Reverse(MapTokens(f, ts))[i] == f(ts[|ts| - 1 - i])
  {
    assert Reverse(MapTokens(f, ts))[i] == MapTokens(f, ts)[|ts| - 1 - i];
  }

  lemma InvertKeepsWellQuoted(t: string)
    requires WellQuoted(t)
    ensures WellQuoted(InvertToken(t))
  {
    InvertWellQuoted(t);
  }

  lemma WellQuotedAreWords(ts: seq<string>)
    requires AllWellQuoted(ts)
    ensures AllWords(ts)
  {
  }

  /** `invertMoves` reverses the token order and toggles each token's final apostrophe;
      on such tokens its result tokenises back into exactly that list. */
  lemma InvertMovesTokens(s: string)
    requires !Blank(s) && AllWellQuoted(Tokens(s))
    ensures Tokens(InvertMoves(s)) == Reverse(MapTokens(InvertToken, Tokens(s)))
    ensures AllWellQuoted(Tokens(InvertMoves(s)))
  {
    var ts := Tokens(s);
    TokensAreWords(s);
    var inv := Reverse(MapTokens(InvertToken, ts));
    ReverseInvertedWellQuoted(ts);
    WellQuotedAreWords(inv);
    assert s != "";
    TokensJoin(inv);
  }

  /** Inverting the inverted list of well-quoted tokens gives back the list. */
  lemma ReverseInvertedTwice(ts: seq<string>)
    requires AllWellQuoted(ts)
    ensures Reverse(MapTokens(InvertToken, Reverse(MapTokens(InvertToken, ts)))) == ts
  {
    forall i | 0 <= i < |ts|
      ensures InvertToken(InvertToken(ts[i])) == ts[i]
    {
      InvertWellQuoted(ts[i]);
    }
    ReverseMapTwice(InvertToken, ts);
  }

  /** Reversing and mapping twice by a function that undoes itself on ts gives ts. */
  lemma ReverseMapTwice<T>(f: T -> T, ts: seq<T>)
    requires forall i :: 0 <= i < |ts| ==> f(f(ts[i])) == ts[i]
    ensures Reverse(MapTokens(f, Reverse(MapTokens(f, ts)))) == ts
  {
    var inv := Reverse(MapTokens(f, ts));
    var back := Reverse(MapTokens(f, inv));
    forall i | 0 <= i < |ts|
      ensures back[i] == ts[i]
    {
      ReverseMapAt(f, inv, i);
      ReverseMapAt(f, ts, |ts| - 1 - i);
    }
  }

  /** Inverting twice gives back the tokens, joined with single spaces. */
  lemma InvertMovesTwice(s: string)
    requires !Blank(s) && AllWellQuoted(Tokens(s))
    ensures InvertMoves(InvertMoves(s)) == Join(Tokens(s), " ")
  {
    var ts := Tokens(s);
    var inv := Reverse(MapTokens(InvertToken, ts));
    InvertMovesTokens(s);
    TokensAreWords(s);
    ReverseInvertedWellQuoted(ts);
    WellQuotedAreWords(inv);
    JoinShape(inv);
    assert InvertMoves(s) != "";
    ReverseInvertedTwice(ts);
  }

  // ---------------------------------------------------------------------------
  // Applying a sequence and then its inverse
  // ---------------------------------------------------------------------------

  /** A well-quoted token of one quarter turn: no '2' and no apostrophe after the
      first character of its base, so `move` reads it as 1 (no apostrophe) or 3 turns. */
  predicate QuarterToken(t: string)
  {
    WellQuoted(t) && '2' !in Base(t)[1..]
  }

  predicate AllQuarterTokens(ts: seq<string>)
  {
    forall i :: 0 <= i < |ts| ==> QuarterToken(ts[i])
  }

  /** The number of quarter turns `move` makes for a token that names a turn. */
  function Quarters(m: string): nat
  {
    RepeatCount(if |m| > 1 then m[1..] else "")
  }

  /** Tokens t and u undo each other: both name no turn, or both name the same turn
      and their quarter turns add up to a full revolution. */
  predicate Undoes(t: string, u: string)
  {
    TokenTurn(t) == TokenTurn(u) && (TokenTurn(t).None? || Quarters(t) + Quarters(u) == 4)
  }

  lemma UndoesTurn(c: seq<char>, t: string, u: string, turn: Turn)
    requires IsState(c) && Undoes(t, u) && TokenTurn(t) == Some(turn)
    ensures Move(Move(c, t), u) == c
  {
    var n := Quarters(t);
    var c1 := Repeat(turn, c, n);
    assert Move(c, t) == c1 by { MoveReads(c, t); }
    assert Move(c1, u) == Repeat(turn, c1, 4 - n) by { MoveReads(c1, u); }
    RepeatFullTurn(turn, c, n, 4 - n);
  }

  lemma UndoesOneWay(c: seq<char>, t: string, u: string)
    requires IsState(c) && Undoes(t, u)
    ensures Move(Move(c, t), u) == c
  {
    if TokenTurn(t).Some? {
      UndoesTurn(c, t, u, TokenTurn(t).value);
    }
  }

  lemma UndoesCancels(c: seq<char>, t: string, u: string)
    requires IsState(c) && Undoes(t, u)
    ensures Move(Move(c, t), u) == c && Move(Move(c, u), t) == c
  {
    UndoesOneWay(c, t, u);
    UndoesOneWay(c, u, t);
  }

  /** A quarter-turn token and its inverse undo each other. */
  lemma QuarterTokenUndone(t: string)
    requires QuarterToken(t)
    ensures Undoes(t, InvertToken(t)) && IsWord(InvertToken(t))
  {
    var b := Base(t);
    InvertWellQuoted(t);
    var q := b + "'";
    assert q[0] == b[0] && q[1..] == b[1..] + "'";
    assert '\'' in q[1..];
    assert b[1..] == b[1..] && '\'' !in b[1..];
    if t[|t| - 1] == '\'' {
      assert t == q;
    } else {
      assert InvertToken(t) == q;
    }
  }

  lemma ApplyTokensSnoc(c: seq<char>, ts: seq<string>, t: string)
    requires IsState(c)
    ensures ApplyTokens(c, ts + [t]) == Move(ApplyTokens(c, ts), t)
  {
    ApplyTokensAppend(c, ts, [t]);
    assert ApplyTokens(ApplyTokens(c, ts), [t]) == ApplyTokens(Move(ApplyTokens(c, ts), t), []);
  }

  /** Every token of ts and its image under f undo each other. */
  predicate AllUndone(f: string -> string, ts: seq<string>)
  {
    forall i :: 0 <= i < |ts| ==> Undoes(ts[i], f(ts[i]))
  }

  lemma ReverseMapCons<T>(f: T -> T, t: T, rest: seq<T>)
    ensures Reverse(MapTokens(f, [t] + rest)) == Reverse(MapTokens(f, rest)) + [f(t)]
  {
    var ts := [t] + rest;
    assert ts[0] == t && ts[1..] == rest;
    var m := MapTokens(f, ts);
    assert m[0] == f(t) && m[1..] == MapTokens(f, rest);
  }

  lemma MapTokensSnoc<T>(f: T -> T, init: seq<T>, t: T)
    ensures MapTokens(f, init + [t]) == MapTokens(f, init) + [f(t)]
  {
    var l, r := MapTokens(f, init + [t]), MapTokens(f, init) + [f(t)];
    forall i | 0 <= i < |l|
      ensures l[i] == r[i]
    {
      assert (init + [t])[i] == if i < |init| then init[i] else t;
    }
  }

  lemma ReverseMapSnoc<T>(f: T -> T, init: seq<T>, t: T)
    ensures Reverse(MapTokens(f, init + [t])) == [f(t)] + Reverse(MapTokens(f, init))
  {
    MapTokensSnoc(f, init, t);
    ReverseSnoc(MapTokens(f, init), f(t));
  }

  /** Token by token, the reversed mapped list undoes the list. */
  lemma {:induction false} ApplyThenInverseTokens(f: string -> string, c: seq<char>, ts: seq<string>)
    requires IsState(c) && AllUndone(f, ts)
    ensures ApplyTokens(ApplyTokens(c, ts), Reverse(MapTokens(f, ts))) == c
    decreases |ts|
  {
    if ts != [] {
      var t := ts[0];
      var rest := ts[1..];
      assert ts == [t] + rest;
      var c1 := Move(c, t);
      ReverseMapCons(f, t, rest);
      var back := Reverse(MapTokens(f, rest));
      assert AllUndone(f, rest) by {
        forall i | 0 <= i < |rest| ensures Undoes(rest[i], f(rest[i])) { assert rest[i] == ts[i + 1]; }
      }
      ApplyThenInverseTokens(f, c1, rest);
      assert ApplyTokens(c, ts) == ApplyTokens(c1, rest);
      ApplyTokensSnoc(ApplyTokens(c1, rest), back, f(t));
      assert Undoes(ts[0], f(ts[0]));
      UndoesCancels(c, t, f(t));
    }
  }

  /** Token by token, the list undoes the reversed mapped list. */
  lemma {:induction false} ApplyInverseThenTokens(f: string -> string, c: seq<char>, ts: seq<string>)
    requires IsState(c) && AllUndone(f, ts)
    ensures ApplyTokens(ApplyTokens(c, Reverse(MapTokens(f, ts))), ts) == c
    decreases |ts|
  {
    if ts != [] {
      var n := |ts| - 1;
      var t := ts[n];
      var init := ts[..n];
      assert ts == init + [t];
      ReverseMapSnoc(f, init, t);
      var back := Reverse(MapTokens(f, init));
      ApplyTokensAppend(c, [f(t)], back);
      var c1 := Move(c, f(t));
      assert ApplyTokens(c, [f(t)]) == ApplyTokens(c1, []);
      assert AllUndone(f, init) by {
        forall i | 0 <= i < |init| ensures Undoes(init[i], f(init[i])) { assert init[i] == ts[i]; }
      }
      ApplyInverseThenTokens(f, c1, init);
      ApplyTokensSnoc(ApplyTokens(c1, back), init, t);
      assert Undoes(ts[n], f(ts[n]));
      UndoesCancels(c, t, f(t));
    }
  }

  /** If every token is undone by its image under f and the images are words, applying
      the string and then the space-joined reversed images restores the cube, and so does
      the other order. */
  lemma ApplyThenReverseMapRestores(f: string -> string, c: seq<char>, s: string)
    requires IsState(c) && !Blank(s) && AllUndone(f, Tokens(s)) && AllWords(MapTokens(f, Tokens(s)))
    ensures var inv := Join(Reverse(MapTokens(f, Tokens(s))), " ");
      ApplyAlgorithm(ApplyAlgorithm(c, s), inv) == c && ApplyAlgorithm(ApplyAlgorithm(c, inv), s) == c
  {
    var ts := Tokens(s);
    TokensAreWords(s);
    var r := Reverse(MapTokens(f, ts));
    assert AllWords(r) by {
      forall i | 0 <= i < |r| ensures IsWord(r[i]) { assert r[i] == MapTokens(f, ts)[|ts| - 1 - i]; }
    }
    assert s != "";
    ApplyAlgorithmJoin(ApplyAlgorithm(c, s), r);
    ApplyThenInverseTokens(f, c, ts);
    ApplyAlgorithmJoin(c, r);
    ApplyInverseThenTokens(f, c, ts);
  }

  /** Applying a sequence of quarter-turn tokens and then its inverse restores the cube,
      and so does the inverse followed by the sequence. */
  lemma ApplyThenInvertRestores(c: seq<char>, s: string)
    requires IsState(c) && !Blank(s) && AllQuarterTokens(Tokens(s))
    ensures ApplyAlgorithm(ApplyAlgorithm(c, s), InvertMoves(s)) == c
    ensures ApplyAlgorithm(ApplyAlgorithm(c, InvertMoves(s)), s) == c
  {
    var ts := Tokens(s);
    var m := MapTokens(InvertToken, ts);
    forall i | 0 <= i < |ts|
      ensures Undoes(ts[i], InvertToken(ts[i])) && IsWord(m[i])
    {
      QuarterTokenUndone(ts[i]);
    }
    assert s != "";
    ApplyThenReverseMapRestores(InvertToken, c, s);
  }

  // ---------------------------------------------------------------------------
  // Half turns
  // ---------------------------------------------------------------------------

  /** As written, a half turn is "inverted" by appending an apostrophe: U2 becomes U2'. */
  lemma HalfTurnInvertedAsWritten()
    ensures InvertMoves("U2") == "U2'"
  {
    TokensJoin(["U2"]);
    assert Join(["U2"], " ") == "U2";
    assert '\'' !in "U2";
    var m := MapTokens(InvertToken, ["U2"]);
    assert m[0] == InvertToken("U2") == "U2" + "'" == "U2'";
    assert m == ["U2'"];
    assert Reverse(m) == m;
    assert Join(["U2'"], " ") == "U2'";
  }

  lemma HalfTurnTokensAreWords()
    ensures IsWord("U2") && IsWord("U2'")
  {
    assert !IsSpace('U') && !IsSpace('2') && !IsSpace('\'');
  }

  /** A U turn brings facelet 9 to position 18. */
  lemma UTurnBringsNineToEighteen()
    ensures UOrigin(18) == 9
  {
  }

  /** Applying a one-token algorithm is one call of `move`. */
  lemma ApplySingleToken(c: seq<char>, m: string)
    requires IsState(c) && IsWord(m)
    ensures ApplyAlgorithm(c, m) == Move(c, m)
  {
    TokensJoin([m]);
    assert Join([m], " ") == m;
    assert ApplyTokens(c, [m]) == ApplyTokens(Move(c, m), []);
  }

  /** ...and `move` reads U2' as three quarter turns, so U2 followed by its "inverse"
      is one U turn from any state: whenever facelets 9 and 18 differ, the cube is
      not restored. */
  lemma HalfTurnNotRestored(c: seq<char>)
    requires IsState(c)
    ensures ApplyAlgorithm(ApplyAlgorithm(c, "U2"), InvertMoves("U2")) == Turned(U, c)
    ensures c[9] != c[18] ==> ApplyAlgorithm(ApplyAlgorithm(c, "U2"), InvertMoves("U2")) != c
  {
    HalfTurnInvertedAsWritten();
    HalfTurnThenPrimeIsU(c);
    TurnedAt(U, c, 18);
    UTurnBringsNineToEighteen();
  }

  lemma HalfTurnThenPrimeIsU(c: seq<char>)
    requires IsState(c)
    ensures ApplyAlgorithm(ApplyAlgorithm(c, "U2"), "U2'") == Turned(U, c)
  {
    HalfTurnTokensAreWords();
    assert "U2" + "'" == "U2'";
    assert TokenTurn("U2") == Some(U) && "U2"[1..] == "2";
    HalfTurnThenPrimeApplied(c, "U2");
  }

  /** A half-turn word followed by the same word with an apostrophe appended is one
      quarter turn. */
  lemma HalfTurnThenPrimeApplied(c: seq<char>, m: string)
    requires IsState(c) && IsWord(m) && IsWord(m + "'")
    requires TokenTurn(m).Some? && '\'' !in m[1..] && '2' in m[1..]
    ensures ApplyAlgorithm(ApplyAlgorithm(c, m), m + "'") == Turned(TokenTurn(m).value, c)
  {
    ApplySingleToken(c, m);
    ApplySingleToken(Move(c, m), m + "'");
    HalfTurnThenPrime(c, m);
  }

  /** The reset cube is a witness: its facelet 9 is red and 18 green. */
  lemma HalfTurnNotRestoredFromReset()
    ensures ApplyAlgorithm(ApplyAlgorithm(ResetState(), "U2"), InvertMoves("U2")) != ResetState()
  {
    var s := ResetState();
    assert s[9] == 'r' && s[18] == 'g';
    HalfTurnNotRestored(s);
  }

  /** The intended inversion: drop the apostrophe of a primed token, keep a half turn as
      it is (it is its own inverse), otherwise append an apostrophe. */
  function InvertTokenFixed(t: string): string
  {
    if '\'' in t then RemoveFirstQuote(t) else if '2' in t then t else t + "'"
  }

  function InvertMovesFixed(s: string): string
  {
    if s == "" then "" else Join(Reverse(MapTokens(InvertTokenFixed, Tokens(s))), " ")
  }

  /** A half-turn token: a word without apostrophes whose suffix contains a '2'. */
  predicate HalfToken(t: string)
  {
    IsWord(t) && '\'' !in t && '2' in t[1..]
  }

  predicate SimpleToken(t: string)
  {
    QuarterToken(t) || HalfToken(t)
  }

  predicate AllSimpleTokens(ts: seq<string>)
  {
    forall i :: 0 <= i < |ts| ==> SimpleToken(ts[i])
  }

  /** A quarter or half turn token and its corrected inverse undo each other. */
  lemma SimpleTokenUndone(t: string)
    requires SimpleToken(t)
    ensures Undoes(t, InvertTokenFixed(t)) && IsWord(InvertTokenFixed(t))
  {
    if '\'' in t {
      assert QuarterToken(t);
      QuarterTokenUndone(t);
    } else if '2' in t {
      assert InvertTokenFixed(t) == t;
      if !HalfToken(t) {
        // a quarter token whose only '2' is its first character names no turn
        assert Base(t) == t && '2' !in t[1..];
        assert t[0] == '2';
      }
    } else {
      assert QuarterToken(t);
      QuarterTokenUndone(t);
    }
  }

  /** With the corrected inversion, a sequence of quarter and half turns followed by its
      inverse restores the cube, and so does the inverse followed by the sequence. */
  lemma ApplyThenInvertFixedRestores(c: seq<char>, s: string)
    requires IsState(c) && !Blank(s) && AllSimpleTokens(Tokens(s))
    ensures ApplyAlgorithm(ApplyAlgorithm(c, s), InvertMovesFixed(s)) == c
    ensures ApplyAlgorithm(ApplyAlgorithm(c, InvertMovesFixed(s)), s) == c
  {
    var ts := Tokens(s);
    var m := MapTokens(InvertTokenFixed, ts);
    forall i | 0 <= i < |ts|
      ensures Undoes(ts[i], InvertTokenFixed(ts[i])) && IsWord(m[i])
    {
      SimpleTokenUndone(ts[i]);
    }
    assert s != "";
    ApplyThenReverseMapRestores(InvertTokenFixed, c, s);
  }

  /** The corrected inversion undoes the half turn that the original does not. */
  lemma HalfTurnRestoredFixed()
    ensures ApplyAlgorithm(ApplyAlgorithm(ResetState(), "U2"), InvertMovesFixed("U2")) == ResetState()
  {
    TokensJoin(["U2"]);
    assert Join(["U2"], " ") == "U2";
    assert HalfToken("U2") by { assert "U2"[1..] == "2"; }
    ApplyThenInvertFixedRestores(ResetState(), "U2");
  }
}
