/** The few JavaScript string operations the simulator and the playback logic rely on:
    `trim`, `split(/\s+/)`, `join(' ')`, ASCII case mapping and substring search. */
module Text {

  /** The characters JavaScript's `\s` and `trim` treat as white space. */
  predicate IsSpace(c: char)
  {
    c == ' ' || c == '\t' || c == '\n' || c == '\r' || c == '\U{000B}' || c == '\U{000C}'
    || c == '\U{00A0}' || c == '\U{1680}' || ('\U{2000}' <= c <= '\U{200A}') || c == '\U{2028}'
    || c == '\U{2029}' || c == '\U{202F}' || c == '\U{205F}' || c == '\U{3000}' || c == '\U{FEFF}'
  }

  /** A string with no white space in it: what one token of a move string looks like. */
  predicate IsWord(w: string)
  {
    |w| > 0 && forall i :: 0 <= i < |w| ==> !IsSpace(w[i])
  }

  predicate Blank(s: string)
  {
    forall i :: 0 <= i < |s| ==> IsSpace(s[i])
  }

  /** The string without its leading white space. */
  function DropSpaces(s: string): (r: string)
    ensures |r| <= |s|
    ensures r == [] || !IsSpace(r[0])
    ensures Blank(s) <==> r == []
  {
    if s != [] && IsSpace(s[0]) then DropSpaces(s[1..]) else s
  }

  /** What `DropSpaces` keeps is a suffix of its argument. */
  lemma {:induction false} DropSpacesSuffix(s: string)
    ensures DropSpaces(s) == s[|s| - |DropSpaces(s)|..]
    decreases |s|
  {
    if s != [] && IsSpace(s[0]) {
      DropSpacesSuffix(s[1..]);
    }
  }

  /** The string without its trailing white space. */
  function DropSpacesEnd(s: string): (r: string)
    ensures |r| <= |s| && r == s[..|r|]
    ensures r == [] || !IsSpace(r[|r| - 1])
    ensures Blank(s) <==> r == []
  {
    if s != [] && IsSpace(s[|s| - 1]) then DropSpacesEnd(s[..|s| - 1]) else s
  }

  /** JavaScript's `String.prototype.trim`. */
  function Trim(s: string): (r: string)
    ensures r == [] <==> Blank(s)
    ensures r != [] ==> !IsSpace(r[0]) && !IsSpace(r[|r| - 1])
  {
    var t := DropSpaces(s);
    var r := DropSpacesEnd(t);
    assert r != [] ==> r[0] == t[0];
    r
  }

  /** The longest prefix free of white space. */
  function TakeWord(s: string): (w: string)
    ensures |w| <= |s| && w == s[..|w|]
    ensures forall i :: 0 <= i < |w| ==> !IsSpace(w[i])
    ensures |w| == |s| || IsSpace(s[|w|])
  {
    if s == [] || IsSpace(s[0]) then [] else [s[0]] + TakeWord(s[1..])
  }

  /** JavaScript's `s.split(/\s+/)`: the pieces between maximal runs of white space,
      with an empty first (last) piece when s starts (ends) with white space. */
  function SplitWs(s: string): (r: seq<string>)
    ensures |r| >= 1
    decreases |s|
  {
    var w := TakeWord(s);
    var rest := s[|w|..];
    if rest == [] then [w] else [w] + SplitWs(DropSpaces(rest[1..]))
  }

  /** `s.trim().split(/\s+/)`, the tokenisation every move string goes through. */
  function Tokens(s: string): seq<string>
  {
    SplitWs(Trim(s))
  }

  /** `tokens.join(sep)`. */
  function Join(ts: seq<string>, sep: string): string
  {
    if ts == [] then "" else if |ts| == 1 then ts[0] else ts[0] + sep + Join(ts[1..], sep)
  }

  predicate AllWords(ts: seq<string>)
  {
    forall i :: 0 <= i < |ts| ==> IsWord(ts[i])
  }

  /** `Array.prototype.reverse`. */
  function Reverse<T>(xs: seq<T>): seq<T>
  {
    seq(|xs|, i requires 0 <= i < |xs| => xs[|xs| - 1 - i])
  }

  lemma ReverseSnoc<T>(xs: seq<T>, x: T)
    ensures Reverse(xs + [x]) == [x] + Reverse(xs)
  {
    var l, r := Reverse(xs + [x]), [x] + Reverse(xs);
    forall i | 0 <= i < |l|
      ensures l[i] == r[i]
    {
      if i > 0 {
        assert l[i] == (xs + [x])[|xs| - i] == xs[|xs| - i];
      }
    }
  }

  lemma ReverseReverse<T>(xs: seq<T>)
    ensures Reverse(Reverse(xs)) == xs
  {
  }

  // ---------------------------------------------------------------------------
  // Tokenisation facts
  // ---------------------------------------------------------------------------

  /** A blank string tokenises to the single empty token. */
  lemma TokensOfBlank(s: string)
    requires Blank(s)
    ensures Tokens(s) == [""]
  {
  }

  lemma AllWordsCons(w: string, ws: seq<string>)
    requires IsWord(w) && AllWords(ws)
    ensures AllWords([w] + ws)
  {
  }

  /** Splitting a trimmed, non-empty string yields words only. */
  lemma {:induction false} SplitTrimmedIsWords(t: string)
    requires t != [] && !IsSpace(t[0]) && !IsSpace(t[|t| - 1])
    ensures AllWords(SplitWs(t))
    decreases |t|
  {
    var w := TakeWord(t);
    var rest := t[|w|..];
    assert IsWord(w) by { assert w != [] by { assert !IsSpace(t[0]); } }
    if rest != [] {
      assert IsSpace(rest[0]);
      var tail := rest[1..];
      assert |tail| >= 1 && tail[|tail| - 1] == t[|t| - 1];
      var d := DropSpaces(tail);
      DropSpacesSuffix(tail);
      assert d != [];
      assert d[|d| - 1] == tail[|tail| - 1];
      SplitTrimmedIsWords(d);
      assert SplitWs(t) == [w] + SplitWs(d);
      AllWordsCons(w, SplitWs(d));
    }
  }

  /** A string with some non-space character tokenises to its words, and there is at least one. */
  lemma TokensAreWords(s: string)
    requires !Blank(s)
    ensures |Tokens(s)| >= 1 && AllWords(Tokens(s))
  {
    SplitTrimmedIsWords(Trim(s));
  }

  lemma TakeWordOfWordThenSpace(w: string, rest: string)
    requires IsWord(w) && (rest == [] || IsSpace(rest[0]))
    ensures TakeWord(w + rest) == w
    decreases |w|
  {
    if |w| > 1 {
      assert (w + rest)[1..] == w[1..] + rest;
      TakeWordOfWordThenSpace(w[1..], rest);
    } else {
      assert (w + rest)[1..] == rest;
    }
  }

  lemma JoinShape(ts: seq<string>)
    requires |ts| >= 1 && AllWords(ts)
    ensures var j := Join(ts, " "); j != [] && j[0] == ts[0][0] && j[|j| - 1] == ts[|ts| - 1][|ts[|ts| - 1]| - 1]
  {
    if |ts| > 1 {
      JoinShape(ts[1..]);
    }
  }

  /** Splitting a space-joined list of words gives back the list. */
  lemma {:induction false} SplitJoin(ts: seq<string>)
    requires |ts| >= 1 && AllWords(ts)
    ensures SplitWs(Join(ts, " ")) == ts
    decreases |ts|
  {
    if |ts| == 1 {
      TakeWordOfWordThenSpace(ts[0], []);
      assert ts[0] + [] == ts[0];
    } else {
      assert AllWords(ts[1..]) by {
        forall i | 0 <= i < |ts[1..]| ensures IsWord(ts[1..][i]) { assert ts[1..][i] == ts[i + 1]; }
      }
      SplitJoin(ts[1..]);
      SplitJoinCons(ts[0], ts[1..]);
      HeadTail(ts);
    }
  }

  /** One more word in front of a list that splits back correctly. */
  lemma SplitJoinCons(w: string, ws: seq<string>)
    requires IsWord(w) && |ws| >= 1 && AllWords(ws) && SplitWs(Join(ws, " ")) == ws
    ensures SplitWs(Join([w] + ws, " ")) == [w] + ws
  {
    var ts := [w] + ws;
    assert ts[0] == w && ts[1..] == ws;
    var j := Join(ts, " ");
    var tail := Join(ws, " ");
    assert j == w + (" " + tail);
    TakeWordOfWordThenSpace(w, " " + tail);
    assert j[|w|..] == " " + tail;
    assert (" " + tail)[1..] == tail;
    JoinShape(ws);
    assert DropSpaces(tail) == tail;
  }

  lemma HeadTail<T>(xs: seq<T>)
    requires xs != []
    ensures xs == [xs[0]] + xs[1..]
  {
  }

  lemma TrimUnchanged(t: string)
    requires t != [] && !IsSpace(t[0]) && !IsSpace(t[|t| - 1])
    ensures Trim(t) == t
  {
  }

  /** Joining words with single spaces and tokenising again is the identity. */
  lemma TokensJoin(ts: seq<string>)
    requires |ts| >= 1 && AllWords(ts)
    ensures Tokens(Join(ts, " ")) == ts
  {
    JoinShape(ts);
    TrimUnchanged(Join(ts, " "));
    SplitJoin(ts);
  }

  /** Tokenising is insensitive to the amount of white space between and around words. */
  lemma TokensNormalised(s: string)
    requires !Blank(s)
    ensures Tokens(Join(Tokens(s), " ")) == Tokens(s)
  {
    TokensAreWords(s);
    TokensJoin(Tokens(s));
  }

  // ---------------------------------------------------------------------------
  // Case mapping, white-space collapsing and search
  // ---------------------------------------------------------------------------

  function UpperChar(c: char): (r: char)
    ensures 'a' <= c <= 'z' ==> r as int == c as int - 32
    ensures !('a' <= c <= 'z') ==> r == c
  {
    if 'a' <= c <= 'z' then (c as int - 32) as char else c
  }

  function LowerChar(c: char): (r: char)
    ensures 'A' <= c <= 'Z' ==> r as int == c as int + 32
    ensures !('A' <= c <= 'Z') ==> r == c
  {
    if 'A' <= c <= 'Z' then (c as int + 32) as char else c
  }

  function Upper(s: string): (r: string)
    ensures |r| == |s| && forall i {:trigger r[i]} :: 0 <= i < |s| ==> r[i] == UpperChar(s[i])
  {
    if s == [] then [] else [UpperChar(s[0])] + Upper(s[1..])
  }

  function Lower(s: string): (r: string)
    ensures |r| == |s| && forall i :: 0 <= i < |s| ==> r[i] == LowerChar(s[i])
  {
    if s == [] then [] else [LowerChar(s[0])] + Lower(s[1..])
  }

  /** `s.replace(/\s+/g, ' ')`: each maximal run of white space becomes one blank. */
  function CollapseSpaces(s: string): (r: string)
    ensures |r| <= |s|
    decreases |s|
  {
    if s == [] then []
    else if IsSpace(s[0]) then " " + CollapseSpaces(DropSpaces(s[1..]))
    else [s[0]] + CollapseSpaces(s[1..])
  }

  /** sub occurs in s starting at index i. */
  predicate OccursAt(s: string, sub: string, i: nat)
  {
    i + |sub| <= |s| && s[i..i + |sub|] == sub
  }

  /** `s.includes(sub)`. */
  predicate Contains(s: string, sub: string)
  {
    exists i: nat | i <= |s| :: OccursAt(s, sub, i)
  }

  predicate HasChar(s: string, c: char)
  {
    exists i :: 0 <= i < |s| && s[i] == c
  }
}
