/** The `StepAnalyzer` of frontend/src/CubeSolver.jsx: it classifies one group of moves
    of a solution (its size, complexity, technique, summary and detail text) from the
    simulated stage, the change the group made and the counts after it. */
module StepAnalyzer {
  import opened Wrappers
  import opened Text

  /** The five stage keys of `stages`; a missing stage is `None`, shown as "Unknown". */
  datatype Stage = CROSS | F2L | OLL | PLL | AUF

  /** What a group changed, as computed by the analysis loop. */
  datatype F2LChange = F2LChange(fr: bool, fl: bool, bl: bool, br: bool)
  datatype Diff = Diff(crossChange: int, f2lChange: F2LChange, ollSolved: bool, pllSolved: bool,
                       isCrossDone: bool, isF2LDone: bool)
  datatype Counts = Counts(cross: int, f2l: int)

  /** An entry of the pattern catalogue. */
  datatype Pattern = Pattern(pattern: string, name: string, tip: string)

  datatype StageInfo = StageInfo(name: string, color: string, description: string)

  datatype Level = Basic | Intermediate | Advanced | Expert
  datatype Complexity = Complexity(level: Level, color: string)

  /** The object `analyzeStep` returns. */
  datatype StepRecord = StepRecord(
    moves: string, summary: string, detail: string, stage: Option<Stage>, stageInfo: StageInfo,
    moveCount: nat, technique: Option<string>, recognizedPatterns: seq<Pattern>, tips: seq<string>,
    complexity: Complexity, progress: int, isFirstStep: bool, isLastStep: bool, hasRotation: bool)

  /** The catalogue, in the order `Object.entries` visits it. */
  const Patterns: seq<Pattern> := [
    Pattern("R U R' U'", "Sexy Move", "The most fundamental trigger"),
    Pattern("U R U' R'", "Inverse Sexy", "Reverse of sexy move"),
    Pattern("R' F R F'", "Sledgehammer", "Corner manipulation"),
    Pattern("R U R' U R U2 R'", "Sune", "Common OLL algorithm"),
    Pattern("R' U' R U' R' U2 R", "Anti-Sune", "Mirror of Sune"),
    Pattern("F R U R' U' F'", "OLL Cross", "Creates yellow cross"),
    Pattern("R U R' U' R' F R2 U' R' U' R U R' F'", "T-Perm", "Headlights on left"),
    Pattern("R U R'", "Right Insert", "Basic F2L insertion"),
    Pattern("L' U' L", "Left Insert", "Basic F2L insertion")
  ]

  /** The key of a stage as it appears in summaries. */
  function StageKey(stage: Option<Stage>): string
  {
    match stage
    case None => "Unknown"
    case Some(CROSS) => "CROSS"
    case Some(F2L) => "F2L"
    case Some(OLL) => "OLL"
    case Some(PLL) => "PLL"
    case Some(AUF) => "AUF"
  }

  /** `this.stages[stage]`, or the grey placeholder for an unknown stage. */
  function InfoOf(stage: Option<Stage>): StageInfo
  {
    match stage
    case None => StageInfo("Unknown", "#94a3b8", " Analyzing...")
    case Some(CROSS) => StageInfo("Cross", "#22c55e", "Building the white cross")
    case Some(F2L) => StageInfo("F2L", "#3b82f6", "First two layers")
    case Some(OLL) => StageInfo("OLL", "#eab308", "Orient last layer")
    case Some(PLL) => StageInfo("PLL", "#ef4444", "Permute last layer")
    case Some(AUF) => StageInfo("AUF", "#a855f7", "Final alignment")
  }

  // ---------------------------------------------------------------------------
  // Decimal rendering of integers, as in template literals
  // ---------------------------------------------------------------------------

  function DigitChar(d: nat): char
    requires d < 10
  {
    "0123456789"[d]
  }

  function NatToString(n: nat): (r: string)
    ensures |r| >= 1 && forall i :: 0 <= i < |r| ==> '0' <= r[i] <= '9'
    ensures n > 0 ==> r[0] != '0'
  {
    if n < 10 then [DigitChar(n)] else NatToString(n / 10) + [DigitChar(n % 10)]
  }

  function IntToString(i: int): string
  {
    if i < 0 then "-" + NatToString(-i) else NatToString(i)
  }

  /** The value of a string of decimal digits. */
  function DigitsValue(s: string): int
    requires forall i :: 0 <= i < |s| ==> '0' <= s[i] <= '9'
  {
    if s == [] then 0 else 10 * DigitsValue(s[..|s| - 1]) + (s[|s| - 1] as int - '0' as int)
  }

  /** Reading the rendered digits back gives the number. */
  lemma {:induction false} NatToStringValue(n: nat)
    ensures DigitsValue(NatToString(n)) == n
    decreases n
  {
    var r := NatToString(n);
    if n >= 10 {
      NatToStringValue(n / 10);
      assert r[..|r| - 1] == NatToString(n / 10);
    }
  }

  // ---------------------------------------------------------------------------
  // countMoves and calculateComplexity
  // ---------------------------------------------------------------------------

  /** The nine lower-case rotation tokens `countMoves` skips. */
  predicate IsRotationToken(m: string)
  {
    m in ["y", "y'", "y2", "x", "x'", "x2", "z", "z'", "z2"]
  }

  /** A piece `countMoves` counts: non-empty and not a rotation token. */
  predicate Counted(m: string)
  {
    |m| > 0 && !IsRotationToken(m)
  }

  /** How many pieces of the list are counted. */
  function CountedIn(ts: seq<string>): (n: nat)
    ensures n <= |ts|
  {
    if ts == [] then 0 else (if Counted(ts[0]) then 1 else 0) + CountedIn(ts[1..])
  }

  /** `countMoves(moves)`: the pieces of `moves.split(/\s+/)` that are counted. */
  function CountMoves(moves: string): nat
  {
    CountedIn(SplitWs(moves))
  }

  lemma {:induction false} CountedInAppend(a: seq<string>, b: seq<string>)
    ensures CountedIn(a + b) == CountedIn(a) + CountedIn(b)
    decreases |a|
  {
    if a == [] {
      assert a + b == b;
    } else {
      assert (a + b)[0] == a[0] && (a + b)[1..] == a[1..] + b;
      CountedInAppend(a[1..], b);
    }
  }

  /** A list of words none of which is a rotation token is counted in full, and a list of
      rotation tokens not at all. */
  lemma {:induction false} CountedInBounds(ts: seq<string>)
    requires AllWords(ts)
    ensures (forall i :: 0 <= i < |ts| ==> !IsRotationToken(ts[i])) ==> CountedIn(ts) == |ts|
    ensures (forall i :: 0 <= i < |ts| ==> IsRotationToken(ts[i])) ==> CountedIn(ts) == 0
    decreases |ts|
  {
    if ts != [] {
      assert AllWords(ts[1..]) by {
        forall i | 0 <= i < |ts[1..]| ensures IsWord(ts[1..][i]) { assert ts[1..][i] == ts[i + 1]; }
      }
      CountedInBounds(ts[1..]);
      if forall i :: 0 <= i < |ts| ==> !IsRotationToken(ts[i]) {
        assert forall i :: 0 <= i < |ts[1..]| ==> !IsRotationToken(ts[1..][i]) by {
          forall i | 0 <= i < |ts[1..]| ensures !IsRotationToken(ts[1..][i]) { assert ts[1..][i] == ts[i + 1]; }
        }
      }
      if forall i :: 0 <= i < |ts| ==> IsRotationToken(ts[i]) {
        assert forall i :: 0 <= i < |ts[1..]| ==> IsRotationToken(ts[1..][i]) by {
          forall i | 0 <= i < |ts[1..]| ensures IsRotationToken(ts[1..][i]) { assert ts[1..][i] == ts[i + 1]; }
        }
      }
    }
  }

  /** On space-joined words, `countMoves` counts the words that are not rotation tokens,
      and the count of two groups joined is the sum of their counts. */
  lemma CountMovesJoin(a: seq<string>, b: seq<string>)
    requires |a| >= 1 && |b| >= 1 && AllWords(a) && AllWords(b)
    ensures CountMoves(Join(a, " ")) == CountedIn(a)
    ensures CountMoves(Join(a + b, " ")) == CountMoves(Join(a, " ")) + CountMoves(Join(b, " "))
  {
    assert AllWords(a + b) by {
      forall i | 0 <= i < |a + b| ensures IsWord((a + b)[i]) {
        if i < |a| { assert (a + b)[i] == a[i]; } else { assert (a + b)[i] == b[i - |a|]; }
      }
    }
    SplitJoin(a);
    SplitJoin(b);
    SplitJoin(a + b);
    CountedInAppend(a, b);
  }

  /** `/[xyz]/i.test(s)`. */
  predicate HasRotationLetter(s: string)
  {
    exists i :: 0 <= i < |s| && LowerChar(s[i]) in "xyz"
  }

  /** `/[rlfbud]w/i.test(s)`: a face letter immediately followed by a w, in any case. */
  predicate HasWideMove(s: string)
    decreases |s|
  {
    |s| >= 2 && ((LowerChar(s[0]) in "rlfbud" && LowerChar(s[1]) == 'w') || HasWideMove(s[1..]))
  }

  /** The `score` of `calculateComplexity`. */
  function Score(count: int, moves: string): (score: int)
    ensures count <= score <= count + 3
    ensures !HasRotationLetter(moves) && !HasWideMove(moves) ==> score == count
  {
    count + (if HasRotationLetter(moves) then 2 else 0) + (if HasWideMove(moves) then 1 else 0)
  }

  /** The tier of a score. */
  function LevelOf(score: int): Level
  {
    if score <= 4 then Basic else if score <= 8 then Intermediate else if score <= 12 then Advanced
    else Expert
  }

  function Rank(l: Level): nat
  {
    match l
    case Basic => 0
    case Intermediate => 1
    case Advanced => 2
    case Expert => 3
  }

  function LevelColor(l: Level): string
  {
    match l
    case Basic => "#22c55e"
    case Intermediate => "#eab308"
    case Advanced => "#f97316"
    case Expert => "#ef4444"
  }

  /** `calculateComplexity(count, moves)`. */
  function CalculateComplexity(count: int, moves: string): (c: Complexity)
    ensures c.color == LevelColor(c.level)
    ensures c.level == Basic <==> Score(count, moves) <= 4
    ensures c.level == Intermediate <==> 4 < Score(count, moves) <= 8
    ensures c.level == Advanced <==> 8 < Score(count, moves) <= 12
    ensures c.level == Expert <==> Score(count, moves) > 12
  {
    var level := LevelOf(Score(count, moves));
    Complexity(level, LevelColor(level))
  }

  /** The tier never drops as the score grows; for one move string it is monotone in
      the count. */
  lemma ComplexityMonotone(count1: int, count2: int, moves: string)
    requires count1 <= count2
    ensures Rank(CalculateComplexity(count1, moves).level) <= Rank(CalculateComplexity(count2, moves).level)
  {
  }

  /** Rotation letters and wide moves weigh 2 and 1 more; plain moves count as themselves. */
  lemma ComplexityOfPlainMoves(count: int, moves: string)
    requires !HasRotationLetter(moves) && !HasWideMove(moves)
    ensures CalculateComplexity(count, moves).level == LevelOf(count)
  {
  }

  // ---------------------------------------------------------------------------
  // The technique of a step
  // ---------------------------------------------------------------------------

  /** The cross-edge text: "Solved n Cross Edge", with an "s" for more than one. */
  function CrossEdgeText(n: int): string
  {
    "Solved " + IntToString(n) + " Cross Edge" + (if n > 1 then "s" else "")
  }

  /** The physical analysis of `analyzeStep`: seven rules applied in order, each later
      one that fires replacing what an earlier one set. */
  function PhysicalTechnique(stage: Option<Stage>, diff: Option<Diff>): (r: Option<string>)
    ensures diff.None? ==> r.None?
    ensures diff.Some? && diff.value.pllSolved ==> r == Some("Solved PLL")
    ensures diff.Some? && !diff.value.pllSolved && diff.value.ollSolved ==> r == Some("Solved OLL")
  {
    match diff
    case None => None
    case Some(d) =>
      var t0: Option<string> := None;
      var t1 := if stage == Some(CROSS) && d.crossChange > 0 then Some(CrossEdgeText(d.crossChange)) else t0;
      var t2 := if d.f2lChange.fr then Some("Inserted Front-Right Pair") else t1;
      var t3 := if d.f2lChange.fl then Some("Inserted Front-Left Pair") else t2;
      var t4 := if d.f2lChange.br then Some("Inserted Back-Right Pair") else t3;
      var t5 := if d.f2lChange.bl then Some("Inserted Back-Left Pair") else t4;
      var t6 := if d.ollSolved then Some("Solved OLL") else t5;
      if d.pllSolved then Some("Solved PLL") else t6
  }

  /** Which rule wins: the last one that fires, in the order cross, fr, fl, br, bl, OLL,
      PLL; nothing is set when none fires. */
  lemma PhysicalTechniquePrecedence(stage: Option<Stage>, d: Diff)
    ensures var r := PhysicalTechnique(stage, Some(d)); var c := d.f2lChange;
      && (!d.pllSolved && !d.ollSolved && c.bl ==> r == Some("Inserted Back-Left Pair"))
      && (!d.pllSolved && !d.ollSolved && !c.bl && c.br ==> r == Some("Inserted Back-Right Pair"))
      && (!d.pllSolved && !d.ollSolved && !c.bl && !c.br && c.fl ==> r == Some("Inserted Front-Left Pair"))
      && (!d.pllSolved && !d.ollSolved && !c.bl && !c.br && !c.fl && c.fr ==> r == Some("Inserted Front-Right Pair"))
      && (!d.pllSolved && !d.ollSolved && !c.bl && !c.br && !c.fl && !c.fr ==>
            r == if stage == Some(CROSS) && d.crossChange > 0 then Some(CrossEdgeText(d.crossChange)) else None)
  {
  }

  /** The cross rule reports the number of edges, pluralised beyond one. */
  lemma CrossEdgeTextShape(n: int)
    requires n > 0
    ensures CrossEdgeText(n) == "Solved " + NatToString(n) + " Cross Edge" + (if n == 1 then "" else "s")
  {
  }

  /** `moves.toUpperCase().replace(/\s+/g, ' ').trim()`. */
  function Normalize(moves: string): string
  {
    Trim(CollapseSpaces(Upper(moves)))
  }

  predicate Matches(normalized: string, p: Pattern)
  {
    Contains(normalized, Upper(p.pattern))
  }

  /** The catalogue entries found in the normalised string, in catalogue order. */
  function Recognized(normalized: string, ps: seq<Pattern>): (r: seq<Pattern>)
    ensures |r| <= |ps|
    ensures forall p :: p in r <==> p in ps && Matches(normalized, p)
  {
    if ps == [] then []
    else if Matches(normalized, ps[0]) then [ps[0]] + Recognized(normalized, ps[1..])
    else Recognized(normalized, ps[1..])
  }

  /** k is the first catalogue index whose pattern occurs in the normalised string. */
  predicate FirstMatchAt(normalized: string, ps: seq<Pattern>, k: int)
  {
    0 <= k < |ps| && Matches(normalized, ps[k]) && forall j :: 0 <= j < k ==> !Matches(normalized, ps[j])
  }

  /** Nothing is recognised exactly when no entry matches; otherwise the first entry
      recognised is the first matching one in catalogue order. */
  lemma {:induction false} RecognizedFirst(normalized: string, ps: seq<Pattern>)
    ensures Recognized(normalized, ps) == [] <==> forall j :: 0 <= j < |ps| ==> !Matches(normalized, ps[j])
    ensures forall k :: FirstMatchAt(normalized, ps, k) ==> Recognized(normalized, ps)[0] == ps[k]
    decreases |ps|
  {
    if ps != [] {
      RecognizedFirst(normalized, ps[1..]);
      if !Matches(normalized, ps[0]) {
        forall k | FirstMatchAt(normalized, ps, k)
          ensures Recognized(normalized, ps)[0] == ps[k]
        {
          assert FirstMatchAt(normalized, ps[1..], k - 1);
        }
        forall j | 0 <= j < |ps[1..]| && Matches(normalized, ps[1..][j])
          ensures Matches(normalized, ps[j + 1])
        {
        }
      }
    }
  }

  /** Recognition filters in catalogue order: the matches of a + b are those of a,
      then those of b. */
  lemma {:induction false} RecognizedAppend(normalized: string, a: seq<Pattern>, b: seq<Pattern>)
    ensures Recognized(normalized, a + b) == Recognized(normalized, a) + Recognized(normalized, b)
    decreases |a|
  {
    if a == [] {
      assert a + b == b;
    } else {
      assert (a + b)[0] == a[0];
      assert (a + b)[1..] == a[1..] + b;
      RecognizedAppend(normalized, a[1..], b);
    }
  }

  function Tips(ps: seq<Pattern>): (r: seq<string>)
    ensures |r| == |ps| && forall i :: 0 <= i < |ps| ==> r[i] == ps[i].tip
  {
    if ps == [] then [] else [ps[0].tip] + Tips(ps[1..])
  }

  /** The `for` over the catalogue: starting from the technique found so far, each match
      is recorded, and the first match supplies the technique if none is set. */
  function ScanPatterns(normalized: string, ps: seq<Pattern>, technique: Option<string>): (r: Option<string>)
  {
    if ps == [] then technique
    else
      var t := if Matches(normalized, ps[0]) && technique.None? then Some(ps[0].name) else technique;
      ScanPatterns(normalized, ps[1..], t)
  }

  /** The physical technique takes precedence; a catalogue pattern only fills a gap, and
      then it is the first pattern recognised. */
  lemma {:induction false} ScanPatternsFillsGap(normalized: string, ps: seq<Pattern>, technique: Option<string>)
    ensures ScanPatterns(normalized, ps, technique) ==
      if technique.Some? then technique
      else if Recognized(normalized, ps) == [] then None
      else Some(Recognized(normalized, ps)[0].name)
    decreases |ps|
  {
    if ps != [] {
      var t := if Matches(normalized, ps[0]) && technique.None? then Some(ps[0].name) else technique;
      ScanPatternsFillsGap(normalized, ps[1..], t);
    }
  }

  /** A string with no lower-case letter is its own upper case. */
  lemma {:induction false} UpperFixed(s: string)
    requires forall i :: 0 <= i < |s| ==> !('a' <= s[i] <= 'z')
    ensures Upper(s) == s
  {
    if s != [] {
      UpperFixed(s[1..]);
    }
  }

  /** A prefix of an occurring string occurs at the same place. */
  lemma PrefixOccurs(s: string, sub: string, pre: string, i: nat)
    requires OccursAt(s, sub, i) && pre <= sub
    ensures OccursAt(s, pre, i)
  {
    assert s[i..i + |pre|] == s[i..i + |sub|][..|pre|];
  }

  /** The Sexy Move pattern has no lower-case letter. */
  lemma SexyUpper()
    ensures Upper("R U R' U'") == "R U R' U'"
  {
    UpperFixed("R U R' U'");
  }

  /** The Right Insert pattern has no lower-case letter. */
  lemma InsertUpper()
    ensures Upper("R U R'") == "R U R'"
  {
    UpperFixed("R U R'");
  }

  /** The two catalogue entries involved, as the catalogue lists them. */
  lemma SexyAndInsertEntries()
    ensures Patterns[0].name == "Sexy Move" && Upper(Patterns[0].pattern) == "R U R' U'"
    ensures Upper(Patterns[7].pattern) == "R U R'"
  {
    SexyUpper();
    InsertUpper();
  }

  /** "R U R'" (Right Insert) is a prefix of "R U R' U'" (Sexy Move), so both match any
      string holding the latter; the catalogue order makes "Sexy Move" the one recognised
      first and the technique a step without a physical one gets. */
  lemma SexyMoveBeforeRightInsert(normalized: string)
    requires Matches(normalized, Patterns[0])
    ensures Matches(normalized, Patterns[7])
    ensures Recognized(normalized, Patterns)[0].name == "Sexy Move"
    ensures ScanPatterns(normalized, Patterns, None) == Some("Sexy Move")
  {
    SexyAndInsertEntries();
    var i: nat :| i <= |normalized| && OccursAt(normalized, "R U R' U'", i);
    PrefixOccurs(normalized, "R U R' U'", "R U R'", i);
    assert FirstMatchAt(normalized, Patterns, 0);
    RecognizedFirst(normalized, Patterns);
    ScanPatternsFillsGap(normalized, Patterns, None);
  }

  // ---------------------------------------------------------------------------
  // generateSummary and generateDetail
  // ---------------------------------------------------------------------------

  /** `stageNames[stage][0]`, or "Step". */
  function SummaryName(stage: Option<Stage>): string
  {
    match stage
    case None => "Step"
    case Some(CROSS) => "White Cross"
    case Some(F2L) => "F2L Pair"
    case Some(OLL) => "OLL"
    case Some(PLL) => "PLL"
    case Some(AUF) => "AUF"
  }

  /** The edge a CROSS step reports: the cross count after the step if the step solved an
      edge, else the one after it, or the step number without counts; at most 4. */
  function CrossEdgeNumber(stepIndex: int, counts: Option<Counts>, diff: Option<Diff>): (n: int)
    ensures n <= 4
    ensures counts.Some? && counts.value.cross >= 0 ==> n >= 0
    ensures counts.Some? && diff.Some? && diff.value.crossChange > 0 && counts.value.cross <= 4 ==> n == counts.value.cross
    ensures counts.Some? && !(diff.Some? && diff.value.crossChange > 0) && counts.value.cross <= 3 ==> n == counts.value.cross + 1
  {
    var displayNum :=
      if counts.Some? then (if diff.Some? && diff.value.crossChange > 0 then counts.value.cross else counts.value.cross + 1)
      else stepIndex + 1;
    if displayNum < 4 then displayNum else 4
  }

  predicate AnySlotChange(c: F2LChange)
  {
    c.fr || c.fl || c.bl || c.br
  }

  /** The pair an F2L step reports: the slot count if a slot was filled, else the next
      one, or the step number minus 3 without counts; clamped to 1..4. */
  function PairNumber(stepIndex: int, counts: Option<Counts>, diff: Option<Diff>): (n: int)
    ensures 1 <= n <= 4
    ensures counts.Some? && 1 <= counts.value.f2l <= 4 && diff.Some? && AnySlotChange(diff.value.f2lChange) ==> n == counts.value.f2l
  {
    var pairNum :=
      if counts.Some? then (if diff.Some? && AnySlotChange(diff.value.f2lChange) then counts.value.f2l else counts.value.f2l + 1)
      else stepIndex - 3;
    var atLeastOne := if pairNum > 1 then pairNum else 1;
    if atLeastOne < 4 then atLeastOne else 4
  }

  /** `generateSummary(stage, stepIndex, totalSteps, technique, counts, diff)`. */
  function GenerateSummary(stage: Option<Stage>, stepIndex: int, totalSteps: int, technique: Option<string>,
                           counts: Option<Counts>, diff: Option<Diff>): (r: string)
    ensures stage == Some(CROSS) ==> r == "White Cross - Edge " + IntToString(CrossEdgeNumber(stepIndex, counts, diff))
    ensures stage == Some(F2L) ==> r == "F2L Pair " + IntToString(PairNumber(stepIndex, counts, diff))
    ensures stage != Some(CROSS) && stage != Some(F2L) && technique.Some? ==> r == StageKey(stage) + ": " + technique.value
    ensures stage != Some(CROSS) && stage != Some(F2L) && technique.None? ==> r == SummaryName(stage)
  {
    if stage == Some(CROSS) then
      SummaryName(stage) + " - Edge " + IntToString(CrossEdgeNumber(stepIndex, counts, diff))
    else if stage == Some(F2L) then
      "F2L Pair " + IntToString(PairNumber(stepIndex, counts, diff))
    else if technique.Some? then
      StageKey(stage) + ": " + technique.value
    else SummaryName(stage)
  }

  /** The F2L pair number in a summary is always one digit from 1 to 4. */
  lemma F2LSummaryDigit(stepIndex: int, counts: Option<Counts>, diff: Option<Diff>)
    ensures var r := GenerateSummary(Some(F2L), stepIndex, 0, None, counts, diff);
      |r| == 10 && '1' <= r[9] <= '4' && r[9] as int - '0' as int == PairNumber(stepIndex, counts, diff)
  {
    var n := PairNumber(stepIndex, counts, diff);
    assert IntToString(n) == [DigitChar(n)];
  }

  /** `details[stage]`, or "Executing algorithm.". */
  function StageDetail(stage: Option<Stage>): string
  {
    match stage
    case None => "Executing algorithm."
    case Some(CROSS) => "Solving a cross edge piece to build the white cross foundation."
    case Some(F2L) => "Pairing and inserting a corner-edge pair into the correct slot."
    case Some(OLL) => "Orienting the last layer pieces to make the top face yellow."
    case Some(PLL) => "Permuting the last layer pieces to their solved positions."
    case Some(AUF) => "Final alignment turn to complete the solve."
  }

  /** `generateDetail(stage, moves, technique, patterns)`. */
  function GenerateDetail(stage: Option<Stage>, moves: string, technique: Option<string>, patterns: seq<Pattern>): (r: string)
  {
    var base := StageDetail(stage);
    var withTechnique := if technique.Some? then "Using " + technique.value + " technique. " + base else base;
    if |patterns| > 0 then withTechnique + " Recognized pattern: " + patterns[0].name + "." else withTechnique
  }

  /** s begins with p. */
  predicate StartsWith(s: string, p: string)
  {
    |p| <= |s| && s[..|p|] == p
  }

  /** s ends with p. */
  predicate EndsWith(s: string, p: string)
  {
    |p| <= |s| && s[|s| - |p|..] == p
  }

  /** The detail opens with the technique sentence when there is a technique and with
      the stage's description otherwise; the description always follows the technique
      sentence; the detail closes with the first recognised pattern when there is one and
      with the description otherwise. */
  lemma GenerateDetailParts(stage: Option<Stage>, moves: string, technique: Option<string>, patterns: seq<Pattern>)
    ensures var r := GenerateDetail(stage, moves, technique, patterns);
      && (technique.Some? ==> StartsWith(r, "Using " + technique.value + " technique. "))
      && (technique.None? ==> StartsWith(r, StageDetail(stage)))
      && OccursAt(r, StageDetail(stage), if technique.Some? then |"Using " + technique.value + " technique. "| else 0)
      && (patterns != [] ==> EndsWith(r, " Recognized pattern: " + patterns[0].name + "."))
      && (patterns == [] ==> EndsWith(r, StageDetail(stage)))
  {
    var base := StageDetail(stage);
    var pre := if technique.Some? then "Using " + technique.value + " technique. " else "";
    var post := if patterns == [] then "" else " Recognized pattern: " + patterns[0].name + ".";
    DetailParts(technique, patterns, base);
    DetailLayout(pre, base, post);
  }

  /** Where the parts of pre + base + post sit. */
  lemma DetailLayout(pre: string, base: string, post: string)
    ensures var r := pre + base + post;
      && StartsWith(r, pre)
      && (pre == [] ==> StartsWith(r, base))
      && OccursAt(r, base, |pre|)
      && EndsWith(r, post)
      && (post == [] ==> EndsWith(r, base))
  {
    var r := pre + base + post;
    assert r[..|pre|] == pre;
    assert r[|pre|..|pre| + |base|] == base;
    assert r[|r| - |post|..] == post;
    if pre == [] {
      assert r[..|base|] == base;
    }
    if post == [] {
      assert r[|r| - |base|..] == base;
    }
  }

  lemma DetailParts(technique: Option<string>, patterns: seq<Pattern>, base: string)
    ensures var withTechnique := if technique.Some? then "Using " + technique.value + " technique. " + base else base;
      var pre := if technique.Some? then "Using " + technique.value + " technique. " else "";
      var post := if patterns == [] then "" else " Recognized pattern: " + patterns[0].name + ".";
      (if |patterns| > 0 then withTechnique + " Recognized pattern: " + patterns[0].name + "." else withTechnique)
        == pre + base + post
  {
    assert "" + base == base;
    assert base + "" == base;
    if technique.Some? {
      var t := "Using " + technique.value + " technique. ";
      assert t + base + "" == t + base;
    }
  }

  // ---------------------------------------------------------------------------
  // analyzeStep
  // ---------------------------------------------------------------------------

  /** `Math.round(((stepIndex + 1) / totalSteps) * 100)` in exact arithmetic: the nearest
      integer, halves rounded up. */
  function Progress(stepIndex: int, totalSteps: int): int
    requires totalSteps > 0
  {
    (200 * (stepIndex + 1) + totalSteps) / (2 * totalSteps)
  }

  lemma DivBelow(n: int, d: int, m: int)
    requires d > 0 && n < d * m
    ensures n / d < m
  {
    var q := n / d;
    assert n == d * q + n % d && 0 <= n % d;
  }

  lemma MulLeq(d: int, a: int, b: int)
    requires d > 0 && a <= b
    ensures d * a <= d * b
  {
    assert d * b - d * a == d * (b - a);
  }

  lemma DivAtLeast(n: int, d: int, m: int)
    requires d > 0 && d * m <= n
    ensures m <= n / d
  {
    var q := n / d;
    assert n == d * q + n % d && n % d < d;
    MulLeq(d, if q + 1 <= m then q + 1 else m, m);
  }

  lemma DivMonotone(n1: int, n2: int, d: int)
    requires d > 0 && n1 <= n2
    ensures n1 / d <= n2 / d
  {
    var q := n1 / d;
    assert n1 == d * q + n1 % d && n1 % d >= 0;
    DivAtLeast(n2, d, q);
  }

  /** Progress is the rounded percentage: within half a point of the exact value. */
  lemma ProgressRounds(stepIndex: int, totalSteps: int)
    requires totalSteps > 0
    ensures var p := Progress(stepIndex, totalSteps);
      2 * p * totalSteps <= 200 * (stepIndex + 1) + totalSteps < 2 * (p + 1) * totalSteps
  {
    var n := 200 * (stepIndex + 1) + totalSteps;
    var d := 2 * totalSteps;
    var p := n / d;
    assert n == d * p + n % d && 0 <= n % d < d;
    assert 2 * p * totalSteps == d * p;
    assert 2 * (p + 1) * totalSteps == d * p + d;
  }

  /** For a step of the solution, progress lies in 0..100, reaches 100 at the last step,
      and never decreases from one step to the next. */
  lemma ProgressBounds(stepIndex: int, totalSteps: int)
    requires 0 <= stepIndex < totalSteps
    ensures 0 <= Progress(stepIndex, totalSteps) <= 100
    ensures stepIndex == totalSteps - 1 ==> Progress(stepIndex, totalSteps) == 100
    ensures stepIndex + 1 < totalSteps ==> Progress(stepIndex, totalSteps) <= Progress(stepIndex + 1, totalSteps)
  {
    var d := 2 * totalSteps;
    var n := 200 * (stepIndex + 1) + totalSteps;
    assert n < d * 101;
    DivBelow(n, d, 101);
    DivAtLeast(n, d, 0);
    if stepIndex == totalSteps - 1 {
      assert d * 100 <= n;
      DivAtLeast(n, d, 100);
    }
    if stepIndex + 1 < totalSteps {
      DivMonotone(n, 200 * (stepIndex + 2) + totalSteps, d);
    }
  }

  /** `analyzeStep(moves, stepIndex, totalSteps, allMoves, simulatedStage, diff, counts)`;
      `allMoves` is not used by the source and is left out. The catalogue the method reads
      from `this.patterns` is a parameter: the analyser's own is `Patterns`. */
  function AnalyzeStep(catalogue: seq<Pattern>, moves: string, stepIndex: int, totalSteps: int,
                       stage: Option<Stage>, diff: Option<Diff>, counts: Option<Counts>): (r: StepRecord)
    requires totalSteps > 0
    ensures r.moves == moves && r.stage == stage && r.stageInfo == InfoOf(stage)
    ensures r.moveCount == CountMoves(moves)
    ensures r.isFirstStep <==> stepIndex == 0
    ensures r.isLastStep <==> stepIndex == totalSteps - 1
    ensures forall p :: p in r.recognizedPatterns <==> p in catalogue && Matches(Normalize(moves), p)
    ensures r.recognizedPatterns == Recognized(Normalize(moves), catalogue)
    ensures r.tips == Tips(r.recognizedPatterns)
    ensures PhysicalTechnique(stage, diff).Some? ==> r.technique == PhysicalTechnique(stage, diff)
    ensures PhysicalTechnique(stage, diff).None? && r.recognizedPatterns == [] ==> r.technique.None?
    ensures PhysicalTechnique(stage, diff).None? && r.recognizedPatterns != [] ==>
              r.technique == Some(r.recognizedPatterns[0].name)
    ensures r.summary == GenerateSummary(stage, stepIndex, totalSteps, r.technique, counts, diff)
    ensures r.detail == GenerateDetail(stage, moves, r.technique, r.recognizedPatterns)
    ensures r.complexity == CalculateComplexity(CountMoves(moves), moves)
    ensures r.progress == Progress(stepIndex, totalSteps)
    ensures r.hasRotation == HasRotationLetter(moves)
  {
    var normalized := Normalize(moves);
    var moveCount := CountMoves(moves);
    var recognized := Recognized(normalized, catalogue);
    var technique := ScanPatterns(normalized, catalogue, PhysicalTechnique(stage, diff));
    ScanPatternsFillsGap(normalized, catalogue, PhysicalTechnique(stage, diff));
    StepRecord(
      moves, GenerateSummary(stage, stepIndex, totalSteps, technique, counts, diff),
      GenerateDetail(stage, moves, technique, recognized), stage, InfoOf(stage), moveCount,
      technique, recognized, Tips(recognized), CalculateComplexity(moveCount, moves),
      Progress(stepIndex, totalSteps), stepIndex == 0, stepIndex == totalSteps - 1,
      HasRotationLetter(moves))
  }
}
