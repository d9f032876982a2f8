# Rubik's cube simulator and solution playback, in Dafny

This project models two parts of a web page that plays back a Rubik's cube solution.

The first part is the facelet simulator of `frontend/src/utils/VirtualCube.js`:
- a class holding 54 colour characters;
- every move built from one in-place primitive, `cycle`, which rotates four entries;
- the face turns, the whole-cube rotations and the token interpreter `move`;
- two string drivers;
- read-only stage checkers (cross, F2L slots, OLL, PLL, solved).

The second part is the playback logic of `frontend/src/CubeSolver.jsx`:
- `invertMoves`;
- the `StepAnalyzer` that classifies each group of moves;
- the `analyzedSteps` loop, which runs the simulator over the solution;
- the step/time breakpoints;
- the per-frame `tick` rule with its step controls.

Modules follow the structure of the program:

| module | file | models |
|---|---|---|
| `Wrappers` | wrappers.dfy | `Option` |
| `Text` | strings.dfy | `trim`, `split(/\s+/)`, `join`, case mapping, substring search |
| `Facelets` | facelets.dfy | the reset colouring, `cycle`, every move as a function on a 54-character sequence, order 4 and permutation |
| `Checkers` | checkers.dfy | the stage checkers and what a U turn leaves alone |
| `Algorithms` | algorithms.dfy | `move`, `applyAlgorithm`, `applyAlgorithmWithRotations` |
| `Simulator` | virtual_cube.dfy | the `VirtualCube` class over an `array<char>` |
| `Inversion` | invert.dfy | `invertMoves` and what applying an inverse does |
| `StepAnalyzer` | step_analyzer.dfy | `countMoves`, `calculateComplexity`, `analyzeStep`, `generateSummary`, `generateDetail` |
| `Analysis` | analysis.dfy | the `analyzedSteps` loop |
| `Breakpoints` | breakpoints.dfy | `stepToLeafIndexMap`, the indexer stamps and the fallback |
| `Playback` | playback.dfy | the `tick` rule and the controls, as a `Player` class and as functions on a `Frame` |

**Simulator.** Each method of `Simulator.VirtualCube` mutates its array in place, as the source does. Each is proved to leave the array equal to a function of the old contents. Those functions are defined in `Facelets` and `Algorithms`, and the properties are proved about them:
- each move is `Turned(t, s)`, a re-indexing by a fixed index map;
- the index lists are the source's, copied as given.

**Timing.** Time, frame delta, speed and stamps are real milliseconds. The clock reading `performance.now()` and the frame delta are parameters of a tick.

**Indexer.** The player library's indexer is a parameter: `Option<int -> Option<MoveTiming>>`.
- `None` means the model or its indexer is not ready, which the source turns into a throw.
- A `None` from the function means that index throws.

## Model

| member | source | states |
|---|---|---|
| Facelets.ResetState | frontend/src/utils/VirtualCube.js:10-21 | the reset state has 54 facelets: 0-8 'w', 9-17 'r', 18-26 'g', 27-35 'y', 36-44 'o', 45-53 'b' |
| Facelets.Cycle | frontend/src/utils/VirtualCube.js:55-61 | `cycle(indices)` on a value: the value at the last index is saved, the loop shifts each entry one place forward from its predecessor, the saved value goes to the first index; the length is kept. `CycleAt` and `CyclePermutes` state the result |
| Facelets.RotateFaceClockwise | frontend/src/utils/VirtualCube.js:63-68 | the corner 4-cycle, then the edge 4-cycle of the face at `base`; the result is again 54 facelets. `RotateFaceAt` states where each facelet comes from |
| Facelets.MoveU | frontend/src/utils/VirtualCube.js:71-77 | the U face rotation, then the three side cycles F←R←B←L, in source order; `MoveUIsTurned` ties it to the U index map |
| Facelets.MoveD | frontend/src/utils/VirtualCube.js:79-85 | the D face rotation, then its three side cycles; `MoveDIsTurned` ties it to the D index map |
| Facelets.MoveL | frontend/src/utils/VirtualCube.js:87-93 | the L face rotation, then its three side cycles; `MoveLIsTurned` ties it to the L index map |
| Facelets.MoveR | frontend/src/utils/VirtualCube.js:95-101 | the R face rotation, then its three side cycles; `MoveRIsTurned` ties it to the R index map |
| Facelets.MoveF | frontend/src/utils/VirtualCube.js:103-109 | the F face rotation, then its three side cycles; `MoveFIsTurned` ties it to the F index map |
| Facelets.MoveB | frontend/src/utils/VirtualCube.js:111-117 | the B face rotation, then its three side cycles; `MoveBIsTurned` ties it to the B index map |
| Facelets.RotateX | frontend/src/utils/VirtualCube.js:123-148 | `R`, `L` three times, then the three middle-column cycles; `RotateXSteps` and `RotateXIsTurned` state it |
| Facelets.RotateY | frontend/src/utils/VirtualCube.js:150-169 | the U face rotation, the D face rotation three times, then the nine-round side loop; `RotateYIsTurned` ties it to the Y index map |
| Facelets.RotateZ | frontend/src/utils/VirtualCube.js:171-206 | the F face rotation, the B face rotation three times, then the U/L/D/R band cycles; `RotateZIsTurned` ties it to the Z index map |
| Facelets.CycleAt | frontend/src/utils/VirtualCube.js:55-61 | after `cycle([a,b,c,d])` each index holds the old value of its predecessor in the cycle (d's value at a); every other index is unchanged |
| Facelets.CyclePermutes | frontend/src/utils/VirtualCube.js:55-61 | `cycle` keeps the multiset of colours |
| Facelets.CycleOrigin4 | frontend/src/utils/VirtualCube.js:55-61 | four applications of one 4-cycle's index map give the identity |
| Facelets.RotateFaceAt | frontend/src/utils/VirtualCube.js:63-68 | `rotateFaceClockwise(base)` moves each facelet of the face from its origin under the two 4-cycles; other facelets are unchanged |
| Facelets.MoveUIsTurned | frontend/src/utils/VirtualCube.js:71-77 | `moveU` (the face rotation and the three side cycles, in source order) equals re-indexing by the U map |
| Facelets.MoveDIsTurned | frontend/src/utils/VirtualCube.js:79-85 | the same for `moveD` |
| Facelets.MoveLIsTurned | frontend/src/utils/VirtualCube.js:87-93 | the same for `moveL` |
| Facelets.MoveRIsTurned | frontend/src/utils/VirtualCube.js:95-101 | the same for `moveR` |
| Facelets.MoveFIsTurned | frontend/src/utils/VirtualCube.js:103-109 | the same for `moveF` |
| Facelets.MoveBIsTurned | frontend/src/utils/VirtualCube.js:111-117 | the same for `moveB` |
| Facelets.RotateXIsTurned | frontend/src/utils/VirtualCube.js:123-148 | `rotateX` (R, three L, then the three M-slice cycles) equals re-indexing by the X map |
| Facelets.RotateXSteps | frontend/src/utils/VirtualCube.js:123-148 | `rotateX` is `R`, then `L` three times, then the slice cycles, in that order |
| Facelets.RotateYIsTurned | frontend/src/utils/VirtualCube.js:150-169 | `rotateY` (U, three D, then the E-slice loop) equals re-indexing by the Y map |
| Facelets.RotateZIsTurned | frontend/src/utils/VirtualCube.js:171-206 | `rotateZ` (F, three B, then the nine band cycles) equals re-indexing by the Z map |
| Facelets.OriginOrder4 | frontend/src/utils/VirtualCube.js:63-206 | four applications of every move's index map give the identity |
| Facelets.TurnOrder4 | frontend/src/utils/VirtualCube.js:63-206 | four applications of any face move or rotation restore the state |
| Facelets.RepeatFour | frontend/src/utils/VirtualCube.js:39-51 | the move loop run four times is the identity |
| Facelets.TurnThenThree | frontend/src/utils/VirtualCube.js:35-50 | one turn followed by three (or three followed by one) is the identity |
| Facelets.RepeatModulo4 | frontend/src/utils/VirtualCube.js:39-51 | repetition counts matter only modulo 4 |
| Facelets.TurnPermutes | frontend/src/utils/VirtualCube.js:63-206 | every move keeps the multiset of colours |
| Facelets.RepeatPermutes | frontend/src/utils/VirtualCube.js:39-51 | any number of repetitions keeps the multiset of colours |
| Facelets.FaceTurnFixesCentres | frontend/src/utils/VirtualCube.js:71-117 | the index maps of U/D/L/R/F/B fix the centres 4, 13, 22, 31, 40 and 49 |
| Facelets.FaceTurnKeepsCentres | frontend/src/utils/VirtualCube.js:71-117 | a face turn leaves the colour of each of the six centres unchanged |
| Algorithms.TurnOfLetter | frontend/src/utils/VirtualCube.js:40-50 | only U, D, L, R, F, B, X, Y, Z select a move; any other character selects none |
| Algorithms.RepeatCount | frontend/src/utils/VirtualCube.js:35-37 | a suffix with `'` gives 3, else one with `2` gives 2, else 1 |
| Algorithms.Move | frontend/src/utils/VirtualCube.js:30-52 | the result is again 54 facelets, and a token whose first letter selects no move (or an empty token) leaves the state unchanged; `MoveReads` states the turn count |
| Algorithms.ApplyAlgorithm | frontend/src/utils/VirtualCube.js:24-28 | the state after the whitespace-split tokens are moved left to right; `ApplyAlgorithmBlank` and `ApplyAlgorithmSequential` state it |
| Algorithms.ApplyAlgorithmWithRotations | frontend/src/utils/VirtualCube.js:211-233 | the state after the tokens are applied left to right, exact rotation tokens rotating and other x/y/z tokens ignored; `ExactRotationMoves` and `WithRotationsAgrees` state it |
| Algorithms.MoveReads | frontend/src/utils/VirtualCube.js:30-52 | a token with a move letter turns 3 times when its suffix has `'`, else 2 times when it has `2`, else once |
| Algorithms.MoveCaseInsensitive | frontend/src/utils/VirtualCube.js:32 | the first character is read case-insensitively |
| Algorithms.MoveIgnores | frontend/src/utils/VirtualCube.js:30-52 | an empty token or one with an unknown first letter leaves the state unchanged |
| Algorithms.MoveThenPrime | frontend/src/utils/VirtualCube.js:30-52 | for a token with neither `'` nor `2` in its suffix, `move(t)` then `move(t + "'")` is the identity, in both orders |
| Algorithms.HalfTurnThenPrime | frontend/src/utils/VirtualCube.js:35-37 | for a half-turn token, `move(t)` then `move(t + "'")` is one quarter turn, not the identity |
| Algorithms.ApplyAlgorithmBlank | frontend/src/utils/VirtualCube.js:24-28 | an empty or blank algorithm leaves the state unchanged |
| Algorithms.ApplyTokensAppend | frontend/src/utils/VirtualCube.js:24-28 | tokens are applied strictly left to right: applying a + b is applying a, then b |
| Algorithms.ApplyAlgorithmSequential | frontend/src/utils/VirtualCube.js:24-28 | applying the space-joined a + b equals applying a, then b |
| Algorithms.ExactRotationMoves | frontend/src/utils/VirtualCube.js:211-233 | a token starting with x, y or z in either case rotates exactly when it is `r`, `r'` or `r2` (then as `move` does), otherwise it is a no-op |
| Algorithms.UpperRotationIgnored | frontend/src/utils/VirtualCube.js:211-233 | `Y` is ignored by the rotation-aware driver although `move("Y")` would rotate |
| Algorithms.DoubleModifierRotationIgnored | frontend/src/utils/VirtualCube.js:211-233 | `x2'` is ignored by the rotation-aware driver although `move` would turn it three times |
| Algorithms.RotationStepIs | frontend/src/utils/VirtualCube.js:215-231 | each token of the rotation-aware driver is either ignored or handed to `move` |
| Algorithms.WithRotationsAgrees | frontend/src/utils/VirtualCube.js:211-233 | without ignored rotation tokens, both drivers give the same state |
| Algorithms.ApplyTokensWithRotationsAppend | frontend/src/utils/VirtualCube.js:211-233 | the rotation-aware driver also applies tokens strictly left to right |
| Algorithms.MovePermutes | frontend/src/utils/VirtualCube.js:30-52 | `move` keeps the multiset of colours |
| Algorithms.ApplyAlgorithmPermutes | frontend/src/utils/VirtualCube.js:24-28 | `applyAlgorithm` keeps the multiset of colours |
| Algorithms.ApplyTokensWithRotationsPermutes | frontend/src/utils/VirtualCube.js:211-233 | the rotation-aware driver keeps the multiset of colours |
| Simulator.VirtualCube.constructor | frontend/src/utils/VirtualCube.js:6-8 | a new simulator holds a fresh 54-entry array with the reset colouring |
| Simulator.VirtualCube.Reset | frontend/src/utils/VirtualCube.js:10-21 | `reset` replaces the array by the reset colouring |
| Simulator.VirtualCube.Cycle | frontend/src/utils/VirtualCube.js:55-61 | the backwards shifting loop leaves the array equal to `Facelets.Cycle` of the old contents |
| Simulator.VirtualCube.RotateFaceClockwise | frontend/src/utils/VirtualCube.js:63-68 | the array becomes the face rotation of the old contents |
| Simulator.VirtualCube.MoveU | frontend/src/utils/VirtualCube.js:71-77 | the array becomes the U turn of the old contents |
| Simulator.VirtualCube.MoveD | frontend/src/utils/VirtualCube.js:79-85 | the array becomes the D turn of the old contents |
| Simulator.VirtualCube.MoveL | frontend/src/utils/VirtualCube.js:87-93 | the array becomes the L turn of the old contents |
| Simulator.VirtualCube.MoveR | frontend/src/utils/VirtualCube.js:95-101 | the array becomes the R turn of the old contents |
| Simulator.VirtualCube.MoveF | frontend/src/utils/VirtualCube.js:103-109 | the array becomes the F turn of the old contents |
| Simulator.VirtualCube.MoveB | frontend/src/utils/VirtualCube.js:111-117 | the array becomes the B turn of the old contents |
| Simulator.VirtualCube.RotateX | frontend/src/utils/VirtualCube.js:123-148 | the array becomes the x rotation of the old contents |
| Simulator.VirtualCube.RotateY | frontend/src/utils/VirtualCube.js:150-169 | the array becomes the y rotation of the old contents |
| Simulator.VirtualCube.RotateZ | frontend/src/utils/VirtualCube.js:171-206 | the array becomes the z rotation of the old contents |
| Simulator.VirtualCube.Move | frontend/src/utils/VirtualCube.js:30-52 | the array becomes `Algorithms.Move` of the old contents |
| Simulator.VirtualCube.Rounds | frontend/src/utils/VirtualCube.js:39-51 | the `times` loop over the switch repeats the letter's move `times` times, or does nothing for an unknown letter |
| Simulator.VirtualCube.Switch | frontend/src/utils/VirtualCube.js:40-50 | one pass of the switch applies the letter's move or, for an unknown letter, nothing |
| Simulator.VirtualCube.ApplyAlgorithm | frontend/src/utils/VirtualCube.js:24-28 | the array becomes `Algorithms.ApplyAlgorithm` of the old contents |
| Simulator.VirtualCube.RotationStep | frontend/src/utils/VirtualCube.js:215-231 | one token of the rotation-aware loop: the array becomes `Algorithms.RotationStep` of the old contents |
| Simulator.VirtualCube.ApplyAlgorithmWithRotations | frontend/src/utils/VirtualCube.js:211-233 | the array becomes `Algorithms.ApplyAlgorithmWithRotations` of the old contents |
| Checkers.CheckCross | frontend/src/utils/VirtualCube.js:257-285 | the cross holds iff each D edge is 'w' and matches its side centre |
| Checkers.CrossCount | frontend/src/utils/VirtualCube.js:325-343 | the cross count is in [0,4], it is 4 iff `checkCross`, and it is 0 iff no D edge qualifies |
| Checkers.GetF2LStatus | frontend/src/utils/VirtualCube.js:288-316 | each slot flag compares its corner's three facelets and its edge's two facelets with the F/R/B/L/D centres; `SolvedHasAllSlots` and `LowerCheckersAgree` state its properties |
| Checkers.CheckOLL | frontend/src/utils/VirtualCube.js:345-354 | the nine U facelets equal the U centre; `CheckPLL` and `CheckerChain` place it in the checker chain |
| Checkers.CheckF2L | frontend/src/utils/VirtualCube.js:318-323 | F2L holds iff the cross holds and all four slots are solved; so F2L implies the cross |
| Checkers.CheckPLL | frontend/src/utils/VirtualCube.js:356-384 | PLL implies OLL |
| Checkers.CheckSolved | frontend/src/utils/VirtualCube.js:386-419 | solved implies PLL, and solved holds iff PLL holds and the D face is one colour |
| Checkers.CheckerChain | frontend/src/utils/VirtualCube.js:318-419 | the implication chain solved ⇒ PLL ⇒ OLL, F2L ⇒ cross, and solved ⇔ PLL ∧ D monochrome |
| Checkers.SolvedHasAllSlots | frontend/src/utils/VirtualCube.js:288-316 | a solved cube has all four F2L slots |
| Checkers.SolvedCrossIffWhiteDown | frontend/src/utils/VirtualCube.js:257-285 | on a solved cube the cross (and F2L) holds iff the D centre is 'w' |
| Checkers.ResetChecks | frontend/src/utils/VirtualCube.js:10-21 | on the reset state solved, PLL, OLL and all four slot flags hold, but because D is 'y' the cross and F2L fail and the cross count is 0 |
| Checkers.RepeatUKeepsLowerLayers | frontend/src/utils/VirtualCube.js:71-77 | any number of U turns leaves every facelet below the top layer (D, the lower two rows of each side) unchanged |
| Checkers.RepeatUKeepsLowerCheckers | frontend/src/utils/VirtualCube.js:257-343 | `U`, `U2`, `U'` leave `checkCross`, `getCrossCount` and `getF2LStatus` unchanged |
| Checkers.LowerCheckersAgree | frontend/src/utils/VirtualCube.js:257-343 | the cross, cross count and slot flags read only the lower facelets |
| Inversion.FirstQuote | frontend/src/CubeSolver.jsx:13-15 | the index of the first apostrophe: no apostrophe before it, an apostrophe at it, and it is the length exactly when there is none |
| Inversion.RemoveFirstQuote | frontend/src/CubeSolver.jsx:13-15 | `replace("'", "")` leaves a string without an apostrophe unchanged; otherwise the result is the string with its first apostrophe cut out, everything before and after it kept |
| Inversion.RemoveFirstQuoteAt | frontend/src/CubeSolver.jsx:13-15 | when the first apostrophe of t is at p, `replace` gives t[..p] followed by t[p+1..] |
| Inversion.InvertToken | frontend/src/CubeSolver.jsx:11-18 | a token with an apostrophe loses its first one, any other token gains a final one; `InvertWellQuoted` states the flip and its involution |
| Inversion.InvertMoves | frontend/src/CubeSolver.jsx:6-21 | the trimmed string split on white space, each token inverted, reversed and joined with single spaces; `InvertMovesTokens`, `InvertMovesTwice` and `ApplyThenInvertRestores` state it |
| Inversion.InvertMovesEdgeCases | frontend/src/CubeSolver.jsx:6-21 | "" (for null too) gives ""; a blank string gives `'` |
| Inversion.InvertWellQuoted | frontend/src/CubeSolver.jsx:11-18 | a token whose only apostrophe is its last character flips between primed and unprimed, and flipping twice gives it back |
| Inversion.InvertMovesTokens | frontend/src/CubeSolver.jsx:6-21 | the tokens of `invertMoves(s)` are the inverted tokens of s in reverse order |
| Inversion.InvertMovesTwice | frontend/src/CubeSolver.jsx:6-21 | for a non-blank s whose tokens have at most a final apostrophe, inverting twice gives s with whitespace normalised |
| Inversion.ApplyThenInvertRestores | frontend/src/CubeSolver.jsx:6-21 | for tokens with at least one character besides a final apostrophe, no other apostrophe, and no `2` after the first character, such as `R`, `U'`, `Rw` or an unknown `T`, applying s and then `invertMoves(s)` restores the cube, in both orders |
| Inversion.HalfTurnInvertedAsWritten | frontend/src/CubeSolver.jsx:16-17 | `invertMoves("U2")` is `"U2'"` |
| Inversion.HalfTurnNotRestored | frontend/src/CubeSolver.jsx:6-21 | applying `U2` and then its inversion is one U turn, so any cube whose facelets 9 and 18 differ is not restored |
| Inversion.HalfTurnNotRestoredFromReset | frontend/src/CubeSolver.jsx:6-21 | from the reset state, `U2` followed by its inversion does not restore the cube |
| Inversion.ApplyThenInvertFixedRestores | frontend/src/CubeSolver.jsx:6-21 | with half turns kept as they are, applying s and then the inversion restores the cube for quarter and half turns, in both orders |
| Inversion.HalfTurnRestoredFixed | frontend/src/CubeSolver.jsx:6-21 | with the corrected inversion, `U2` followed by its inverse restores the reset state |
| StepAnalyzer.CountedInBounds | frontend/src/CubeSolver.jsx:172-176 | `countMoves` counts every non-empty piece except the nine lower-case rotation tokens: all of them when there are none, none when there are only those |
| StepAnalyzer.CountMoves | frontend/src/CubeSolver.jsx:172-176 | the pieces of `split(/\s+/)` that are non-empty and not one of the nine rotation tokens; `CountedInBounds` and `CountMovesJoin` state it |
| StepAnalyzer.HasRotationLetter | frontend/src/CubeSolver.jsx:180 | `/[xyz]/i`: some character is x, y or z in either case; `Score` uses it |
| StepAnalyzer.HasWideMove | frontend/src/CubeSolver.jsx:181 | `/[rlfbud]w/i`: some face letter is directly followed by w, in either case; `Score` uses it |
| StepAnalyzer.CountMovesJoin | frontend/src/CubeSolver.jsx:172-176 | the move count of a joined group is the sum of the counts of its parts |
| StepAnalyzer.Score | frontend/src/CubeSolver.jsx:178-181 | the score is the count plus 2 for any x/y/z letter plus 1 for a face letter followed by w; it equals the count without either |
| StepAnalyzer.CalculateComplexity | frontend/src/CubeSolver.jsx:178-187 | the tier is Basic iff score ≤ 4, Intermediate iff 4 < score ≤ 8, Advanced iff 8 < score ≤ 12 and Expert iff score > 12, each with its colour |
| StepAnalyzer.ComplexityMonotone | frontend/src/CubeSolver.jsx:178-187 | the tier never drops as the count grows |
| StepAnalyzer.ComplexityOfPlainMoves | frontend/src/CubeSolver.jsx:178-187 | without rotations or wide moves the tier depends on the count alone |
| StepAnalyzer.PhysicalTechnique | frontend/src/CubeSolver.jsx:78-88 | no diff sets no technique; a solved PLL wins over everything, then a solved OLL |
| StepAnalyzer.PhysicalTechniquePrecedence | frontend/src/CubeSolver.jsx:78-88 | the later assignments override: pllSolved, ollSolved, bl, br, fl, fr, then the cross text (CROSS stage only, positive change) |
| StepAnalyzer.CrossEdgeTextShape | frontend/src/CubeSolver.jsx:79-81 | the cross technique is "Solved n Cross Edge", plural for n > 1 |
| StepAnalyzer.NatToStringValue | frontend/src/CubeSolver.jsx:80 | the decimal rendering of a number reads back as that number |
| StepAnalyzer.Recognized | frontend/src/CubeSolver.jsx:91-97 | a catalogue entry is recognised iff its upper-cased pattern occurs in the normalised moves |
| StepAnalyzer.RecognizedFirst | frontend/src/CubeSolver.jsx:91-97 | nothing is recognised iff no entry matches; otherwise the first recognised entry is the first matching one in catalogue order |
| StepAnalyzer.RecognizedAppend | frontend/src/CubeSolver.jsx:91-97 | the catalogue is scanned in order: the matches of a + b are the matches of a followed by those of b |
| StepAnalyzer.SexyMoveBeforeRightInsert | frontend/src/CubeSolver.jsx:44-53 | wherever "R U R' U'" occurs, "R U R'" occurs too, but the first recognised entry and the catalogue technique are "Sexy Move", the earlier entry |
| StepAnalyzer.Normalize | frontend/src/CubeSolver.jsx:66 | upper case, runs of white space collapsed to one space, then trimmed; `Recognized` matches the catalogue against it |
| StepAnalyzer.Tips | frontend/src/CubeSolver.jsx:95 | one tip per recognised pattern, in order |
| StepAnalyzer.ScanPatternsFillsGap | frontend/src/CubeSolver.jsx:91-97 | the catalogue loop keeps a technique already set and otherwise takes the first recognised pattern's name |
| StepAnalyzer.CrossEdgeNumber | frontend/src/CubeSolver.jsx:137-138 | the CROSS edge number is at most 4: the count after a positive change, the count + 1 otherwise |
| StepAnalyzer.PairNumber | frontend/src/CubeSolver.jsx:141-142 | the F2L pair number is clamped to [1,4] and is the slot count after a slot change |
| StepAnalyzer.GenerateSummary | frontend/src/CubeSolver.jsx:120-148 | `"White Cross - Edge n"`, `"F2L Pair n"`, `"STAGE: technique"` or the stage name, by stage and technique |
| StepAnalyzer.F2LSummaryDigit | frontend/src/CubeSolver.jsx:140-143 | the F2L summary is ten characters ending in the pair digit 1-4 |
| StepAnalyzer.GenerateDetailParts | frontend/src/CubeSolver.jsx:150-169 | with a technique the detail starts with "Using <technique> technique. ", otherwise with the stage text; the stage text follows that sentence; with a recognised pattern it ends with " Recognized pattern: <first pattern's name>.", otherwise with the stage text |
| StepAnalyzer.GenerateDetail | frontend/src/CubeSolver.jsx:150-169 | the optional technique sentence, the stage text, and the optional first recognised pattern; `GenerateDetailParts` states its layout |
| StepAnalyzer.ProgressBounds | frontend/src/CubeSolver.jsx:113 | progress is in [0,100], is 100 at the last step, and never decreases from one step to the next |
| StepAnalyzer.Progress | frontend/src/CubeSolver.jsx:113 | `Math.round(((i+1)/total)·100)` in exact arithmetic; `ProgressRounds` and `ProgressBounds` state it |
| StepAnalyzer.ProgressRounds | frontend/src/CubeSolver.jsx:113 | progress is `(i+1)/total·100` rounded to the nearest integer, halves up |
| StepAnalyzer.AnalyzeStep | frontend/src/CubeSolver.jsx:65-117 | the record's fields: the recognised patterns are exactly the matching catalogue entries in catalogue order, the physical technique or else the first recognised pattern, the summary, the detail, the complexity, the progress, `isFirstStep ⇔ i = 0`, `isLastStep ⇔ i = total - 1`, and `hasRotation` |
| Analysis.SlotCount | frontend/src/CubeSolver.jsx:295 | the slot count is in [0,4], 4 iff all slots, 0 iff none |
| Analysis.StageOf | frontend/src/CubeSolver.jsx:290-293 | CROSS iff no cross; F2L iff cross but not all slots; OLL iff all slots but not OLL; PLL iff all slots and OLL |
| Analysis.ComputeDiff | frontend/src/CubeSolver.jsx:275-287 | crossChange is the after count minus the before count; each slot, OLL and PLL flag means false before and true after |
| Analysis.StateAfter | frontend/src/CubeSolver.jsx:254-265 | the reset cube scrambled with the rotation-aware driver, then moved by groups 0..k-1; it is again 54 facelets. `AnalyzeSteps` names it in its loop invariant |
| Analysis.StepAt | frontend/src/CubeSolver.jsx:259-299 | the record of group k, analysed from `StateAfter` k to the cube after group k; `AnalyzeSteps` and `StepStage` state it |
| Analysis.ClassifyGroup | frontend/src/CubeSolver.jsx:259-296 | the readings before and after a group give the stage, diff and counts of the specification functions |
| Analysis.AnalyzeGroup | frontend/src/CubeSolver.jsx:257-299 | one iteration applies the group to the shared simulator and analyses it |
| Analysis.AnalyzeSteps | frontend/src/CubeSolver.jsx:253-300 | one record per group; record k is the analysis of group k on the cube scrambled and then moved by groups 0..k-1 |
| Analysis.StepStage | frontend/src/CubeSolver.jsx:289-299 | each record's stage is the stage of the simulated cube after its group; PLL iff cross, all slots and OLL |
| Analysis.SolvedCubeIsCrossStage | frontend/src/CubeSolver.jsx:290-291 | a cube left solved is still classified CROSS, because the cross looks for 'w' on the yellow D face |
| Analysis.SolvedWhiteDownIsPLL | frontend/src/CubeSolver.jsx:290-293 | a solved cube whose D face is white is classified PLL |
| Analysis.UTurnGroupChangesNoLowerProgress | frontend/src/CubeSolver.jsx:275-287 | a group of only U turns never shows a cross change or a newly filled slot |
| Breakpoints.LeafCount | frontend/src/CubeSolver.jsx:245 | a line's token count is at least 1 (its type) |
| Breakpoints.StepToLeafIndexMap | frontend/src/CubeSolver.jsx:241-250 | one entry per line; entry i has index i and the running token count of lines 0..i |
| Breakpoints.EndLeavesIncrease | frontend/src/CubeSolver.jsx:241-250 | the end indices strictly increase, and step i ends at index at least i + 1 |
| Breakpoints.StampReadsLastMove | frontend/src/CubeSolver.jsx:425-435 | for these entries the stamp of step i is read at move `endLeafIndex - 1` ≥ i, never from the negative branch |
| Breakpoints.StampOf | frontend/src/CubeSolver.jsx:425-435 | a step's stamp is the start plus the duration of move `endLeafIndex - 1`, and 0 when that index is negative or the indexer throws; `StampReadsLastMove` states it |
| Breakpoints.PositiveLength | frontend/src/CubeSolver.jsx:437 | the filter keeps every stamp iff all are positive, and then it is the identity |
| Breakpoints.LoadAccepted | frontend/src/CubeSolver.jsx:414-464 | the indexer's stamps are used iff the indexer is there and every stamp is positive, with the last one as duration; otherwise the fallback |
| Breakpoints.Fallback | frontend/src/CubeSolver.jsx:455-460 | stamps (i+1)·1500 with the last as duration; `FallbackShape` states it |
| Breakpoints.LoadBreakpoints | frontend/src/CubeSolver.jsx:414-464 | the fallback when the indexer is missing or fewer stamps are positive than there are steps; else the stamps with the last positive one (or 5000) as duration; `LoadAccepted` and `LoadShape` state it |
| Breakpoints.FallbackShape | frontend/src/CubeSolver.jsx:455-460 | fallback stamp i is (i+1)·1500, one per step, positive and strictly increasing |
| Breakpoints.LoadShape | frontend/src/CubeSolver.jsx:414-464 | either way there is one positive stamp per step, and for a non-empty solution the duration is the last stamp |
| Playback.Player.constructor | frontend/src/CubeSolver.jsx:201-224 | the refs start at 0, step 0, not playing, speed 1, no stamps; the step is in range |
| Playback.Target | frontend/src/CubeSolver.jsx:344-352 | 0 for step 0 or no stamps, `stamps[step-1]` in range, else the duration; `TickApproaches` uses it |
| Playback.PauseLimit | frontend/src/CubeSolver.jsx:377 | 200 ms divided by the speed, where a speed of 0 counts as 1; `TickStep` and `PlayingAdvances` use it |
| Playback.AfterArrival | frontend/src/CubeSolver.jsx:367-390 | the settled part of a tick; `TickStep` and `PlayingAdvances` state its effect on the step, the playing flag and the pause timer |
| Playback.AfterTick | frontend/src/CubeSolver.jsx:332-407 | one tick on the refs; `TickApproaches`, `TickStep`, `StepStaysInRange` and `PausedSettles` state it |
| Playback.AfterTogglePlay | frontend/src/CubeSolver.jsx:526-531 | flips the playing flag; `Player.TogglePlay` is proved against it |
| Playback.AfterStepForward | frontend/src/CubeSolver.jsx:533-537 | min(step + 1, totalSteps), playing off; `ForwardBackward` and `StepStaysInRange` state it |
| Playback.AfterStepBackward | frontend/src/CubeSolver.jsx:539-543 | max(step - 1, 0), playing off; `ForwardBackward` and `StepStaysInRange` state it |
| Playback.AfterReset | frontend/src/CubeSolver.jsx:545-549 | step 0, playing off; `StepStaysInRange` states it |
| Playback.AfterJumpToEnd | frontend/src/CubeSolver.jsx:551-555 | step totalSteps, playing off; `StepStaysInRange` states it |
| Playback.AfterTimelineChange | frontend/src/CubeSolver.jsx:557-562 | the slider value as step, playing off; `StepStaysInRange` states it |
| Playback.Player.Load | frontend/src/CubeSolver.jsx:446-460 | loading stores the stamps and the duration and changes nothing else, so the step stays in range |
| Playback.Player.SetSpeed | frontend/src/CubeSolver.jsx:487-490 | the speed effect sets only the speed, so the step stays in range |
| Playback.Player.TargetTimestamp | frontend/src/CubeSolver.jsx:344-352 | the target is 0 for step 0 or no stamps, `stamps[step-1]` in range, else the duration |
| Playback.Player.Tick | frontend/src/CubeSolver.jsx:332-407 | a tick changes the refs exactly as `AfterTick` of the old refs, and nothing else; a step in [0, totalSteps] stays there |
| Playback.Player.AutoAdvance | frontend/src/CubeSolver.jsx:367-390 | the settled part of a tick changes the refs exactly as `AfterArrival`; a step in [0, totalSteps] stays there |
| Playback.Player.TogglePlay | frontend/src/CubeSolver.jsx:526-531 | only the playing flag flips |
| Playback.Player.StepForward | frontend/src/CubeSolver.jsx:533-537 | the step becomes min(step + 1, totalSteps) and playing stops |
| Playback.Player.StepBackward | frontend/src/CubeSolver.jsx:539-543 | the step becomes max(step - 1, 0) and playing stops |
| Playback.Player.Reset | frontend/src/CubeSolver.jsx:545-549 | the step becomes 0 and playing stops |
| Playback.Player.JumpToEnd | frontend/src/CubeSolver.jsx:551-555 | the step becomes totalSteps and playing stops |
| Playback.Player.TimelineChange | frontend/src/CubeSolver.jsx:557-562 | the step becomes the slider value and playing stops |
| Playback.TickApproaches | frontend/src/CubeSolver.jsx:355-407 | within 10 ms the timestamp snaps exactly onto the target; otherwise the distance shrinks by delta·speed down to 0; the timestamp stays between its old value and the target and never overshoots |
| Playback.TickStep | frontend/src/CubeSolver.jsx:367-391 | a tick raises the step by at most one: exactly when playing, settled, past the 200/speed pause and below totalSteps; it stops playing exactly when that happens at the last step; it never starts playing |
| Playback.StepStaysInRange | frontend/src/CubeSolver.jsx:367-391 | from a step in [0,totalSteps], a tick and every control leave the step in [0,totalSteps]; forward, back, reset and jump clear playing |
| Playback.ForwardBackward | frontend/src/CubeSolver.jsx:533-543 | forward then back (below the end) and back then forward (above 0) return to the same step; both clamp at the ends |
| Playback.PausedSettles | frontend/src/CubeSolver.jsx:355-407 | while paused, ticks never change the step, and n ticks that can cover the distance end exactly on the target |
| Playback.PlayingAdvances | frontend/src/CubeSolver.jsx:367-391 | playing at the target: after the pause the step advances (or playback stops at the end); before it the timer is kept |

## Left out

- All rendering, styles, the panels and fullscreen handling are presentation and are not part of this model.
- The `TwistyPlayer` from the `cubing` library is a foreign library. So are `requestAnimationFrame`, `performance.now` and `setTimeout`. The model takes the clock reading and frame delta as inputs, and represents the indexer as an optional function.
- The hard-coded mock solution is demo data, not logic; the solution is a parameter. The pattern catalogue is a constant `StepAnalyzer.Patterns`, and `AnalyzeStep` takes the catalogue as a parameter.
- Case mapping is ASCII only: JavaScript's Unicode case tables are not modelled. White space is JavaScript's full `\s` and `trim` set (`Text.IsSpace`): the six ASCII spaces plus U+00A0, U+1680, U+2000-U+200A, U+2028, U+2029, U+202F, U+205F, U+3000 and U+FEFF.
- `null` and `undefined` strings are modelled as the empty string.
- The `allMoves` parameter of `analyzeStep` is never read by the source, so the model omits it.
- React state updates are asynchronous. `setCurrentStep` reaches the loop's `currentStepRef` through an effect on the next render; the model applies the new step at once, in the same tick or control call.
- The "virtual mirror" effect that recomputes the checker flags for the current step feeds only the display and is not modelled.
- The `isMounted` guards and the animation-frame cancellation of the cleanup are not modelled.
- Timestamps, delta and speed are mathematical reals. Floating-point rounding and `NaN` are not modelled.
- `StepAnalyzer.AnalyzeStep` requires a positive `totalSteps`: the page only calls it for a step of a non-empty solution, and with no steps `Math.round` of an infinite quotient has no integer value.
- StepAnalyzer.Progress, StepAnalyzer.ProgressRounds and StepAnalyzer.AnalyzeStep: progress is rounded from the exact quotient (i+1)/total·100, halves up. The source multiplies a floating-point quotient by 100, and that product can fall just below .5 and round down, e.g. step index 22 of 40 gives 57 in the source and 58 here; likewise 28 of 200 and 56 of 200.
- `Breakpoints.Fallback`: with no steps the source takes the last element of an empty list as the duration (`undefined`); the model uses 0.
- `Playback.Player.TimelineChange`: the slider's text value and `parseInt` are outside the model; the value comes in as an integer (the slider keeps it in [0, totalSteps]).
- Physical correctness of the index cycles against a real cube is not claimed: the index lists are modelled as given.

## Findings

| source | as written | input that shows it | evidently intended | confidence | as-written member | corrected member |
|---|---|---|---|---|---|---|
| frontend/src/CubeSolver.jsx:16-17 | `invertMoves` appends `'` to every unprimed token, so a half turn `U2` becomes `U2'`, which `move` reads as three quarter turns (frontend/src/utils/VirtualCube.js:35-37) | `"U2"`: applying `U2` and then `invertMoves("U2")` from the reset state leaves one U turn, not the reset state | a half turn is its own inverse and is kept unchanged | not executed | Inversion.HalfTurnNotRestored | Inversion.ApplyThenInvertFixedRestores |
