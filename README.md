# Wood laminate cut planner, modelled in Dafny

`Laminate.py` plans a mitered ("generational") wood laminate. A command such as `45/60A/45D` names
one cut angle per generation, in whole degrees. Each angle may be marked `A` (ascending) or `D`
(descending). From the command and the design dimensions, the class computes:

- the width of the base strip;
- the length of every cut;
- the number of pieces to cut;
- the panel height of every generation.

Every failed computation returns the sentinel -1.

The model has four modules:

- `MathLib` (mathlib.dfy) holds pi and the radian/degree conversions over exact reals. It also has
  `sum`, and `reduce` with multiplication. Sine and cosine come in as a `Trig` value. `Trig.Sound`
  is the only fact the proofs use about them: both are positive strictly inside the first quadrant.
- `PyText` (pytext.dfy) holds the Python 2 string operations the parser uses: upper-casing with
  whitespace removal (`''.join(cmd.upper().split())`), `split('/')`, `replace(c, "")` and `int()`.
  It also has `'/'.join` and `str()`, which the round-trip lemmas use to write a plan back as a
  command.
- `CutCommand` (cut_command.dfy) states what a command parses to, as the function `Parse`. Lemmas
  about `Parse` give the accept/reject rules and a print-then-parse round trip.
- `Laminate` (laminate.dfy) has two parts:
  - The value type `Geometry` holds what the geometry depends on: the trig functions, the
    design-unit width, the kerf and the cut angles. Its functions are `getSinAnglesMultiplier`,
    `kerfMultiplier`, `getBaseCutWidth`, `getCutLength` and `getPreviousGenerationHeight`. Its
    lemmas relate these functions to one another.
  - The class `Laminate` holds the mutable plan. Its three `cutCmd` lists are the fields `angles`,
    `locations` and `heights`. The class methods mirror the source's loops: `parseCmd`,
    `setEmptyCmd`, the two multiplier loops, `getNumberCuts` and the backward pass `setHeights`.
    Each method is proved against the function that specifies it.

## Model

| member | source | states |
|---|---|---|
| Laminate.Laminate.constructor | Laminate.py:27-36 | stores the design parameters, sets the design-unit width to length / rdus, and installs the parse of the command; the plan's three lists run in parallel and every angle is acute |
| Laminate.Laminate.SetEmptyCmd | Laminate.py:40-41 | all three lists of the plan become empty |
| Laminate.Laminate.ParseCmd | Laminate.py:48-87 | after the call the plan is `Parse(cmd, heightDesign)` and that plan is returned; nothing partial is ever left behind |
| CutCommand.Parse | Laminate.py:48-87 | the three lists have equal length; the result is either the empty plan or has one entry per token; every angle lies in (0, 90) degrees; every height but the last is -1; the last height is the design height; the first placement is Any |
| CutCommand.StripPlacement | Laminate.py:60 | the text handed to `int()` holds no `A` and no `D`, and holds every other character exactly when the token does, wherever in the token the letters stood |
| CutCommand.Placement | Laminate.py:70-80 | a token is Ascending exactly when it holds an `A` anywhere, not only at its end; Descending exactly when it holds a `D` but no `A` (the `A` test comes first); and Any exactly when it holds neither |
| CutCommand.Accepted | Laminate.py:58-82 | defines whether the loop gets past token i: `int()` accepts it once its A/D letters are deleted, the value lies in (0, 90), and a token carrying a placement letter is not equal to the first token |
| CutCommand.FirstTokenAccepted | Laminate.py:58-82 | the loop keeps the first token exactly when it names a whole number of degrees in (0, 90) and carries no placement letter, since a lettered token is refused when it equals `listTemp[0]` |
| CutCommand.Tokens | Laminate.py:52 | the token list is never empty, no token holds a `/`, whitespace or a lower-case letter, and joining the tokens with `/` gives back the compacted command; so the tokens are exactly the `/`-pieces of that text |
| CutCommand.ParseSucceedsIff | Laminate.py:49-82 | a command is accepted exactly when it is non-empty, no token is empty, every token is a whole number of degrees in (0, 90) once its A/D letters are deleted, and the first token has no placement letter |
| CutCommand.ParseContents | Laminate.py:58-86 | on acceptance, entry i holds radians of token i's degrees and token i's placement, and a height of -1, or the design height for the last entry |
| CutCommand.RejectedToken | Laminate.py:58-82 | any single token the loop refuses empties the whole plan |
| CutCommand.MisplacedSlashRejected | Laminate.py:50-56 | a leading, trailing or doubled `/`, or an empty command, gives the empty plan |
| CutCommand.BadAngleRejected | Laminate.py:59-68 | a token that `int()` refuses once its letters are deleted (such as `60F`), or whose value is not in (0, 90), gives the empty plan |
| CutCommand.FirstPlacementRejected | Laminate.py:70-82 | an `A` or `D` anywhere in the first token gives the empty plan |
| CutCommand.TokenDegrees | Laminate.py:60 | a token names a number of degrees exactly when, with every `A` and `D` deleted, it is an optional sign followed by one or more digits; such a token holds nothing but digits, signs and the letters A and D |
| CutCommand.TokenDegreesIgnoresPlacement | Laminate.py:60 | an `A` or `D` anywhere in a token, even between digits, leaves the degrees it names unchanged, so `4A5` names 45 |
| CutCommand.TokenAngle | Laminate.py:69 | a token's angle in radians lies in (0, RightAngle) when its degrees lie in (0, 90) |
| CutCommand.ParseFormat | Laminate.py:48-87 | round trip: print whole-degree angles in (0, 90) with placements, the first one unmarked, then parse the text; the result has exactly those angles in radians and those placements, -1 heights, and the design height last |
| CutCommand.TokensOfFormat | Laminate.py:52 | printed command text splits back into exactly the tokens it was joined from |
| PyText.Upper | Laminate.py:52 | `upper()` maps each lower-case letter to the upper-case letter 32 code points below it and leaves every other character as it is |
| PyText.Compact | Laminate.py:52 | the result holds no whitespace and no lower-case letter, and is no longer than the input (CompactChar and CompactConcat state what it keeps) |
| PyText.CompactChar | Laminate.py:52 | a single character compacts to nothing when it is whitespace and to its upper-case form otherwise |
| PyText.CompactConcat | Laminate.py:52 | the compacted text of a concatenation is the concatenation of the compacted parts; with CompactChar, every non-whitespace character is kept, upper-cased, in order |
| PyText.CompactIdempotent | Laminate.py:52 | removing whitespace and upper-casing a second time changes nothing |
| PyText.JoinSplit | Laminate.py:52 | joining the pieces of `split('/')` with `/` gives back the text |
| PyText.SplitJoin | Laminate.py:52 | splitting the join of `/`-free pieces gives back the pieces |
| PyText.EmptyPieceIff | Laminate.py:52-53 | `split` yields an empty piece exactly when the text is empty or a separator leads, trails or is doubled |
| PyText.Without | Laminate.py:60 | `replace(ch, "")` removes every `ch` and keeps every other character |
| PyText.WithoutConcat | Laminate.py:60 | `replace(ch, "")` works piece by piece over a concatenation, so the kept characters stay in their order |
| CutCommand.StripPlacementConcat | Laminate.py:60 | deleting the `D`s and then the `A`s works piece by piece over a concatenation |
| PyText.ParseInt | Laminate.py:60 | `int()` succeeds only on an optional sign followed by digits, and gives a non-negative value unless the sign is `-` (ParseIntAccepts gives the converse, ParseIntValue the value) |
| PyText.ParseIntAccepts | Laminate.py:60 | `int()` succeeds exactly on an optional sign followed by one or more digits, so `+45` and `045` are accepted and a lone sign is not |
| PyText.ParseIntValue | Laminate.py:60 | `int()` gives the decimal value of the digits, unchanged by a leading `+` and negated by a leading `-` |
| PyText.ParseIntOfIntToString | Laminate.py:60 | `int(str(n)) == n` |
| Laminate.Geometry.SinAnglesMultiplier | Laminate.py:96-109 | defines getSinAnglesMultiplier: -1 unless 0 <= indexBegin <= indexEnd < len(angle), otherwise 2 sin(a) multiplied from the left over the angles indexBegin to indexEnd inclusive |
| Laminate.Laminate.GetSinAnglesMultiplier | Laminate.py:96-109 | the loop's product equals the range multiplier of the plan's angles |
| Laminate.Geometry.SinAnglesMultiplierOutOfRange | Laminate.py:96-109 | whatever the angles, the multiplier is -1 unless 0 <= indexBegin <= indexEnd < len(angle) |
| Laminate.Geometry.SinAnglesMultiplierIsReduce | Laminate.py:99-107 | on a valid range the multiplier is `reduce` of multiplication over 2 sin(a) for the inclusive slice of angles |
| Laminate.Geometry.SinAnglesMultiplierSign | Laminate.py:99-109 | for acute angles the multiplier is positive exactly when 0 <= begin <= end < len(angle), and is -1 exactly otherwise |
| Laminate.Geometry.SinAnglesMultiplierSplit | Laminate.py:104-107 | the multiplier of a range is the product of the multipliers of two adjacent sub-ranges |
| MathLib.ProductAppend | Laminate.py:107 | one more factor on the right multiplies the left-folded product by that factor |
| Laminate.Geometry.KerfTerms | Laminate.py:120-123 | defines the list kerfMultiplier appends after its leading 1: the range multiplier (k, maxindex) for k from index down to 2 |
| Laminate.Geometry.KerfMultiplier | Laminate.py:115-125 | defines kerfMultiplier(generation): the sum of 1 and, when generation > 2, the range multipliers (k, generation - 1) for k from generation - 1 down to 2 |
| Laminate.Laminate.GetKerfMultiplier | Laminate.py:115-125 | the loop's sum equals 1 plus the range multipliers (k, generation - 1) for k from generation - 1 down to 2 |
| Laminate.Geometry.KerfTermsContents | Laminate.py:118-123 | the terms after the leading 1 are, in order, the range multipliers (k, generation - 1) for k = generation - 1 down to 2, and there are generation - 2 of them; every range ends at index generation - 1 |
| Laminate.Geometry.KerfMultiplierEarlyGenerations | Laminate.py:116-120 | kerfMultiplier(g) == 1 for every g <= 2, with no condition on the angles |
| Laminate.Geometry.KerfMultiplierRecurrence | Laminate.py:115-125 | for 2 <= g < len(angle), kerfMultiplier(g + 1) == 1 + 2 sin(angle[g]) * kerfMultiplier(g) |
| Laminate.Geometry.KerfMultiplierAtLeastOne | Laminate.py:116-125 | for acute angles, kerfMultiplier(g) is at least 1 for every g up to len(angle) |
| Laminate.Geometry.KerfMultiplierUnguarded | Laminate.py:120-124 | when generation - 1 >= len(angle), each of the g - 2 terms is the sentinel -1, so the result is 3 - g |
| Laminate.Geometry.GetBaseCutWidth | Laminate.py:134-147 | the result is -1 on an empty plan; it is widthRdu / 2 + kerf with one angle; it is positive on a non-empty acute plan with positive unit width and non-negative kerf |
| Laminate.Geometry.BaseCutWidthEquation | Laminate.py:140-145 | with two or more generations, the base width times the multiplier of angles 1..n-1 equals widthRdu / 2 + kerf * kerfMultiplier(n) |
| Laminate.Geometry.BaseCutWidthOneGeneration | Laminate.py:141-145 | a one-angle plan with a unit width of 20/10 and a kerf of 5/64 gives a base width of exactly 1.078125 |
| Laminate.Geometry.GetCutLength | Laminate.py:155-162 | the result is -1 unless the angle lies in (0, 90) degrees and the width is positive; with a non-negative kerf it is positive exactly in that case |
| Laminate.Geometry.CutLengthHypotenuse | Laminate.py:157-160 | on valid inputs the cut length times sin(angle) is the width plus the kerf, so the cut length is the hypotenuse |
| Laminate.Laminate.GetNumberCuts | Laminate.py:171-180 | the result is -1 for generation <= 0, and rdus * 2^(generation + 1) otherwise |
| Laminate.Laminate.NumberCutsDoubling | Laminate.py:166-179 | each further generation doubles the number of cuts |
| Laminate.Laminate.NumberCuts | Laminate.py:171-180 | the count is -1 for every generation <= 0, where the loop never runs |
| Laminate.Laminate.NumberCutsIncreasing | Laminate.py:174-179 | for positive rdus, the number of cuts strictly increases with the generation |
| Laminate.Laminate.NumberCutsExamples | UnitTests/LaminateTestCase.py:197-216 | with rdus = 10, generations 1 to 4 give 40, 80, 160 and 320 cuts, and generation 0 gives -1 |
| Laminate.Geometry.GetPreviousGenerationHeight | Laminate.py:190-195 | the result is -1 unless length, angle and height are all positive (there is no upper bound on the angle); for an acute angle the result is positive exactly when length and height are |
| Laminate.Geometry.PreviousGenerationHeightEquation | Laminate.py:192-194 | on valid inputs, height times length equals cos(90 degrees - angle) times (next height times length + cos(angle)) |
| Laminate.Laminate.SetHeights | Laminate.py:203-219 | only the heights change, and their number stays the same. The last height is kept. A plan of 0 or 1 angles is left unchanged. Every height is the backward propagation of the last height through the cut lengths the pass computes from the base width |
| Laminate.Geometry.CutLengthsUpTo | Laminate.py:210-216 | the cut length of generation i is getCutLength of the cut width in force at step i and angle[i] |
| Laminate.Geometry.NextCutWidth | Laminate.py:219 | on an acute plan of two or more angles, with the base width from getBaseCutWidth and the multiplier of angles 1..n-1, the recomputed cut width is widthRdu / 2 + kerf * (kerfMultiplier(n) - the kerf multiplier it is given) |
| Laminate.Geometry.CutWidthAt | Laminate.py:204-219 | the cut width at the first step of the backward pass (i == len(angle) - 2) is widthRdu / 2 |
| Laminate.Geometry.PropagatedHeight | Laminate.py:206-217 | the last generation's height is the design height; an earlier one whose cut length is not positive gets -1 |
| Laminate.Geometry.SentinelPropagates | Laminate.py:192-195 | once a height is not positive, every earlier generation's height is -1 |
| Laminate.Geometry.PropagatedHeightPositive | Laminate.py:215-217 | with a non-negative kerf and acute angles, height i is positive exactly when height i + 1 and the cut width used at step i are both positive |
| Laminate.Geometry.CutWidthClosedForm | Laminate.py:205-219 | after the first step, the cut width is widthRdu / 2 + kerf * (kerfMultiplier(n) - kerfMultiplier(i + 2)) |

## Left out

- `math.sin` and `math.cos` are parameters, held in a `Trig` value. The proofs rely only on both being positive on (0, 90) degrees. Pi is 3.141592653589793, the shortest decimal that prints as the double `math.pi`; it is not that double's exact binary value.
- Floating point is not modelled: all arithmetic is exact real arithmetic. The bit-exact float results in the unit tests (for example 0.48524817793679187) are not reproduced. The one-generation base width and the cut counts are exact, and are proved.
- Python 2 integer division is not modelled. Both `lengthDesign / rdus` and `widthRdu/2` are real divisions, and the design parameters are reals.
- Laminate.Laminate.GetNumberCuts: `math.ceil` returns a float in Python 2; the model uses integers, where the ceiling changes nothing.
- Text is treated as ASCII. `upper()` maps only a-z, and `split()` treats only the six ASCII whitespace characters as separators.
- Laminate.Laminate.ParseCmd: the contract says the plan equals `Parse(cmd, heightDesign)`. Parse's own contract gives the class invariant (parallel lists, acute angles), and the constructor re-establishes that invariant from it. ParseCmd does not state the invariant itself.
- Laminate.Laminate.SetHeights: the loop calls the two multiplier methods at the start of each step, not after the height is written. Neither method changes the laminate, so the computed values are the same.
- Laminate.Laminate.constructor: requires `rdus != 0`. The source does not guard this; `lengthDesign / rdus` raises ZeroDivisionError at Laminate.py:34.
- Laminate.Laminate.ParseCmd: returns the plan as a value. The source returns the live `self.cutCmd` dictionary (Laminate.py:87), so a caller holding it sees `setHeights` write the heights in place (Laminate.py:217). That aliasing is not captured.
- The unittest harness and the commented-out debug output are not part of the model. `sys.path` handling and `unittest.main` are left out for the same reason.
