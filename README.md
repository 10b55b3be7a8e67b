# Canopy truss calculator — a Dafny model

The calculator sizes a steel roof truss for a canopy. The user enters a span, a rise,
a roof angle, a snow region and a truss spacing. From these it works out:

- the design snow load after the Russian code of practice SP 20.13330.2016: the region's
  ground load, reduced by the slope coefficient mu, times the load factor 1.4, rounded to
  hundredths; the wind load is a fixed placeholder of 30 kg/m²;
- the line load on one truss, in kN/m;
- the geometry of a W-lattice gable truss: seven joints and eleven members;
- member forces. The pipeline calls a stand-in that estimates each force from the member's
  label. A second analysis solves the joints by the method of joints: each joint with
  exactly two unknown members is balanced by a 2x2 linear solve;
- the lightest square hollow section from a GOST 30245-2003 catalogue that meets each
  member's required area and, for compressed members, its required second moment;
- a bill of materials that groups the members by kind and profile.

Two exporters write the result out. One writes a plain-text specification table. The other
writes an AutoCAD R12 DXF drawing with one LINE entity per member and two dimension
entities.

The model has one module per source file:

- `Types`: the record shapes (`types.ts`).
- `Loads`: `src/engineering/loads.ts`.
- `Materials`: `scr/engineering/materials.ts`.
- `StubAnalysis`: the stand-in analysis (`engineering/trussAnalysis.ts`).
- `JointSolver`: the method of joints (`src/engineering/trussAnalysis.ts`).
- `Calculator`: the pipeline (`engineering/calculator.ts`).
- `TextExport`: `lib/textExporter.ts`.
- `DxfExport`: `src/lib/dxfExporter.ts`.
- `JsRuntime`: the JavaScript built-ins these modules rely on, stated over exact reals and
  strings:
  - `toFixed`, and `parseFloat` of its result;
  - `padEnd`, `trim`, `includes` and `split`;
  - decimal rendering of naturals;
  - joining lines with `"\n"`.

The code that works by mutation is imperative Dafny, each method proved against a
specification function:

- `JointSolver.AnalyzeTruss`: the solver's loop over arrays of forces and processed flags.
- `Calculator.SizeAndGroup`: the `forEach` that fills the `Map`.
- `TextExport.ExportToTxt` and `DxfExport.ExportToDxf`: the exporters' string accumulation.

The rest is functions and lemmas.

## Model

| member | source | states |
|---|---|---|
| Types.RegionName | types.ts:75 | every snow region is written as its Roman numeral, one to four characters |
| Loads.NormativeSnowLoad | src/engineering/loads.ts:7-16 | the ground snow load Sg of each region lies between 80 and 560 kgf/m² |
| Loads.NormativeSnowLoadIncreasing | src/engineering/loads.ts:7-16 | Sg strictly increases from region I to region VIII |
| Loads.SnowCoefficient | src/engineering/loads.ts:28-34 | mu lies in [0, 1]; it is 1 up to 25°, 0 above 60°, and (60 − angle)/35 in between |
| Loads.SnowCoefficientNonIncreasing | src/engineering/loads.ts:28-34 | a steeper roof never gets a larger mu |
| Loads.CalculateSnowLoad | src/engineering/loads.ts:24-50 | the design load is non-negative and is 0 above 60°; it is within half a hundredth of mu·Ce·Ct·Sg·1.4 |
| Loads.SnowLoadInHundredths | src/engineering/loads.ts:49 | the design load is a whole number of hundredths |
| Loads.SnowLoadNonIncreasingInAngle | src/engineering/loads.ts:24-50 | for a fixed region the rounded design load never grows with the roof angle |
| Loads.SnowLoadMonotoneInRegion | src/engineering/loads.ts:7-50 | at a fixed angle a higher region never gives a lower rounded design load |
| Loads.RegionIIIAtFifteenDegrees | src/engineering/loads.ts:24-50 | region III at 15° gives exactly 252 kg/m² |
| Loads.CalculateWindLoad | src/engineering/loads.ts:57-60 | the wind load is the constant 30 |
| Materials.CatalogueShape | scr/engineering/materials.ts:6-28 | the catalogue has 15 square sections with ix = iy and positive area and ix; the first entry is strictly the lightest and the last is the largest in area, ix and mass |
| Materials.SuitableProfiles | scr/engineering/materials.ts:39 | the filter keeps exactly the catalogue entries with area ≥ required area and ix ≥ required second moment |
| Materials.InsertByMass | scr/engineering/materials.ts:47 | inserting into a mass-sorted list adds one element and keeps the others |
| Materials.SortByMass | scr/engineering/materials.ts:47 | sorting by mass keeps the length and the set of elements |
| Materials.InsertByMassPermutes | scr/engineering/materials.ts:47 | insertion adds exactly one copy of the element (multiset) |
| Materials.InsertByMassSorted | scr/engineering/materials.ts:47 | insertion into a mass-sorted list keeps it sorted |
| Materials.SortByMassCorrect | scr/engineering/materials.ts:47 | the stable mass sort returns a mass-ordered permutation of its input |
| Materials.SortedSuitableHead | scr/engineering/materials.ts:39-48 | when some entry qualifies, the head of the sorted suitable list is the earliest among the lightest qualifying entries |
| Materials.FindOptimalProfile | scr/engineering/materials.ts:38-49 | the result is a catalogue entry. When some entry qualifies, it is the earliest of the lightest qualifying entries; otherwise it is the last (heaviest) entry |
| Materials.OptimalProfileAdequateAndLightest | scr/engineering/materials.ts:38-49 | when any entry q qualifies, the chosen profile qualifies and weighs no more than q |
| Materials.NoRequirementPicksLightest | scr/engineering/materials.ts:38-49 | with no requirement the choice is the first entry, 40x40x3 |
| Materials.RaisingRequirementsNeverLighter | scr/engineering/materials.ts:38-49 | larger requirements never give a lighter profile |
| StubAnalysis.MaxX | engineering/trussAnalysis.ts:14 | Math.max of the x coordinates bounds every x and is attained by some node |
| StubAnalysis.AnalyzeTruss | engineering/trussAnalysis.ts:13-47 | one result per member, in order, each keeping its member and carrying the label-based force for base force 2·load·span; only web members need their joints to exist |
| StubAnalysis.ValidIndicesFindJoints | engineering/trussAnalysis.ts:31-35 | a geometry whose members all name existing joints gives the analysis every joint it reads |
| StubAnalysis.ChordForces | engineering/trussAnalysis.ts:25-30 | a bottom chord carries −0.9 times a top chord's force; under a non-negative load top chords are compressed and bottom chords stretched |
| StubAnalysis.WebForceRecoversBase | engineering/trussAnalysis.ts:31-42 | a web force times the sine of its slope is ∓ base/3, negative exactly when the member rises with x |
| StubAnalysis.WebForceSign | engineering/trussAnalysis.ts:35-42 | with a positive base force and sine, a web member is compressed exactly when (Δx)(Δy) > 0 |
| StubAnalysis.ForcesProportionalToLoad | engineering/trussAnalysis.ts:13-47 | scaling the load by c scales every member force by c |
| StubAnalysis.BaseForceScales | engineering/trussAnalysis.ts:25 | the base force is linear in the load |
| StubAnalysis.MemberForceScales | engineering/trussAnalysis.ts:13-43 | scaling the total load by c scales one member's force by c |
| StubAnalysis.RoleForceScales | engineering/trussAnalysis.ts:27-43 | for each role (top chord, bottom chord, web, other) the force rule is linear in the base force |
| StubAnalysis.TopLabel | engineering/trussAnalysis.ts:20-28 | a label that starts with "Верхний" is a top chord |
| StubAnalysis.BottomLabel | engineering/trussAnalysis.ts:20-30 | a label that starts with "Нижний" and has no capital "В" after it is a bottom chord |
| StubAnalysis.WebLabel | engineering/trussAnalysis.ts:20-31 | a label that starts with "Раскос" or "Стойка" and has no capital "В" or "Н" after it is a web member |
| JointSolver.Solve2x2 | src/engineering/trussAnalysis.ts:10-18 | no solution exactly when the determinant's magnitude is below 1e-9; otherwise the pair satisfies both equations |
| JointSolver.Solve2x2Unique | src/engineering/trussAnalysis.ts:10-18 | when the solver answers, any pair satisfying both equations is its answer |
| JointSolver.LoadAt | src/engineering/trussAnalysis.ts:56 | the joint load, or 0 past the end of the array |
| JointSolver.SupportReaction | src/engineering/trussAnalysis.ts:31-32 | each support carries half the sum of the loads |
| JointSolver.FindRightSupport | src/engineering/trussAnalysis.ts:59 | findIndex: the first joint at (span, 0), or −1 when there is none |
| JointSolver.Incident | src/engineering/trussAnalysis.ts:36-40 | the node map lists member indices below the member count |
| JointSolver.IncidentMembers | src/engineering/trussAnalysis.ts:36-40 | a joint's list holds exactly the members with an end at that joint, one entry per end |
| JointSolver.UnknownOf | src/engineering/trussAnalysis.ts:52 | the filter keeps a sub-list of valid member indices |
| JointSolver.UnknownOfMembers | src/engineering/trussAnalysis.ts:52 | the filter keeps exactly the listed members whose force is still unknown |
| JointSolver.SolvedUnknownsDistinct | src/engineering/trussAnalysis.ts:52-92 | a joint the solver can solve has two distinct unknown members |
| JointSolver.StepExtends | src/engineering/trussAnalysis.ts:94-96 | solving a joint never overwrites a known force |
| JointSolver.StepKnowsJoint | src/engineering/trussAnalysis.ts:94-96 | after a solve every member at that joint is known |
| JointSolver.StepBalancesJoint | src/engineering/trussAnalysis.ts:55-96 | after a solve the joint is in equilibrium in x and y, including its load and support reaction |
| JointSolver.SolutionEquations | src/engineering/trussAnalysis.ts:75-92 | a solved joint has two unknowns whose solution satisfies the x and y equilibrium equations built from the known sums |
| JointSolver.SolvedSystem | src/engineering/trussAnalysis.ts:10-18 | an answer of the 2x2 solver satisfies both of its equations |
| JointSolver.SolvedProjection | src/engineering/trussAnalysis.ts:94-96 | writing the two solved forces adds exactly their projections to the joint's projection sum |
| JointSolver.ProjectionSplit | src/engineering/trussAnalysis.ts:64-73 | once more forces are known, a joint's projection is the old known part plus the part of the members that were unknown |
| JointSolver.EquilibriumKept | src/engineering/trussAnalysis.ts:94-96 | a balanced joint stays balanced when more forces become known |
| JointSolver.StepCounts | src/engineering/trussAnalysis.ts:95-99 | a solve makes exactly two more forces known, matching `knownForcesCount += 2` |
| JointSolver.StepKeepsConsistent | src/engineering/trussAnalysis.ts:94-100 | a solve keeps the loop invariant: processed joints balanced, known count = 2 · processed joints |
| JointSolver.CountKnownSet | src/engineering/trussAnalysis.ts:95-96 | setting an unknown force adds one to the known count |
| JointSolver.CountTrueSet | src/engineering/trussAnalysis.ts:97 | marking an unprocessed joint adds one to the processed count |
| JointSolver.NoneKnown | src/engineering/trussAnalysis.ts:28 | the all-NaN start has no known force |
| JointSolver.NoneTrue | src/engineering/trussAnalysis.ts:44 | the all-false start has no processed joint |
| JointSolver.AllForcesKnown | src/engineering/trussAnalysis.ts:47 | when the known count reaches the member count, every force is known |
| JointSolver.Report | src/engineering/trussAnalysis.ts:108-111 | one result per member, in order; its force is the solved value, or 0 for one never determined |
| JointSolver.BuildNodeMap | src/engineering/trussAnalysis.ts:36-40 | the node map holds each joint's incident member list |
| JointSolver.SumKnownForces | src/engineering/trussAnalysis.ts:55-73 | the sums are the x and y projections of the known forces at the joint, plus its load and support reaction |
| JointSolver.AddKnownForce | src/engineering/trussAnalysis.ts:65-72 | one forEach step adds a known member's cos and sin projections to the sums, and nothing for an unknown one |
| JointSolver.SolveJoint | src/engineering/trussAnalysis.ts:52-101 | it solves exactly when the joint's system has a solution, and the forces become that step's result |
| JointSolver.SweepJoint | src/engineering/trussAnalysis.ts:49-101 | one iteration of the joint loop keeps the sweep's state: the loop invariant, the progress flag against the count, and every force and flag known at the start of the sweep |
| JointSolver.SweepPasses | src/engineering/trussAnalysis.ts:50-54 | a processed or unsolvable joint changes nothing and is recorded as passed |
| JointSolver.SweepSolves | src/engineering/trussAnalysis.ts:94-100 | solving a joint records progress, adds two known forces and marks the joint processed, keeping the invariant and every earlier force |
| JointSolver.SolvePass | src/engineering/trussAnalysis.ts:48-104 | one sweep over the joints keeps the invariant; it reports progress exactly when the count grew, and otherwise no joint was solvable; no known force is overwritten and no processed flag is cleared |
| JointSolver.AnalyzeTruss | src/engineering/trussAnalysis.ts:26-112 | the result reports the final forces; every processed joint is in equilibrium; either all forces are known or no unprocessed joint is solvable |
| Calculator.LineLoadKN | engineering/calculator.ts:18-19 | the line load (snow + wind) · spacing/1000 · 9.81/1000 is non-negative for non-negative inputs |
| Calculator.LineLoadGrowsWithSpacing | engineering/calculator.ts:18-19 | a wider spacing never gives a smaller line load |
| Calculator.RequiredArea | engineering/calculator.ts:35 | the area is non-negative, and times 21 · 0.9 it gives the force's magnitude |
| Calculator.StiffnessPositive | engineering/calculator.ts:41 | π² · 21000 is positive |
| Calculator.RequiredInertia | engineering/calculator.ts:36-42 | 0 for a member in tension; for compression, times π²·21000 it is area·(length/10)²·100; non-negative whenever the area is |
| Calculator.SizeMember | engineering/calculator.ts:34-47 | the sized member keeps its member and force, and its profile comes from the catalogue |
| Calculator.SizedProfileAdequate | engineering/calculator.ts:34-47 | when any catalogue entry q meets a member's requirements, the chosen profile's area carries the force and weighs no more than q |
| Calculator.LargerTensionNeverLighter | engineering/calculator.ts:34-44 | a larger tensile force never gets a lighter profile |
| Calculator.SizeAll | engineering/calculator.ts:31-47 | one sized member per member |
| Calculator.SizeAllAt | engineering/calculator.ts:31-47 | the k-th sized member is the k-th member sized |
| Calculator.AfterLastBar | engineering/calculator.ts:50 | the text after the last bar of a key contains no bar |
| Calculator.ProfileFromKey | engineering/calculator.ts:50 | the profile name can be read back from the key |
| Calculator.KeyInjective | engineering/calculator.ts:50 | two keys are equal only when the base names and the profile names are, given profile names without a bar character |
| Calculator.FirstWithKey | engineering/calculator.ts:52-63 | the first member whose key matches, or −1 when there is none |
| Calculator.Specification | engineering/calculator.ts:68-71 | one specification line per Map entry, in insertion order |
| Calculator.GroupWellFormed | engineering/calculator.ts:29-66 | the Map's keys and its insertion order agree, without repetition |
| Calculator.GroupCounts | engineering/calculator.ts:52-64 | a key is in the Map exactly when some member has it; its count is how many do, and its total length is the sum of their lengths/1000 |
| Calculator.GroupFirstMember | engineering/calculator.ts:56-63 | a line's name, profile name and length come from the first member with that key |
| Calculator.GroupOrderFirstOccurrence | engineering/calculator.ts:49-68 | the Map's lines come in the order their keys first occur among the members |
| Calculator.SpecificationLine | engineering/calculator.ts:49-71 | line i of the specification takes kind, profile and piece length from the first member under its key, counts the members under the key, and carries their summed length rounded to hundredths |
| Calculator.NoKeyNoFirst | engineering/calculator.ts:52-63 | with no member for a key there is no first member |
| Calculator.CountKeyPositive | engineering/calculator.ts:52-63 | a member with a key makes that key's count positive |
| Calculator.SumCountsElsewhere | engineering/calculator.ts:57-63 | adding a key outside the order leaves the counted total unchanged |
| Calculator.SumCountsBump | engineering/calculator.ts:53-54 | bumping one line's count adds one to the total |
| Calculator.AddMemberCountsOne | engineering/calculator.ts:52-64 | each member adds exactly one to the total count |
| Calculator.CountOnExistingLine | engineering/calculator.ts:52-55 | a member on an existing line adds one to the total |
| Calculator.CountOnNewLine | engineering/calculator.ts:56-63 | a member opening a new line adds one to the total |
| Calculator.GroupCountsAllMembers | engineering/calculator.ts:31-66 | the counts in the specification add up to the number of members |
| Calculator.SpecificationRounding | engineering/calculator.ts:68-71 | each line's total length is rounded to within half a hundredth |
| Calculator.CanopyNodes | engineering/calculator.ts:90-97 | seven joints |
| Calculator.Link | engineering/calculator.ts:100-105 | a member keeps its ends and label; with a sound hypot its length is the distance between its joints |
| Calculator.CanopyMembers | engineering/calculator.ts:107-122 | eleven members, every one naming existing joints |
| Calculator.TopChordLabels | engineering/calculator.ts:107-111 | the stand-in reads the four top-chord labels as top chords |
| Calculator.BottomChordLabels | engineering/calculator.ts:113-116 | the stand-in reads the three bottom-chord labels as bottom chords |
| Calculator.WebLabels | engineering/calculator.ts:118-122 | the stand-in reads the diagonals and posts as web members |
| Calculator.PlaceJoints | engineering/calculator.ts:90-97 | the joints pushed are the seven canopy joints |
| Calculator.BuildTrussGeometry | engineering/calculator.ts:85-125 | the geometry is the canopy joints and the eleven members built on them |
| Calculator.SquareRootUnique | engineering/calculator.ts:103 | two non-negative reals with the same square are equal |
| Calculator.HypotSymmetric | engineering/calculator.ts:103 | hypot ignores signs and gives the magnitude of a on an axis |
| Calculator.TopChordPanelsEqual | engineering/calculator.ts:91-111 | the four top-chord panels have equal length |
| Calculator.BottomChordPanels | engineering/calculator.ts:91-116 | the bottom-chord panels are width/4, width/2 and width/4 |
| Calculator.WebMirrored | engineering/calculator.ts:94-122 | the lattice is symmetric: the two diagonals match, and so do the two posts |
| Calculator.RightSupportIsJointTwo | engineering/calculator.ts:91-97 | for a non-zero span the right-support search of the solver finds joint 2 |
| Calculator.CountMember | engineering/calculator.ts:49-64 | one forEach step updates the Map and its order as AddMember says |
| Calculator.SizeAndGroup | engineering/calculator.ts:28-66 | the sized members are SizeAll of the inputs, and the Map is the grouping of the sized members |
| Calculator.SizedStep | engineering/calculator.ts:31-47 | sizing one more member extends the sized list by that member sized |
| Calculator.GroupStep | engineering/calculator.ts:49-64 | grouping one more member is one AddMember step on the Map |
| Calculator.RunCalculation | engineering/calculator.ts:13-79 | the result keeps the config, carries the design loads and the canopy joints, sizes the stand-in forces under the line load, and its specification is the rounded, well-formed grouping |
| JsRuntime.SumAppend | src/engineering/trussAnalysis.ts:31 | the reduce sum of a concatenation is the sum of the parts |
| JsRuntime.NatToString | lib/textExporter.ts:15-19 | a natural is written as one or more digits, with a leading 0 only for zero |
| JsRuntime.NatToStringRoundTrip | lib/textExporter.ts:15-19 | the digits read back as the number |
| JsRuntime.RoundFixedClose | src/engineering/loads.ts:49 | r = parseFloat(x.toFixed(d)) is within half a unit in the d-th place of x: abs(r - x) * 10^d <= 1/2 |
| JsRuntime.RoundFixedOnGrid | src/engineering/loads.ts:49 | below 1e21, parseFloat(x.toFixed(d)) times 10^d is a whole number: the result lies on the 10^-d grid |
| JsRuntime.RoundFixedMonotone | src/engineering/loads.ts:49 | rounding with toFixed preserves order |
| JsRuntime.RoundFixed | src/engineering/loads.ts:49 | rounding with toFixed keeps the sign of the value |
| JsRuntime.PaddedDigits | engineering/calculator.ts:70 | the zero-padded digits toFixed prints still read as the scaled number |
| JsRuntime.ZeroPad | engineering/calculator.ts:70 | the padded digits have at least d + 1 digits and keep all of the original ones |
| JsRuntime.SignedParse | engineering/calculator.ts:70 | a '-' in front of an unsigned toFixed text negates the parsed value and keeps the shape |
| JsRuntime.ToFixedNoBreak | src/lib/dxfExporter.ts:46-52 | below 1e21 a toFixed text is a single line |
| JsRuntime.ToFixedParses | engineering/calculator.ts:70 | parsing x.toFixed(d) gives back x rounded to d places, and the text is an optional '-', digits and a point |
| JsRuntime.PadEnd | lib/textExporter.ts:15-19 | padEnd keeps the text as a prefix and fills up to the width with spaces |
| JsRuntime.TrimEndPadEnd | lib/textExporter.ts:15-19 | trimming the end of a padded cell gives the text back when it ends in a visible character |
| JsRuntime.FirstWord | engineering/calculator.ts:49 | split(' ')[0] is the longest prefix without a space |
| JsRuntime.FirstWordOf | engineering/calculator.ts:49 | the first word of "a rest" is a |
| JsRuntime.TrimStart | src/lib/dxfExporter.ts:120 | trimming the start removes leading whitespace and leaves a suffix |
| JsRuntime.TrimEnd | src/lib/dxfExporter.ts:120 | trimming the end removes trailing whitespace and leaves a prefix |
| JsRuntime.TrimOneEach | src/lib/dxfExporter.ts:120 | trim removes exactly one whitespace character at each end when only one is there |
| JsRuntime.LinesAppend | lib/textExporter.ts:6-24 | appending lines one after another equals the lines of the concatenation |
| JsRuntime.SplitJoin | src/lib/dxfExporter.ts:120 | splitting the joined lines on '\n' gives the lines back when none holds a line break |
| JsRuntime.SplitLines | lib/textExporter.ts:5-27 | splitting newline-terminated lines gives the lines and a final empty piece |
| JsRuntime.Split | src/lib/dxfExporter.ts:120 | split('\n') gives at least one piece, and no piece holds a line break |
| TextExport.Repeat | lib/textExporter.ts:7-12 | a rule of n copies of one character |
| TextExport.ExportToTxt | lib/textExporter.ts:5-27 | the accumulated text is the report: header, one row per specification item, closing rule |
| TextExport.AddLine | lib/textExporter.ts:6-12 | one `+=` of a header line extends the text by that line and a line break |
| TextExport.RowAppended | lib/textExporter.ts:14-22 | one forEach step adds the item's row and a line break |
| TextExport.TableLineNoBreak | lib/textExporter.ts:21 | a table row built from single-line cells is a single line |
| TextExport.RowNoBreak | lib/textExporter.ts:14-21 | an item's row is one line when its name and profile name are |
| TextExport.ReportLinesNoBreak | lib/textExporter.ts:5-27 | no line of the report holds a line break |
| TextExport.HeadNoBreak | lib/textExporter.ts:6-12 | the seven header lines hold no line break |
| TextExport.ReportSplitsIntoLines | lib/textExporter.ts:5-27 | read back line by line, the report is the 7 header lines, then one row per item in order, then the rule and an empty last piece |
| TextExport.TableLineColumns | lib/textExporter.ts:21 | with cells that fit their widths, each cell and each separator sits at a fixed column |
| TextExport.HeadColumns | lib/textExporter.ts:11 | the column header is 70 characters with its separators at columns 4, 21, 36, 48 and 57 |
| TextExport.RowAlignsWithHead | lib/textExporter.ts:11-21 | every row's separators fall under the header's |
| TextExport.PaddedNumberReadsBack | lib/textExporter.ts:15-19 | a padded number cell, trimmed, reads back as the number |
| TextExport.RowNumbersReadBack | lib/textExporter.ts:15-19 | a row's position cell reads back as index + 1, and its count cell as the item's count |
| TextExport.RowNamesReadBack | lib/textExporter.ts:16-17 | a row's name and profile cells, trimmed, give back the item's name and profile name |
| TextExport.RowLengthsReadBack | lib/textExporter.ts:18-20 | the length cell parses as the length rounded to a whole mm, and the last cell as the total length rounded to hundredths |
| DxfExport.EntityLines | src/lib/dxfExporter.ts:37-54 | thirteen lines per member |
| DxfExport.ExportToDxf | src/lib/dxfExporter.ts:5-121 | with valid node indices the result is the trimmed drawing; a member naming a missing node gives no drawing |
| DxfExport.AppendMembers | src/lib/dxfExporter.ts:37-54 | the member loop appends every member's LINE block in order, or fails on a missing node |
| DxfExport.ClosingBlocks | src/lib/dxfExporter.ts:56-118 | appending the two dimensions and the end of file completes the drawing's lines |
| DxfExport.EntityAppended | src/lib/dxfExporter.ts:40-53 | one forEach step appends that member's LINE block |
| DxfExport.EntityLinesPrefix | src/lib/dxfExporter.ts:37-54 | the blocks of the first m members are the first 13·m entity lines |
| DxfExport.EntityLinesAt | src/lib/dxfExporter.ts:37-54 | member k's block is entity lines 13k to 13k+12 |
| DxfExport.EntityLinesThrough | src/lib/dxfExporter.ts:37-54 | the first 13(k + 1) entity lines are the first k members' blocks followed by member k's |
| DxfExport.DxfLinesEnds | src/lib/dxfExporter.ts:7-118 | the drawing has 78 + 13n lines; it starts "", "0" and ends "EOF" |
| DxfExport.TrimLines | src/lib/dxfExporter.ts:120 | trim removes the leading empty line and the final line break, and nothing else |
| DxfExport.TrimFramed | src/lib/dxfExporter.ts:120 | a text with visible first and last characters, between two line feeds, trims back to itself |
| DxfExport.DxfTrimmed | src/lib/dxfExporter.ts:120 | the document is the drawing's lines, without the first, joined by line breaks |
| DxfExport.FixedBlocksNoBreaks | src/lib/dxfExporter.ts:7-118 | the header and end blocks are single lines each |
| DxfExport.PointNoBreaks | src/lib/dxfExporter.ts:45-52 | a coordinate pair's four lines hold no line break |
| DxfExport.LineBlockNoBreaks | src/lib/dxfExporter.ts:40-53 | a LINE block's lines hold no line break |
| DxfExport.EntityLinesNoBreaks | src/lib/dxfExporter.ts:37-54 | no entity line holds a line break |
| DxfExport.OffsetsNoBreak | src/lib/dxfExporter.ts:59-98 | the dimension offsets −500 and 500 are single lines |
| DxfExport.DimensionNoBreaks | src/lib/dxfExporter.ts:59-111 | a DIMENSION entity's lines hold no line break when its coordinate texts hold none |
| DxfExport.HorizontalNoBreaks | src/lib/dxfExporter.ts:62-85 | the horizontal dimension's lines hold no line break when the printed span holds none |
| DxfExport.VerticalNoBreaks | src/lib/dxfExporter.ts:88-111 | the vertical dimension's lines hold no line break when the printed rise and half-span hold none |
| DxfExport.DxfLinesNoBreaks | src/lib/dxfExporter.ts:7-118 | no line of the drawing holds a line break |
| DxfExport.PartsNoBreaks | src/lib/dxfExporter.ts:7-118 | the header, the LINE entities, both dimensions and the end block hold no line break |
| DxfExport.DxfSplitsIntoLines | src/lib/dxfExporter.ts:5-121 | read back line by line, the document is exactly the drawing's lines after the first: 77 + 13n lines |
| DxfExport.MemberLinesAt | src/lib/dxfExporter.ts:37-54 | member k's block is drawing lines 27 + 13k to 39 + 13k |
| DxfExport.MemberLinesInDocument | src/lib/dxfExporter.ts:37-121 | in the document read back line by line, member k's block is lines 26 + 13k to 38 + 13k |
| DxfExport.LineBlockFields | src/lib/dxfExporter.ts:40-53 | a LINE block is 0 / LINE / 8 / MEMBERS and group codes 10, 20, 11, 21, each followed by its coordinate to 2 places |
| DxfExport.BlockValue | src/lib/dxfExporter.ts:40-53 | a field of a LINE block found in the lines is the corresponding line |
| DxfExport.BlockReadsBack | src/lib/dxfExporter.ts:46-52 | the four coordinate lines of a LINE block parse as the coordinates rounded to hundredths |
| DxfExport.MemberReadsBack | src/lib/dxfExporter.ts:37-54 | in the document read back line by line, member k's LINE block starts at line 26 + 13k, and its coordinates parse as the start and end joints' rounded coordinates |

## Left out

- Floating point: numbers are exact reals. IEEE rounding, NaN and Infinity are not modelled.
  `toFixed` rounds half away from zero on the exact value, as ECMAScript specifies for exact
  inputs.
- Number-to-string conversion (template literals, `toString` of non-integers, `toFixed` at
  or above 1e21) and Math.sin, cos, atan2, hypot and PI are fields of a `JsMath` value that
  callers pass in. They cannot be computed over the reals.
- JsRuntime.ToFixedParses and the read-back lemmas cover values below 1e21 in magnitude. They
  also require every `numberToString` output the documents embed to hold no line break.
- JointSolver: `config` is not in scope at src/engineering/trussAnalysis.ts:59. The `||` there
  reads `config.width` for every joint other than 0 that has two unknowns, so the code as
  written throws a ReferenceError at the first such joint and never finishes an analysis. The
  model computes the intended test instead, with the span as a parameter of the analysis.
- JointSolver takes `loads: number[]`, one load per joint (src/engineering/trussAnalysis.ts:26).
  The pipeline passes a single line load to the stand-in instead
  (engineering/calculator.ts:25, engineering/trussAnalysis.ts:13), and never calls JointSolver.
- JointSolver: the source's `or 0` defaults for forces and loads (lines 56 and 110) also map NaN to 0. Without NaN the model
  maps only undetermined forces and missing loads to 0.
- JointSolver.AnalyzeTruss: the forces and processed flags it ends with are ghost
  out-parameters, because the source discards them. Its non-ghost result is tied to them
  through `Report`.
- JointSolver requires every member to name existing joints (`ValidIndices`). In the source a
  missing joint throws a TypeError when the node map is built. StubAnalysis requires existing
  joints only for web members (`WebJointsExist`), because the stand-in reads the joints only in
  its web branch; for a web member a missing joint throws a TypeError there. DxfExport.ExportToDxf
  models the exporter's throw as `None`.
- JsRuntime.PadEnd counts Unicode scalar values, while `padEnd` counts UTF-16 code units. The
  two agree for the Cyrillic and ASCII labels the calculator writes. They differ for characters
  outside the Basic Multilingual Plane, which the model does not cover.
- StubAnalysis.MemberForce: for a web member whose slope has sine 0, the source divides by
  zero and gets ±Infinity or NaN. The model gives 0.
- StubAnalysis.MaxX requires at least one joint: Math.max of no arguments is −Infinity.
- Calculator: `findOptimalProfile` never returns null, so the `if (profile)` test at
  engineering/calculator.ts:46 always passes. The model has no else branch.
- Calculator.RequiredInertia requires π ≠ 0, so that the division by π²·21000 is defined.
- Calculator: `trussType` is ignored by the source, which always builds the W lattice. So is
  the model.
- JointSolver (src/engineering/trussAnalysis.ts) is not called by the pipeline, which uses
  the stand-in analysis. Both are modelled. The connection is Calculator.RightSupportIsJointTwo.
- The user interface (App.tsx, src/components/, src/index.tsx) is not part of this model.
- Downloading the exported text and DXF files is not part of this model.
