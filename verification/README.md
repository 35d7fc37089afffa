# Sidereon: verified models

Dafny models of the parts of Sidereon whose correctness rests on reasoning across
many steps, with proofs about them for every input, every run or every reachable
state:

* the ANTEX 1.4 reader and writer (`antex.rs`): a line-driven parse state and a strict
  encoder, their round trip, the exact seconds field, the PCV grid rows, and the
  invariants of every parse;
* the error trackers of the fixture generators: affine drift bounds between two builds
  of one program, directed-rounding enclosures of sine and cosine, and the multi-limb
  core of huge-argument reduction;
* the capability-graph search, the replay scheduler, phase-center interpolation,
  dual-frequency combinations and pairing, the broadcast/precise comparison, and the
  sampling grids.

## How it is laid out

| files | what they model |
|---|---|
| `Text`, `Decimal`, `Seconds`, `SecondsField`, `SecondsGrammar`, `SecondsFit` | columns and lines, decimal digits, the exact fraction of a second, its 13-column field, the texts the field takes, and when some text states a value |
| `AntexTypes`, `AntexReader`, `AntexParser` | the product and the parse state; every record as a function; the same as a class that updates its fields line by line |
| `AntexWriter`, `AntexEmitter`, `AntexRewrite` | when each part is accepted and the lines it becomes; the same as loops that append; reader and writer run one after the other |
| `PcvRows`, `AntexRecords`, `AntexRoundTrip`, `AntexCleanLines`, `AntexViews`, `AntexProduct`, `AntexRuns` | the round trip, from one field up to a whole parsed file |
| `AntexLayout`, `AntexLayoutSections`, `AntexLayoutRows` | what every record's columns mean, on the line itself |
| `AntexAcceptanceRows`, `AntexAcceptance` | which products the writer accepts, without its own checks |
| `AntexGrid`, `AntexGridFixed`, `AntexRepeats` | what every run keeps about the zenith grid and about once-only records |
| `Reals` | exact products and quotients with the laws used everywhere below |
| `Drift`, `DriftArith`, `DriftOps`, `DriftTight`, `DriftMachine`, `DriftSession` | the affine drift tracker, what its operations charge, and any program run on it |
| `Enclosures`, `Trigonometric` | directed intervals and the Taylor enclosures |
| `Limbs`, `LargeArgument`, `LargeArgumentPass` | 24-bit limbs and one pass of the reduction |
| `CapabilityPath` | breadth-first search and its trace |
| `Replay`, `ReplayTimeline` | the scheduler as a state machine and as an object |
| `Interpolation`, `Combinations`, `Pairing`, `PairingCarriers`, `PairingRun` | interpolation, carrier algebra, pairing |
| `Comparison`, `ComparisonRun`, `Triad`, `Sampling` | statistics and the median datum, RAC components, grids and split dates |

`dafny verify dfyconfig.toml` checks the whole project.

## Modelling decisions

* A binary64 value in the ANTEX files is its bits, and the operations the program
  calls on it (parse, format, compare, add, multiply, round, convert) are the fields of
  `Platform`. The round trip needs only the four facts of `Lawful`: a finite value is
  written with digits, a point, a minus sign and blanks; a non-finite one is not read
  back as finite; a finite product with 1e-3 has a finite factor; only NaN is unordered.
  Everything else it needs the writer itself checks, bit for bit, before it writes, and
  those checks are part of the model. Two products are equal here only if every value
  has the same bits, which is stronger than the program's own comparison.
* Lines are sequences of ASCII characters. A record is told apart by columns 61-80, and
  every field is cut from its columns exactly as the program cuts it.
* Floating-point formats in `Drift` are any rounding to nearest whose unit grows with
  magnitude, doubling, and that represents the places where it grows (`FormatOk`); rounding in
  `Enclosures` is any pair of maps with `down(x) <= x <= up(x)`.
* Integers are unbounded, with the widths that matter written out: `u64`/`i64`/`u32`
  fields, the `u128` alignment of fractions, the saturating `as i32`, 2^53.
* External sources (ephemerides, carrier tables, profiles, libm) are parameters. Both
  library builds are only assumed to be within one unit of the true function, as
  documented, and the true function to keep its second-order bound.

Where the code and a comment or a natural reading of it differ, the code is followed,
with an input that shows the difference and the condition under which there is none:

* `path` takes an empty parent name for the start of the search, so an answer can lose
  the edges up to an unnamed node. Every answer is a whole shortest walk exactly when
  that node is not allowed or leads at most to itself (`CapabilityPath.SpelledExactly`,
  `CapabilityPath.UnnamedWitness`).
* An azimuth row at 360 degrees is not consulted at its own azimuth when a row at 0 is
  present: a node's stored value is returned exactly when it is not at 360, or there is
  no row at 0, or that row gives the same value (`Interpolation.StoredExactly`,
  `Interpolation.SeamWitness`).
* A library call is charged two units of the largest magnitude either result can have
  for one and the same argument. When the arguments differ, the other result can lie
  where the unit is larger, and then the call's radius does not cover the gap:
  `DriftOps.CallOutOfReach` is `pow(6, 1)` with an uncertainty of 2. Every pair of
  accurate libraries is covered exactly when the charge covers each error the result
  can have plus one unit where the other result can then lie
  (`DriftOps.CoveredExactly`), which the result, the slope, the second-order bound and
  the radius decide; staying in reach of the unit is enough (`DriftOps.InReachCovers`),
  and a call whose argument is the same in both builds always does
  (`DriftOps.SameArgumentCovered`).
* A comparison can be flagged although neither value has room to differ, when a symbol
  is carried with a zero coefficient (`DriftOps.FlaggedForNothing`); with room, a flag
  is raised exactly when the builds could disagree (`DriftOps.FlagExactly`).
* `speed_up` lowers a starting speed above 1024, and `speed_down` raises one below 0.25
  (`Replay.SpeedBounds`).

## Model

| member | source | states |
|---|---|---|
| `AntexRuns.ParsedRoundTrip` | crates/sidereon-core/src/antex.rs:1419-1506 | for every text that parses and whose product the writer accepts, the written text parses without a skip to the same product (equal outright when the first parse had no skip), and writing again gives the same text |
| `AntexProduct.WrittenReadsBack` | crates/sidereon-core/src/antex.rs:1480-1506 | reading what the writer writes gives the product back, for every product whose views were built by retaining blocks and every platform within its laws |
| `AntexRecords.WholeNumbersLawful` | crates/sidereon-core/src/antex.rs:1035-1064 | the four platform laws the round trip rests on can hold together |
| `AntexRuns.ParsedInv` | crates/sidereon-core/src/antex.rs:610-639 | every parsed product has views built by retaining some list of blocks, never fails the view check, has outer comments in block order and, with no skip, none that would read as header comments |
| `AntexRuns.RunKeeps` | crates/sidereon-core/src/antex.rs:2145-2174 | after every line of every successful run the three views are those of the retained blocks, comments are in order and an open section has an open block |
| `AntexRuns.SkipsNotWritten` | crates/sidereon-core/src/antex.rs:1480-1506 | nothing the writer accepts or writes depends on the skips |
| `AntexViews.ViewsMean` | crates/sidereon-core/src/antex.rs:2907-2917 | for every list of retained blocks and every id, the interval list is exactly that id's blocks in file order and the public antenna is its last one |
| `AntexViews.OrderNames` | crates/sidereon-core/src/antex.rs:2912-2915 | entry i of the block order names block i of the file |
| `AntexViews.OrderListsOnce` | crates/sidereon-core/src/antex.rs:2912-2915 | entries of one id name strictly rising intervals |
| `AntexViews.OrderNth` | crates/sidereon-core/src/antex.rs:2912-2915 | entry i is its block's id and the number of that id's earlier blocks, so each id counts up from zero |
| `AntexViews.OrderListsAll` | crates/sidereon-core/src/antex.rs:2912-2915 | every retained interval is named by some entry of the block order |
| `AntexViews.BuiltViewsFit` | crates/sidereon-core/src/antex.rs:1345-1417 | the view check never refuses views built by retaining blocks |
| `AntexRoundTrip.RunHeader` | crates/sidereon-core/src/antex.rs:1534-1587 | the written header lines read back as exactly that header, with no skip |
| `AntexRoundTrip.RunAntenna` | crates/sidereon-core/src/antex.rs:1612-1729 | the written lines of a block read back as exactly that block, retained in all three views |
| `AntexRoundTrip.RunRecords` | crates/sidereon-core/src/antex.rs:1620-1687 | a block's written records restore its calibrations, DAZI, grid, count, bounds, SINEX code and comments |
| `AntexRoundTrip.RunFrequency` | crates/sidereon-core/src/antex.rs:1731-1752 | a written frequency with its RMS section is appended to the block as it was, also when earlier frequencies share its label |
| `AntexRoundTrip.RunRows` | crates/sidereon-core/src/antex.rs:1764-1788 | the written rows of a section append exactly its samples in order |
| `AntexCleanLines.ProductLinesSplit` | crates/sidereon-core/src/antex.rs:2052-2058 | no written line holds a line break, so splitting the text gives the lines back |
| `AntexRecords.DateReads` | crates/sidereon-core/src/antex.rs:2060-2090 | a written validity bound reads back as the same date and exact fraction |
| `AntexRecords.PcvTypeReads` | crates/sidereon-core/src/antex.rs:2245-2264 | a written PCV type record reads back as the same type and reference antenna |
| `AntexTypes.LabelOfText` | crates/sidereon-core/src/antex.rs:2146-2172 | every record type is dispatched from its own label |
| `AntexTypes.LabelOfNumeric` | crates/sidereon-core/src/antex.rs:2966-2968 | numbers in the label columns never spell a record type, so a full grid row stays one |
| `PcvRows.GroupingPartitions` | crates/sidereon-core/src/antex.rs:1790-1987 | grouping only partitions: NOAZI row followed by azimuth rows is the input, indices rise in each row, no azimuth repeats, and each head is its azimuth's text |
| `PcvRows.RowReads` | crates/sidereon-core/src/antex.rs:1995-2037 | reading a rendered row finds exactly its samples' positions and values, through interior gaps, trailing blanks and samples past ZEN2 |
| `PcvRows.RowStep` | crates/sidereon-core/src/antex.rs:2736-2823 | a rendered row is one step of the reader that appends exactly its samples and fills exactly their positions |
| `AntexGrid.ParsedOnGrid` | crates/sidereon-core/src/antex.rs:2736-2823 | in every parsed product the samples of each section stand at distinct (azimuth, index) positions, each at ZEN1 + k * DZEN of its block's grid |
| `AntexGridFixed.RunFixed` | crates/sidereon-core/src/antex.rs:2411-2446 | over any lines of one block the grid stays the one first declared |
| `AntexGridFixed.RowsFixGrid` | crates/sidereon-core/src/antex.rs:2752-2756 | in every run, once the open block holds any sample, in its open section or a completed one, its grid is declared and claimed |
| `AntexGridFixed.GridNeverChanges` | crates/sidereon-core/src/antex.rs:2411-2446 | so from then on no line of the block changes the grid |
| `AntexRepeats.RepeatHarmless` | crates/sidereon-core/src/antex.rs:2187-2205 | inserting an identical once-only record later in its scope, whichever line opened that scope, leaves the result of the whole text the same, success or refusal, apart from the line numbers of skips |
| `AntexRepeats.RepeatIsNothing` | crates/sidereon-core/src/antex.rs:2187-2205 | an identical repeat of a claimed record leaves the state exactly as it was |
| `AntexRepeats.FirstClaims` | crates/sidereon-core/src/antex.rs:2187-2205 | reading a once-only record in its scope claims it with its body |
| `AntexRewrite.Rewrite` | crates/sidereon-core/src/antex.rs:3094-3105 | running reader, writer, reader and writer in turn gives the first product without its skips and the same text again, whenever both accept |
| `AntexLayout.Labels` | crates/sidereon-core/src/antex.rs:2145-2174 | the text that names each record type, and the older spelling of the calibration record |
| `AntexLayout.IdentityReadsBack` | crates/sidereon-core/src/antex.rs:2582-2599 | a type and a serial number of at most 20 columns each, written side by side with any rest and that label, are what an open block without an identity gets; it is a satellite exactly for one capital letter and two digits |
| `AntexLayout.IdentityLayout` | crates/sidereon-core/src/antex.rs:2324-2347 | on any such line the type is columns 1-20, the serial number 21-40, the id 1-60, and nothing else of the state changes but the claim |
| `AntexLayoutSections.IdentityOnceLayout` | crates/sidereon-core/src/antex.rs:2324-2347 | an identified block takes the same identity record again as nothing and refuses another one |
| `AntexLayoutSections.IdentityOutsideLayout` | crates/sidereon-core/src/antex.rs:2324-2347 | an identity record outside a block is reported and opens one |
| `AntexLayout.CalibrationLayout` | crates/sidereon-core/src/antex.rs:2349-2374 | method, agency, number of antennas and date come from columns 1-20, 21-40, 41-46 and 51-60; a number that is no whole number in 32 bits is reported and left out |
| `AntexLayout.DaziLayout` | crates/sidereon-core/src/antex.rs:2376-2409 | the angle comes from columns 3-8, or 1-8 when the first two are not blank, and is refused by name when it is no finite number |
| `AntexLayout.ZenithLayout` | crates/sidereon-core/src/antex.rs:2411-2446 | the bounds and step of the grid come from columns 3-8, 9-14 and 15-20, the first bad one refused by name |
| `AntexLayout.CountLayout` | crates/sidereon-core/src/antex.rs:2451-2474 | the stated count comes from columns 1-6; a bad one is reported and the record still counts as carried |
| `AntexLayout.SinexLayout` | crates/sidereon-core/src/antex.rs:2476-2494 | the code is columns 1-60, and a blank record carries none |
| `AntexLayout.CommentLayout` | crates/sidereon-core/src/antex.rs:2271-2284 | a comment goes to the header, the open block before or after its identity, or between the blocks already retained |
| `AntexLayout.VersionLayout` | crates/sidereon-core/src/antex.rs:2230-2243 | the version comes from columns 1-8 and the system from column 21; a late record is reported |
| `AntexLayout.PcvTypeLayout` | crates/sidereon-core/src/antex.rs:2245-2265 | absolute or relative comes from column 1, the reference antenna from 21-40 and 41-60, and any other flag is refused |
| `AntexLayout.EndOfHeaderLayout` | crates/sidereon-core/src/antex.rs:2160-2166 | the header ends, which is reported after a block |
| `AntexLayoutRows.ValidLayout` | crates/sidereon-core/src/antex.rs:2516-2560 | a bound is read from five fields of six columns and the seconds in 31-43: the first field that is no number is refused by name, and only then the first out of the Gregorian calendar or the clock |
| `AntexLayoutRows.LastDayIs` | crates/sidereon-core/src/antex.rs:892-908 | the last day of every month from year 0 on is the one the Gregorian count of days gives |
| `AntexLayoutRows.PcoLayout` | crates/sidereon-core/src/antex.rs:2650-2684 | north, east and up come from columns 1-10, 11-20 and 21-30 in millimetres; the same record again says nothing, another one is refused, and one outside a section is reported |
| `AntexLayoutRows.RowLayout` | crates/sidereon-core/src/antex.rs:2736-2823 | a row headed NOAZI or by an azimuth is refused at its first value without a place of its own, and otherwise appends one sample at ZEN1 + k * DZEN for each field that holds a number, in order, and reports each that is spoilt |
| `AntexLayoutRows.StrayLayout` | crates/sidereon-core/src/antex.rs:2686-2728 | a blank line says nothing, and a line that is no record and no row is reported |
| `AntexLayoutSections.SectionStartLayout` | crates/sidereon-core/src/antex.rs:2603-2618 | a section opens under the label in columns 1-20, closing and reporting an open one |
| `AntexLayoutSections.SectionEndLayout` | crates/sidereon-core/src/antex.rs:2624-2648 | an end record closes the open section and reports another kind or another label |
| `AntexLayoutSections.BlockLayout` | crates/sidereon-core/src/antex.rs:2297-2320 | a block opens blank, closing and reporting an open one, and a closed one becomes the next interval of its id and its public antenna |
| `AntexLayoutSections.OnceOnlyLayout` | crates/sidereon-core/src/antex.rs:2187-2205 | a once-only block record with another body is refused by name, and with the same body says nothing |
| `AntexLayoutSections.HeaderOnceLayout` | crates/sidereon-core/src/antex.rs:2187-2205 | the same of the two header records |
| `AntexAcceptance.AcceptedExactly` | crates/sidereon-core/src/antex.rs:1419-1506 | the encoder accepts a product of retained blocks exactly when every part is stated by its columns: numbers that print in their width and read back as the same bits, none below zero where that is forbidden, texts that fit and lose nothing to trimming, dates of the calendar in order, comments in file order, samples row by row on a grid of whole steps; nothing else is refused |
| `AntexAcceptance.BlockExactly` | crates/sidereon-core/src/antex.rs:1612-1729 | the same of one block |
| `AntexAcceptance.IdentityExactly` | crates/sidereon-core/src/antex.rs:1236-1258 | an identity is accepted exactly when the id, in 60 columns, has the type in 1-20, the serial number in 21-40 and the kind that serial number gives |
| `AntexAcceptance.DateExactly` | crates/sidereon-core/src/antex.rs:2060-2090 | a date is accepted exactly when it is one of the Gregorian calendar and some text of 13 columns reads back as its seconds |
| `AntexAcceptance.BeforeExactly` | crates/sidereon-core/src/antex.rs:1640-1657 | the order of two bounds is that of their seconds counted through the calendar, then of their fractions as rationals |
| `AntexAcceptanceRows.RowsExactly` | crates/sidereon-core/src/antex.rs:1790-1987 | the samples of a section are accepted exactly when each stands on the grid with numbers its columns state, those without an azimuth come first, no row is split, and places rise in each row |
| `AntexAcceptanceRows.WrittenRow` | crates/sidereon-core/src/antex.rs:1995-2037 | a written row is its head in eight columns and eight columns for each place up to the grid's end, or up to the last sample past it: the millimetres of the sample standing there, or blanks |
| `AntexAcceptanceRows.F6Exactly` | crates/sidereon-core/src/antex.rs:1039-1066 | a six-column number is accepted exactly when it prints in six columns, is zero or above, and is read back as the same bits |
| `AntexAcceptanceRows.LengthExactly` | crates/sidereon-core/src/antex.rs:1108-1167 | a length is accepted exactly when its millimetres print in their width and are read back as the same meters |
| `AntexParser.ParseText` | crates/sidereon-core/src/antex.rs:610-639 | the line loop over the mutable state returns what the specification of parsing gives, error for error |
| `AntexParser.ParseState.ParseLine` | crates/sidereon-core/src/antex.rs:2145-2174 | one line changes the fields as its record's specification says |
| `AntexParser.ParseState.CollectRow` | crates/sidereon-core/src/antex.rs:2766-2802 | the field loop finds the row's values and reports its malformed fields, or refuses the first value without a position of its own |
| `AntexParser.ParseState.PlaceRow` | crates/sidereon-core/src/antex.rs:2804-2821 | the values become samples and fill their positions, and nothing else changes |
| `AntexParser.ParseState.CompleteSection` | crates/sidereon-core/src/antex.rs:2825-2870 | a closed section joins its block, an RMS section the last frequency of its label without one |
| `AntexParser.ParseState.FindRmsTarget` | crates/sidereon-core/src/antex.rs:2846-2851 | the search from the end finds the last matching frequency, or none when there is none |
| `AntexParser.ParseState.CompleteAntenna` | crates/sidereon-core/src/antex.rs:2881-2918 | a closed block is retained in all three views, or reported when it has no identity or the wrong count |
| `AntexEmitter.EncodeText` | crates/sidereon-core/src/antex.rs:1480-1506 | the encoder's loops return the specified text, or refuse exactly the products that are not writable |
| `AntexEmitter.GroupPcvSamples` | crates/sidereon-core/src/antex.rs:1790-1987 | one pass groups the samples as specified or refuses them |
| `AntexEmitter.RenderRow` | crates/sidereon-core/src/antex.rs:1995-2037 | the field loop renders the specified row |
| `AntexEmitter.EmitSections` | crates/sidereon-core/src/antex.rs:1724-1752 | the section loop accepts exactly acceptable frequencies and writes their lines in order |
| `AntexEmitter.ValidateViews` | crates/sidereon-core/src/antex.rs:1345-1417 | counting retained intervals id by id, in any order, decides the view check |
| `SecondsField.SecondsRoundTrip` | crates/sidereon-core/src/antex.rs:2100-2143 | for every second 0..59 and every normalized fraction, any text returned fits 13 columns, has a decimal point and reads back exactly, in the fixed, leading-point and exponent forms |
| `SecondsField.ReadScanSound` | crates/sidereon-core/src/antex.rs:922-987 | any second and fraction the reader returns are exactly the number the text denotes |
| `SecondsField.ReadScanComplete` | crates/sidereon-core/src/antex.rs:922-987 | a non-negative text that denotes a second below 100 and a storable fraction is read as them |
| `SecondsGrammar.ScansExactly` | crates/sidereon-core/src/antex.rs:922-950 | the texts taken apart are exactly an optional sign, digits with at most one point, and optionally e, E, d or D with a signed 64-bit power, and their parts are these |
| `SecondsFit.SecondsStatable` | crates/sidereon-core/src/antex.rs:2092-2143 | the writer gives up exactly when no text of at most 13 columns with a decimal point reads back as the second and fraction |
| `SecondsFit.SecondsForm` | crates/sidereon-core/src/antex.rs:2092-2143 | the text has seven decimals, or all of them when there are more; it drops the leading zero only when nothing else fits; and past the twelfth decimal no other text of the value is shorter |
| `Seconds.ConstructionsEqual` | crates/sidereon-core/src/antex.rs:322-335 | two constructions are equal exactly when their digits/10^scale are equal rationals |
| `Seconds.New` | crates/sidereon-core/src/antex.rs:322-335 | the cancelling loop gives the specified normal fraction |
| `Seconds.CompareIsRationalOrder` | crates/sidereon-core/src/antex.rs:368-388 | the order is the order of the rationals, and equal only for equal fractions |
| `Seconds.CompareDoesNotOverflow` | crates/sidereon-core/src/antex.rs:377-387 | for every two fractions the aligned width is at most 20 digits and both products stay below 10^20, inside 128 bits |
| `DriftMachine.DriftExplained` | crates/sidereon-core/fixtures-generators/sgp4_libm_bound.py:69-218 | for every program and every moment one assignment explains, after any number of further steps without a new flag and with its library calls covered, one assignment of all symbols in [-1, 1] explains the gap of every register at once, keeps the symbols already handed out, and neither build has stopped |
| `DriftMachine.ArithmeticDrift` | crates/sidereon-core/fixtures-generators/sgp4_libm_bound.py:69-218 | for programs of arithmetic, magnitudes, remainders, comparisons and condensing, from any explained moment, the same holds and every gap is within its radius, with nothing assumed but rounding to nearest |
| `DriftMachine.ArithmeticBranches` | crates/sidereon-core/fixtures-generators/sgp4_libm_bound.py:171-193 | and both builds take the same branches |
| `DriftMachine.ApartExplained` | crates/sidereon-core/fixtures-generators/sgp4_libm_bound.py:72-82 | any two builds at the same instruction are such a moment, however far their values are apart |
| `DriftMachine.FreshExplained` | crates/sidereon-core/fixtures-generators/sgp4_libm_bound.py:198-199 | and so are two builds before anything is set |
| `DriftMachine.DriftWithinRadius` | crates/sidereon-core/fixtures-generators/sgp4_libm_bound.py:78-82 | and each gap is within the radius reported for its register |
| `DriftTight.RadiusAttained` | crates/sidereon-core/fixtures-generators/sgp4_libm_bound.py:78-79 | a gap as large as the radius is one the form explains, so the radius is the largest gap it allows |
| `DriftMachine.SameBranches` | crates/sidereon-core/fixtures-generators/sgp4_libm_bound.py:171-193 | and both builds stood at the same instruction before every one of those steps |
| `DriftOps.FinishSound` | crates/sidereon-core/fixtures-generators/sgp4_libm_bound.py:94-98 | one symbol of one unit of the largest possible magnitude covers both roundings |
| `DriftOps.AddSound` | crates/sidereon-core/fixtures-generators/sgp4_libm_bound.py:100-118 | a rounded sum or difference keeps the explanation |
| `DriftOps.MulSound` | crates/sidereon-core/fixtures-generators/sgp4_libm_bound.py:120-126 | a rounded product keeps the explanation with its second-order term |
| `DriftOps.DivSound` | crates/sidereon-core/fixtures-generators/sgp4_libm_bound.py:131-141 | a rounded quotient keeps the explanation, and the other build's divisor is not zero |
| `DriftTight.AddCharges` | crates/sidereon-core/fixtures-generators/sgp4_libm_bound.py:94-118 | each symbol of a sum carries the operands' coefficients with their signs, and a new one is worth exactly the unit at the result's magnitude plus both radii |
| `DriftTight.MulCharges` | crates/sidereon-core/fixtures-generators/sgp4_libm_bound.py:120-126 | each symbol of a product carries the derivative in both factors, the product of the radii goes to the rest, and the new symbol is one unit at the largest magnitude |
| `DriftTight.DivCharges` | crates/sidereon-core/fixtures-generators/sgp4_libm_bound.py:131-141 | the same of a quotient, with its second-order term |
| `DriftArith.SecondCovers` | crates/sidereon-core/fixtures-generators/sgp4_libm_bound.py:139 | what a quotient's gap leaves past first order is within the second-order term |
| `DriftOps.FabsSound` | crates/sidereon-core/fixtures-generators/sgp4_libm_bound.py:265-271 | the magnitude keeps the explanation, also when the sign is uncertain |
| `DriftTight.RadiusKept` | crates/sidereon-core/fixtures-generators/sgp4_libm_bound.py:143-150 | sign, magnitude and remainder keep the radius as it was |
| `DriftOps.FmodSound` | crates/sidereon-core/fixtures-generators/sgp4_libm_bound.py:210-218 | without a flag both builds subtract the same multiple, so the remainder keeps the explanation |
| `DriftOps.ComparisonSound` | crates/sidereon-core/fixtures-generators/sgp4_libm_bound.py:171-193 | without a flag both builds decide every relation alike |
| `DriftOps.FlagExactly` | crates/sidereon-core/fixtures-generators/sgp4_libm_bound.py:171-175 | some values within the two radii decide some relation differently exactly when a flag is raised and either value has room to differ |
| `DriftOps.FlaggedForNothing` | crates/sidereon-core/fixtures-generators/sgp4_libm_bound.py:171-175 | a value carried with a zero coefficient is flagged against itself with no room to differ |
| `DriftOps.FmodIs` | crates/sidereon-core/fixtures-generators/sgp4_libm_bound.py:210-218 | the remainder has the sign of the value, is smaller than the divisor, and is a whole multiple of it away |
| `DriftOps.MulRestAttained` | crates/sidereon-core/fixtures-generators/sgp4_libm_bound.py:120-126 | the second-order term of a product is reached, so no smaller one is sound |
| `DriftOps.UndivergedResults` | crates/sidereon-core/fixtures-generators/sgp4_libm_bound.py:94-141 | while both builds agree no operation introduces a symbol or a flag |
| `DriftOps.CondenseSound` | crates/sidereon-core/fixtures-generators/sgp4_libm_bound.py:300-321 | condensing keeps the explanation and the radius |
| `DriftOps.CallSound` | crates/sidereon-core/fixtures-generators/sgp4_libm_bound.py:202-226 | a library call keeps the explanation when both libraries are within one unit of the true value and the charged units cover the call |
| `DriftTight.CallCharges` | crates/sidereon-core/fixtures-generators/sgp4_libm_bound.py:202-226 | a call scales each symbol by the slope and charges exactly two units of the largest magnitude either result can have for the argument |
| `DriftOps.CoveredExactly` | crates/sidereon-core/fixtures-generators/sgp4_libm_bound.py:202-207 | the charge covers every pair of accurate libraries and every true function within the second-order bound exactly when it covers each possible error plus one unit where the other result can then lie |
| `DriftOps.InReachCovers` | crates/sidereon-core/fixtures-generators/sgp4_libm_bound.py:202-207 | it does when the argument's uncertainty cannot carry the result to a larger unit |
| `DriftOps.SameArgumentCovered` | crates/sidereon-core/fixtures-generators/sgp4_libm_bound.py:202-207 | and always when both builds have the same argument |
| `DriftOps.LibmPair` | crates/sidereon-core/fixtures-generators/sgp4_libm_bound.py:202-207 | the two results' gap is bounded by the charged units and the second-order term, from each library's own accuracy |
| `DriftOps.CallOutOfReach` | crates/sidereon-core/fixtures-generators/sgp4_libm_bound.py:274-289 | `pow` with exponent 1 at the base 6 with an uncertainty of 2, which the code accepts: the call's radius does not cover the gap to the other build's result at 8 |
| `DriftOps.ReachIsNeeded` | crates/sidereon-core/fixtures-generators/sgp4_libm_bound.py:274-289 | its format, libraries and representable values keep every law assumed, and the charged units fall short of the gap |
| `Drift.MergeSum` | crates/sidereon-core/fixtures-generators/sgp4_libm_bound.py:61-66 | the merged form is the weighted sum of the two forms for every assignment |
| `Drift.RoundedWithin` | crates/sidereon-core/fixtures-generators/sgp4_libm_bound.py:94-98 | a value up to half a unit past a magnitude is rounded by at most half that magnitude's unit, also across the place where units grow |
| `DriftSession.MergeForms` | crates/sidereon-core/fixtures-generators/sgp4_libm_bound.py:61-66 | the dictionary loop gives the merged form |
| `DriftSession.FindRadius` | crates/sidereon-core/fixtures-generators/sgp4_libm_bound.py:78-79 | the magnitudes add up to the radius in any order |
| `DriftSession.Session.AddValues` | crates/sidereon-core/fixtures-generators/sgp4_libm_bound.py:100-106 | the mutable tracker's sum, and the symbol it takes |
| `DriftSession.Session.DivValues` | crates/sidereon-core/fixtures-generators/sgp4_libm_bound.py:131-141 | the mutable tracker's quotient, none exactly for a zero or too uncertain divisor |
| `DriftSession.Session.Compare` | crates/sidereon-core/fixtures-generators/sgp4_libm_bound.py:171-175 | a flag is raised exactly when a value has diverged and the two are no further apart than their radii |
| `DriftSession.Session.CondenseValue` | crates/sidereon-core/fixtures-generators/sgp4_libm_bound.py:300-321 | the loop over the entries folds exactly the late ones into one symbol |
| `Enclosures.MultipliedHolds` | crates/sidereon-core/fixtures-generators/generate_spp_interval_elementary.py:41-50 | the product enclosure holds every product of members |
| `Enclosures.DividedHolds` | crates/sidereon-core/fixtures-generators/generate_spp_interval_elementary.py:52-62 | the quotient enclosure holds every quotient of members |
| `Enclosures.UnroundedResults` | crates/sidereon-core/fixtures-generators/generate_spp_interval_elementary.py:28-62 | without rounding every operation on exact values gives the exact value alone |
| `Trigonometric.Trigonometric` | crates/sidereon-core/fixtures-generators/generate_spp_interval_elementary.py:65-85 | for every directed rounding and every argument up to 8 in magnitude, every partial Taylor sum of at least 80 terms lies in the returned enclosure; one is returned exactly when the rounded ratio leaves the divisor positive |
| `Trigonometric.TermIsTaylor` | crates/sidereon-core/fixtures-generators/generate_spp_interval_elementary.py:69-76 | the terms of the recurrence are (-1)^k x^n / n! |
| `Trigonometric.TailCovers` | crates/sidereon-core/fixtures-generators/generate_spp_interval_elementary.py:77-84 | every later partial sum stays within the geometric tail of the first omitted term |
| `Trigonometric.LimitEnclosed` | crates/sidereon-core/fixtures-generators/generate_spp_interval_elementary.py:65-85 | the limit of the partial sums lies in any enclosure of the late ones |
| `LargeArgument.ExponentRange` | crates/sidereon-core/fixtures-generators/rust_libm_port.py:247-250 | q0 is at most 2, and at least -21 exactly for e0 >= 3 |
| `LargeArgument.ProductLimb` | crates/sidereon-core/fixtures-generators/rust_libm_port.py:260-264 | each product limb is the exact sum, with no partial sum reaching 2^53 |
| `LargeArgument.Distill` | crates/sidereon-core/fixtures-generators/rust_libm_port.py:267-273 | distilling conserves the multi-limb value with every digit in [0, 2^24), without saturation or a value reaching 2^53 |
| `LargeArgument.Complement` | crates/sidereon-core/fixtures-generators/rust_libm_port.py:290-298 | the complement loop gives the exact negation modulo the width for every nonzero digit string and leaves zero alone |
| `LargeArgumentPass.TakeWhole` | crates/sidereon-core/fixtures-generators/rust_libm_port.py:274-287 | value = 8t + n + fraction exactly, and the half flag is set exactly for a fraction of one half or more |
| `LargeArgumentPass.Reflect` | crates/sidereon-core/fixtures-generators/rust_libm_port.py:288-307 | complement, masks and leading value together replace the fraction by one minus it, for every q0 |
| `LargeArgumentPass.Pass` | crates/sidereon-core/fixtures-generators/rust_libm_port.py:266-307 | the limbs' value is n whole ones and a signed remainder of at most one half, modulo 8, exactly |
| `CapabilityPath.Path` | crates/sidereon-cli/src/mcp.rs:704-745 | a result exists exactly when both ends are allowed and a walk exists, it is the trace of a shortest walk, and in a traceable graph it names the whole walk; the search and the trace end |
| `CapabilityPath.SpelledExactly` | crates/sidereon-cli/src/mcp.rs:718-728 | every answer to every query is a whole shortest walk exactly when the unnamed node is not allowed or leads at most to itself |
| `CapabilityPath.UnnamedWitness` | crates/sidereon-cli/src/mcp.rs:718-728 | a one-edge graph where the empty answer is the only one |
| `CapabilityPath.TracedWhole` | crates/sidereon-cli/src/mcp.rs:718-728 | the trace spells the whole walk exactly when none of its edges leaves an unnamed node |
| `CapabilityPath.NamedWalk` | crates/sidereon-cli/src/mcp.rs:718-728 | with named nodes every walk is spelled out |
| `CapabilityPath.ShortestAtFront` | crates/sidereon-cli/src/mcp.rs:716-741 | the walk recorded for the node at the front of the queue is a shortest one |
| `Replay.RunKeeps` | crates/sidereon-cli/src/tui.rs:1068-1096 | over every run of ticks and speed changes the frames are consecutive, time saved plus gaps crossed is time bought, and the speed is what the changes make it |
| `Replay.FreshRun` | crates/sidereon-cli/src/tui.rs:1068-1096 | from a fresh timeline the frames shown are 0, 1, 2 and so on |
| `Replay.TickKeeps` | crates/sidereon-cli/src/tui.rs:1068-1096 | a tick emits at most eight frames, and fewer only when nothing more is paid for |
| `Replay.SplitThenDrain` | crates/sidereon-cli/src/tui.rs:1068-1096 | two runs that buy the same time and end at the same speed reach the same state once drained with zero-length ticks |
| `Replay.RunSettles` | crates/sidereon-cli/src/tui.rs:1068-1096 | what a run settles to depends only on the time bought |
| `Replay.SpeedBounds` | crates/sidereon-cli/src/tui.rs:1042-1048 | speeding up doubles speeds up to 512 and gives 1024 from there on, slowing down halves speeds from 0.5 on and gives 0.25 below; so it never lowers, or raises, the speed exactly up to 1024 and from 0.25 on |
| `Replay.RunClock` | crates/sidereon-cli/src/tui.rs:1068-1096 | over every run from a fresh timeline, saved time and the rises up to the frame shown are the time bought, a backward pair costing nothing; with epochs in order saved time plus the shown time less the first is the time bought |
| `Replay.TickShowsAllPaid` | crates/sidereon-cli/src/tui.rs:1068-1096 | after a tick with room left the last frame is shown or saved time falls short of the next rise |
| `Replay.PausedTick` | crates/sidereon-cli/src/tui.rs:1069-1071 | a paused tick shows nothing and changes nothing |
| `ReplayTimeline.Scheduler.AdvanceWallTime` | crates/sidereon-cli/src/tui.rs:1068-1096 | the draining loop makes the specified tick: at most eight frames, none while paused, and with room left saved time short of the next rise |
| `ReplayTimeline.Scheduler.StepForward` | crates/sidereon-cli/src/tui.rs:1050-1058 | the next frame exactly when there is one, with saved time cleared |
| `ReplayTimeline.Scheduler.StepBackward` | crates/sidereon-cli/src/tui.rs:1060-1066 | the frame before exactly when there is one, with saved time cleared |
| `ReplayTimeline.NewTimeline` | crates/sidereon-cli/src/tui.rs:1012-1027 | a timeline exactly for a positive speed and at least one epoch |
| `Interpolation.InterpolatedBetween` | crates/sidereon-core/src/antex.rs:2920-2940 | every value lies between the smallest and largest of the up to four samples it blends, across the seam too |
| `Interpolation.BetweenRows` | crates/sidereon-core/src/antenna.rs:64-106 | and between the zenith values of its two rows |
| `Interpolation.StoredExactly` | crates/sidereon-core/src/antenna.rs:24-106 | at any node the stored value is returned exactly when the row is not at 360 degrees, or no row stands at 0, or that row gives the same value |
| `Interpolation.SeamWitness` | crates/sidereon-core/src/antenna.rs:64-106 | a two-row table whose stored value at 360 degrees is not returned |
| `Interpolation.ZenithBetween` | crates/sidereon-core/src/antenna.rs:24-48 | a zenith value exists and lies between the two bracketing samples it blends, or is the clamped end |
| `Interpolation.ZenithOnLine` | crates/sidereon-core/src/antenna.rs:35-47 | between neighbouring samples the value is exactly linear in zenith |
| `Interpolation.InterpolationOnLine` | crates/sidereon-core/src/antenna.rs:64-106 | between neighbouring rows the value is exactly linear in azimuth |
| `Interpolation.InterpolationAcrossSeam` | crates/sidereon-core/src/antenna.rs:81-106 | across the seam it is exactly linear from the last row to the first one a full turn later |
| `Interpolation.InterpolationAtNode` | crates/sidereon-core/src/antenna.rs:24-106 | at a node below 360 degrees the stored value is returned |
| `Interpolation.InterpolationAtSeam` | crates/sidereon-core/src/antenna.rs:64-106 | at 360 degrees the row at 0 is used when there is one, the row at 360 otherwise |
| `Interpolation.InterpolationPeriodic` | crates/sidereon-core/src/antenna.rs:51-58 | adding full turns to the azimuth changes nothing |
| `Combinations.DelayCancels` | crates/sidereon-core/src/combinations.rs:138-151 | any delay proportional to 1/f^2 cancels and the common range stays |
| `Combinations.Symmetric` | crates/sidereon-core/src/combinations.rs:138-151 | exchanging the bands changes nothing, errors included |
| `Combinations.SumParts` | crates/sidereon-core/src/ambiguity.rs:129-156 | the epochs add up term by term |
| `Combinations.NarrowLaneLaw` | crates/sidereon-core/src/ambiguity.rs:102-116 | combining both carriers' cycles is the narrow-lane wavelength times N1 plus the offset for N1 - N2 |
| `Combinations.EstimateWideLane` | crates/sidereon-core/src/ambiguity.rs:129-156 | with a tolerance below one half the integer returned is the one within it, and it is returned whenever it exists and there are enough epochs |
| `PairingRun.IonosphereFreePseudoranges` | crates/sidereon-core/src/combinations.rs:225-272 | combined holds exactly the once-in-each-band supported satellites, dropped the others with the reason their counts and carriers dictate, both in order; it fails exactly when a carrier pair cannot be combined, with the first such satellite's error |
| `Pairing.SameSuccess` | crates/sidereon-core/src/combinations.rs:225-272 | reordering either band never turns a success into an error or an error into a success |
| `Pairing.ReorderingGives` | crates/sidereon-core/src/combinations.rs:225-272 | what one order of the bands gives, every order gives |
| `PairingRun.MapAndDuplicates` | crates/sidereon-core/src/combinations.rs:274-289 | the last range of each named satellite, and exactly the repeated ones as duplicates |
| `PairingCarriers.PairedRange` | crates/sidereon-core/src/combinations.rs:291-329 | ranges rho + k/f1^2 and rho + k/f2^2 of a satellite named once in each band are combined to exactly rho, f1 and f2 being the carriers of the bands the first override of its system names, in that order, or of the default pair |
| `PairingCarriers.PairedUnknown` | crates/sidereon-core/src/combinations.rs:291-329 | such a satellite is dropped as of an unknown system exactly when it has no such carriers |
| `PairingCarriers.PairedDropped` | crates/sidereon-core/src/combinations.rs:225-272 | a satellite is dropped as a duplicate exactly when a band names it twice, and as missing from a band exactly when the other names it once and that one never |
| `PairingCarriers.PairingFails` | crates/sidereon-core/src/combinations.rs:225-272 | the call fails exactly when some such satellite has a carrier that is not positive or two equal ones |
| `PairingCarriers.PairingError` | crates/sidereon-core/src/combinations.rs:225-272 | and its error is that of the first one in dictionary order |
| `PairingCarriers.BeforeIs` | crates/sidereon-core/src/combinations.rs:232-268 | the order of the lists is dictionary order |
| `Pairing.Partitioned` | crates/sidereon-core/src/combinations.rs:225-272 | every satellite of either band is in exactly one of the two lists, once |
| `Pairing.ReorderingSame` | crates/sidereon-core/src/combinations.rs:225-272 | reordering either band changes nothing: not the success, not the lists, not the error |
| `ComparisonRun.Compare` | crates/sidereon-core/src/broadcast_comparison.rs:149-207 | each satellite's count and missing epochs make up all epochs, and overall count, squared sums and maxima are the satellites' joined |
| `ComparisonRun.ReportResolved` | crates/sidereon-core/src/broadcast_comparison.rs:385-415 | for each satellite and overall the orbit's squared sum is that of the radial, along and cross components together, when cells come from a position and velocity that span an orbit |
| `ComparisonRun.ReportKeeps` | crates/sidereon-core/src/broadcast_comparison.rs:184-193 | adding any common offset per epoch to all clocks leaves every statistic but the raw clock's unchanged, per satellite and overall |
| `ComparisonRun.OffsetRemoved` | crates/sidereon-core/src/broadcast_comparison.rs:521-535 | the same for any set of differences and the offsets removed from it |
| `ComparisonRun.PartsJoin` | crates/sidereon-core/src/broadcast_comparison.rs:538-565 | statistics over all satellites are the satellites' joined |
| `ComparisonRun.ClockDatum` | crates/sidereon-core/src/broadcast_comparison.rs:509-517 | the bucket loop gives each epoch the median of its clocks, none exactly for an epoch without a clock |
| `Comparison.MedianCounts` | crates/sidereon-core/src/astro/math/robust.rs:81-99 | for an odd count the median is one of the values with more than half of them at most it and as many at least it; for an even count half the sum of two values, by position, with half of them up to the lower, half from the upper on, and none between |
| `ComparisonRun.EnrichedMeans` | crates/sidereon-core/src/broadcast_comparison.rs:521-535 | a difference gets a residual exactly when it has a clock, and its clock less the residual is such a median of its epoch |
| `Comparison.AggregateSingle` | crates/sidereon-core/src/broadcast_comparison.rs:538-565 | statistics of one difference are each of its own components, square and magnitude |
| `Comparison.MedianAdded` | crates/sidereon-core/src/broadcast_comparison.rs:598-602 | the median moves with a common offset, for odd and even counts |
| `Comparison.MedianPermuted` | crates/sidereon-core/src/broadcast_comparison.rs:598-602 | the median does not depend on the order of the values |
| `Comparison.MedianMirrored` | crates/sidereon-core/src/astro/math/robust.rs:81-99 | turning every sign turns the median's, so neither middle value of an even count is preferred |
| `Comparison.HighestIs` | crates/sidereon-core/src/broadcast_comparison.rs:582-588 | the maximum is the magnitude of some value and at least that of every value |
| `Comparison.SortOrdered` | crates/sidereon-core/src/astro/math/robust.rs:81-99 | the median is taken from the ordered rearrangement of the values |
| `Triad.ProjectionKeepsLength` | crates/sidereon-core/src/broadcast_comparison.rs:499-504 | the RAC components keep the length of the difference whenever r and r x v are nonzero |
| `Triad.PositionIsRadial` | crates/sidereon-core/src/broadcast_comparison.rs:499-504 | the position itself is all radial |
| `Triad.VelocityIsForward` | crates/sidereon-core/src/broadcast_comparison.rs:499-504 | the velocity has no cross-track part and a positive along-track part, the angular momentum over the radius |
| `Sampling.SampleEpochs` | crates/sidereon-core/src/ephemeris.rs:226-265 | the loop ends with the grid that begins at start, ends exactly at stop and rises by at most one step; only a step that is not positive is refused |
| `Sampling.SampleTimes` | crates/sidereon-core/src/broadcast_comparison.rs:301-322 | the other sampler's loop ends with the same grid |
| `Sampling.GridUnique` | crates/sidereon-core/src/broadcast_comparison.rs:301-322 | that grid is determined by start, stop and step, so both samplers agree |
| `Sampling.Sample` | crates/sidereon-core/src/ephemeris.rs:174-189 | the row of satellite i at epoch j is the source's own state for them, in satellite-major order with none lost, and the call fails exactly when some answer is a failure |
| `Sampling.AdvanceConserves` | crates/sidereon-core/src/broadcast_comparison.rs:289-296 | advancing adds exactly the seconds and leaves a fraction under one day |
| `Sampling.CompareWindowEpochs` | crates/sidereon-core/src/broadcast_comparison.rs:246-262 | the window's epochs are the same grid, their three dates stand exactly at the epoch and half a step either side, and the input check never refuses them |

## Left out

- AntexWriter.Encode: a refusal is one error without its field and reason, because only whether the writer refuses is modelled.
- AntexEmitter.EncodeText: likewise, refusals carry no field or reason.
- AntexReader.Parse: lines are ASCII; UTF-8 byte boundaries inside columns are not modelled.
- Sampling.SampleEpochs: times are exact reals, so the check that catches a step too small for binary64 never fires and the check for an overflowing index is not modelled.
- Interpolation.AtAzimuth: rows and samples are taken already sorted; the sort before interpolation, and lookups of frequencies and their errors, are not modelled.
- ComparisonRun.Compare: the difference of a satellite and epoch comes from the two products, which are parameters; a root mean square is kept as its count and sum of squares, and `missing` is one count per satellite, without the filter and sort of the printed list.
- Triad.Project: the lengths of the vectors are parameters, because the reals here have no square root.
- DriftOps.Call: the second-order bounds of `sin`, `cos` and `pow` are assumed of the true functions; `atan2`, `sqrt` and Python's `%` on tracked values are not modelled.
- Drift.Format: the tracker's own coefficients are exact reals; that the generator computes them in binary64 is not modelled.
- LargeArgumentPass.Pass: the retry with more terms, and the conversion of the digits to two doubles after it, are not modelled.
- Replay.Tick: times and speeds are exact finite reals; the check for non-finite epoch times has no counterpart.
- Rendering, key handling, sockets, JSON-RPC dispatch, command-line reports and the solvers behind them.
- SP3, RINEX, RTCM, IONEX and SBAS formats, orbit and clock recipes, and the libm kernels themselves.
- Lookups on a parsed product (`antenna_at`, `frequency`, `pco`), error message text and `Display`.
