# SEIR epidemic model: parsers, engine bookkeeping and evaluation

This project models the core of the covid19-bh-biostats `seir` package in Dafny:

- The **restriction parser** reads `[restriction NAME]` sections such as `[0-4, 5-9] : all : 0.5`. It builds an N x N prefactor matrix in place from an all-ones matrix. It wraps each restriction in an inclusive day window and multiplies several restrictions together.
- The **configuration parser** converts the `[model]`, `[initial state]` and `[simulation]` sections into keyword dictionaries. Each value becomes a float, a list of floats, a list of names, a boolean or raw text.
- The **SEIR engine** (`SEIR/seir.py`) covers several steps:
  - It checks and broadcasts the per-compartment parameters.
  - It computes the symmetrised, normalised infectivity matrix.
  - Its right-hand side writes the four [S, E, I, R] blocks through views of one result buffer and overwrites a scratch infectivity buffer under a restriction function.
  - It builds the initial state and the flat-before-t0 extension of the solver's dense solution.
  - `evaluate_solution` computes cumulative infections, hospital and ICU occupancy, deaths, masking, aggregates and the column header.
- The **older engine** (`seir/model.py`) has the same structure. It does not symmetrise the contacts, its t0 is fixed at 0 and it uses running sums. Its defects are modelled as failures:
  - it calls the undefined `_fix_sizes`;
  - it reads the unbound global `restrictions_function`;
  - it evaluates an array with `if contacts_matrix:`;
  - it hands the solver's dense output an empty selection when no query (or lagged query) is at or after 0, which the solver refuses.

Numbers are `real`. A masked (NaN) cell is `None` in an `Option<real>`. Every exception raised by the source is the payload-free `Fail` of `Result`. The ODE solver's dense output, the restriction function and the imported-cases function are function-typed parameters. A configuration file is a list of sections, each a list of (key, value) pairs in file order, as configparser hands them over.

The modules are:

- `Wrappers`: `Option` and `Result`.
- `Text`: Python's `strip`, `split`, `join`, `lower`, `replace`, `float()` and `int()` on decimal text.
- `Numeric`: vectors, matrices, NumPy broadcasting, modifiers, `trapz`/`cumtrapz`/`cumsum`, `convolve(..., 'same')`, `arange`, `round` and `argmin`.
- `RestrictionsParser` and `ConfigParser`.
- `SeirModel`: the engine's parameters, infectivity, right-hand side, initial state and solution rows, as functions.
- `SeirEvaluate`: `evaluate_solution` as functions.
- `SeirEngine`: the `Seir` class with its scratch buffer and in-place array steps, proved against `SeirModel` and `SeirEvaluate`.
- `LegacySeir`: the older engine, as functions plus the `LegacyEngine` class.

Where the code's own names or comments suggest something other than what it computes, the model follows what it computes:

- ICU occupancy reads block 2 of the lagged state, which is I. The variable holding it is named `E_icu_lag` (`SEIR/seir.py:523`).
- The first post-t0 trapezoid runs from time 0 to the first query at or after t0 (`x=[0, ...]` at `SEIR/seir.py:480`), not from t0.
- The docstring says deaths count from t = t0 (`SEIR/seir.py:462`). The code subtracts the value at the query nearest `t0 + death_lag` and masks the queries before it, and it does both only under `only_real_results` (`SEIR/seir.py:548-552`). There is no duration term.
- The older engine builds `ICUwindow` from `icu_duration` but convolves the ICU rate with `Hwindow` (`seir/model.py:199-201`).

## Model

| member | source | states |
|---|---|---|
| Text.StripLeft | SEIR/parser/restrictions_section_parser.py:53 | What is dropped is a whitespace prefix, and the rest starts with a non-space. |
| Text.StripRight | SEIR/parser/restrictions_section_parser.py:53 | What is dropped is a whitespace suffix, and the rest ends with a non-space. |
| Text.Strip | SEIR/parser/restrictions_section_parser.py:140 | The result is no longer than the input and has no surrounding whitespace. |
| Text.StripDecomposes | SEIR/parser/restrictions_section_parser.py:53 | The input is whitespace + result + whitespace. |
| Text.StripNoSpace | SEIR/parser/restrictions_section_parser.py:140 | Strip is the identity on text without surrounding whitespace. |
| Text.Split | SEIR/parser/restrictions_section_parser.py:140 | There is at least one piece, no piece contains the separator, and joining with the separator gives the input back. |
| Text.SplitJoin | SEIR/parser/restrictions_section_parser.py:189 | Splitting a join of separator-free pieces gives the pieces back (the inverse round trip). |
| Text.SplitNoSeparator | SEIR/parser/config_file_parser.py:10-16 | Text without the separator splits into itself alone. |
| Text.SplitPrefix | SEIR/parser/restrictions_section_parser.py:140 | A leading separator-free word is the first piece. |
| Text.JoinAvoids | SEIR/parser/restrictions_section_parser.py:189 | A character that is not the separator and is in no part is not in the join. |
| Text.StrippedItems | SEIR/parser/restrictions_section_parser.py:53 | Item i is the stripped piece i of the split, with one item per piece. |
| Text.Lower | SEIR/parser/config_file_parser.py:31 | Same length, each character lowered. |
| Text.LowerIdempotent | SEIR/parser/config_file_parser.py:31 | Lowering twice is lowering once. |
| Text.RemoveAll | SEIR/parser/restrictions_section_parser.py:260 | Deleting the pattern never lengthens the text, and text without the pattern comes back unchanged. |
| Text.RemoveLeading | SEIR/parser/restrictions_section_parser.py:259-260 | A leading `file://` before a path that does not contain it leaves exactly the path. |
| Text.ParseIntDecimal | SEIR/parser/restrictions_section_parser.py:240-241 | int() reads back what str() writes. |
| Text.ParseRealDecimal | SEIR/parser/restrictions_section_parser.py:253 | float() reads the decimal text of n as n. |
| Text.ParseRealDigits | SEIR/parser/config_file_parser.py:16 | float() of a digit string is its decimal value. |
| Wrappers.MapResult | SEIR/parser/restrictions_section_parser.py:190-195 | A loop that stops at the first failure succeeds iff every item succeeds, and then item k is the result of item k. |
| Numeric.Contents | SEIR/seir.py:133 | The matrix read from a 2-D array has its shape and its entries. |
| Numeric.Const | SEIR/seir.py:264 | np.ones(n) * x: n entries, all x. |
| Numeric.Ones | SEIR/seir.py:127 | np.ones((n, n)): square with every entry 1. |
| Numeric.MatVec | SEIR/seir.py:304 | m @ v: one dot product per row. |
| Numeric.Broadcast | SEIR/seir.py:368 | The NumPy 1-D rule: it succeeds iff the lengths match or one is 1, and each entry pairs the operands with a length-1 operand repeated. |
| Numeric.Multiply | SEIR/parser/restrictions_section_parser.py:341 | np.multiply of modifiers: scalar iff both are scalar, and entrywise the product. |
| Numeric.Hadamard | SEIR/seir.py:291 | Each entry is the modifier's entry times the matrix entry. |
| Numeric.CumTrapzSteps | SEIR/seir.py:541-546 | cumtrapz(initial=0) starts at 0 and each entry adds one trapezoid to the one before. |
| Numeric.CumSumPrefix | seir/model.py:178 | Entry k of cumsum is the sum of the first k + 1 values. |
| Numeric.BoxcarSame | SEIR/seir.py:508 | convolve(..., mode='same') has max(len(a), width) entries. |
| Numeric.BoxcarIdentity | SEIR/seir.py:508 | A one-step window gives back the signal. |
| Numeric.BoxcarCentered | SEIR/seir.py:508 | For odd width 2h + 1 no longer than the signal, entry k sums the h samples on each side, cut at the ends. |
| Numeric.BoxcarEven | SEIR/seir.py:508 | For even width 2h + 2 no longer than the signal, entry k sums h + 1 samples before k, k itself and h after it, cut at the ends. |
| Numeric.Arange | SEIR/seir.py:500-501 | np.arange has ceil((stop - start) / step) entries (none if not positive), entry k being start + k * step. |
| Numeric.RoundHalfEven | SEIR/seir.py:506 | round() lands within one half of its argument, strictly nearest away from a tie, and on the even integer at a tie. |
| Numeric.ArgMinDistance | SEIR/seir.py:550 | argmin of the distance: a nearest index, with every earlier index strictly farther. |
| Numeric.Min | SEIR/seir.py:498 | time.min() is an element no greater than any. |
| Numeric.Max | SEIR/seir.py:499 | time.max() is an element no less than any. |
| Numeric.Shift | SEIR/seir.py:503 | time - lag entrywise. |
| Numeric.Scale | SEIR/seir.py:508 | Each entry is multiplied by dt. |
| RestrictionsParser.LastClose | SEIR/parser/restrictions_section_parser.py:47 | The greedy `(.+)` group ends at the last `]` reachable without a line break, and at no later one. |
| RestrictionsParser.BracketGroup | SEIR/parser/restrictions_section_parser.py:47 | A match is `[`, a non-empty group without a line break, then `]`. |
| RestrictionsParser.ParseCompartments | SEIR/parser/restrictions_section_parser.py:39-61 | Resolution in order: an exact name gives [name]; else text starting with "all" in any case gives all names; else the stripped items of the bracket group. Every result name is known. |
| RestrictionsParser.BracketGroupOfBracketed | SEIR/parser/restrictions_section_parser.py:47 | The group of `[body]` is body. |
| RestrictionsParser.StrippedJoin | SEIR/parser/restrictions_section_parser.py:53 | Splitting and stripping a join of stripped items gives them back. |
| RestrictionsParser.BracketListParses | SEIR/parser/restrictions_section_parser.py:47-61 | The converse: a bracketed list of known names parses to exactly those names. |
| RestrictionsParser.ListResolves | SEIR/parser/restrictions_section_parser.py:53-61 | A bracket group whose stripped items are all known resolves to them. |
| RestrictionsParser.BracketedIsNotAll | SEIR/parser/restrictions_section_parser.py:43 | Bracketed text never takes the "all" branch. |
| RestrictionsParser.IndexOf | SEIR/parser/restrictions_section_parser.py:149-154 | list.index: the first position holding the name. |
| RestrictionsParser.Indices | SEIR/parser/restrictions_section_parser.py:149-154 | One in-range index per name, pointing at that name. |
| RestrictionsParser.Product | SEIR/parser/restrictions_section_parser.py:157 | itertools.product holds exactly the pairs with the first from xs and the second from ys. |
| RestrictionsParser.Cells | SEIR/parser/restrictions_section_parser.py:156-158 | The modified cells are within the matrix, and (i, j) is listed iff (j, i) is. |
| RestrictionsParser.CellsOfPair | SEIR/parser/restrictions_section_parser.py:149-158 | (i, j) is listed iff the names at i and j are one from each list, in either order, at their first positions. |
| RestrictionsParser.IndexMembership | SEIR/parser/restrictions_section_parser.py:149-154 | i is an index of the names iff it is the first position of a listed name. |
| RestrictionsParser.ParseModifierLine | SEIR/parser/restrictions_section_parser.py:140-166 | It fails unless there are exactly three `:` parts. On success the factor is float() of the stripped third part, and the cells are those of the two resolved compartment lists, in both orders and within the matrix. |
| RestrictionsParser.ApplyLine | SEIR/parser/restrictions_section_parser.py:195 | One `*=` keeps the matrix square. |
| RestrictionsParser.ApplyLinesSnoc | SEIR/parser/restrictions_section_parser.py:190-195 | One more line scales exactly its listed cells, once each. |
| RestrictionsParser.ApplyLinesCell | SEIR/parser/restrictions_section_parser.py:186-195 | Each cell of the built matrix is the product of the factors of the lines listing it: once per line, however often the line repeats it. |
| RestrictionsParser.CellFactorSnoc | SEIR/parser/restrictions_section_parser.py:195 | Appending a line multiplies its cells' factors by its factor and leaves the others. |
| RestrictionsParser.ApplyLinesByCell | SEIR/parser/restrictions_section_parser.py:186-195 | A matrix agreeing cell by cell with the factors is the built matrix. |
| RestrictionsParser.ContentsByCell | SEIR/parser/restrictions_section_parser.py:186-196 | The same, for the array the loop fills. |
| RestrictionsParser.ApplyLinesUnlisted | SEIR/parser/restrictions_section_parser.py:186-195 | A cell no line lists stays 1. |
| RestrictionsParser.ApplyLinesSymmetric | SEIR/parser/restrictions_section_parser.py:186-195 | Lines with cells listed in both orders build a symmetric matrix. |
| RestrictionsParser.ParseLines | SEIR/parser/restrictions_section_parser.py:189-194 | One parsed line per row, each well-formed. |
| RestrictionsParser.LineParser | SEIR/parser/restrictions_section_parser.py:191-193 | Every parsed line lists only cells within the matrix. |
| RestrictionsParser.ModifierMatrix | SEIR/parser/restrictions_section_parser.py:169-196 | The prefactor matrix is N x N. |
| RestrictionsParser.ModifierMatrixSymmetric | SEIR/parser/restrictions_section_parser.py:186-196 | The prefactor matrix is symmetric. |
| RestrictionsParser.BuildModifierMatrix | SEIR/parser/restrictions_section_parser.py:186-196 | The in-place loop returns exactly the specified prefactor matrix, or fails exactly when a line does. |
| RestrictionsParser.ApplyRows | SEIR/parser/restrictions_section_parser.py:190-195 | The loop stops at the first bad row. On success every cell of the array holds the product of its lines' factors. |
| RestrictionsParser.ScaleCells | SEIR/parser/restrictions_section_parser.py:195 | Fancy-index `*=`: each listed cell is scaled once and the others are unchanged. |
| RestrictionsParser.RestrictionAt | SEIR/parser/restrictions_section_parser.py:270-274 | The modifier iff begins <= t <= ends (both inclusive), else 1.0. |
| RestrictionsParser.Lookup | SEIR/parser/restrictions_section_parser.py:240-249 | A key is found iff some pair has it, and the value is that of the last pair with the key. |
| RestrictionsParser.TitleDropsFirstWord | SEIR/parser/restrictions_section_parser.py:245 | The title is the section name without its first space-separated word. |
| RestrictionsParser.RestrictionTitle | SEIR/parser/restrictions_section_parser.py:245 | "restriction X" has title X. |
| RestrictionsParser.TitleOfOneWord | SEIR/parser/restrictions_section_parser.py:245 | A one-word name has the empty title. |
| RestrictionsParser.InterpretModifier | SEIR/parser/restrictions_section_parser.py:249-268 | Non-zero number text gives that scalar. Non-number or zero text without `file://` gives the line-parsed matrix, failing exactly when that fails. Every result fits N. |
| RestrictionsParser.ZeroModifierFails | SEIR/parser/restrictions_section_parser.py:257-268 | A modifier of "0" is not a scalar: it goes to the line parser and fails. |
| RestrictionsParser.ZeroIsNumber | SEIR/parser/restrictions_section_parser.py:253 | "0" parses as the number 0. |
| RestrictionsParser.ZeroIsNoLine | SEIR/parser/restrictions_section_parser.py:189-194 | "0" is not a modifier line. |
| RestrictionsParser.ParseRestrictionSection | SEIR/parser/restrictions_section_parser.py:237-276 | On success the days are int() of day-begins and day-ends, the modifier is the interpreted infectivity modifier, and the info holds those days and the title. |
| RestrictionsParser.SectionParses | SEIR/parser/restrictions_section_parser.py:240-268 | The converse: integer days and an understood modifier make the section parse to them. |
| RestrictionsParser.InterpretDecimal | SEIR/parser/restrictions_section_parser.py:253 | The decimal text of a positive number is that scalar. |
| RestrictionsParser.DecimalSectionParses | tests/parser/test_restriction_section_parser.py:36-38 | A section with decimal days 40/100 and the name "restriction school-closure" gives those days and that title. |
| RestrictionsParser.RestrictionSections | SEIR/parser/restrictions_section_parser.py:317-320 | Exactly the sections whose lowered name starts with "restriction" are kept. |
| RestrictionsParser.RestrictionSectionsOne | SEIR/parser/restrictions_section_parser.py:317-320 | One section is kept iff its lowered name starts with "restriction". |
| RestrictionsParser.RestrictionSectionsAppend | SEIR/parser/restrictions_section_parser.py:317-320 | The filter distributes over concatenation, so the kept sections keep config order and multiplicity. |
| RestrictionsParser.Compose | SEIR/parser/restrictions_section_parser.py:332-344 | None for no section, parsed[0]'s function and info unwrapped for one, and all of them in order for several. |
| RestrictionsParser.ParseRestrictionSections | SEIR/parser/restrictions_section_parser.py:279-344 | The loop and the composition return the specified result. |
| RestrictionsParser.CollectSections | SEIR/parser/restrictions_section_parser.py:323-329 | The append loop succeeds iff every section parses, and then the two lists pair up with the parsed sections in order. |
| RestrictionsParser.ComposeSeveral | SEIR/parser/restrictions_section_parser.py:336-344 | Two or more sections are returned as lists. |
| RestrictionsParser.ProductAt | SEIR/parser/restrictions_section_parser.py:338-342 | The composite's value fits N. |
| RestrictionsParser.EvaluateComposite | SEIR/parser/restrictions_section_parser.py:338-342 | The accumulating loop computes the product of the functions' values at t. |
| RestrictionsParser.ProductOutsideWindows | SEIR/parser/restrictions_section_parser.py:338-342 | Outside every window the composite is exactly 1.0. |
| RestrictionsParser.ProductEntries | SEIR/parser/restrictions_section_parser.py:338-342 | Each entry of the composite is the product of the active restrictions' entries. |
| RestrictionsParser.SingleAgreesWithProduct | SEIR/parser/restrictions_section_parser.py:334-335 | The unwrapped single function agrees entrywise with the one-element composite. |
| ConfigParser.ParseFloat | SEIR/parser/config_file_parser.py:16 | float() succeeds iff the text reads as a number, giving that number. |
| ConfigParser.FloatList | SEIR/parser/config_file_parser.py:14 | It succeeds iff every comma-split item is a number. Item k is then the number of piece k. |
| ConfigParser.FloatsOf | SEIR/parser/config_file_parser.py:14 | The same, for any list of items. |
| ConfigParser.FloatListOfDecimals | SEIR/parser/config_file_parser.py:14 | Decimal numbers joined with commas read back as that list. |
| ConfigParser.DecimalsSplit | SEIR/parser/config_file_parser.py:14 | Splitting comma-joined decimals gives them back. |
| ConfigParser.Truth | SEIR/parser/config_file_parser.py:31-34 | True iff the lowered text is yes/yau/true; False iff it is no/nay/false. |
| ConfigParser.TruthIgnoresCase | SEIR/parser/config_file_parser.py:31-34 | The words are recognised in any case. |
| ConfigParser.ModelValue | SEIR/parser/config_file_parser.py:9-16 | With a comma: stripped names for "compartments", floats otherwise. Without one: a single float, failing otherwise (so a single non-numeric name fails). |
| ConfigParser.InitialStateValue | SEIR/parser/config_file_parser.py:24-36 | With a comma, floats; else a float; else a yes/no word; anything else fails. |
| ConfigParser.SimulationValue | SEIR/parser/config_file_parser.py:40-52 | As the initial state, but never failing without a comma, and keeping unknown text verbatim. |
| ConfigParser.SimulationExtendsInitialState | SEIR/parser/config_file_parser.py:24-52 | The two agree wherever the initial-state conversion succeeds. The simulation one fails iff a comma list is not all numbers. |
| ConfigParser.Fill | SEIR/parser/config_file_parser.py:8-16 | It succeeds iff every value converts, and the keys are exactly the section's keys. |
| ConfigParser.FillLastWins | SEIR/parser/config_file_parser.py:9-16 | Each key holds the conversion of its last occurrence. |
| ConfigParser.FindSection | SEIR/parser/config_file_parser.py:9 | config.items(name) succeeds iff the section exists. |
| ConfigParser.WithCompartments | SEIR/parser/config_file_parser.py:19-20 | "compartments" is added as ["All"] only when absent; nothing else changes. |
| ConfigParser.ParseConfig | SEIR/parser/config_file_parser.py:4-53 | A successful parse always has "compartments" in the model dictionary. |
| ConfigParser.ParseConfigSections | SEIR/parser/config_file_parser.py:4-53 | The parse fails iff one of the three sections is missing or holds a value that does not convert; otherwise the dictionaries are the sections' conversions, the model's with the compartments default. |
| ConfigParser.ModelKeys | SEIR/parser/config_file_parser.py:6-20 | The model keys are the section's keys in their written case plus "compartments", which is ["All"] unless given. |
| ConfigParser.SimulationAcceptsPlainValues | SEIR/parser/config_file_parser.py:40-52 | A simulation section without commas never fails. |
| ConfigParser.FillSection | SEIR/parser/config_file_parser.py:24-36 | The dictionary-filling loop computes the specified dictionary or failure. |
| ConfigParser.ParseConfigIni | SEIR/parser/config_file_parser.py:4-53 | The three loops and the default give the specified three dictionaries. |
| SeirModel.FixSize | SEIR/seir.py:244-267 | A number becomes N copies. A list is kept iff it is N long; any other length fails. |
| SeirModel.FixSizeIdempotent | SEIR/seir.py:260-267 | A fixed-size vector passes through unchanged. |
| SeirModel.Normalization | SEIR/seir.py:236-238 | norm[j] * infectious_period[j] * sum(P @ C) = R0 * sum(P). |
| SeirModel.NormalizationEntry | SEIR/seir.py:236-238 | The same identity for one entry. |
| SeirModel.Infectivity | SEIR/seir.py:236-242 | Entry (i, j) is norm[j] * 0.5 * (C[i][j] + C[j][i]): symmetrised, then columns scaled. |
| SeirModel.ScaleColumns | SEIR/seir.py:242 | Broadcasting along the last axis scales column j by norm[j]. |
| SeirModel.Symmetrized | SEIR/seir.py:242 | 0.5 * (C + C.T) is symmetric with entries the mean of the mirrored pair. |
| SeirModel.SymmetrizedFixed | SEIR/seir.py:242 | Symmetrising a symmetric matrix leaves it as it is. |
| SeirModel.InfectivitySymmetric | SEIR/seir.py:236-242 | With a uniform infectious period the infectivity matrix is symmetric. |
| SeirModel.NormalizationUniform | SEIR/seir.py:236-238 | Equal periods give equal normalisations. |
| SeirModel.InfectivityOneCompartment | SEIR/seir.py:236-242 | One compartment with default contacts gives [[R0 / infectious_period]]. |
| SeirModel.Configure | SEIR/seir.py:92-129 | The compartments default to ["All"], a scalar population needs one compartment, a contacts matrix that is not N x N fails, and success gives valid parameters. |
| SeirModel.ConfigureStores | SEIR/seir.py:100-129 | Each stored vector is FixSize of its argument, and the infectivity is that of the given or all-ones contacts. |
| SeirModel.Block | SEIR/seir.py:294-296 | Y[b*N:(b+1)*N]. |
| SeirModel.AddInPlace | SEIR/seir.py:311-313 | `+=` succeeds iff the increment is N long or length one, adding entrywise or broadcast. |
| SeirModel.Flows | SEIR/seir.py:304-307 | Four blocks of N (entries in FlowsEntries). |
| SeirModel.FlowsUnder | SEIR/seir.py:304-307 | Four blocks of N under a given force of infection. |
| SeirModel.FlowsEntries | SEIR/seir.py:304-307 | dS = -(S/P) * force, dE = -dS - E/T_inc, dI = E/T_inc - I/T_inf, dR = I/T_inf. |
| SeirModel.Derivative | SEIR/seir.py:298-314 | dY/dt is 4N long, and it fails iff imports do not broadcast. |
| SeirModel.Conservation | SEIR/seir.py:298-314 | In every compartment dS + dE + dI + dR equals the imports into it (0 without imports). |
| SeirModel.ImportedBalance | SEIR/seir.py:309-313 | Imports added to balanced flows grow the compartment by exactly the imports. |
| SeirModel.FlowsBalance | SEIR/seir.py:304-307 | The flows cancel out in each compartment. |
| SeirModel.ImportsBalance | SEIR/seir.py:309-313 | The same, block by block. |
| SeirModel.DiseaseFree | SEIR/seir.py:304-307 | With no exposed or infected and no imports, dY/dt = 0. |
| SeirModel.FlowsVanish | SEIR/seir.py:304-307 | Each flow block is zero in that state. |
| SeirModel.NoNewInfections | SEIR/seir.py:304 | With no infected, dS = 0. |
| SeirModel.SusceptibleDecrease | SEIR/seir.py:304 | With non-negative states, positive populations and a non-negative infectivity, dS <= 0 without imports. |
| SeirModel.EffectiveInfectivity | SEIR/seir.py:290-291 | Without a restriction it is the stored matrix. With one it succeeds iff the value is a scalar or an N x N matrix, and is then restriction(t) ⊙ infectivity. |
| SeirModel.UnrestrictedInfectivity | SEIR/seir.py:290-291 | A restriction of 1.0 leaves the infectivity as it is. |
| SeirModel.Counts | SEIR/seir.py:353-366 | Counts succeed iff given as a number or N long, giving N entries. |
| SeirModel.InitialStateAccepts | SEIR/seir.py:348-372 | set_initial_state succeeds exactly for fitting fractions or counts that are a number or N long. |
| SeirModel.InitialStateConserves | SEIR/seir.py:348-372 | Each compartment holds exactly its population across S, E, I, R, with R = 0 and E as given. |
| SeirModel.RemainderConserves | SEIR/seir.py:368-372 | S = P - E - I makes the blocks add up to P. |
| SeirModel.InitialFractions | SEIR/seir.py:348-350 | Under probabilities, compartment k gets fraction times its population. |
| SeirModel.ExposedCountSplit | SEIR/seir.py:353-355 | A single count is split as x / N, and the exposed add up to x. |
| SeirModel.SplitEvenly | SEIR/seir.py:353-355 | N copies of x / N add up to x. |
| SeirModel.SumConst | SEIR/seir.py:354 | N copies of x add up to N * x. |
| SeirModel.AtOrAfter | SEIR/seir.py:398-405 | time[time >= t0]: no longer than the queries, each at or after t0. |
| SeirModel.SolutionRows | SEIR/seir.py:397-407 | Exactly time.size rows (layout in SolutionRowsLayout). |
| SeirModel.Solution | SEIR/seir.py:397-407 | The callable fails iff the query array is empty (the solver refuses the empty selection), and otherwise gives SolutionRows. |
| SeirModel.SolutionRowsLayout | SEIR/seir.py:397-407 | One Y0 row per query before t0 comes first, then the dense solution at the remaining queries in order. |
| SeirModel.SolutionRowAt | SEIR/seir.py:397-407 | Row k on its own: Y0 if k is among the first time.size minus the number of kept queries rows, else the dense solution at the matching kept query. |
| SeirModel.AllAfter | SEIR/seir.py:399-400 | If every query is kept, the kept queries are the queries. |
| SeirModel.CountBefore | SEIR/seir.py:406 | The number of Y0 rows is time.size minus the kept queries. |
| SeirModel.SortedSplit | SEIR/seir.py:397-407 | For ascending queries the ones before t0 come first and the rest are exactly those kept. |
| SeirModel.FlatBeforeStart | SEIR/seir.py:397-407 | For ascending queries, row k is Y0 if time[k] < t0, else the dense solution at time[k]. |
| SeirModel.NoRowsBeforeStart | SEIR/seir.py:399-400 | With no query before t0, no Y0 row is inserted. |
| SeirModel.EveryQueryKept | SEIR/seir.py:398-400 | Queries all at or after t0 are all kept. |
| SeirEvaluate.SolutionWidth | SEIR/seir.py:472 | Every solution row is 4N long. |
| SeirEvaluate.Blocks | SEIR/seir.py:473 | np.split(rows, 4, axis=-1)[b]: block b of every row. |
| SeirEvaluate.Where | SEIR/seir.py:470-471 | np.where: ascending in-range indices on the requested side of t0. |
| SeirEvaluate.WhereComplete | SEIR/seir.py:470-471 | Every query on that side is listed. |
| SeirEvaluate.WhereSizes | SEIR/seir.py:470-471 | Every query is on exactly one side. |
| SeirEvaluate.PerIncubation | SEIR/seir.py:479 | v / incubation_period entrywise. |
| SeirEvaluate.PostStartIntegrals | SEIR/seir.py:477-485 | One integral row per query from t0 on (values in the two lemmas below). |
| SeirEvaluate.PostStartFirst | SEIR/seir.py:478-482 | The first integral is the trapezoid of E / T_inc from time 0, not t0, to the first query. |
| SeirEvaluate.PostStartStep | SEIR/seir.py:483-485 | Each later integral adds the trapezoid from the previous query. |
| SeirEvaluate.CumulativeInfected | SEIR/seir.py:486-495 | One row of N per query. |
| SeirEvaluate.Cumulate | SEIR/seir.py:487-489 | The rows before t0 are I at those queries, and the rest are I0 plus the integrals. |
| SeirEvaluate.CumulativeBeforeQueries | SEIR/seir.py:486-493 | Before t0, infected (total) = I0 + (I - I0) = I, in query order, in the first rows. |
| SeirEvaluate.CumulativeAfterQueries | SEIR/seir.py:477-491 | From t0 on, the remaining rows are I0 plus the integral. |
| SeirEvaluate.CumulativeBeforeStart | SEIR/seir.py:470-495 | For ascending queries, a query before t0 gets the initial I. |
| SeirEvaluate.WhereFirst | SEIR/seir.py:471 | For ascending queries, the first indices before t0 are 0, 1, ... |
| SeirEvaluate.WhereAllBefore | SEIR/seir.py:471 | With every query before t0 the indices are all of them. |
| SeirEvaluate.Grid | SEIR/seir.py:498-502 | The extended grid holds the queries after the points added before them. |
| SeirEvaluate.NewCases | SEIR/seir.py:503-505 | One rate row of N per grid time (values in NewCasesSorted). |
| SeirEvaluate.IncubationRates | SEIR/seir.py:504-505 | Rate = probability * block / incubation_period, entrywise. |
| SeirEvaluate.NewCasesSorted | SEIR/seir.py:503-505 | On an ascending grid the rate comes from Y0 when the lagged time is before t0, otherwise from the dense solution at the lagged time. |
| SeirEvaluate.ShiftSorted | SEIR/seir.py:503 | Shifting keeps a grid ascending. |
| SeirEvaluate.Occupancy | SEIR/seir.py:507-510 | One row per max(len, window) of N. |
| SeirEvaluate.OccupancyOneStep | SEIR/seir.py:506-510 | A one-step window gives the rate times dt. |
| SeirEvaluate.GridOccupancy | SEIR/seir.py:498-510 | It succeeds iff the window holds at least one step (np.convolve refuses an empty window). |
| SeirEvaluate.AtQueries | SEIR/seir.py:511-514 | It fails iff masking needs a longer grid. Otherwise cell (k, c) is NaN exactly when masked and before the cutoff, and else the occupancy. |
| SeirEvaluate.ActiveCases | SEIR/seir.py:498-514 | It succeeds iff the window is at least one step and, under masking, no longer than the grid. The result has one row per query. |
| SeirEvaluate.QueriesMask | SEIR/seir.py:511-514 | Under masking a cell is NaN iff its query is before t0 + lag + duration, and otherwise equals the unmasked cell. |
| SeirEvaluate.DeathIntegral | SEIR/seir.py:539-546 | One row of N per query. |
| SeirEvaluate.DeathIntegralSteps | SEIR/seir.py:539-546 | It starts at 0 and adds one trapezoid of p_death * E(t - lag) / T_inc per query. |
| SeirEvaluate.SubtractRow | SEIR/seir.py:551 | Every row minus the chosen row. |
| SeirEvaluate.Deaths | SEIR/seir.py:548-552 | Unmasked, the integral. Masked, NaN iff before t0 + death_lag, and otherwise the integral minus its value at the query nearest that time. |
| SeirEvaluate.DeathsZeroAtStart | SEIR/seir.py:549-551 | The deaths are 0 at the nearest query when it is not before the start. |
| SeirEvaluate.LayoutLength | SEIR/seir.py:576-580 | 1 + groups * (N + 1) columns. |
| SeirEvaluate.LayoutAt | SEIR/seir.py:576-580 | Column 1 + q(N + 1) + c is group q's entry c, or its total at c = N. |
| SeirEvaluate.LayoutFirst | SEIR/seir.py:576 | The first column is 'time'. |
| SeirEvaluate.HeaderAt | SEIR/seir.py:572-580 | The header is 'time', then for each of the 8 quantities N (quantity, compartment) pairs and the quantity. |
| SeirEvaluate.TotalOf | SEIR/seir.py:555-562 | A total is present iff every cell is (NaN propagates). |
| SeirEvaluate.TotalOfSomes | SEIR/seir.py:555-562 | The total of present values is their sum. |
| SeirEvaluate.Quantities8 | SEIR/seir.py:565-569 | Eight groups of N. |
| SeirEvaluate.Table | SEIR/seir.py:565-571 | One row per query. |
| SeirEvaluate.TableAt | SEIR/seir.py:555-571 | Each row has the time, then quantity q of compartment c at 1 + q(N + 1) + c and its total over compartments after them. |
| SeirEvaluate.TableStateTotal | SEIR/seir.py:555-559 | The S, E, I totals are the block sums of the state. |
| SeirEvaluate.Occupancies | SEIR/seir.py:498-536 | Both occupancies succeed iff the hospital (block 1) and ICU (block 2) evaluations both do. |
| SeirEvaluate.Evaluate | SEIR/seir.py:465-582 | It fails iff Y0 is not 4N long, there are fewer than two queries, the step is zero, or an occupancy fails. On success the header is Header and the rows are the table of the solution rows, cumulative infections, both occupancies and the deaths. |
| SeirEngine.SameTable | SEIR/seir.py:565-571 | Tables equal cell by cell are equal. |
| SeirEngine.MatVecOf | SEIR/seir.py:304 | The row-by-row product of the buffer equals m @ v. |
| SeirEngine.CellArray | SEIR/seir.py:507-510 | A fresh array of the rows, all present. |
| SeirEngine.RealArray | SEIR/seir.py:541-546 | A fresh array of the rows. |
| SeirEngine.ToCells | SEIR/seir.py:548-552 | A fresh array of present cells. |
| SeirEngine.MaskRowsBefore | SEIR/seir.py:513 | a[keys < cutoff] = NaN: exactly those rows become NaN and the rest are unchanged. |
| SeirEngine.SubtractRowInPlace | SEIR/seir.py:551 | a -= a[row] against the row as it was before the update. |
| SeirEngine.ReadRows | SEIR/seir.py:514 | The slice a[from:from + count]. |
| SeirEngine.QueriesInPlace | SEIR/seir.py:511-514 | In-place masking then slicing computes the specified query rows. |
| SeirEngine.DeathsInPlace | SEIR/seir.py:548-552 | The in-place shift and mask compute the specified deaths. |
| SeirEngine.Splice | SEIR/seir.py:299-302 | A write through a view keeps the buffer's length. |
| SeirEngine.SpliceThree | SEIR/seir.py:299-302 | Three consecutive views written in turn give x + y + z + the rest. |
| SeirEngine.WriteBlock | SEIR/seir.py:304-307 | A write through a view changes exactly that slice. |
| SeirEngine.FlowsInto | SEIR/seir.py:298-307 | The zeroed buffer, written block by block, holds the four flow blocks. |
| SeirEngine.AddImports | SEIR/seir.py:309-313 | `+=` on the first three views adds the imports (broadcast from length one) and leaves dR. |
| SeirEngine.FlowsOfForce | SEIR/seir.py:304 | The flows under m are the flows under m @ I. |
| SeirEngine.FlowsOf | SEIR/seir.py:294-307 | The force computed from the buffer gives the flows under the buffer's matrix. |
| SeirEngine.CopyInto | SEIR/seir.py:291 | `[:, :] =` makes the buffer's contents the matrix. |
| SeirEngine.ImportInto | SEIR/seir.py:309-313 | Adding the imports in place turns the flows into the derivative with imports. |
| SeirEngine.DerivativeUnimported | SEIR/seir.py:298-314 | Without imports the derivative is the four flow blocks. |
| SeirEngine.DerivativeImported | SEIR/seir.py:309-314 | Flows plus the imports in the first three blocks are the derivative with imports. |
| SeirEngine.Seir.constructor | SEIR/seir.py:129-138 | The buffer starts as a copy of the infectivity matrix, with no Y0 and no solution. |
| SeirEngine.Seir.Create | SEIR/seir.py:92-138 | Construction succeeds iff the arguments are accepted, storing the configured parameters. |
| SeirEngine.Seir.ImportsAt | SEIR/seir.py:309-310 | Imports exist iff there is an imported-cases function. |
| SeirEngine.Seir.RightHandSide | SEIR/seir.py:269-314 | It succeeds iff the restriction is a scalar or N x N and the imports fit, and is then 4N long. |
| SeirEngine.Seir.Restrict | SEIR/seir.py:290-291 | The buffer becomes restriction ⊙ infectivity. The stored matrix is a constant and never changes. |
| SeirEngine.Seir.Infectivity | SEIR/seir.py:290-291 | The buffer holds the effective infectivity at t. It is untouched without restrictions or when the restriction is neither a scalar nor N x N. |
| SeirEngine.Seir.Call | SEIR/seir.py:269-314 | The result equals the pure right-hand side, so it depends only on (t, Y) and never on an earlier call. The buffer is as Infectivity leaves it. |
| SeirEngine.Seir.Derive | SEIR/seir.py:294-314 | Writing the views and adding the imports computes the derivative under the buffer's matrix. |
| SeirEngine.Seir.SetInitialState | SEIR/seir.py:316-372 | Y0 becomes the specified initial state iff it is accepted, and otherwise stays. The solution and t0 are unchanged. |
| SeirEngine.Seir.Simulate | SEIR/seir.py:374-410 | It succeeds iff Y0 is set and 4N long, the first call at (t0, Y0) succeeds, and every later evaluation point the solver picks succeeds. It then stores t0 and the dense solution; it always keeps Y0. |
| SeirEngine.Seir.Evaluate | SEIR/seir.py:412-582 | It fails without a solution, and otherwise equals the specified evaluation with the Y0 current at the call. |
| LegacySeir.EntriesCount | seir/model.py:57 | An n-row matrix of width w has n * w entries. |
| LegacySeir.Contacts | seir/model.py:57-62 | An accepted contacts matrix is N x N. |
| LegacySeir.ContactsGiven | seir/model.py:57-62 | A matrix of two or more entries fails (ambiguous truth value). Otherwise the contacts are all ones, or the single non-zero entry of a one-group engine. |
| LegacySeir.ContactsSymmetric | seir/model.py:57-62 | Whatever contacts are accepted are symmetric. |
| LegacySeir.LegacyInfectivity | seir/model.py:76-78 | normalization * C is N x N. |
| LegacySeir.LegacyInfectivitySymmetric | seir/model.py:76-78 | On symmetric contacts it equals the newer engine's matrix. |
| LegacySeir.LegacyConfigure | seir/model.py:8-65 | Groups default to [(0, 150)] when None or empty, a scalar population needs one group, and a matrix of two or more entries fails. |
| LegacySeir.LegacyConfigureStores | seir/model.py:38-65 | Each stored vector is the fixed-size argument, and the infectivity is that of the accepted contacts. |
| LegacySeir.LegacyRightHandSide | seir/model.py:91-114 | It fails under any restriction function (NameError), on a Y not 4N long, or on imports that do not fit. |
| LegacySeir.LegacyConservation | seir/model.py:101-114 | Per group, dS + dE + dI + dR equals the imports (0 without). |
| LegacySeir.LegacyDiseaseFree | seir/model.py:101-107 | With no exposed or infected and no imports, dY/dt = 0. |
| LegacySeir.LegacyCounts | seir/model.py:127-145 | Accepted counts are N long. |
| LegacySeir.LegacyCountsAccepted | seir/model.py:127-149 | The counts branch succeeds iff all three are N-long arrays (a number hits the undefined _fix_sizes), giving [S, E, I, 0]. |
| LegacySeir.FractionTimes | seir/model.py:124-126 | np.multiply(fraction, population) entrywise. |
| LegacySeir.FractionBroadcast | seir/model.py:124-126 | Broadcasting a fitting fraction gives that product. |
| LegacySeir.FractionsState | seir/model.py:123-149 | [S, E, I, 0] is 4N long. |
| LegacySeir.FractionsAccepted | seir/model.py:123-149 | Fitting fractions are accepted. |
| LegacySeir.LegacyInitialStateTotals | seir/model.py:123-149 | Group k holds the sum of its three fractions times its population, with R = 0. |
| LegacySeir.FractionsStateEntries | seir/model.py:123-149 | Each block of group k is its fraction times the population. |
| LegacySeir.GroupSum | seir/model.py:149 | The four blocks add up to (a + b + c) * P. |
| LegacySeir.LegacyInitialStateWhole | seir/model.py:123-149 | A group starts with exactly its population iff the fractions sum to 1. |
| LegacySeir.RowsNonNegative | seir/model.py:160-167 | Non-negative Y0 and dense states give non-negative rows. |
| LegacySeir.LegacySolution | seir/model.py:160-167 | It fails iff no query is at or after 0 (the solver is handed an empty selection), and otherwise gives the solution rows from t0 = 0. |
| LegacySeir.LegacySolutionRows | seir/model.py:160-167 | time.size rows; with queries all >= 0 the dense rows at them; with queries all negative a failure. |
| LegacySeir.KeptIffSome | seir/model.py:161-163 | time[time >= 0] is empty exactly when no query is at or after 0. |
| LegacySeir.LaggedSolvable | seir/model.py:180-181 | SEIR_solution(time - lag) has a query at or after 0 iff time has one at or after lag. |
| LegacySeir.Running | seir/model.py:178 | cumsum keeps the shape. |
| LegacySeir.RunningSteps | seir/model.py:178 | The running total holds the first k + 1 days, starting at day 0 and adding each next day. |
| LegacySeir.RunningNonDecreasing | seir/model.py:212 | Running sums of non-negative values never decrease. |
| LegacySeir.CumulativeInfected | seir/model.py:177-178 | Icumulative is the running sum of E / T_inc per group. |
| LegacySeir.NewInfections | seir/model.py:177 | One row of N per query. |
| LegacySeir.WindowLength | seir/model.py:187 | np.ones(d) succeeds iff d is a non-negative int. |
| LegacySeir.LaggedCases | seir/model.py:181-186 | One row of N per query. |
| LegacySeir.LegacyEvaluate | seir/model.py:171-213 | It succeeds iff Y0 is 4N long, time has an entry at or after 0 and at or after each of the hospital, ICU and death lags, the hospital duration is an int >= 1 and the ICU duration an int >= 0. The 7 results have the stated shapes. |
| LegacySeir.LegacyEvaluateParts | seir/model.py:171-213 | S, E, I, R are the blocks of the solution rows, and the deaths are the running sum of the lagged new deaths. |
| LegacySeir.FourBlocks | seir/model.py:174 | The four blocks concatenate to the row. |
| LegacySeir.LegacyEvaluateStates | seir/model.py:173-174 | S + E + I + R at a query concatenate to the solution row. |
| LegacySeir.LegacyOccupancies | seir/model.py:185-204 | Both occupancies convolve with the hospital window; ICU reads block 2. |
| LegacySeir.LegacyIcuDurationUnused | seir/model.py:199 | icu_duration only has to be a valid length: any other gives the same results. |
| LegacySeir.LegacyDeaths | seir/model.py:207-212 | Deaths are the running sum of p_death * E(t - lag) / T_inc. |
| LegacySeir.LegacyDeathsNonDecreasing | seir/model.py:207-212 | With non-negative states and probabilities the deaths never decrease. |
| LegacySeir.LaggedCasesNonNegative | seir/model.py:181-186 | Non-negative states, probability and period give non-negative new cases. |
| LegacySeir.NonNegativeRate | seir/model.py:185-186 | p * (E / T) >= 0 for non-negative inputs. |
| LegacySeir.LegacyEngine.constructor | seir/model.py:67-71 | The functions are stored, with no Y0 and no solution. |
| LegacySeir.LegacyEngine.Create | seir/model.py:8-71 | Construction succeeds iff the arguments are accepted. |
| LegacySeir.LegacyEngine.ImportsAt | seir/model.py:109-110 | Imports exist iff there is an imported-cases function. |
| LegacySeir.LegacyEngine.RightHandSide | seir/model.py:91-114 | A result needs no restriction function and a 4N-long Y. |
| LegacySeir.LegacyEngine.SetInitialState | seir/model.py:116-149 | Y0 becomes the specified state iff it is accepted, and otherwise stays. |
| LegacySeir.LegacyEngine.Simulate | seir/model.py:151-169 | It succeeds iff Y0 is set, the first call at (0, Y0) succeeds (so never with a restriction function), and every later evaluation point the solver picks succeeds; it then stores the dense solution. |
| LegacySeir.LegacyEngine.Evaluate | seir/model.py:171-213 | It fails without a solution, and otherwise equals the specified evaluation with the current Y0. |

## Left out

- The ODE integration (`solve_ivp`, DOP853, the dense interpolant): a foreign library. The dense solution is the function parameter `dense`, assumed to return 4N entries at every time. The points after the first at which the solver evaluates the right-hand side are the parameter `later` of both `Simulate` methods, each a 4N-long state; which points the solver picks is not modelled. `max_simulation_time`, `max_step`, `method` and the older engine's `days_to_simulate` only steer the solver, so they are not parameters.
- Floating point: arithmetic is exact `real`. Rounding, overflow, the accuracy of trapz/cumtrapz/convolve, and infinities and NaN from dividing by zero are not modelled. A zero period, a zero population entry or a zero `sum(P @ C)` is refused when the parameters are configured, where NumPy would produce inf or NaN with a warning. NaN appears only as the masked cell `None`.
- `_get_infectivity_modifier_from_file` and `config.read`: file I/O. The file loader is the parameter `load`, with a missing file or a wrong shape as `None`.
- `update_parameters`: it only raises NotImplementedError.
- pandas: the DataFrame is the header sequence plus the rows.
- Plotting, the command-line front ends, the web front ends and the notebook widgets.
- `T_immunity` of the older engine: accepted and never read.
- Durations, lags and R0 given as arrays rather than numbers are not modelled. Probabilities, periods and the population may be numbers or lists in `SEIR/seir.py`, and numbers or NumPy arrays in `seir/model.py`.
- LegacySeir.LegacyConfigure and LegacySeir.LegacyCounts: a per-group vector stands for an `np.ndarray`. A plain Python list fails in the source (`_fix_size` reads `x.size`, and `set_initial_state` leaves S, E or I unbound), and the model does not distinguish a list from an array.
- configparser's own processing is not modelled. The model does not capture `[DEFAULT]` keys merged into every section by `config.items(name)`, `%` interpolation of values, or the refusal of duplicate sections and keys at read time. So ConfigParser.FillLastWins and RestrictionsParser.Lookup also cover duplicate keys that a strict configparser never passes on.
- SeirModel.EffectiveInfectivity: accepts only a scalar or an N x N matrix, the two forms the constructor docstring names (SEIR/seir.py:83-89). Other values NumPy would broadcast against the N x N matrix (a length-N row, an N x 1 column, a 1 x 1 array) are refused here though the source would multiply them.
- SeirModel.SolutionRows: gives no rows for an empty query array, where the source refuses. SeirModel.Solution models that failure. `evaluate_solution` fails for fewer than two queries in any case, so the difference never reaches its results.
- Text.ParseInt: Python's `int()` forms with digit-group underscores and non-ASCII Unicode digits are not modelled, only ASCII decimal digits with an optional sign.
- Text.ParseReal: Python's `float()` forms `inf`, `nan` and digit-group underscores are not modelled, only decimal text with an optional sign, point and exponent.
- Text.Lower: lowers ASCII letters only, not the rest of Unicode.
- The error messages and exception types: every failure is the payload-free `Fail`. So the NameError of the undefined `section_name`, the ValueErrors and the AssertionErrors are indistinguishable.
- SeirModel.Flows: its own contract states only the block sizes. The entries are stated by SeirModel.FlowsEntries.
- SeirEvaluate.NewCases: its own contract states only the shape. The entries are stated by SeirEvaluate.IncubationRates and SeirEvaluate.NewCasesSorted.
- SeirEvaluate.PostStartIntegrals: its own contract states only the shape. The values are stated by SeirEvaluate.PostStartFirst and SeirEvaluate.PostStartStep.
- SeirEvaluate.Occupancy: states only the shape of the 'same' convolution. The values are stated by Numeric.BoxcarIdentity, Numeric.BoxcarCentered (odd widths) and Numeric.BoxcarEven (even widths) for windows no longer than the signal; a window longer than the signal is not characterised beyond the definition.
- LegacySeir.LegacyInfectivity: states the shape and agreement with the newer engine on symmetric contacts. The R0 normalisation it shares with SeirModel.Normalization is not restated.
- The composite restriction function and a single restriction are values (`Restriction`, `Composed`) evaluated by `ProductAt`/`RestrictionAt`, rather than Python closures.
