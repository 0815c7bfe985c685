# ASPyRe atom mapping and rendering, in Dafny

This project is a verified model of the core of ASPyRe/ASPyViz. The tool
turns the text output of the answer-set solver clingo into pictures of the
answer sets. The model covers that pipeline:

- Cutting the solver output into metadata and answer sets
  (`extract_models`).
- Cutting one answer set into atom tokens (`extract_atoms`).
- Binding each token to the first registered atom type whose pattern
  matches at its start, and extracting its arguments with the
  capture-group rewrite of `get_args`.
- Collecting the atoms' reference points without duplicates, averaging
  them (`calculate_centroid`) and moving that mean to the canvas centre.
- Drawing the atoms stably sorted by `get_order`, after a white
  background and before the title and the optional answer-set text
  (`render_model`).
- Building the registry from the members of a mapping module
  (`load_atoms`, `format_file_name`).
- Choosing a fresh output directory (`generate_directory_name`).

Three older versions that still ship alongside it are modelled as well:

- `main.py`'s `render`. It dispatches road first, then boundary, reads
  coordinates with `findall(\d+)`, counts repeated end points in the
  centroid and draws in token order.
- `AtomSmasher/Atoms.py`: roads, boundaries and intersections with other
  widths, colours and orders.
- `atoms/Atoms.py`: roads and boundaries with inline arity checks.

Modules, in dependency order:

- `Wrappers`: `Option`, `Result`, `Outcome` and the error values the
  Python code raises.
- `Strings`: the string operations used, such as `replace`, `in`, `strip`,
  the whitespace split and decimal digits.
- `ClingoText`: the cutter for `SATISFIABLE|Answer: \d*`, a dedicated
  leftmost-marker scanner rather than a regex engine.
- `AtomPattern`: atom regexes of the one grammar every atom type uses
  (`name\(P1,...,Pk\)` with `\d*` or `\w+` placeholders), kept as a name
  and a placeholder list. It also covers the three-step rewrite into a
  capture template, anchored matching and search, and `int()` on a group.
- `Atoms`: `src/AtomSmasher/Atoms.py`.
- `AtomImporter`: `src/AtomSmasher/AtomImporter.py`.
- `Canvas`: the primitives drawn, and a `Drawing` class whose element list
  methods append to.
- `Centroid`: `calculate_centroid`.
- `AspyViz`: `extract_models`, `extract_atoms` and
  `generate_directory_name` of `src/aspyviz.py`.
- `Render`: `render_model` of `src/aspyviz.py`.
- `LegacyAtoms`: `AtomSmasher/Atoms.py`.
- `FirstAtoms`: `atoms/Atoms.py`.
- `LegacyMain`: `render` of `main.py`. Its `extract_answer_sets` and
  `extract_atoms` are the same code as the newer ones, so the `AspyViz`
  members model them as well.

Coordinates and the mean are exact reals. Python's integer arguments are
unbounded integers, as in Python. An atom argument is a number or a text
(`IntArg` or `StrArg`). Python arithmetic on a text raises `TypeError`,
which the model keeps as an error.

Each stateful routine is a method with loops and invariants. `get_args`,
`calculate_centroid`, `load_atoms`, `render_model` and `render` are proved
equal to specification functions. For `generate_directory_name` the
contract states directly that its result is free and space-free: the
default path when it is free, and otherwise the default followed by the
least `[n]` that is free. The properties are lemmas about those functions.

Behaviour of the code that the model keeps:

- Tokens are split at every single whitespace character, so empty tokens
  between adjacent whitespace are kept.
- An arity error or a `TypeError` while binding or drawing an atom
  propagates and ends the render pass: in the model the pass stops with
  that error, after the background.
- A model with no matched atom divides by zero in `calculate_centroid`
  (`ZeroDivision`).
- The satisfiability guard is a substring test, so `UNSATISFIABLE` passes
  it.
- `scaling` is any integer, negative and zero included.

## Model

| member | source | states |
|---|---|---|
| AtomPattern.RewriteYieldsCaptureGroups | src/AtomSmasher/Atoms.py:34 | the three replacements turn `name\(P1,...,Pk\)` into `name\((P1),...,(Pk)\)`, one group per placeholder in order, and `name\(\)` into `name\(()\)` |
| AtomPattern.TemplateMatchesLikePattern | src/AtomSmasher/Atoms.py:34-36 | the capture template matches a token at its start exactly when the atom's own pattern does, with the same groups; a pattern without placeholders captures one empty group |
| AtomPattern.MatchAtIsExact | src/AtomSmasher/Atoms.py:35-36 | an anchored match captures texts each fitting its placeholder, and the token starts with the name followed by those texts between parentheses and commas; conversely any such texts are the match |
| AtomPattern.SearchFindsMatchAtStart | src/AtomSmasher/Atoms.py:36 | when the template matches at the start, `search` returns that leftmost match |
| AtomPattern.ParseIntOfDigits | src/AtomSmasher/Atoms.py:39-43 | `int()` of a digit run succeeds exactly when the run is non-empty, with its decimal value; the empty run raises `ValueError` |
| AtomPattern.ArgsOf | src/AtomSmasher/Atoms.py:35-44 | `get_args` fails exactly when the search finds no match, and otherwise returns one value per capture group |
| AtomPattern.ArgsOfMatchedToken | src/AtomSmasher/Atoms.py:32-44 | for a token the pattern matches: one argument per placeholder in order; a digit group becomes its value times `scaling`, or the text `""` when empty; a word group becomes a number when `int()` accepts it, and otherwise stays the text |
| AtomPattern.ArgsOfBareName | src/AtomSmasher/Atoms.py:34-44 | a pattern without placeholders yields the single argument `""` |
| Atoms.GetArgs | src/AtomSmasher/Atoms.py:32-44 | the loop over the capture groups returns exactly `ArgsOf`: each group converted in turn, or the no-match error |
| Atoms.ValidateCardinality | src/AtomSmasher/Atoms.py:52-55 | passes exactly when the parameter count equals the cardinality, and otherwise raises the arity error naming received count, atom name and expected count |
| Atoms.ShippedPatternsFitArity | src/AtomSmasher/Atoms.py:58-348 | every shipped pattern is well formed, and its placeholder count equals the cardinality its class checks |
| Atoms.MatchedTokenPassesValidation | src/AtomSmasher/Atoms.py:52-62 | arguments extracted from a token a shipped pattern matches always pass that atom's arity check, so `get_points` succeeds on them |
| Atoms.GetPointsShape | src/AtomSmasher/Atoms.py:83-348 | `get_points` raises exactly on an arity mismatch; it returns `[(p0,p1),(p2,p3)]` for four-coordinate atoms and for `sub_plot`, and `[(p0,p1)]` for two-argument atoms |
| Atoms.SubplotFill | src/AtomSmasher/Atoms.py:269-274 | fill `#D3D3D3` for `urban`, `green` for `green_space`, and `""` for anything else |
| Atoms.DrawSpec | src/AtomSmasher/Atoms.py:72-339 | `draw` raises the arity error before reading any parameter; with the right arity it succeeds exactly when every coordinate is a number, and otherwise raises `TypeError`; the result is the kind's styled primitive: lines and circles at the points shifted by the offset, plot rectangles inset by 1 and 2 smaller than the span, the sub-intersection square at its point |
| Atoms.DrawTranslates | src/AtomSmasher/Atoms.py:72-339 | changing the offset by `(dx, dy)` translates the drawn primitive by `(dx, dy)` and changes nothing else |
| Atoms.OrderLayers | src/AtomSmasher/Atoms.py:48-342 | the layering: boundary = plot < sub_plot < road = main_road = side_road < sub_intersect < ingress < intersect, with orders 0 (boundary and plot), 3 (sub_plot), 4 (the three roads), 5 (sub_intersect), 6 (ingress) and 7 (intersect) |
| Atoms.PatternsDistinct | src/AtomSmasher/Atoms.py:60-325 | distinct atom kinds have distinct patterns |
| AtomImporter.FormatFileNameIsTwoReplacements | src/AtomSmasher/AtomImporter.py:11-17 | the `in` guards change nothing: the result is the slash replacement followed by the `.py` deletion |
| AtomImporter.FormatFileNameSpec | src/AtomSmasher/AtomImporter.py:11-17 | the result holds no `/` and is never longer than the input; an input with neither `/` nor `.py` is returned unchanged; the result is the slash-replaced text cut at each `.py` from left to right and rejoined, and no piece holds `.py` |
| AtomImporter.FormatFileNameExample | src/AtomSmasher/AtomImporter.py:11-17 | `atoms/my.py` becomes `atoms.my` |
| AtomImporter.PutSpec | src/AtomSmasher/AtomImporter.py:35 | dict assignment: the key then holds the new instance and every other key keeps its value; an existing key keeps its position; a new key goes last; keys stay distinct |
| AtomImporter.LoadAtoms | src/AtomSmasher/AtomImporter.py:25-37 | the loop over the module's members builds exactly `Registered` of the members of the normalised module name |
| AtomImporter.RegisteredSpec | src/AtomSmasher/AtomImporter.py:29-36 | keys are distinct and in the order of first registration; each key holds the last-visited atom class registered under it; each entry is filed under its own pattern; the entry count is the number of distinct patterns |
| AtomImporter.OnlySubclassesRegistered | src/AtomSmasher/AtomImporter.py:31-35 | a module with no proper subclass of `Atom` (the base class or other values only) gives an empty registry |
| ClingoText.MarkerLength | src/aspyviz.py:35 | a non-empty marker starts the text exactly when it begins with `SATISFIABLE` or `Answer: `, and it never runs past the text |
| ClingoText.MarkerShape | src/aspyviz.py:35 | a marker cut out is `SATISFIABLE`, or `Answer: ` followed by digits only, and an answer header takes every digit that follows it, as `\d*` does |
| ClingoText.AnswerTakesAllDigits | src/aspyviz.py:35 | the segment after an `Answer: ` marker is empty or begins with a non-digit, so no digit of the answer number leaks into it |
| ClingoText.CutRejoins | src/aspyviz.py:35 | the segments and the markers cut out, interleaved, give back the text |
| ClingoText.SegmentsHoldNoMarker | src/aspyviz.py:35 | no segment holds `SATISFIABLE` or `Answer: ` |
| AspyViz.ExtractModelsSpec | src/aspyviz.py:31-38 | raises the unsatisfiable-input error exactly when `SATISFIABLE` is not a substring; otherwise the metadata is the flattened text before the first marker, the answer sets are the segments between consecutive markers in order (k markers give k−1 sets), and none holds a line break or a marker; an answer set after an `Answer: ` marker never begins with a digit, as `\d*` takes the whole answer number; `extract_answer_sets` in main.py:50-57 is the same code |
| AspyViz.UnsatisfiableOutputPassesGuard | src/aspyviz.py:32-36 | the output `UNSATISFIABLE` passes the guard and gives the metadata `UN` and no answer set |
| Strings.StripSpec | src/aspyviz.py:43 | `strip` keeps the text between the leading and the trailing whitespace runs, and the result neither starts nor ends with whitespace |
| Strings.SplitAtSpacesSpec | src/aspyviz.py:43 | splitting at single whitespace gives one token more than there are whitespace characters; no token holds whitespace; tokens and separators interleaved give the text back |
| AspyViz.ExtractAtomsSpec | src/aspyviz.py:42-43 | the tokens of the stripped answer set: no token holds whitespace, empty tokens between adjacent whitespace are kept, and there is one more token than whitespace characters; the older `extract_atoms` in main.py:60-61 is the same code |
| AspyViz.DefaultDirectory | src/aspyviz.py:114-122 | the default path holds no space |
| AspyViz.SuffixedDistinct | src/aspyviz.py:126-129 | distinct counts give distinct `name[n]` candidates |
| AspyViz.GenerateDirectoryName | src/aspyviz.py:113-131 | with the timestamp passed in and the file system as a finite set of paths: the result does not exist and holds no space; it is the default path when that is free, and otherwise `path[n]` for the least `n >= 1` that is free; the search terminates |
| Centroid.CalculateCentroid | src/aspyviz.py:47-55 | the loop and the sums compute exactly `Centroid` |
| Centroid.SumArgsSpec | src/aspyviz.py:53-54 | `sum` succeeds exactly when every coordinate is a number, and then gives their total |
| Centroid.CentroidSpec | src/aspyviz.py:47-55 | fails with `TypeError` when a coordinate is a text, with division by zero on no points, and otherwise gives (Σx/n, Σy/n) |
| Centroid.CentroidWithinBounds | src/aspyviz.py:47-55 | the centroid lies within any bounds that all the points lie within |
| Centroid.CentroidPermutation | src/aspyviz.py:85 | any ordering of the same points gives the same centroid, so the iteration order of the set does not matter |
| Centroid.OffsetCentres | src/aspyviz.py:85-87 | shifting every point by the target minus the centroid puts the mean of the shifted points at the target |
| Render.LookupIndex | src/aspyviz.py:72-73 | the first registry position, in key order, whose pattern matches at the start of the token, or the registry length; no earlier entry matches |
| Render.BindToken | src/aspyviz.py:71-81 | the inner loop over the keys, `get_args` and `get_points` compute exactly `Bind` |
| Render.BindSpec | src/aspyviz.py:72-81 | an unmatched token is not bound and raises nothing; a bound token holds the first matching entry's instance and exactly the `get_args` arguments, as many as its arity; a failure comes from `get_args` or `get_points` of that entry |
| Render.FiledBindSucceeds | src/aspyviz.py:72-78 | with each instance filed under its own pattern, binding never raises |
| Render.OneKindMatches | src/aspyviz.py:72-73 | no token matches the patterns of two different shipped kinds |
| Render.LookupUnique | src/aspyviz.py:72-73 | in a filed registry with distinct keys, the matching entry is the only one |
| Render.BindIgnoresKeyOrder | src/aspyviz.py:72-81 | for filed registries with distinct keys, the key order changes nothing about binding |
| Render.AddPointsSpec | src/aspyviz.py:63-78 | adding to the point set: the result holds exactly the old and new points, stays duplicate-free, and extends the old contents |
| Render.AddAll | src/aspyviz.py:77-78 | the loop adding a token's points computes exactly `AddPoints` |
| Render.PreprocessTokens | src/aspyviz.py:66-83 | the token loop computes exactly `Preprocess` |
| Render.PreprocessSpec | src/aspyviz.py:70-83 | the loop succeeds exactly when every token binds; otherwise its error is that of the first token that raises; on success, the bound atoms are the matched tokens in token order, and the points are the duplicate-free union of their points in first-insertion order |
| Render.PointsAreDistinctUnion | src/aspyviz.py:63-78 | the collected points are duplicate-free, and are exactly the points of the bound atoms |
| Render.UnmatchedTokensIrrelevant | src/aspyviz.py:82-83 | dropping the unmatched tokens changes nothing |
| Render.FiledPreprocessSucceeds | src/aspyviz.py:70-83 | with a filed registry, the token loop never raises |
| Render.PreprocessIgnoresKeyOrder | src/aspyviz.py:70-83 | for filed registries with distinct keys, the key order changes nothing about the token loop |
| Render.SortByOrderSpec | src/aspyviz.py:90 | the sort is ordered by `get_order`, is a permutation, and keeps the token order among atoms of equal order |
| Render.EmitSpec | src/aspyviz.py:92-95 | the draw loop appends the primitives of the leading successful calls; it runs to the end exactly when every call succeeds, and otherwise stops with the first error |
| Render.DrawAllSpec | src/aspyviz.py:92-95 | the same, stated with `draw` of each bound atom |
| Render.DrawAtoms | src/aspyviz.py:92-95 | the draw loop appends exactly `DrawAll`'s primitives and reports its outcome; size and pixel scale stay |
| Render.DrawModel | src/aspyviz.py:89-98 | sort, draw loop, title and optional atom text append exactly `Layered` |
| Render.RenderModel | src/aspyviz.py:58-99 | `render_model` appends exactly `RenderedModel`'s primitives to the drawing, reports its outcome, sets the pixel scale to 1 and keeps the size |
| Render.LayeredSpec | src/aspyviz.py:90-98 | after the centroid the atoms are drawn sorted, permuted and stable; the pass completes exactly when every sorted atom draws; then it holds one primitive per atom in draw order, then the title, then (only if asked for) the answer set with spaces turned into line breaks; otherwise it stops at the first atom that fails, with that atom's error |
| Render.TokenErrorStopsRender | src/aspyviz.py:70-83 | an error in the token loop leaves only the background, with the error of the first token that raises |
| Render.CentroidErrorStopsRender | src/aspyviz.py:85 | no points gives division by zero, and a text coordinate gives `TypeError`, each with only the background drawn |
| Render.NothingMatchedDividesByZero | src/aspyviz.py:70-85 | an answer set with no matched token ends with division by zero after the background |
| Render.FiledZeroDivisionIffNothingMatched | src/aspyviz.py:70-85 | with a filed registry, the pass ends with division by zero exactly when no token matched |
| Render.RenderCentres | src/aspyviz.py:85-87 | the offset puts the mean of the deduplicated, shifted points at the canvas centre (250, 250) |
| Render.PointOrderIrrelevant | src/aspyviz.py:85 | any listing of the point set gives the same centroid |
| Render.RenderIgnoresKeyOrder | src/aspyviz.py:58-99 | for filed registries with distinct keys, the key order does not change the drawing |
| LegacyAtoms.PatternsFitArity | AtomSmasher/Atoms.py:32-118 | each pattern's placeholder count is its atom's cardinality |
| LegacyAtoms.GetPointsSpec | AtomSmasher/Atoms.py:27-118 | `get_points` and `draw` raise the arity error exactly on a wrong count, before reading a parameter; road and boundary give both end points, intersect its single point |
| LegacyAtoms.DrawSpec | AtomSmasher/Atoms.py:44-109 | `draw` succeeds exactly on numeric coordinates, and otherwise raises `TypeError`; it gives a grey width-5 road line, a red width-2 boundary line and a blue radius-1 intersection circle, at the points shifted by the offset |
| LegacyAtoms.OrderLayers | AtomSmasher/Atoms.py:24-112 | the layering: boundary (the default order) < road < intersect |
| LegacyAtoms.AgreesWithNewerLines | AtomSmasher/Atoms.py:44-90 | boundaries draw as in the newer library; roads draw the same line at width 5 instead of 6; both find the same points |
| FirstAtoms.DrawSpec | atoms/Atoms.py:32-79 | `draw` and `get_points` raise exactly when the count is not 4, with their own messages; `get_points` gives `[(p0,p1),(p2,p3)]`; `draw` succeeds exactly on numeric coordinates and gives the line from `(p0+x_adj, p1+y_adj)` to `(p2+x_adj, p3+y_adj)` |
| FirstAtoms.SameAsLater | atoms/Atoms.py:32-79 | the later library draws these atoms identically and finds the same points; only the `get_points` arity message differs |
| LegacyMain.DigitRuns | main.py:74 | every run is a non-empty string of digits |
| LegacyMain.DigitRunsSpec | main.py:74 | the runs, joined, are exactly the digits of the token in order |
| LegacyMain.FindallAgreesWithGetArgs | main.py:74-80 | for a road or boundary token spelling four non-empty numbers, the four values read are the numeric arguments `get_args` extracts at scaling 1 |
| LegacyMain.RoadOrBoundary | main.py:73-78 | no token matches both the road and the boundary pattern, so the road-first order decides nothing |
| LegacyMain.ObjectOfSpec | main.py:73-84 | one token: a road or boundary token with fewer than four digit runs raises `IndexError`; any other unmapped token gives no object; a mapped token gives a road exactly when the road pattern matches, with its first four digit runs as coordinates |
| LegacyMain.CollectSpec | main.py:72-84 | the token loop raises `IndexError` exactly when a road or boundary token has fewer than four digit runs; otherwise it keeps one object per road or boundary token, in token order, with the right kind and the token's first four digit runs as coordinates; other tokens are dropped |
| LegacyMain.CollectObjects | main.py:72-84 | the token loop computes exactly `Collect` |
| LegacyMain.SumEndpoints | main.py:87-101 | the accumulator loop computes exactly `LegacyCentroid`, two points per object, and divides by zero when there is no object |
| LegacyMain.LegacyCentroidCountsRepeats | main.py:87-101 | the centroid is the mean of both end points of every object, repeats counted |
| LegacyMain.RepeatsMoveTheCentre | main.py:90-101 | two roads sharing an end point give centre x 1.5, where the newer deduplicated mean gives 2 |
| LegacyMain.DrawLines | main.py:104-108 | the draw loop appends one shifted line per object, in token order |
| LegacyMain.LegacyRender | main.py:64-113 | `render` appends exactly `LegacyRendered`'s primitives, reports its outcome, sets the pixel scale to 1 and keeps the size |
| LegacyMain.LegacyRenderedSpec | main.py:64-111 | the pass completes exactly when the token loop does and some object was kept; then it draws the background, one line per object in token order (grey width 5 for roads, red width 2 for boundaries, shifted alike), the title and the raw answer set; otherwise only the background, with `IndexError` or division by zero |
| LegacyMain.LegacyCentres | main.py:100-103 | the offset puts the mean of all end points, repeats counted, at the canvas centre |

## Left out

- drawSvg: the primitives are a datatype, and `Drawing` keeps their list.
  Rendering to SVG or PNG (`savePng`) is not modelled. A style attribute
  the code does not pass is the empty string.
- `Canvas.Primitive`: has no field for `stroke_transparency=0`, which the
  intersection circle, the plot rectangle and the sub-plot rectangle pass
  (src/AtomSmasher/Atoms.py:170, 235, 278). It also has no field for
  `fill_opacity=1`, which the two rectangles pass (Atoms.py:235, 278).
  These are rendering attributes that nothing in the core reads.
- File input and output, `validate_io_parameters`, `write_raw_clingo_to_file`,
  `parse_clingo_output_file`, `os.mkdir`, the `render_models` and `main`
  orchestration (src/aspyviz.py:162-249) and `main.py`'s command line: I/O
  plumbing outside the core.
- Command-line parsing (`argparse`, `getopt`): plumbing.
- `import_module` and `inspect.getmembers`: a foreign runtime service.
  `LoadAtoms` takes a function from the module name to its members, in
  the order `getmembers` lists them.
- `AtomImporter.LoadAtoms`: user-defined atom classes are not modelled.
  The members are the shipped kinds, the base class and other values.
- `datetime.now` and `time.time`: the timestamp is a parameter of
  `GenerateDirectoryName`, and `os.path.exists` is membership in a finite
  set of paths.
- `get_random_colour`: nondeterministic and unused by the core.
- Logging and `print`: output only.
- Floating point: the mean, the offsets and the font sizes are exact reals.
- Python's `\d`, `\w` and `int()` accept non-ASCII digits and letters. The
  model admits ASCII digits, letters and `_` only.
- A general regex engine: only the atom-pattern grammar and the two-marker
  cutter are modelled.
- The registry is keyed by the pattern value rather than by its regex
  text. Distinct patterns have distinct texts, so this changes nothing
  for the shipped kinds.
- The base `Atom.get_name` calls an unbound method and would fail, but
  every shipped subclass overrides it. `NameOf` models the overrides only.
- `Render.SortByOrderSpec`: `list.sort` sorts `atoms_and_orders` in
  place. The model sorts a value with a stable insertion sort, and
  `DrawModel` draws the result.
- `LegacyMain.FindallAgreesWithGetArgs` covers tokens whose four numbers
  are all non-empty. With an empty number (`road(,1,2,3)`), `findall`
  reads a later run or raises `IndexError`, where `get_args` yields `""`.
  That case is modelled by `FindallArgs` but not compared.
- `main.py`'s unreachable "unrecognised city object" branch (lines 98-99)
  has no counterpart, since every collected object is a road or a
  boundary.
