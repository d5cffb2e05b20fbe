# ClientWriter core, modelled in Dafny

Tensile's `ClientWriter.py` writes the configuration and parameter files for the benchmark
client. Most of it is glue: shell scripts, subprocesses, file output and C++ text. This project
models the deterministic part that decides what those files say, and proves it:

- **`problemSizeParams`** (module `StrideParams`). For one benchmark problem it computes:
  - the A/B/C/D stride lists: the problem's own strides, or `-1` "unset" markers;
  - the `setConstStrideA/B` pins, each applied to the slot its index kind selects;
  - the plain or "Exact" size format, where Exact fills in or cross-checks the leading dimensions;
  - the bias stride triple;
  - the ordered `(key, value)` list it returns.

  Every exception the Python code can raise becomes an `Error` value:
  - an out-of-range subscript (`IndexError`);
  - the free-index assertion;
  - the lda/ldb conflicts;
  - the invalid size count;
  - the bias stride that is too small.

  They are checked in the order the source checks them. Python's negative list subscripts are
  modelled (`Lists.Resolve`). The step-by-step methods are proved equal to the specification
  functions, and the lemmas state what those functions mean.
- **`checkConstStride`**: last-match lookup in a pair list, a loop proved against its meaning.
- **`getMaxSolutionSizes`** (module `SolutionSizes`): the running maxima of the macro tiles and
  the maximal summation size. Its error cases are an empty size list and a solution whose
  work-group or thread-tile list is too short.
- **`dataInitParams`, `DataInitName`, `boundsCheckName`, `pruneModeName`, `toCppBool` and the
  `num-elements-to-validate` rule** (module `ClientParams`):
  - the enumeration of data-initialisation kinds, with its gap at 22;
  - the A/B fallback and the beta override;
  - the small code-to-name tables and their inverses.
- **The function numbering of `writeClientParameters`** (module `FunctionNumbering`). The
  `(schedule, problemType)` list is processed as follows:
  1. grouped by data type, then by problem type;
  2. sorted: data types by value, problem types and schedules by their `str`;
  3. numbered with six counters per function.

  Each of the three loops is a method proved against a specification of its result. The
  lemmas connect them to the function list itself:
  - one row per function;
  - serial numbers `0..n-1`;
  - counters that restart per data type and per problem type;
  - as many problem types as there are distinct ones;
  - data types strictly increasing.

Supporting modules:
- `Wrappers` holds `Option` and `Result`.
- `Lists` holds Python subscripts, `max`, slices and duplicate-freedom.
- `Sorting` holds Python's code-point order on strings and the sorts by key.
- `Contractions` holds the index kinds (`FreeIndex`, `BatchIndex`, `BoundIndex`) and the
  fields of the problem type and problem that `problemSizeParams` reads.

Two facts about the code shape the model:
1. Without explicit strides, the code writes `-1` into every slot that is not pinned. It does
   not compute packed default strides (`StrideParams.DefaultStrides`).
2. The numbering first groups the functions by first appearance, then sorts each group
   separately (`FunctionNumbering.Group`, `FunctionNumbering.SortGroups`).

## Model

| member | source | states |
|---|---|---|
| Lists.Resolve | tensilelite/Tensile/ClientWriter.py:378-383 | a Python subscript of a length-n list is defined exactly for -n..n-1 and denotes k, or k+n when negative |
| Lists.Prefix | tensilelite/Tensile/ClientWriter.py:435 | the slice `sizes[:n]` holds the first n elements, or the whole list when it is shorter |
| Lists.Max | tensilelite/Tensile/ClientWriter.py:451 | `max` is an upper bound of both arguments and equals one of them |
| Sorting.LexLeTotal | tensilelite/Tensile/ClientWriter.py:834-838 | any two str keys are comparable in Python's string order |
| Sorting.LexLeTransitive | tensilelite/Tensile/ClientWriter.py:834-838 | Python's string order is transitive |
| Sorting.LexLeAntisymmetric | tensilelite/Tensile/ClientWriter.py:834-838 | two strings that are ordered both ways are equal |
| Sorting.SortBy | tensilelite/Tensile/ClientWriter.py:834-838 | `sorted(xs, key=str)` is a permutation of xs whose keys are in ascending order |
| Sorting.Sort | tensilelite/Tensile/ClientWriter.py:832 | `sorted(dataTypes)` is a permutation in ascending order |
| Sorting.SortedByUnique | tensilelite/Tensile/ClientWriter.py:834-838 | when no two different elements share a key, there is only one permutation sorted by that key, so how ties are broken never matters |
| Sorting.SortedUnique | tensilelite/Tensile/ClientWriter.py:832 | a list of integers has only one sorted permutation |
| StrideParams.CheckConstStride | tensilelite/Tensile/ClientWriter.py:359-365 | None exactly when no pair has the key; otherwise the value of the last pair with that key |
| StrideParams.PinSlot | tensilelite/Tensile/ClientWriter.py:377-383 | a pin that resolves names a slot inside the stride list |
| StrideParams.ApplyConstStrides | tensilelite/Tensile/ClientWriter.py:377-395 | the setConstStrideA/B loop computes the pinned list or the first pin's error |
| StrideParams.ApplyPinsSucceeds | tensilelite/Tensile/ClientWriter.py:377-395 | the pins apply without error exactly when every pin names a slot |
| StrideParams.ApplyPinsFirstError | tensilelite/Tensile/ClientWriter.py:377-395 | a failure carries the error of the first pin that names no slot |
| StrideParams.ApplyPinsPinned | tensilelite/Tensile/ClientWriter.py:377-395 | each slot a pin names holds the last such pin's value; every other slot is unchanged |
| StrideParams.PinnedSnoc | tensilelite/Tensile/ClientWriter.py:377-395 | writing one more pin's value into the slot it names keeps the list pinned by all the pins so far |
| StrideParams.ApplyPinsAborts | tensilelite/Tensile/ClientWriter.py:377-395 | once a prefix of the pins fails, the remaining pins do not change the error |
| StrideParams.PinnedStridesMeaning | tensilelite/Tensile/ClientWriter.py:370-405 | A and B are the initial lists with exactly their pinned slots set, succeeding iff all pins resolve; C and D are the initial lists |
| StrideParams.DefaultStrides | tensilelite/Tensile/ClientWriter.py:373-405 | without problem strides the lists have aDims..dDims entries; all are -1 except A/B slots that are pinned |
| StrideParams.ComputeStrides | tensilelite/Tensile/ClientWriter.py:370-433 | the imperative stride part equals the specification; on success sizes has at least numIndices entries |
| StrideParams.ApplyExactFormat | tensilelite/Tensile/ClientWriter.py:409-428 | the in-place Exact-format branch equals the specification of the Exact format |
| StrideParams.PlainFormat | tensilelite/Tensile/ClientWriter.py:407-408 | with exactly numIndices sizes the pinned lists are written unchanged |
| StrideParams.ExactLeadingDims | tensilelite/Tensile/ClientWriter.py:409-428 | lda/ldb: unset becomes sizes[n+2]/[n+3] and a different set value is a conflict error; C/D take sizes[n+1]/[n] only when unset; nothing else fails |
| StrideParams.SizeCount | tensilelite/Tensile/ClientWriter.py:407-436 | success needs numIndices or numIndices+4 sizes; any other count after valid pins is InvalidSizeCount; problem-size holds exactly the first numIndices sizes |
| StrideParams.ComputeBiasStrides | tensilelite/Tensile/ClientWriter.py:446-465 | the imperative bias branch equals the specification of the bias strides |
| StrideParams.BiasPinMeaning | tensilelite/Tensile/ClientWriter.py:456-460 | the bias pin loop fails exactly on an out-of-range index; otherwise it yields the last batch-index pin's value, or 0 |
| StrideParams.BiasPinAborts | tensilelite/Tensile/ClientWriter.py:457-460 | once a prefix of the bias pins fails, the loop fails with that error |
| StrideParams.BiasRule | tensilelite/Tensile/ClientWriter.py:446-466 | bias-strides is the last argument, [1, length, s]; length is M, max(M,N) or N as the sparse rule says; -1 means length; a non-zero s below length is an error |
| StrideParams.ProblemSizeParams | tensilelite/Tensile/ClientWriter.py:368-468 | the imperative problemSizeParams equals the specification function SizeParams |
| StrideParams.SizeParamsSplit | tensilelite/Tensile/ClientWriter.py:368-468 | the stride errors come before the bias errors; on success the arguments are built from the final strides and bias |
| StrideParams.OutputKeys | tensilelite/Tensile/ClientWriter.py:440-445 | c-strides and d-strides appear iff their lists are non-empty; e-strides appears right after d-strides iff useE |
| StrideParams.StrideArgsKeys | tensilelite/Tensile/ClientWriter.py:435-466 | the keys are problem-size, a-strides, b-strides, then the output keys, then bias-strides with useBias |
| StrideParams.OutputOrder | tensilelite/Tensile/ClientWriter.py:435-466 | a successful call writes its keys in that order; C and D are present iff the problem has those strides or the type has those dims |
| StrideParams.ArgsCarryStrides | tensilelite/Tensile/ClientWriter.py:438-439 | a-strides and b-strides carry the final A and B lists |
| StrideParams.StrideArgsECopy | tensilelite/Tensile/ClientWriter.py:442-445 | in the arguments built from given lists, an e-strides entry directly follows a d-strides entry with the same value |
| StrideParams.EStridesCopyD | tensilelite/Tensile/ClientWriter.py:442-445 | in problemSizeParams' result, e-strides repeats D's strides right after d-strides |
| SolutionSizes.SeqMax | tensilelite/Tensile/ClientWriter.py:341 | `max` of a non-empty list is one of its elements and bounds all of them |
| SolutionSizes.GetMaxSolutionSizes | tensilelite/Tensile/ClientWriter.py:339-357 | fails iff the size list is empty, or a solution's lists are too short; otherwise [maxMT0, maxMT1, maxK]: each MT is a bound of every tile that is 0 or attained, and maxK is the summation maximum |
| ClientParams.FromCode | tensilelite/Tensile/ClientWriter.py:42-68 | `DataInitName(n)` exists iff 0 <= n <= 26 and n != 22, and its value is n |
| ClientParams.CodeRoundTrip | tensilelite/Tensile/ClientWriter.py:42-68 | every member is found again from its value |
| ClientParams.Names | tensilelite/Tensile/ClientWriter.py:491-503 | the names succeed iff every code is a member's; they are then the names in order; otherwise the error is the first invalid code |
| ClientParams.InitCodes | tensilelite/Tensile/ClientWriter.py:470-489 | one value per init key |
| ClientParams.DataInitParamsMeaning | tensilelite/Tensile/ClientWriter.py:470-503 | 13 pairs with the fixed keys in order; init-a/b fall back to DataInitTypeAB on -1; init-beta is Zero without beta; success iff every value is a member's, and otherwise the error is 22 or out of 0..26 |
| ClientParams.BoundsCheckNameInverse | tensilelite/Tensile/ClientWriter.py:505-510 | a name exists exactly for modes 0..4, and name and mode invert each other both ways |
| ClientParams.PruneModeNameInverse | tensilelite/Tensile/ClientWriter.py:512-519 | a name exists exactly for modes 0..6, and name and mode invert each other both ways |
| ClientParams.ToCppBool | tensilelite/Tensile/ClientWriter.py:336-337 | the literal is "true" or "false", and "true" iff the flag holds |
| ClientParams.NumElementsToValidate | tensilelite/Tensile/ClientWriter.py:626-632 | the configured value when benchmarking; otherwise -1 iff either setting is -1, else the larger of the two |
| FunctionNumbering.DataTypesOfMeaning | tensilelite/Tensile/ClientWriter.py:821-825 | the grouped data types are duplicate-free and are exactly the data types of the functions |
| FunctionNumbering.ProblemTypesOfMeaning | tensilelite/Tensile/ClientWriter.py:826-828 | a data type's problem types are duplicate-free and are exactly the functions' problem types of that data type |
| FunctionNumbering.SchedulesOfAbsent | tensilelite/Tensile/ClientWriter.py:826-829 | a problem type of no function has no schedules |
| FunctionNumbering.GroupStep | tensilelite/Tensile/ClientWriter.py:815-829 | what one function adds: its data type if new, its problem type if new, and always its schedule |
| FunctionNumbering.GroupedSnoc | tensilelite/Tensile/ClientWriter.py:815-829 | adding a function's data type if new, its problem type under it if new, and its schedule gives the grouping of the longer list |
| FunctionNumbering.Group | tensilelite/Tensile/ClientWriter.py:814-829 | the grouping loop yields the data types in first-appearance order, and per key the de-duplicated problem types and every schedule |
| FunctionNumbering.SortSchedules | tensilelite/Tensile/ClientWriter.py:836-838 | each visited problem type's schedules are sorted by str and permuted, and the others are unchanged |
| FunctionNumbering.SortDataType | tensilelite/Tensile/ClientWriter.py:833-838 | one pass of the data-type loop sorts that data type's problem types and the schedules of each of them, and leaves the other entries as they were |
| FunctionNumbering.SortStep | tensilelite/Tensile/ClientWriter.py:833-838 | one pass of the data-type loop keeps the sorted and unvisited parts of both dictionaries right |
| FunctionNumbering.SortGroups | tensilelite/Tensile/ClientWriter.py:832-838 | data types are sorted; each visited data type's problem types and each listed problem type's schedules are sorted permutations; keys and unvisited entries are unchanged |
| FunctionNumbering.SortedProblemTypesDetermined | tensilelite/Tensile/ClientWriter.py:833-835 | the problem types of one data type differ in their str, so each data type's sorted list is determined |
| FunctionNumbering.SortedGroupsDetermined | tensilelite/Tensile/ClientWriter.py:832-838 | the sorted data types, problem types and schedules of a function list are fully determined; the stability of Python's sort has no ties to break |
| FunctionNumbering.SortedGrouping | tensilelite/Tensile/ClientWriter.py:814-838 | grouping then sorting gives the sorted groups of the function list |
| FunctionNumbering.AppendRows | tensilelite/Tensile/ClientWriter.py:852-864 | the inner loop appends one row per schedule, with consecutive serial numbers counting from 0 within the problem type |
| FunctionNumbering.RowsNumbered | tensilelite/Tensile/ClientWriter.py:852-864 | the rows of one further problem type keep every row of the table numbered consistently |
| FunctionNumbering.AssignProblemTypeStep | tensilelite/Tensile/ClientWriter.py:846-865 | one pass of the problem-type loop keeps the loop state |
| FunctionNumbering.AssignDataType | tensilelite/Tensile/ClientWriter.py:843-865 | one data type appends its problem types to problemTypes and one numbered row per schedule |
| FunctionNumbering.AssignInfo | tensilelite/Tensile/ClientWriter.py:840-867 | problemTypes is the problem types listed per data type, in order; numProblemTypes counts them; numFunctions counts the rows and all schedules; every row is numbered |
| FunctionNumbering.CountSnocAbsent | tensilelite/Tensile/ClientWriter.py:829 | a function of another problem type adds no schedule to these problem types |
| FunctionNumbering.CountSnocPresent | tensilelite/Tensile/ClientWriter.py:829 | a function of one of these problem types adds exactly one schedule |
| FunctionNumbering.CountAll | tensilelite/Tensile/ClientWriter.py:814-829 | when every function's problem type is listed once, the schedules number the functions |
| FunctionNumbering.TotalCount | tensilelite/Tensile/ClientWriter.py:852-864 | the rows appended for the problem types are as many as their functions |
| FunctionNumbering.FlatPtsListed | tensilelite/Tensile/ClientWriter.py:843-850 | problemTypes holds exactly the problem types listed under some data type |
| FunctionNumbering.FlatPtsDistinct | tensilelite/Tensile/ClientWriter.py:843-850 | problemTypes is duplicate-free |
| FunctionNumbering.NumberingCounts | tensilelite/Tensile/ClientWriter.py:814-867 | after the sort, data types strictly increase; problemTypes is exactly the distinct problem types; the schedules total the number of functions |
| FunctionNumbering.NumberFunctions | tensilelite/Tensile/ClientWriter.py:814-867 | data types strictly increase and are exactly the functions' data types; problemTypes lists each data type's sorted problem types in data-type order, which fixes the problem type each row names; numProblemTypes is the number of distinct problem types; numFunctions is the number of functions; row k has serial number k; the per-data-type and per-problem-type counters restart at 0 |
| FunctionNumbering.BenchmarkNumbering | tensilelite/Tensile/ClientWriter.py:794-812 | the benchmark branch fails iff there is no solution; otherwise it has the first solution's data type and problem type, one all-zero row per solution, and one problem type |

## Left out

- Process orchestration (`main`, `runClient`, `runNewClient`, the run and build scripts) is left out: it builds shell command lines, runs subprocesses and walks the filesystem.
- `ClientExecutionLock` around `Popen` is left out: it is cross-process locking, which is concurrency.
- The file writers (`writeClientConfigIni`, `writeClientConfig`, `CreateBenchmarkClientParametersForSizes`) are left out: they are file output. What they call into (`problemSizeParams`, `dataInitParams`, the name tables, the num-elements-to-validate rule) is modelled. The settings they read from the global parameter dictionary become plain arguments.
- The C++ text that `writeClientParameters` emits is left out: the enums, typedefs, stride expressions, dispatch code, index-assignment padding and complex-conjugate arrays are string templating. Only the function numbering is modelled. `destDataTypes` and `computeDataTypes` are dictionaries that only that text reads, so they are left out too.
- Values are written as the integer lists they render. The decimal and comma-joined text form of each `key=value` line is not modelled.
- `DataType` is modelled by its enumeration code. `toEnum`, `toCpp`, `numBytes` and the other methods of the data-type and problem-type classes are outside this model.
- FunctionNumbering.NumberFunctions: a problem type is its data type plus its `str`, so it does not model two different problem types that print the same. Within the model no two problem types of one data type tie under `str` (`FunctionNumbering.SortedGroupsDetermined`). So where the stable sort would place such a tie is not modelled.
- FunctionNumbering.SortGroups: it states each group as a sorted permutation and does not state stability itself. For the lists it sorts that determines the result (`FunctionNumbering.SortedGroupsDetermined`).
- The free-index check of the setConstStrideA/B loops is a Python `assert`, which `python -O` removes. The model assumes assertions are enabled and always reports `FreeIndexWrongTensor`.
- SolutionSizes.GetMaxSolutionSizes: solution dictionaries are reduced to their `WorkGroup` and `ThreadTile` lists. A missing dictionary key is not modelled.
- ClientParams.DataInitParamsMeaning: the settings are taken as integers. The `ValueError` for a non-integer setting and the text of Python's exception are not modelled; the error carries the rejected value.
- The `ClientLogLevel` enumeration and the log-level plumbing are left out, because they only choose what is printed.
