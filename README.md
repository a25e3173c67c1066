# Subset-sum branch-and-prune enumerator — a verified model

The repository implements one program ten times: TypeScript (`typescript/SSP.ts` and
its compiled twin `typescript/SSP.js`), JavaScript, Python, Java, C++, C, Go, Kotlin
and PHP. Each port builds a subset-sum instance, either randomly or from a text file.
It then runs `bp`, a depth-first branch-and-prune search. The search lists every
selection of the candidate integers that sums to the target.

The search carries:

- the depth `i`;
- `partial`, the sum chosen so far;
- `total`, the sum of the elements not yet decided;
- a shared marker array `x`.

Each call does four things in order:

1. It prunes when `partial + total < target` or `partial > target`.
2. When `partial == target` it stores the selected values and stops.
3. It stops when `i == n`.
4. Otherwise it recurses on "exclude `original[i]`", then on "include `original[i]`", and then resets `x[i]`.

This Dafny project models that core and proves its properties.

| module (file) | what it models |
|---|---|
| `Instances` (instances.dfy) | an instance (elements and target), `Option`/`Result`, the builders' errors |
| `Sums` (sums.dfy) | `totalSum` (the accumulator loop, and Java's variant seeded with `original[0]`), remaining-sum bookkeeping |
| `Selection` (selection.dfy) | the marker array and the values it selects (`Pick`) |
| `Enumeration` (enumeration.dfy) | `Accepted`: what `bp` records, prunes included, as a pure function; `Matching`: the brute-force reference; soundness, exact completeness, order, exactly-once, and counterexamples for zero and negative elements |
| `Engine` (engine.dfy) | the solver object: `Bp` on a mutable `array<bool>` with the `solutions` field, the accept step, the 10,000,000 cap, whole-marker versus prefix collection, `Run` |
| `Store` (store.dfy) | the C port's solution array with capacity doubling, and its `malloc(i)` solution buffer |
| `Sorting` (sorting.dfy) | C's bubble sort and Java's reversing swap loop on arrays, both proved to give the unique descending sort |
| `Builders` (builders.dfy) | the random builders (flips as an input sequence), the arrangement step, the proof that a random instance always has a solution |
| `Parsing` (parsing.dfy) | the file builders over tokenised lines: the token-stream readers, and the JavaScript, Go, TypeScript and PHP line readers |
| `Report` (report.dfy) | the "fewer than 10 → list, else count" rule, and C++'s `isInteger` and C's `is_integer` |
| `Ports` (ports.dfy) | each port as a configuration (cap, collection, size check, arrangement, file reader), with end-to-end runs |

The ports differ as follows. Each difference is a parameter of the model:

| port | cap | collects over | random size check | arrangement | file reader |
|---|---|---|---|---|---|
| typescript/SSP.ts, typescript/SSP.js | none | whole `x` | n ≤ 2 | descending | `ParseTsLines` |
| javascript/SSP.js | 10,000,000 | k < i | n ≤ 2 | descending | `ParseJsLines` |
| python/ssp.py | 10,000,000 | k < i | n ≤ 0, then n ≤ 2 | descending | `ReadStream` |
| java/SSP.java | 10,000,000 | k < i | n ≤ 0, then n ≤ 2 | ascending, then reversed | `ReadStream` |
| c++/SSP.cpp | 10,000,000 | k < i | n ≤ 0, then n ≤ 2 | descending | `ReadStream` |
| c/SSP_optimised.c | 10,000,000 | k < i | n ≤ 0, then n ≤ 2 | bubble sort, descending | `ReadStream` |
| go/ssp.go | none | whole `x` | n ≤ 2 | as built | `ReadGoLines` |
| kotlin/SSP.kt | none | k < i | n ≤ 2 | as built | `ReadStream` |
| php/ssp.php | none | whole `x` | n ≤ 2 | as built | `ParsePhpLines` |

The main results are these:

- `Engine.Solver.Bp` appends exactly `Admit(limit, …, Picks(Accepted(…)))` and hands `x` back unchanged.
- `Enumeration.SearchIsBruteForce`: with strictly positive elements, the search's solutions are the brute-force enumeration of all 2ⁿ index subsets filtered by sum, in exclude-before-include order. Each subset occurs exactly once (`MatchingExactlyOnce`, `MatchingOrdered`).
- `Enumeration.ZeroElementLosesSubset` and `Enumeration.NegativeElementLosesSubset` show that the positivity premise cannot be dropped. None of the file readers enforce it.
- `Ports.SolveRandom`: every random instance of size n > 2 yields at least one solution, in every port.

## Model

| member | source | states |
|---|---|---|
| `Sums.RemainingStep` | typescript/SSP.ts:61-67 | if `total` is the sum of `original[i..]`, then `total - original[i]`, which both children receive, is the sum of `original[i+1..]` |
| `Sums.TotalSum` | c++/SSP.cpp:94-98 | the accumulator loop of `totalSum` returns the sum of all elements (also Python's `sum`, the `reduce`s, Go's range loop, Kotlin's `sum()`, PHP's `array_sum`, C's `total_sum`) |
| `Sums.TotalSumFromFirst` | java/SSP.java:84-90 | Java's loop seeded with `original[0]` returns the sum of all elements; it requires a non-empty array, which both Java constructors guarantee |
| `Selection.PickIgnoresFalseTail` | typescript/SSP.ts:53-54 | when `x[i..]` is all false, filtering over the whole marker array selects the same values as filtering over the indices below i |
| `Selection.PicksMember` | python/ssp.py:62-63 | every stored solution is the selection of one recorded marker vector |
| `Enumeration.AcceptedSound` | python/ssp.py:52-73 | when `partial` is the sum of what the prefix selects, every prefix the search records selects values summing exactly to the target |
| `Enumeration.SolutionsSound` | typescript/SSP.ts:53-56 | every solution a complete search stores sums exactly to the target, with no assumption on the elements |
| `Enumeration.MatchingSound` | python/ssp.py:52-73 | every vector the brute-force reference lists selects values summing to the target |
| `Enumeration.MatchingComplete` | python/ssp.py:52-73 | every full marker vector extending the prefix whose selection sums to the target is listed by the reference |
| `Enumeration.MatchingOrdered` | java/SSP.java:115-123 | the reference lists its vectors in strictly increasing exclude-before-include order |
| `Enumeration.OverTargetHasNoMatch` | c++/SSP.cpp:24 | with non-negative elements, a branch whose partial sum exceeds the target contains no solution: the `partial > target` prune loses nothing |
| `Enumeration.UnderTargetHasNoMatch` | c++/SSP.cpp:24 | with non-negative elements, a branch that cannot reach the target by taking everything left contains no solution: the `partial + total < target` prune loses nothing |
| `Enumeration.ReachedHasOneMatch` | python/ssp.py:59-64 | with positive elements, a prefix that reaches the target has exactly one completion, all-exclude, so stopping at the accept step loses nothing |
| `Enumeration.AcceptedIsMatching` | typescript/SSP.ts:50-70 | with positive elements and `total` the remaining sum, the recorded prefixes completed with false are exactly the brute-force matches, in the same order |
| `Enumeration.SearchIsBruteForce` | typescript/SSP.ts:72-75 | with positive elements, the whole search from `(0, 0, totalSum())` stores exactly the brute-force enumeration of index subsets summing to the target, in exclude-before-include order |
| `Enumeration.MatchingExactlyOnce` | typescript/SSP.ts:50-70 | each index subset summing to the target occurs exactly once in the reference, and no other subset occurs |
| `Enumeration.ZeroElementLosesSubset` | python/ssp.py:59-64 | with a zero element the early stop loses subsets: for [1, 0, 2] and target 1 the search records one solution where two index subsets sum to 1 |
| `Enumeration.NegativeElementLosesSubset` | python/ssp.py:57-58 | with a negative element the prunes lose subsets: for [2, -1] and target 1 the search records nothing though {2, -1} sums to 1 |
| `Engine.AdmitUnlimited` | typescript/SSP.ts:53-56 | without a cap the accept steps store every solution offered to them |
| `Engine.AdmitCount` | python/ssp.py:60-61 | under a cap of `max`, a list already holding `have` solutions stores `min(offered, max - have)` more (none once `have >= max`), and they are the first ones offered, in order |
| `Engine.AdmitAppend` | python/ssp.py:60-63 | offering two batches one after the other stores what offering them as one batch would |
| `Engine.AdmitWithinCap` | c/SSP_optimised.c:23 | under a cap, a solution list that starts within the cap stays within it |
| `Engine.Solver.constructor` | kotlin/SSP.kt:6-9 | a solver holds the elements, the target, the port's cap and collection mode, and no solution |
| `Engine.Solver.Select` | java/SSP.java:105-106 | the accept step's loop returns `original[k]` for every `k < i` with `x[k]`, in index order |
| `Engine.Solver.Accept` | javascript/SSP.js:53-58 | the accept step appends the selection unless the cap is reached, and with whole-marker collection stores the same values as with `k < i` |
| `Engine.Solver.Bp` | python/ssp.py:52-73 | `bp(i, partial, total, x)` appends exactly what `Accepted` lists, as values, subject to the cap, and returns with `x` unchanged |
| `Engine.Solver.Branch` | python/ssp.py:66-73 | the branching step (exclude `original[i]`, then include it, then reset `x[i]`) stores the exclude branch's solutions followed by the include branch's, capped as one batch, and hands `x` back unchanged |
| `Engine.Solver.Run` | c++/SSP.cpp:101-106 | `bp()` from an all-false `x` and `total = totalSum()` stores the whole search's solutions; with positive elements, the brute-force ones |
| `Engine.Solver.RunSeeded` | java/SSP.java:127-134 | Java's `bp()`, with the seeded `totalSum`, stores the whole search's solutions |
| `Store.SolutionStore.constructor` | c/SSP_optimised.c:108-111 | the store starts empty with capacity 10 |
| `Store.SolutionStore.Record` | c/SSP_optimised.c:23-38 | refuses once 10,000,000 are stored; otherwise doubles the capacity when full, then stores at `solution_count`; count never exceeds capacity or the cap |
| `Store.SolutionStore.RecordAll` | c/SSP_optimised.c:22-39 | storing the search's solutions one by one leaves exactly what `Admit` at the C cap admits |
| `Store.FillSolution` | c/SSP_optimised.c:32-36 | the first `sol_index` slots of the `malloc(i)` buffer hold the selected values in order |
| `Sorting.OrderedUnique` | c++/SSP.cpp:89 | two sequences sorted the same way and holding the same multiset are equal, so any correct library sort gives the same result |
| `Sorting.AscendingReversedIsDescending` | java/SSP.java:72-78 | the ascending sort reversed is the descending sort |
| `Sorting.ReverseInPlace` | java/SSP.java:73-78 | the swap loop leaves the array reversed |
| `Sorting.BubbleSort` | c/SSP_optimised.c:125-133 | the bubble sort leaves the array in order and a permutation of its input |
| `Sorting.BubblePass` | c/SSP_optimised.c:81-87 | one inner pass permutes the unsorted prefix only and carries its last element in order to its end |
| `Sorting.BubbleSortIsSort` | c/SSP_optimised.c:80-88 | the bubble sort leaves exactly the reference sort of its input |
| `Builders.Arrange` | java/SSP.java:36-42 | each builder's arrangement (none, descending sort, or ascending sort then reversal) leaves the elements as `Arranged` says; both sorting forms give the descending sort |
| `Builders.BuildRandom` | python/ssp.py:10-24 | the random builder rejects n ≤ 0 and then n ≤ 2 (or only n ≤ 2), and otherwise yields the arranged 1..n with target 1 + the sum of the values whose flip succeeded |
| `Builders.WitnessReachesTarget` | c/SSP_optimised.c:66-78 | the value 1 together with every value whose flip succeeded sums to the target the builder computed |
| `Builders.SortedUpto` | c++/SSP.cpp:61-69 | the descending sort of 1..n is n, …, 1 |
| `Builders.RandomHasSolution` | typescript/SSP.ts:18-29 | in whatever arrangement, some index subset of a random instance sums to its target |
| `Builders.RandomPositive` | go/ssp.go:26-29 | the elements of a random instance are strictly positive |
| `Builders.RandomSearchSucceeds` | kotlin/SSP.kt:11-21 | the search finds at least one solution on every random instance |
| `Parsing.StreamDecodes` | python/ssp.py:32-45 | a token stream reads as an instance exactly when it starts with that instance's encoding (size > 0, target, elements): errors for too few tokens, size ≤ 0, a missing or non-integer token; trailing tokens ignored |
| `Parsing.ReadValues` | kotlin/SSP.kt:38-41 | the element loop succeeds iff at least `size` tokens remain and the next `size` are integers, and then holds their values; running out of tokens fails inside the loop |
| `Parsing.ReadStream` | c++/SSP.cpp:77-89 | the stream reader (size, target, elements, then the port's sort) returns what `ParseStream` describes |
| `Parsing.TrimLinesKeepsTokens` | javascript/SSP.js:25-26 | `content.trim()` before the split keeps every token in order and leaves a first and last line that are not empty (or the single empty line of a file without tokens) |
| `Parsing.JsTsIgnoreBlankEnds` | typescript/SSP.ts:33-34 | empty lines before the size line or after the last line change nothing for the JavaScript and TypeScript readers |
| `Parsing.JsJoinsLines` | javascript/SSP.js:36-40 | however the elements are spread over the lines after the second, empty lines at the end included, the first `size` are kept, sorted descending |
| `Parsing.JsRejects` | javascript/SSP.js:26-37 | on the trimmed lines, the four rejections, each `Err(Malformed)`: fewer than 3 lines, a size that is not a number or ≤ 0, a target that is not a number, fewer than `size` numbers |
| `Parsing.ReadGoLines` | go/ssp.go:55-90 | the Go reader's checks and conversion loop return what `ParseGoLines` describes |
| `Parsing.GoDecodes` | go/ssp.go:45-91 | Go reads an instance exactly from its three-line layout, size 0 included and unsorted; extra fields and lines are ignored |
| `Parsing.TsSlices` | typescript/SSP.ts:33-43 | TypeScript keeps the part of line 3 that `slice(0, size)` selects, sorted descending; all of it for a large size, all but the last -size values for a negative size |
| `Parsing.NonBlankKeepsTokens` | php/ssp.php:39-40 | skipping empty lines leaves no empty line and keeps every token in order |
| `Parsing.PhpSkipsBlankLines` | php/ssp.php:39-40 | an empty line anywhere in the file changes nothing for PHP |
| `Parsing.PhpDecodes` | php/ssp.php:40-53 | PHP reads its three-line layout back unchanged and unsorted, ignoring extra fields and lines |
| `Parsing.PhpJunkIsZero` | php/ssp.php:40-53 | for every file, each kept element is the `intval` of a field of the third non-empty line (0 for a field that is not a number); a size or target that is not a number or is missing is 0, so a missing size keeps nothing; a missing third line reads as the single element 0 |
| `Report.Summarize` | c++/SSP.cpp:130-143 | all solutions are listed iff there are fewer than 10; otherwise only their number is reported |
| `Report.IsIntegerCpp` | c++/SSP.cpp:182-188 | true iff the string is non-empty and all digits (so "-5" is rejected) |
| `Report.IsIntegerC` | c/SSP_optimised.c:229-234 | true iff every character is a digit, so true for the empty string |
| `Report.IntegerChecksDiffer` | c/SSP_optimised.c:229-234 | the two checks disagree exactly on the empty string |
| `Ports.EveryPortReadsCanonicalFile` | typescript/SSP.js:25-35 | every port reads a well-formed non-empty three-line file as the same instance, up to its arrangement |
| `Ports.Search` | go/ssp.go:135-138 | a port's search stores the capped solutions of the whole search |
| `Ports.SolveRandom` | javascript/SSP.js:11-23 | a random build fails iff n ≤ 2, and otherwise the search finds at least one solution |
| `Ports.SolveFile` | php/ssp.php:93-97 | reading a file then searching fails exactly as the reader does, and otherwise stores the capped solutions of the read instance |

## Left out

- File opening, directory walking, command-line dispatch, console output, timing and string rendering are left out. The readers take the file's lines as sequences of tokens.
- Randomness is left out. The coin flips are an input `coins`, where `coins[i - 1]` is the flip for index i.
- Tokenisation is approximated. A token is either an integer or not one; a partially numeric token (`"12abc"`, which `parseInt`, `>>` and `(int)` read as 12) counts as not an integer. For Go's `Atoi`, a line is accepted only when it is exactly one integer token, so leading or trailing blanks are not modelled. A line holding only spaces or tabs is taken as an empty line: `trim()` treats both alike, but PHP's `FILE_SKIP_EMPTY_LINES` skips only a line with no character at all and reads a blank one as 0.
- Parsing.ParseJsLines: a JavaScript element token that `Number` reads as NaN makes the model return `Err(NotANumber)`. The source stores NaN instead, because the model's elements are integers.
- Parsing.ParseTsLines: a target or element that is NaN is rejected with `Err(NotANumber)` for the same reason. The source keeps NaN, and with a NaN target it then finds no solution.
- JavaScript and TypeScript numbers are modelled as unbounded integers, not IEEE doubles.
- Overflow of `long long`, `long`, `int64`, Go `int` and PHP `int` is not modelled; integers are unbounded.
- The library sorts (`std::sort`, `Arrays.sort`, `Array.prototype.sort`, Python's `sort`) are represented by their result, the descending sort. `Builders.Arrange` computes it with the C bubble sort. `Sorting.OrderedUnique` shows that every correct sort gives the same sequence.
- Store.SolutionStore: the C store is proved on its own, and its link to the search is `RecordAll` over the search's solutions. `Engine.Solver.Bp` keeps its solutions in a sequence field rather than in the doubling array.
- The C `print_solutions` is not modelled: it reads 0 as an end marker and reads past each solution's allocation. Only the threshold in `Report.Summarize` is kept.
- C memory management (`malloc`, `realloc` failure, `free`, `exit`) is left out, except the capacity-doubling invariant.
- Enumeration.SearchIsBruteForce requires strictly positive elements, because with zeros or negatives the property is false (see the two counterexample lemmas). The file readers do not enforce positivity.
