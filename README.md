# Semi-assignment branch-and-price for the capacitated p-median problem

This project models, in Dafny, the core of a branch-and-price solver for the
capacitated p-median problem (CPMP). The solver is written in Python on top of
the SCIP host solver. The master problem has one column per *pattern variable*:
a cluster of locations served by one median. Branching works on pairs
(location, median). Each child node gets a *semi-assignment constraint*. Such a
constraint lists the medians its location may not be assigned to. Four parts
are modelled:

- **Pricer bookkeeping** (`pricer.dfy`, module `PricerCpmp`). The class `Pricer` keeps:
  - the forbidden-assignment registry shared by branching, propagation and pricing;
  - the global pool of pattern variables;
  - the per-median name counters.

  `addColumn` names each new pattern `Pattern_<median>_<k>` and appends it to the pool.
- **Semi-assignment constraints** (`cons.dfy`, module `ConsSemiassign`):
  - the class `ConsData` holds a constraint's data;
  - the class `Conshdlr` holds the handler's callbacks: `consprop` fixes the matching pattern variables to 0, and `consactive`/`consdeactive` push and pop the constraint's forbidden assignments.

  Propagation is proved against value-level functions: `Scan` for one constraint and `PropagateFrom` for the list.
- **Branching rule** (`branch.dfy`, module `BranchSemiassign`):
  - the assignment matrix (`array2`);
  - the per-row sort of the medians (a selection sort on the array, in place);
  - the choice of the location to branch on;
  - the split of its medians into the two children's forbidden vectors.
- **Instance reader** (`reader.dfy`, module `ReaderCpmp`):
  - `is_integer`, as Python's `int()` acceptance;
  - `read_instance`, as an imperative method over the file's lines, proved equal to the function `Parse`.

Two small support modules sit beside them:

- `text.dfy` (module `Text`): decimal digits and Python's `str()` of a natural number.
- `host.dfy` (module `Host`): the part of SCIP the plugins touch. This is:
  - the local bounds of the master variables;
  - the `repropagateNode` events;
  - the tolerance tests `isFeasZero` and `frac(x) > EPS`. These are left abstract as functions the host is given.

Behaviour of the code worth knowing:

- The registry is a flat boolean map. A second `allowAssignments` re-allows an entry that another active constraint still forbids (`PricerCpmp.ForbidThenAllow` states exactly when a forbid/allow pair restores the registry).
- In the branching split, ranks count the already-forbidden medians too, so the free medians can be shared unevenly between the children (`BranchSemiassign.RankParityCountsSkipped`).
- `sortMedians` leaves the order of equal values to `numpy.argsort`. The model proves every property for any order of ties.
- `str.isnumeric()` is modelled for ASCII text only (decimal digits). `int()`'s acceptance of non-ASCII digits is left out.

## Model

| member | source | states |
|---|---|---|
| Text.NatToStringRoundTrip | src/pricer_cpmp.py:86 | reading back the decimal digits of `str(n)` gives `n` |
| Text.NatToStringInjective | src/pricer_cpmp.py:86 | `str` is injective on naturals |
| Host.HostSolver.AddVar | src/pricer_cpmp.py:89-92 | `addVar` appends one variable with the given local bounds and nothing else changes |
| Host.HostSolver.FixVarToZero | src/cons_semiassign.py:65 | `fixVar(var, 0.0)`: infeasible iff the lower bound is positive, and then nothing changes; otherwise both bounds become 0, and `fixed` says whether that changed them |
| Host.HostSolver.RepropagateNode | src/cons_semiassign.py:86 | records one repropagation event for the node and leaves the bounds alone |
| PricerCpmp.ForbidEffect | src/pricer_cpmp.py:231-236 | after `forbidAssignments`, every flagged `(m, location)` is True; the key set is unchanged; entries of other locations and unflagged medians keep their value |
| PricerCpmp.AllowEffect | src/pricer_cpmp.py:245-250 | after `allowAssignments`, every flagged `(m, location)` is False whatever it was before; every other entry is unchanged |
| PricerCpmp.ForbidThenAllow | src/pricer_cpmp.py:231-250 | forbid followed by allow with the same arguments restores the registry iff none of the flagged pairs was forbidden beforehand |
| PricerCpmp.LoopGuardAsWrittenRejectsSingleLocation | src/pricer_cpmp.py:235 | with one location and `forbidden == [True]`, the range assert as written fails; the intended assert holds |
| PricerCpmp.LoopGuardAsWrittenIff | src/pricer_cpmp.py:233-235 | for every instance and median, the range assert as written holds iff the median is not flagged or there are at least two locations |
| BranchSemiassign.SingleLocationChildFailsGuard | src/branch_semiassign.py:142-152 | with one location whose median is free, the right child's vector flags that median, so activating that child fails the assert as written |
| PricerCpmp.PoolAppend | src/pricer_cpmp.py:86-105 | appending a pattern named after its median's counter and bumping that counter keeps the counters, the median and location ranges and the name numbering invariant |
| PricerCpmp.PatternNamesDistinct | src/pricer_cpmp.py:86-87 | any two patterns of a well-kept pool have different names |
| PricerCpmp.CountMedianGrows | src/pricer_cpmp.py:87 | a median's counter strictly grows at each pattern generated for it |
| PricerCpmp.VarNameInjective | src/pricer_cpmp.py:86 | `Pattern_<m>_<k>` determines `m` and `k` |
| PricerCpmp.Pricer.constructor | src/cpmp_extended.py:97-131 | set-up: empty pool, every counter 0, every `(median, location)` present and allowed, and the invariant `Valid` holds |
| PricerCpmp.Pricer.IsLocationInCluster | src/pricer_cpmp.py:63-68 | the result is true iff the target occurs in the pattern's locations |
| PricerCpmp.Pricer.AddColumn | src/pricer_cpmp.py:79-107 | appends exactly one pattern `(Pattern_<median>_<k>, median, sollocations)`, where `k` is the old counter; increments `nvars` and that median's counter only; adds one host variable with bounds [0, 1]; keeps `Valid`, including `nvars == |patternVars|` and every cluster within the locations; requires the new cluster's locations to be location indices |
| PricerCpmp.Pricer.ForbidAssignments | src/pricer_cpmp.py:231-236 | the loop over medians leaves the registry equal to `Forbid(old registry, ...)` and keeps `Valid` |
| PricerCpmp.Pricer.AllowAssignments | src/pricer_cpmp.py:245-250 | the loop leaves the registry equal to `Allow(old registry, ...)` and keeps `Valid` |
| PricerCpmp.Pricer.ForbidAssignment | src/pricer_cpmp.py:239-242 | requires both indices in range; sets exactly the one entry to True |
| PricerCpmp.Pricer.AllowAssignment | src/pricer_cpmp.py:253-256 | requires both indices in range; sets exactly the one entry to False |
| PricerCpmp.Pricer.IsAssignmentForbidden | src/pricer_cpmp.py:259-263 | requires both indices in range; returns that entry |
| ConsSemiassign.ConsData.constructor | src/cons_semiassign.py:22-29 | the given location, forbidden vector and node; `propagate` True and `npropvars` 0 |
| ConsSemiassign.ScanBounds | src/cons_semiassign.py:59-72 | after one constraint's scan, variable `v` is fixed to 0 iff it lies between the cursor and the first infeasible fix and matches (nonzero upper bound, forbidden median, location in the cluster); every other variable keeps its bounds |
| ConsSemiassign.ScanResult | src/cons_semiassign.py:64-71 | the scan returns CUTOFF iff some matching variable has a positive lower bound; otherwise REDUCEDDOM iff something matched; otherwise the incoming result |
| ConsSemiassign.ScanCursor | src/cons_semiassign.py:60-75 | the new `npropvars` is the offending index + 1 after a cutoff, `nvars` after a full scan, and unchanged when the range is empty |
| ConsSemiassign.PropagateFromFrame | src/cons_semiassign.py:53-75 | propagation never changes a constraint's location or forbidden vector, and leaves alone constraints already passed and those whose `propagate` is false |
| ConsSemiassign.PropagateFromOnlyZeroes | src/cons_semiassign.py:64-65 | an upper bound either stays or becomes 0, and a 0 stays 0 |
| ConsSemiassign.PropagateFromCompletes | src/cons_semiassign.py:53-75 | without a cutoff, every constraint from `k` on ends with `propagate` false and `npropvars` at `nvars` (or unchanged if it was not to be propagated or had nothing to scan) |
| ConsSemiassign.PropagateFromCutoff | src/cons_semiassign.py:53-69 | on a cutoff, some constraint was being propagated, and every constraint after it is untouched |
| ConsSemiassign.PropagationClearsForbiddenColumns | src/cons_semiassign.py:59-72 | without a cutoff, every variable a propagated constraint visits whose median is forbidden and whose cluster holds the location ends with an upper bound the host treats as zero (`isFeasZero`) |
| ConsSemiassign.PropagateFromResult | src/cons_semiassign.py:52-71 | without a cutoff, the result is DIDNOTFIND iff no bound changed |
| ConsSemiassign.PropagateFromReducedSticks | src/cons_semiassign.py:71 | once REDUCEDDOM, the result stays REDUCEDDOM or becomes CUTOFF |
| ConsSemiassign.Conshdlr.ConsProp | src/cons_semiassign.py:51-77 | the loop over the constraints, stopping at the first CUTOFF, leaves the constraints, the host bounds and the result equal to `PropagateFrom` on the old state; repropagation events are untouched |
| ConsSemiassign.Conshdlr.PropagateCons | src/cons_semiassign.py:59-75 | one constraint's turn equals `PropagateOne`: if `propagate`, the scan from `npropvars`, then `propagate` false and `npropvars` at the scan's cursor; otherwise nothing |
| ConsSemiassign.Conshdlr.FixMatching | src/cons_semiassign.py:60-72 | the loop over the variables from `npropvars` on leaves the bounds, the result and the last visited index equal to `Scan` |
| ConsSemiassign.Conshdlr.ConsActive | src/cons_semiassign.py:80-91 | requires `npropvars <= nvars`; sets `propagate` and records a repropagation of the node iff `npropvars < nvars`; always applies `forbidAssignments(location, forbidden)` |
| ConsSemiassign.Conshdlr.ConsDeactive | src/cons_semiassign.py:94-98 | applies `allowAssignments` with the constraint's own location and vector and clears `propagate` |
| ConsSemiassign.Conshdlr.CreateConsSemiassign | src/cons_semiassign.py:131-134 | a fresh constraint with the given location, vector and node, `propagate` True and `npropvars` 0 |
| BranchSemiassign.ZeroMatrix | src/branch_semiassign.py:31-33 | every entry becomes 0 |
| BranchSemiassign.AddPatternValue | src/branch_semiassign.py:47-50 | a pattern's value is added to `(location, median)` once per occurrence of the location |
| BranchSemiassign.BranchruleSemiassign.ComputeAssignments | src/branch_semiassign.py:28-53 | entry `(i, j)` becomes the sum of the LP values of the patterns with median `j`, counted once per occurrence of `i` in their locations |
| BranchSemiassign.SortRow | src/branch_semiassign.py:63-68 | row `i` of the ids becomes a permutation of `0..n-1`; row `i` of the values becomes non-increasing, with entry `k` equal to the old entry at id `k`; other rows are untouched |
| BranchSemiassign.SelectionStep | src/branch_semiassign.py:63-68 | swapping the largest remaining value into place keeps the permutation and the reindexing and extends the sorted prefix |
| BranchSemiassign.BranchruleSemiassign.SortMedians | src/branch_semiassign.py:59-70 | for every location: ids are a permutation, values are non-increasing, and sorted entry `k` is the old entry at `sortedids[i][k]` |
| BranchSemiassign.BranchruleSemiassign.FracStats | src/branch_semiassign.py:98-105 | the counted fractional entries, their sum, and the sum at even positions of the row |
| BranchSemiassign.FirstFractional | src/branch_semiassign.py:109-112 | the first row with a fractional entry is, so far, the choice under both tie rules |
| BranchSemiassign.LastMostStep | src/branch_semiassign.py:108-112 | the rule as written moves to row `i` iff `i` has at least as many fractional entries as the current choice |
| BranchSemiassign.BalancedStep | src/branch_semiassign.py:72-112 | the documented rule moves to row `i` iff it has more fractional entries, or as many and no more imbalance |
| BranchSemiassign.BranchruleSemiassign.ChooseLocationAsWritten | src/branch_semiassign.py:79-114 | -1 iff no entry is fractional; otherwise the last location with the most fractional entries |
| BranchSemiassign.BranchruleSemiassign.ChooseLocation | src/branch_semiassign.py:72-114 | -1 iff no entry is fractional; otherwise a location with the most fractional entries and, among those, the least imbalance between even-position and half the total fractional value |
| BranchSemiassign.TieBreakFinding | src/branch_semiassign.py:108-109 | on rows `[[0.5, 0.5], [0.7, 0.3]]` the code as written picks row 1, the documented rule row 0 |
| BranchSemiassign.BranchruleSemiassign.SplitMedians | src/branch_semiassign.py:131-153 | the medians at odd ranks go to the left vector and at even ranks to the right, except those the registry already forbids for the location |
| BranchSemiassign.SplitProperties | src/branch_semiassign.py:136-153 | the two vectors are disjoint, and a median is in one of them iff it was not already forbidden |
| BranchSemiassign.ChildRoundTrip | src/branch_semiassign.py:131-153 | activating and then deactivating either child's constraint restores the registry |
| BranchSemiassign.RankParityCountsSkipped | src/branch_semiassign.py:142-152 | ranks count skipped medians: with ranks 0, 1, 2 and median 1 forbidden, the left child gets nothing and the right gets 0 and 2 |
| BranchSemiassign.BranchruleSemiassign.PerformBranching | src/branch_semiassign.py:124-170 | two fresh constraints on the location, for the given children, with the split vectors and `propagate` True, `npropvars` 0 |
| BranchSemiassign.CountFracZero | src/branch_semiassign.py:98-102 | a row's fractional count is 0 iff no entry is fractional |
| BranchSemiassign.SortedRowFractional | src/branch_semiassign.py:64-102 | sorting a row neither adds nor removes fractional entries |
| BranchSemiassign.NoFractionalMeansIntegral | src/branch_semiassign.py:177-195 | no sorted row has a fractional entry iff every assignment value is integral |
| BranchSemiassign.BranchruleSemiassign.SortedAssignments | src/branch_semiassign.py:179-193 | fresh n-by-n matrices whose rows are the sorted assignment rows and their permutations |
| BranchSemiassign.BranchruleSemiassign.BranchExecLp | src/branch_semiassign.py:177-201 | the sorted rows it works on are the assignment rows sorted non-increasing with their permutations; DIDNOTFIND iff every assignment value is integral, with no children; otherwise BRANCHED on the location the documented rule (`ChooseLocation`, not the rule as written) picks from those rows, with two fresh constraints whose vectors split that location's medians by their rank in its sorted row |
| ReaderCpmp.SplitJoin | src/reader_cpmp.py:36-54 | `str.split()` recovers the tokens from which a line was joined |
| ReaderCpmp.NumericIsInteger | src/reader_cpmp.py:38-41 | a numeric token is an integer, and `int()` gives its digits' value |
| ReaderCpmp.IntToStringRoundTrip | src/reader_cpmp.py:19-24 | every integer printed with `str` is accepted by `is_integer` and parsed back |
| ReaderCpmp.NegativeRoundTrip | src/reader_cpmp.py:19-24 | `-<digits>` is an integer with the negated value |
| ReaderCpmp.SignedLiteral | src/reader_cpmp.py:19-24 | `is_integer("-7")` holds, value -7 |
| ReaderCpmp.UnderscoreLiteral | src/reader_cpmp.py:19-24 | `is_integer("+1_0")` holds, value 10 |
| ReaderCpmp.PaddedLiteral | src/reader_cpmp.py:19-24 | surrounding whitespace is ignored |
| ReaderCpmp.IntegerSyntaxRejected | src/reader_cpmp.py:19-24 | the empty string, a bare sign, a leading or doubled underscore and a decimal point are rejected |
| ReaderCpmp.HeaderFacts | src/reader_cpmp.py:34-42 | a numeric-led header must be exactly two integers, which give `nlocations` and `nclusters`; otherwise both are 0; a bad header fails an assert |
| ReaderCpmp.BlockOk | src/reader_cpmp.py:52-61 | the distance loop succeeds iff every row it reads is skipped or exactly `n` integers; failures are failed asserts |
| ReaderCpmp.BlockFlag | src/reader_cpmp.py:58 | after the distance loop `is_int` is as it started or True |
| ReaderCpmp.BlockContents | src/reader_cpmp.py:52-63 | the distances hold token `j` of row `i` for exactly the numeric-led rows among the `n`; a skipped row uses its slot |
| ReaderCpmp.BlockErrorSticks | src/reader_cpmp.py:57-61 | once a row fails, the loop fails with that error |
| ReaderCpmp.ValueLineFacts | src/reader_cpmp.py:71-95 | a value line succeeds iff it is skipped or `n` integers read with `is_int` True; it raises the unbound-local error iff it has `n` tokens and `is_int` was never assigned; on success it stores the raw tokens |
| ReaderCpmp.ReadBodyFacts | src/reader_cpmp.py:45-97 | with `is_int` assigned, the body succeeds iff all its lines are well formed; on success the distances, demands and capacities hold the raw tokens of the right lines |
| ReaderCpmp.ParseSucceedsIff | src/reader_cpmp.py:29-97 | the reader (with `is_int` assigned) succeeds iff every line it reads is well formed, and fails only by a failed assert |
| ReaderCpmp.ParseContents | src/reader_cpmp.py:34-97 | on success: the header's values, and the raw tokens of the distance rows, the demand line and the capacity line |
| ReaderCpmp.CorrectedNeverUnbound | src/reader_cpmp.py:58-92 | with `is_int` assigned before the loops, the unbound-local error never occurs |
| ReaderCpmp.AsWrittenAgreesOtherwise | src/reader_cpmp.py:29-97 | whenever the code as written does not raise the unbound-local error, it returns what the corrected reader returns |
| ReaderCpmp.AsWrittenRaisesIff | src/reader_cpmp.py:58-93 | the code as written raises the unbound-local error iff the header is well formed, no distance row is numeric-led, and the demand line (or, when it is skipped, the capacity line) is numeric-led with `n` tokens |
| ReaderCpmp.UnboundFlagFinding | src/reader_cpmp.py:52-77 | a five-line file with two comment rows raises the error as written, and the corrected reader returns its demands and capacities |
| ReaderCpmp.UnboundFlagExample | src/reader_cpmp.py:52-77 | the concrete five-line file `ExampleFile` shows the same |
| ReaderCpmp.IgnoresLaterLines | src/reader_cpmp.py:31-87 | only the first `3 + nlocations` lines matter: files that agree on them read the same |
| ReaderCpmp.FormatRoundTrip | src/reader_cpmp.py:29-97 | a file written from integer-token rows, demands and capacities reads back as exactly those tokens, keyed by row and column |
| ReaderCpmp.ReadInstance | src/reader_cpmp.py:29-97 | the line-by-line reader returns `Parse(lines, Bound(true))` |
| ReaderCpmp.ReadDistances | src/reader_cpmp.py:52-63 | the distance loop returns `DistanceBlock` on the `n` distance lines |
| ReaderCpmp.ReadDistanceRow | src/reader_cpmp.py:53-63 | one pass of the distance loop returns `DistanceRow` |
| ReaderCpmp.ReadValueLine | src/reader_cpmp.py:71-79 | the demand or capacity block returns `ValueLine` |
| ReaderCpmp.AllIntegerLoop | src/reader_cpmp.py:58-60 | `is_int` ends as its start value and-ed with every token being an integer |
| ReaderCpmp.StoreRow | src/reader_cpmp.py:62-63 | stores token `j` under `(i, j)` for every `j` |
| ReaderCpmp.StoreValues | src/reader_cpmp.py:78-79 | stores token `j` under `j` for every `j` |

## Left out

- File I/O: `open`, `readline` and the `print` echo in `read_instance` (src/reader_cpmp.py:30-31, 37, 55). The model reads a sequence of lines; a line past the end is the empty string, as `readline` returns at end of file.
- `int()`'s acceptance of non-ASCII Unicode digits: the model knows the ASCII digits only. Whitespace is Python's full `str.isspace` set.
- Floating-point tolerance: `isFeasZero` and `frac(x) > EPS` are abstract predicates over reals given by the host, not IEEE arithmetic. `isLE` is exact `<=` on reals, with the host's infinity above every real. LP values are reals, and sums are exact.
- The assertion at src/branch_semiassign.py:137: it indexes the already-sorted row with a median id and tests numeric tolerance only. It is not modelled.
- `consprop`'s `assert c.isActive()` (src/cons_semiassign.py:57): activity is host state outside the model.
- The host calls `createChild`, `addConsNode`, `getDualbound`, `getLocalEstimate`, `createCons` and `getVal`. Child nodes are passed in as opaque handles, and `getVal` results are the `values` parameter. A constraint's name string and SCIP flags are left out.
- `addColumn`'s cost, its objective, its variable type (`solveinteger`) and its insertion into master constraints. In the source `cost` is never assigned (a TODO at src/pricer_cpmp.py:81), so as written `addColumn` raises `NameError` at line 90 or 92, right after incrementing `nVarsMedian[median]`. `PricerCpmp.Pricer.AddColumn` models the column as if a cost were defined; the constraint calls belong to the host.
- PricerCpmp.Pricer.AddColumn: requires every location of the new cluster to be a location index. The source does not check this, but `computeAssignments` (src/branch_semiassign.py:50) indexes the matrix with these locations and fails on any other value.
- `performPricing`, `pricerinit`, the knapsack solver and the model-building files. They are host or library work. Only the registry and counter set-up of the model builder is modelled, as `Pricer.constructor`.
- `consprint` and `conscheck`: diagnostic output and a constant FEASIBLE result.
- Aliasing between the pricer's registry and the host, and concurrency: the host is single-threaded, and the model keeps them as separate objects.
- BranchSemiassign.BranchruleSemiassign.SortMedians: is specified for any order of equal values, not numpy's particular one.

## Findings

| source | as written | input that shows it | evidently intended | confidence | as-written member | corrected member |
|---|---|---|---|---|---|---|
| src/pricer_cpmp.py:235 | the range assert in `forbidAssignments` (and the same one at line 249 in `allowAssignments`) tests `forbidden[median]`, a flag that reads as 1 when True, against `nlocations` instead of testing `median` | `nlocations == 1`, `forbidden == [True]`: the assert fails (`LoopGuardAsWrittenIff` states when it fails for any instance; `SingleLocationChildFailsGuard` shows branching produces such a vector) | `0 <= median < nlocations` | not executed | PricerCpmp.LoopGuardAsWrittenRejectsSingleLocation | PricerCpmp.Pricer.ForbidAssignments |
| src/reader_cpmp.py:58-92 | `is_int` is first assigned inside the distance loop, only for a numeric-led row, but is read in the demand and capacity loops | header `2 1`, two comment rows, then `1 1` and `2 2`: `UnboundLocalError` | `is_int = True` before the distance loop | not executed | ReaderCpmp.UnboundFlagFinding | ReaderCpmp.ReadInstance |
| src/branch_semiassign.py:108 | `minfracdiff` is reset to infinity for every location, so `isLE(..., minfracdiff)` never rejects a tie and the last location with the most fractional medians wins | rows `[0.5, 0.5]` and `[0.7, 0.3]`: as written (`ChooseLocationAsWritten`) chooses location 1, although location 0 is balanced better | the documented tie-break by closeness of the even-median sum to half the total, with `minfracdiff` initialised once before the loop | not executed | BranchSemiassign.TieBreakFinding | BranchSemiassign.BranchruleSemiassign.ChooseLocation |
