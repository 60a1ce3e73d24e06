/** The semi-assignment branching rule: from the LP values of the pattern
    variables it computes how much of each location is assigned to each
    median, sorts each location's medians by that amount, picks a location
    to branch on and splits its medians into two forbidden sets. */
module BranchSemiassign {
  import opened Host
  import opened PricerCpmp
  import CS = ConsSemiassign

  /** What `branchexeclp` reports to the host. */
  datatype BranchResult = DidNotFind | Branched

  /** `x` added once for every occurrence of `i` in `locations`. */
  function OccurrenceSum(locations: seq<int>, i: int, x: real): real {
    if |locations| == 0 then 0.0
    else OccurrenceSum(locations[..|locations| - 1], i, x) + (if locations[|locations| - 1] == i then x else 0.0)
  }

  /** What pattern variable `v` with LP value `x` adds to entry `(i, j)`:
      its value for every occurrence of location `i` when its median is `j`. */
  function Contribution(v: PatternVar, x: real, i: int, j: int): real {
    if v.median == j then OccurrenceSum(v.locations, i, x) else 0.0
  }

  /** The contributions to entry `(i, j)` of the first `p` pattern variables. */
  function PrefixSum(pool: seq<PatternVar>, values: seq<real>, i: int, j: int, p: nat): real
    requires p <= |pool| <= |values|
  {
    if p == 0 then 0.0 else PrefixSum(pool, values, i, j, p - 1) + Contribution(pool[p - 1], values[p - 1], i, j)
  }

  /** The assignment value of location `i` to median `j`: the contributions
      of every pattern variable of the pool, counted once per occurrence. */
  function AssignmentValue(pool: seq<PatternVar>, values: seq<real>, i: int, j: int): real
    requires |pool| <= |values|
  {
    PrefixSum(pool, values, i, j, |pool|)
  }

  /** No assignment value is fractional. */
  ghost predicate AllIntegral(pool: seq<PatternVar>, values: seq<real>, n: nat, isFractional: real -> bool)
    requires |pool| <= |values|
  {
    forall i, j :: 0 <= i < n && 0 <= j < n ==> !isFractional(AssignmentValue(pool, values, i, j))
  }

  /** Row `i` of a matrix. */
  function RowOf<T>(a: array2<T>, i: nat): (r: seq<T>)
    requires i < a.Length0
    reads a
    ensures |r| == a.Length1
    ensures forall c :: 0 <= c < a.Length1 ==> r[c] == a[i, c]
  {
    seq(a.Length1, c requires 0 <= c < a.Length1 reads a => a[i, c])
  }

  /** All rows of a matrix. */
  ghost function Rows<T>(a: array2<T>): (r: seq<seq<T>>)
    reads a
    ensures |r| == a.Length0
    ensures forall i :: 0 <= i < a.Length0 ==> r[i] == RowOf(a, i)
  {
    seq(a.Length0, i requires 0 <= i < a.Length0 reads a => RowOf(a, i))
  }

  /** A sequence of `n` medians that is a permutation of `0..n-1`. */
  ghost predicate IsPermutation(p: seq<int>, n: nat) {
    |p| == n && multiset(p) == multiset(Range(n))
  }

  function Range(n: nat): (r: seq<int>)
    ensures |r| == n && forall k :: 0 <= k < n ==> r[k] == k
  {
    seq(n, k => k)
  }

  /** The position of `m` in `p`. */
  ghost function RankOf(p: seq<int>, m: int): (k: nat)
    requires m in p
    ensures k < |p| && p[k] == m
  {
    if p[0] == m then 0 else 1 + RankOf(p[1..], m)
  }

  /** A permutation has all its entries in range, has no repeated entry and
      holds every median. */
  lemma PermutationFacts(p: seq<int>, n: nat)
    requires IsPermutation(p, n)
    ensures forall k :: 0 <= k < n ==> 0 <= p[k] < n
    ensures forall k1, k2 :: 0 <= k1 < k2 < n ==> p[k1] != p[k2]
    ensures forall m :: 0 <= m < n ==> m in p
  {
    forall k | 0 <= k < n ensures 0 <= p[k] < n {
      assert p[k] in multiset(p);
      assert p[k] in multiset(Range(n));
    }
    forall m | 0 <= m < n ensures m in p {
      assert Range(n)[m] == m;
      assert m in multiset(Range(n));
    }
    forall k1, k2 | 0 <= k1 < k2 < n ensures p[k1] != p[k2] {
      assert 0 <= p[k1] < n;
      RangeCountsOnce(n, p[k1]);
      CountTwoEntries(p, k1, k2);
    }
  }

  /** Entry `k1` of `s` occurs at least once, and once more when entry `k2`
      equals it. */
  lemma CountTwoEntries(s: seq<int>, k1: nat, k2: nat)
    requires k1 < k2 < |s|
    ensures multiset(s)[s[k1]] >= 1 + (if s[k2] == s[k1] then 1 else 0)
  {
    assert s == s[..k2] + s[k2..];
    assert s[k1] in s[..k2];
    assert s[k2..][0] == s[k2];
    assert multiset(s)[s[k1]] == multiset(s[..k2])[s[k1]] + multiset(s[k2..])[s[k1]];
  }

  lemma {:induction false} RangeCountsOnce(n: nat, m: int)
    requires 0 <= m < n
    ensures multiset(Range(n))[m] == 1
  {
    if n == m + 1 {
      assert Range(n) == Range(m) + [m];
      assert m !in Range(m);
    } else {
      RangeCountsOnce(n - 1, m);
      assert Range(n) == Range(n - 1) + [n - 1];
    }
  }

  /** Entries never increase from left to right. */
  ghost predicate NonIncreasing(s: seq<real>) {
    forall k1, k2 :: 0 <= k1 < k2 < |s| ==> s[k1] >= s[k2]
  }

  /** Entry `k` of `sorted` is the entry of `orig` at position `ids[k]`. */
  ghost predicate Reindexed(sorted: seq<real>, orig: seq<real>, ids: seq<int>) {
    |sorted| == |ids| && forall k :: 0 <= k < |ids| ==> 0 <= ids[k] < |orig| && sorted[k] == orig[ids[k]]
  }

  /** A row of `sortedids` and the matching sorted row of `assignments`, for
      the row `orig` before sorting. */
  ghost predicate RowSorted(ids: seq<int>, sorted: seq<real>, orig: seq<real>, n: nat) {
    IsPermutation(ids, n) && NonIncreasing(sorted) && Reindexed(sorted, orig, ids)
  }

  class BranchruleSemiassign {
    const pricer: Pricer
    const conshdlr: CS.Conshdlr

    constructor (pricer: Pricer, conshdlr: CS.Conshdlr)
      ensures this.pricer == pricer && this.conshdlr == conshdlr
    {
      this.pricer := pricer;
      this.conshdlr := conshdlr;
    }

    /** `computeAssignments`: entry `(i, j)` becomes the assignment value of
        location `i` to median `j` under the LP values `values` of the
        pattern variables. */
    method ComputeAssignments(values: seq<real>, a: array2<real>)
      requires pricer.Valid()
      requires |values| == pricer.nvars
      requires a.Length0 == pricer.nlocations && a.Length1 == pricer.nlocations
      modifies a
      ensures forall i, j :: 0 <= i < a.Length0 && 0 <= j < a.Length1 ==>
        a[i, j] == AssignmentValue(pricer.patternVars, values, i, j)
    {
      ZeroMatrix(a);
      var pool := pricer.patternVars;
      for p := 0 to |pool|
        invariant forall r, c :: 0 <= r < a.Length0 && 0 <= c < a.Length1 ==>
          a[r, c] == PrefixSum(pool, values, r, c, p)
      {
        assert 0 <= pool[p].median < a.Length1 && InLocations(pool[p].locations, a.Length0);
        AddPatternValue(a, pool[p], values[p]);
      }
    }

    /** `sortMedians`: for each location `i`, row `i` of `sortedids` becomes
        the medians ordered by non-increasing assignment value and row `i` of
        `assignments` those values in that order. */
    method SortMedians(sortedids: array2<int>, a: array2<real>)
      requires a.Length0 == pricer.nlocations && a.Length1 == pricer.nlocations
      requires sortedids.Length0 == pricer.nlocations && sortedids.Length1 == pricer.nlocations
      modifies sortedids, a
      ensures forall i :: 0 <= i < pricer.nlocations ==>
        && IsPermutation(RowOf(sortedids, i), pricer.nlocations)
        && NonIncreasing(RowOf(a, i))
        && Reindexed(RowOf(a, i), old(RowOf(a, i)), RowOf(sortedids, i))
    {
      var n := pricer.nlocations;
      for i := 0 to n
        invariant forall r :: 0 <= r < i ==> RowSorted(RowOf(sortedids, r), RowOf(a, r), old(RowOf(a, r)), n)
        invariant forall r :: i <= r < n ==> RowOf(a, r) == old(RowOf(a, r))
      {
        ghost var prevA := Rows(a);
        ghost var prevS := Rows(sortedids);
        SortRow(sortedids, a, i);
        forall r | 0 <= r < n && r != i
          ensures RowOf(a, r) == prevA[r] && RowOf(sortedids, r) == prevS[r]
        {
        }
      }
    }

    /** The inner loop of `chooseLocation` for location `i`: how many entries
        of row `i` are fractional, their sum, and the sum of those at an even
        position. */
    method FracStats(a: array2<real>, i: nat, host: HostSolver) returns (nfrac: nat, totfrac: real, halffrac: real)
      requires i < a.Length0
      ensures nfrac == CountFrac(RowOf(a, i), host.isFractional)
      ensures totfrac == TotFrac(RowOf(a, i), host.isFractional)
      ensures halffrac == HalfFrac(RowOf(a, i), host.isFractional)
    {
      ghost var row := RowOf(a, i);
      nfrac, totfrac, halffrac := 0, 0.0, 0.0;
      for j := 0 to a.Length1
        invariant nfrac == CountFrac(row[..j], host.isFractional)
        invariant totfrac == TotFrac(row[..j], host.isFractional)
        invariant halffrac == HalfFrac(row[..j], host.isFractional)
      {
        assert row[..j + 1][..j] == row[..j];
        if host.isFractional(a[i, j]) {
          nfrac := nfrac + 1;
          totfrac := totfrac + a[i, j];
          if j % 2 == 0 {
            halffrac := halffrac + a[i, j];
          }
        }
      }
      assert row[..a.Length1] == row;
    }

    /** `chooseLocation` as written: `minfracdiff` is reset to infinity for
        every location, so the balance test never rejects a tie and the last
        location with the most fractional entries is chosen. */
    method ChooseLocationAsWritten(a: array2<real>, host: HostSolver) returns (location: int)
      requires a.Length0 == pricer.nlocations
      ensures -1 <= location < a.Length0
      ensures location == -1 <==> forall i :: 0 <= i < a.Length0 ==> CountFrac(RowOf(a, i), host.isFractional) == 0
      ensures location != -1 ==> LastMostFractional(Rows(a), location, host.isFractional)
    {
      var n := pricer.nlocations;
      ghost var rows := Rows(a);
      ghost var f := host.isFractional;
      location := -1;
      var maxnfracmedians := 0;
      for i := 0 to n
        invariant -1 <= location < i
        invariant location == -1 ==> maxnfracmedians == 0 && forall i' :: 0 <= i' < i ==> CountFrac(rows[i'], f) == 0
        invariant location != -1 ==> maxnfracmedians == CountFrac(rows[location], f) && LastMostUpTo(rows, i, location, f)
      {
        var nfracmedians, totfrac, halffrac := FracStats(a, i, host);
        var minfracdiff := PlusInfinity;
        if location == -1 && nfracmedians > 0 {
          FirstFractional(rows, i, f);
        } else if location != -1 {
          LastMostStep(rows, i, location, f);
        }
        if nfracmedians > maxnfracmedians
           || (nfracmedians > 0 && nfracmedians == maxnfracmedians && IsLE(Abs(halffrac - 0.5 * totfrac), minfracdiff))
        {
          location := i;
          maxnfracmedians := nfracmedians;
          minfracdiff := Finite(Abs(halffrac - 0.5 * totfrac));
        }
      }
      if location != -1 {
        assert CountFrac(RowOf(a, location), f) > 0;
      }
    }

    /** `chooseLocation` as its documentation describes it, with `minfracdiff`
        kept across locations: among the locations with the most fractional
        entries, one whose even-position fractional sum is closest to half
        their total, the last such on an exact tie. */
    method ChooseLocation(a: array2<real>, host: HostSolver) returns (location: int)
      requires a.Length0 == pricer.nlocations
      ensures -1 <= location < a.Length0
      ensures location == -1 <==> forall i :: 0 <= i < a.Length0 ==> CountFrac(RowOf(a, i), host.isFractional) == 0
      ensures location != -1 ==> BestBalanced(Rows(a), location, host.isFractional)
    {
      var n := pricer.nlocations;
      ghost var rows := Rows(a);
      ghost var f := host.isFractional;
      location := -1;
      var maxnfracmedians := 0;
      var minfracdiff := PlusInfinity;
      for i := 0 to n
        invariant -1 <= location < i
        invariant location == -1 ==> maxnfracmedians == 0 && forall i' :: 0 <= i' < i ==> CountFrac(rows[i'], f) == 0
        invariant location != -1 ==> maxnfracmedians == CountFrac(rows[location], f)
        invariant location != -1 ==> minfracdiff == Finite(Imbalance(rows[location], f))
        invariant location != -1 ==> BalancedUpTo(rows, i, location, f)
      {
        var nfracmedians, totfrac, halffrac := FracStats(a, i, host);
        assert nfracmedians == CountFrac(rows[i], f) && Abs(halffrac - 0.5 * totfrac) == Imbalance(rows[i], f);
        if location == -1 && nfracmedians > 0 {
          FirstFractional(rows, i, f);
        } else if location != -1 {
          BalancedStep(rows, i, location, f);
        }
        if nfracmedians > maxnfracmedians
           || (nfracmedians > 0 && nfracmedians == maxnfracmedians && IsLE(Abs(halffrac - 0.5 * totfrac), minfracdiff))
        {
          location := i;
          maxnfracmedians := nfracmedians;
          minfracdiff := Finite(Abs(halffrac - 0.5 * totfrac));
        }
      }
      if location != -1 {
        assert CountFrac(RowOf(a, location), f) > 0;
      }
    }

    /** The loop of `performBranching`: median `sortedids[k]` is forbidden in
        the left child when its rank `k` is odd and in the right child when it
        is even, unless it is already forbidden for the location. */
    method SplitMedians(sortedids: seq<int>, location: int) returns (leftforbidden: seq<bool>, rightforbidden: seq<bool>)
      requires pricer.Valid() && 0 <= location < pricer.nlocations
      requires IsPermutation(sortedids, pricer.nlocations)
      ensures SplitByRank(sortedids, pricer.forbiddenassignments, location, leftforbidden, rightforbidden)
    {
      var n := pricer.nlocations;
      PermutationFacts(sortedids, n);
      var left := new bool[n](_ => false);
      var right := new bool[n](_ => false);
      for i := 0 to n
        invariant forall m :: 0 <= m < n && m !in sortedids[..i] ==> !left[m] && !right[m]
        invariant forall k :: 0 <= k < i ==>
          && left[sortedids[k]] == (k % 2 == 1 && !pricer.forbiddenassignments[(sortedids[k], location)])
          && right[sortedids[k]] == (k % 2 == 0 && !pricer.forbiddenassignments[(sortedids[k], location)])
      {
        assert sortedids[..i + 1] == sortedids[..i] + [sortedids[i]];
        var forbidden := pricer.IsAssignmentForbidden(sortedids[i], location);
        if forbidden {
          continue;
        }
        if i % 2 == 1 {
          left[sortedids[i]] := true;
        } else {
          right[sortedids[i]] := true;
        }
      }
      leftforbidden, rightforbidden := left[..], right[..];
    }

    /** `performBranching`: the two children of the node, each with a new
        semi-assignment constraint for `location` holding its forbidden
        medians. The child nodes are created by the host and passed in. */
    method PerformBranching(sortedids: seq<int>, location: int, leftChild: Node, rightChild: Node)
      returns (leftCons: CS.ConsData, rightCons: CS.ConsData)
      requires pricer.Valid() && 0 <= location < pricer.nlocations
      requires IsPermutation(sortedids, pricer.nlocations)
      ensures fresh(leftCons) && fresh(rightCons)
      ensures leftCons.location == location && rightCons.location == location
      ensures leftCons.node == leftChild && rightCons.node == rightChild
      ensures leftCons.propagate && leftCons.npropvars == 0 && rightCons.propagate && rightCons.npropvars == 0
      ensures SplitByRank(sortedids, pricer.forbiddenassignments, location, leftCons.forbidden, rightCons.forbidden)
    {
      var leftforbidden, rightforbidden := SplitMedians(sortedids, location);
      leftCons := conshdlr.CreateConsSemiassign(location, leftforbidden, leftChild);
      rightCons := conshdlr.CreateConsSemiassign(location, rightforbidden, rightChild);
    }

    /** The first half of `branchexeclp`: the assignment matrix, each row
        sorted into non-increasing order, and the sorted medians of each row. */
    method SortedAssignments(values: seq<real>) returns (sortedids: array2<int>, assignments: array2<real>)
      requires pricer.Valid()
      requires |values| == pricer.nvars
      ensures fresh(sortedids) && fresh(assignments)
      ensures sortedids.Length0 == pricer.nlocations && sortedids.Length1 == pricer.nlocations
      ensures assignments.Length0 == pricer.nlocations && assignments.Length1 == pricer.nlocations
      ensures forall i :: 0 <= i < pricer.nlocations ==>
        RowSorted(RowOf(sortedids, i), RowOf(assignments, i), AssignmentRow(pricer.patternVars, values, i, pricer.nlocations), pricer.nlocations)
    {
      var n := pricer.nlocations;
      sortedids := new int[n, n]((i, j) => j);
      assignments := new real[n, n]((i, j) => 0.0);
      ComputeAssignments(values, assignments);
      assert forall i :: 0 <= i < n ==> RowOf(assignments, i) == AssignmentRow(pricer.patternVars, values, i, n);
      SortMedians(sortedids, assignments);
    }

    /** `branchexeclp`: computes and sorts the assignment matrix, chooses a
        location and, when there is one, branches on it. No location is found
        exactly when every assignment value is integral; otherwise the chosen
        location is the best balanced of those with the most fractional
        entries (the documented rule, `ChooseLocation`), and the two children
        get constraints that split its medians by their rank in its sorted
        row. `sortedRows` and `order` are the sorted matrices it works on. */
    method BranchExecLp(values: seq<real>, host: HostSolver, leftChild: Node, rightChild: Node)
      returns (result: BranchResult, children: seq<CS.ConsData>, ghost sortedRows: seq<seq<real>>, ghost order: seq<seq<int>>)
      requires pricer.Valid()
      requires |values| == pricer.nvars
      ensures |sortedRows| == pricer.nlocations && |order| == pricer.nlocations
      ensures forall i :: 0 <= i < pricer.nlocations ==>
        RowSorted(order[i], sortedRows[i], AssignmentRow(pricer.patternVars, values, i, pricer.nlocations), pricer.nlocations)
      ensures result == DidNotFind <==> AllIntegral(pricer.patternVars, values, pricer.nlocations, host.isFractional)
      ensures result == DidNotFind ==> children == []
      ensures result == Branched ==>
        && |children| == 2 && fresh(children[0]) && fresh(children[1])
        && 0 <= children[0].location < pricer.nlocations && children[1].location == children[0].location
        && BestBalanced(sortedRows, children[0].location, host.isFractional)
        && children[0].node == leftChild && children[1].node == rightChild
        && children[0].propagate && children[0].npropvars == 0
        && children[1].propagate && children[1].npropvars == 0
        && SplitByRank(order[children[0].location], pricer.forbiddenassignments, children[0].location,
                       children[0].forbidden, children[1].forbidden)
    {
      var n := pricer.nlocations;
      var sortedids, assignments := SortedAssignments(values);
      sortedRows, order := Rows(assignments), Rows(sortedids);
      var location := ChooseLocation(assignments, host);
      NoFractionalMeansIntegral(Rows(sortedids), Rows(assignments), pricer.patternVars, values, n, host.isFractional);
      if location == -1 {
        return DidNotFind, [], sortedRows, order;
      }
      var ids := RowOf(sortedids, location);
      var leftCons, rightCons := PerformBranching(ids, location, leftChild, rightChild);
      result, children := Branched, [leftCons, rightCons];
    }
  }

  /** One pass of the loop of `sortMedians`: row `i` of `ids` becomes the
      positions of row `i` of `a` in non-increasing order of value, and row
      `i` of `a` is sorted accordingly; other rows are left alone. */
  method SortRow(ids: array2<int>, a: array2<real>, i: nat)
    requires i < a.Length0 && i < ids.Length0 && ids.Length1 == a.Length1
    modifies ids, a
    ensures IsPermutation(RowOf(ids, i), a.Length1)
    ensures NonIncreasing(RowOf(a, i))
    ensures Reindexed(RowOf(a, i), old(RowOf(a, i)), RowOf(ids, i))
    ensures forall r, c :: 0 <= r < a.Length0 && r != i && 0 <= c < a.Length1 ==> a[r, c] == old(a[r, c])
    ensures forall r, c :: 0 <= r < ids.Length0 && r != i && 0 <= c < ids.Length1 ==> ids[r, c] == old(ids[r, c])
  {
    var n := a.Length1;
    ghost var orig := RowOf(a, i);
    for c := 0 to n
      modifies ids
      invariant forall c' :: 0 <= c' < c ==> ids[i, c'] == c'
      invariant forall r, c' :: 0 <= r < ids.Length0 && r != i && 0 <= c' < n ==> ids[r, c'] == old(ids[r, c'])
    {
      ids[i, c] := c;
    }
    assert RowOf(ids, i) == Range(n);
    for p := 0 to n
      invariant IsPermutation(RowOf(ids, i), n)
      invariant Reindexed(RowOf(a, i), orig, RowOf(ids, i))
      invariant SortedPrefix(RowOf(a, i), p)
      invariant forall r, c :: 0 <= r < a.Length0 && r != i && 0 <= c < n ==> a[r, c] == old(a[r, c])
      invariant forall r, c :: 0 <= r < ids.Length0 && r != i && 0 <= c < n ==> ids[r, c] == old(ids[r, c])
    {
      var m := ArgMaxFrom(a, i, p);
      ghost var vals := RowOf(a, i);
      ghost var perm := RowOf(ids, i);
      SwapInRow(ids, a, i, p, m);
      SelectionStep(vals, perm, orig, n, p, m);
    }
  }

  /** The first `p` entries are in place: each is at least every later entry. */
  ghost predicate SortedPrefix(s: seq<real>, p: nat) {
    forall k1, k2 :: 0 <= k1 < p && k1 < k2 < |s| ==> s[k1] >= s[k2]
  }

  /** Swapping the largest remaining entry into position `p` extends the
      sorted prefix and keeps the ids a permutation that still indexes the
      original row. */
  lemma SelectionStep(vals: seq<real>, perm: seq<int>, orig: seq<real>, n: nat, p: nat, m: nat)
    requires |vals| == n && p <= m < n
    requires IsPermutation(perm, n) && Reindexed(vals, orig, perm) && SortedPrefix(vals, p)
    requires forall c :: p <= c < n ==> vals[c] <= vals[m]
    ensures IsPermutation(perm[p := perm[m]][m := perm[p]], n)
    ensures Reindexed(vals[p := vals[m]][m := vals[p]], orig, perm[p := perm[m]][m := perm[p]])
    ensures SortedPrefix(vals[p := vals[m]][m := vals[p]], p + 1)
  {
    SwapPermutation(perm, n, p, m);
    SwapReindexed(vals, orig, perm, p, m);
    SwapSorted(vals, p, m);
  }

  lemma SwapPermutation(perm: seq<int>, n: nat, p: nat, m: nat)
    requires IsPermutation(perm, n) && p <= m < n
    ensures IsPermutation(perm[p := perm[m]][m := perm[p]], n)
  {
  }

  lemma SwapReindexed(vals: seq<real>, orig: seq<real>, perm: seq<int>, p: nat, m: nat)
    requires Reindexed(vals, orig, perm) && p <= m < |vals|
    ensures Reindexed(vals[p := vals[m]][m := vals[p]], orig, perm[p := perm[m]][m := perm[p]])
  {
  }

  lemma SwapSorted(vals: seq<real>, p: nat, m: nat)
    requires p <= m < |vals| && SortedPrefix(vals, p)
    requires forall c :: p <= c < |vals| ==> vals[c] <= vals[m]
    ensures SortedPrefix(vals[p := vals[m]][m := vals[p]], p + 1)
  {
  }

  /** A position in `[from, n)` of row `i` holding the largest value there. */
  method ArgMaxFrom(a: array2<real>, i: nat, from: nat) returns (m: nat)
    requires i < a.Length0 && from < a.Length1
    ensures from <= m < a.Length1
    ensures forall c :: from <= c < a.Length1 ==> a[i, c] <= a[i, m]
  {
    m := from;
    for c := from + 1 to a.Length1
      invariant from <= m < a.Length1
      invariant forall c' :: from <= c' < c ==> a[i, c'] <= a[i, m]
    {
      if a[i, c] > a[i, m] {
        m := c;
      }
    }
  }

  /** Exchanges positions `p` and `m` of row `i` in both matrices. */
  method SwapInRow(ids: array2<int>, a: array2<real>, i: nat, p: nat, m: nat)
    requires i < a.Length0 && i < ids.Length0 && p < a.Length1 && m < a.Length1 && ids.Length1 == a.Length1
    modifies ids, a
    ensures a[i, p] == old(a[i, m]) && a[i, m] == old(a[i, p])
    ensures ids[i, p] == old(ids[i, m]) && ids[i, m] == old(ids[i, p])
    ensures RowOf(a, i) == old(RowOf(a, i))[p := old(a[i, m])][m := old(a[i, p])]
    ensures RowOf(ids, i) == old(RowOf(ids, i))[p := old(ids[i, m])][m := old(ids[i, p])]
    ensures forall r, c :: 0 <= r < a.Length0 && 0 <= c < a.Length1 && (r != i || (c != p && c != m)) ==> a[r, c] == old(a[r, c])
    ensures forall r, c :: 0 <= r < ids.Length0 && 0 <= c < ids.Length1 && (r != i || (c != p && c != m)) ==> ids[r, c] == old(ids[r, c])
  {
    a[i, p], a[i, m] := a[i, m], a[i, p];
    ids[i, p], ids[i, m] := ids[i, m], ids[i, p];
  }

  /** Python's `abs` on a real. */
  function Abs(x: real): (r: real)
    ensures r >= 0.0 && (r == x || r == -x)
  {
    if x < 0.0 then -x else x
  }

  /** A real or the host's infinity. */
  datatype ExtReal = Finite(r: real) | PlusInfinity

  /** The host's `isLE`, up to its tolerance: every real is below infinity. */
  predicate IsLE(x: real, y: ExtReal) {
    y.PlusInfinity? || x <= y.r
  }

  /** Number of fractional entries of a row. */
  function CountFrac(row: seq<real>, isFractional: real -> bool): (r: nat)
    ensures r <= |row|
  {
    if |row| == 0 then 0
    else CountFrac(row[..|row| - 1], isFractional) + (if isFractional(row[|row| - 1]) then 1 else 0)
  }

  /** Sum of the fractional entries of a row. */
  function TotFrac(row: seq<real>, isFractional: real -> bool): real {
    if |row| == 0 then 0.0
    else TotFrac(row[..|row| - 1], isFractional) + (if isFractional(row[|row| - 1]) then row[|row| - 1] else 0.0)
  }

  /** Sum of the fractional entries of a row at an even position. */
  function HalfFrac(row: seq<real>, isFractional: real -> bool): real {
    if |row| == 0 then 0.0
    else HalfFrac(row[..|row| - 1], isFractional)
         + (if isFractional(row[|row| - 1]) && (|row| - 1) % 2 == 0 then row[|row| - 1] else 0.0)
  }

  /** How far the even-position fractional sum is from half the total. */
  function Imbalance(row: seq<real>, isFractional: real -> bool): real {
    Abs(HalfFrac(row, isFractional) - 0.5 * TotFrac(row, isFractional))
  }

  /** Among the first `k` rows, row `r` has a fractional entry and no row has more. */
  ghost predicate MostFractionalUpTo(rows: seq<seq<real>>, k: nat, r: int, isFractional: real -> bool) {
    && 0 <= r < k <= |rows| && CountFrac(rows[r], isFractional) > 0
    && forall i :: 0 <= i < k ==> CountFrac(rows[i], isFractional) <= CountFrac(rows[r], isFractional)
  }

  /** Among the first `k` rows, row `r` is the last with the most fractional entries. */
  ghost predicate LastMostUpTo(rows: seq<seq<real>>, k: nat, r: int, isFractional: real -> bool) {
    && MostFractionalUpTo(rows, k, r, isFractional)
    && forall i :: r < i < k ==> CountFrac(rows[i], isFractional) < CountFrac(rows[r], isFractional)
  }

  /** Among the first `k` rows with the most fractional entries, row `r` has
      the least imbalance, and no later such row has as little. */
  ghost predicate BalancedUpTo(rows: seq<seq<real>>, k: nat, r: int, isFractional: real -> bool) {
    && MostFractionalUpTo(rows, k, r, isFractional)
    && (forall i :: 0 <= i < k && CountFrac(rows[i], isFractional) == CountFrac(rows[r], isFractional) ==>
          Imbalance(rows[r], isFractional) <= Imbalance(rows[i], isFractional))
    && (forall i :: r < i < k && CountFrac(rows[i], isFractional) == CountFrac(rows[r], isFractional) ==>
          Imbalance(rows[i], isFractional) > Imbalance(rows[r], isFractional))
  }

  /** Row `r` is the last of the rows with the most fractional entries. */
  ghost predicate LastMostFractional(rows: seq<seq<real>>, r: int, isFractional: real -> bool) {
    LastMostUpTo(rows, |rows|, r, isFractional)
  }

  /** Among the rows with the most fractional entries, row `r` has the least
      imbalance, and no later such row has as little. */
  ghost predicate BestBalanced(rows: seq<seq<real>>, r: int, isFractional: real -> bool) {
    BalancedUpTo(rows, |rows|, r, isFractional)
  }

  /** The first row with a fractional entry is, so far, the choice of both rules. */
  lemma FirstFractional(rows: seq<seq<real>>, i: nat, isFractional: real -> bool)
    requires i < |rows| && CountFrac(rows[i], isFractional) > 0
    requires forall i' :: 0 <= i' < i ==> CountFrac(rows[i'], isFractional) == 0
    ensures LastMostUpTo(rows, i + 1, i, isFractional) && BalancedUpTo(rows, i + 1, i, isFractional)
  {
  }

  /** The rule as written moves to row `i` when it has at least as many
      fractional entries as the choice so far, and keeps the choice otherwise. */
  lemma LastMostStep(rows: seq<seq<real>>, i: nat, r: int, isFractional: real -> bool)
    requires i < |rows| && LastMostUpTo(rows, i, r, isFractional)
    ensures CountFrac(rows[i], isFractional) >= CountFrac(rows[r], isFractional) ==> LastMostUpTo(rows, i + 1, i, isFractional)
    ensures CountFrac(rows[i], isFractional) < CountFrac(rows[r], isFractional) ==> LastMostUpTo(rows, i + 1, r, isFractional)
  {
  }

  /** The documented rule moves to row `i` when it has more fractional
      entries than the choice so far, or as many and no more imbalance, and
      keeps the choice otherwise. */
  lemma BalancedStep(rows: seq<seq<real>>, i: nat, r: int, isFractional: real -> bool)
    requires i < |rows| && BalancedUpTo(rows, i, r, isFractional)
    ensures var ci, cr := CountFrac(rows[i], isFractional), CountFrac(rows[r], isFractional);
      var moves := ci > cr || (ci == cr && Imbalance(rows[i], isFractional) <= Imbalance(rows[r], isFractional));
      && (moves ==> BalancedUpTo(rows, i + 1, i, isFractional))
      && (!moves ==> BalancedUpTo(rows, i + 1, r, isFractional))
  {
  }

  /** The forbidden vectors of the two children: for the location's medians
      ranked by `sortedids`, odd ranks go left and even ranks right, skipping
      medians the registry already forbids for the location. */
  ghost predicate SplitByRank(sortedids: seq<int>, reg: map<(int, int), bool>, location: int,
                              left: seq<bool>, right: seq<bool>) {
    && |left| == |sortedids| && |right| == |sortedids|
    && forall k :: 0 <= k < |sortedids| ==>
         && 0 <= sortedids[k] < |sortedids| && (sortedids[k], location) in reg
         && left[sortedids[k]] == (k % 2 == 1 && !reg[(sortedids[k], location)])
         && right[sortedids[k]] == (k % 2 == 0 && !reg[(sortedids[k], location)])
  }

  /** On an instance with a single location whose one median is still free,
      the right child's vector flags that median, so the range assert of
      `forbidAssignments` as written fails when that child is activated. */
  lemma SingleLocationChildFailsGuard(sortedids: seq<int>, reg: map<(int, int), bool>, left: seq<bool>, right: seq<bool>)
    requires IsPermutation(sortedids, 1) && SplitByRank(sortedids, reg, 0, left, right)
    requires (0, 0) in reg && !reg[(0, 0)]
    ensures !LoopGuardAsWritten(1, right, 0)
  {
    PermutationFacts(sortedids, 1);
    assert sortedids[0] == 0 && right[sortedids[0]] == (0 % 2 == 0 && !reg[(sortedids[0], 0)]);
  }

  /** The zeroing at the start of `computeAssignments`. */
  method ZeroMatrix(a: array2<real>)
    modifies a
    ensures forall r, c :: 0 <= r < a.Length0 && 0 <= c < a.Length1 ==> a[r, c] == 0.0
  {
    for i := 0 to a.Length0
      invariant forall r, c :: 0 <= r < i && 0 <= c < a.Length1 ==> a[r, c] == 0.0
    {
      for j := 0 to a.Length1
        invariant forall r, c :: 0 <= r < a.Length0 && 0 <= c < a.Length1 && (r < i || (r == i && c < j)) ==> a[r, c] == 0.0
      {
        a[i, j] := 0.0;
      }
    }
  }

  /** One pass of the accumulation loop of `computeAssignments`: the pattern's
      value `x` is added to column `median` once per listed location. */
  method AddPatternValue(a: array2<real>, v: PatternVar, x: real)
    requires 0 <= v.median < a.Length1
    requires forall q :: 0 <= q < |v.locations| ==> 0 <= v.locations[q] < a.Length0
    modifies a
    ensures forall r, c :: 0 <= r < a.Length0 && 0 <= c < a.Length1 ==>
      a[r, c] == old(a[r, c]) + Contribution(v, x, r, c)
  {
    var median := v.median;
    var locations := v.locations;
    assert locations[..0] == [];
    assert forall r :: OccurrenceSum(locations[..0], r, x) == 0.0;
    for q := 0 to |locations|
      invariant forall r, c :: 0 <= r < a.Length0 && 0 <= c < a.Length1 ==>
        a[r, c] == old(a[r, c]) + (if c == median then OccurrenceSum(locations[..q], r, x) else 0.0)
    {
      var location := locations[q];
      assert locations[..q + 1][..q] == locations[..q];
      a[location, median] := a[location, median] + x;
    }
    assert locations[..|locations|] == locations;
  }

  /** The children split the location's medians: no median is forbidden in
      both, and a median is forbidden in one of them exactly when the
      registry did not already forbid it. */
  lemma SplitProperties(sortedids: seq<int>, reg: map<(int, int), bool>, location: int,
                        left: seq<bool>, right: seq<bool>, n: nat)
    requires IsPermutation(sortedids, n) && SplitByRank(sortedids, reg, location, left, right)
    ensures forall m :: 0 <= m < n ==> !(left[m] && right[m])
    ensures forall m :: 0 <= m < n ==> (m, location) in reg && ((left[m] || right[m]) <==> !reg[(m, location)])
  {
    PermutationFacts(sortedids, n);
    forall m | 0 <= m < n
      ensures !(left[m] && right[m])
      ensures (m, location) in reg && ((left[m] || right[m]) <==> !reg[(m, location)])
    {
      var k := RankOf(sortedids, m);
    }
  }

  /** Activating a child's constraint and deactivating it again leaves the
      registry as it was, because a child only forbids medians that were not
      forbidden before. */
  lemma ChildRoundTrip(sortedids: seq<int>, reg: map<(int, int), bool>, location: int,
                       left: seq<bool>, right: seq<bool>, n: nat)
    requires IsPermutation(sortedids, n) && SplitByRank(sortedids, reg, location, left, right)
    ensures Allow(Forbid(reg, n, location, left), n, location, left) == reg
    ensures Allow(Forbid(reg, n, location, right), n, location, right) == reg
  {
    SplitProperties(sortedids, reg, location, left, right, n);
    ForbidThenAllow(reg, n, location, left);
    ForbidThenAllow(reg, n, location, right);
  }

  /** Ranks count the skipped medians too: with three medians in rank order
      0, 1, 2 and median 1 already forbidden, the left child forbids nothing
      and the right child forbids medians 0 and 2. */
  lemma RankParityCountsSkipped(reg: map<(int, int), bool>, location: int, left: seq<bool>, right: seq<bool>)
    requires (0, location) in reg && (1, location) in reg && (2, location) in reg
    requires !reg[(0, location)] && reg[(1, location)] && !reg[(2, location)]
    requires SplitByRank([0, 1, 2], reg, location, left, right)
    ensures left == [false, false, false] && right == [true, false, true]
  {
    var ids := [0, 1, 2];
    assert left[ids[0]] == false && left[ids[1]] == false && left[ids[2]] == false;
    assert right[ids[0]] == true && right[ids[1]] == false && right[ids[2]] == true;
  }

  /** A row has no fractional entry exactly when its count is 0. */
  lemma {:induction false} CountFracZero(row: seq<real>, isFractional: real -> bool)
    ensures CountFrac(row, isFractional) == 0 <==> forall k :: 0 <= k < |row| ==> !isFractional(row[k])
  {
    if |row| > 0 {
      CountFracZero(row[..|row| - 1], isFractional);
      assert forall k :: 0 <= k < |row| - 1 ==> row[..|row| - 1][k] == row[k];
    }
  }

  /** Sorting a row does not change whether it has a fractional entry. */
  lemma SortedRowFractional(ids: seq<int>, sorted: seq<real>, orig: seq<real>, n: nat, isFractional: real -> bool)
    requires |orig| == n && RowSorted(ids, sorted, orig, n)
    ensures CountFrac(sorted, isFractional) == 0 <==> forall j :: 0 <= j < n ==> !isFractional(orig[j])
  {
    PermutationFacts(ids, n);
    CountFracZero(sorted, isFractional);
    if forall k :: 0 <= k < |sorted| ==> !isFractional(sorted[k]) {
      forall j | 0 <= j < n ensures !isFractional(orig[j]) {
        var k := RankOf(ids, j);
        assert sorted[k] == orig[j];
      }
    }
  }

  /** Row `i` of the assignment matrix. */
  ghost function AssignmentRow(pool: seq<PatternVar>, values: seq<real>, i: int, n: nat): (r: seq<real>)
    requires |pool| <= |values|
    ensures |r| == n && forall j :: 0 <= j < n ==> r[j] == AssignmentValue(pool, values, i, j)
  {
    seq(n, j => AssignmentValue(pool, values, i, j))
  }

  /** After every row of the assignment matrix is sorted, no row has a
      fractional entry exactly when no assignment value is fractional. */
  lemma NoFractionalMeansIntegral(ids: seq<seq<int>>, sorted: seq<seq<real>>, pool: seq<PatternVar>, values: seq<real>,
                                  n: nat, isFractional: real -> bool)
    requires |pool| <= |values| && |ids| == n && |sorted| == n
    requires forall i :: 0 <= i < n ==> RowSorted(ids[i], sorted[i], AssignmentRow(pool, values, i, n), n)
    ensures (forall i :: 0 <= i < n ==> CountFrac(sorted[i], isFractional) == 0) <==> AllIntegral(pool, values, n, isFractional)
  {
    forall i | 0 <= i < n
      ensures CountFrac(sorted[i], isFractional) == 0
          <==> forall j :: 0 <= j < n ==> !isFractional(AssignmentValue(pool, values, i, j))
    {
      var row := AssignmentRow(pool, values, i, n);
      assert RowSorted(ids[i], sorted[i], row, n);
      SortedRowFractional(ids[i], sorted[i], row, n, isFractional);
      assert CountFrac(sorted[i], isFractional) == 0 <==> forall j :: 0 <= j < n ==> !isFractional(row[j]);
      forall j | 0 <= j < n
        ensures isFractional(row[j]) == isFractional(AssignmentValue(pool, values, i, j))
      {
        assert row[j] == AssignmentValue(pool, values, i, j);
      }
      assert (forall j :: 0 <= j < n ==> !isFractional(row[j]))
         <==> (forall j :: 0 <= j < n ==> !isFractional(AssignmentValue(pool, values, i, j)));
    }
    if forall i :: 0 <= i < n ==> CountFrac(sorted[i], isFractional) == 0 {
      forall i, j | 0 <= i < n && 0 <= j < n
        ensures !isFractional(AssignmentValue(pool, values, i, j))
      {
        assert CountFrac(sorted[i], isFractional) == 0;
        assert forall j' :: 0 <= j' < n ==> !isFractional(AssignmentValue(pool, values, i, j'));
      }
    }
    if AllIntegral(pool, values, n, isFractional) {
      forall i | 0 <= i < n
        ensures CountFrac(sorted[i], isFractional) == 0
      {
        assert forall j :: 0 <= j < n ==> !isFractional(AssignmentValue(pool, values, i, j));
      }
    }
  }

  /** The tie rule as written against the documented one: two locations with
      two fractional entries each, the first perfectly balanced. The code as
      written picks the second; the documented rule picks the first. */
  lemma TieBreakFinding()
    ensures var rows := [[0.5, 0.5], [0.7, 0.3]];
      var f := (x: real) => 0.0 < x < 1.0;
      && (forall r :: LastMostFractional(rows, r, f) <==> r == 1)
      && (forall r :: BestBalanced(rows, r, f) <==> r == 0)
  {
    var rows := [[0.5, 0.5], [0.7, 0.3]];
    var f := (x: real) => 0.0 < x < 1.0;
    assert rows[0][..1] == [0.5] && rows[1][..1] == [0.7];
    assert [0.5][..0] == [] && [0.7][..0] == [];
    assert CountFrac(rows[0], f) == 2 && CountFrac(rows[1], f) == 2;
    assert TotFrac(rows[0], f) == 1.0 && HalfFrac(rows[0], f) == 0.5;
    assert TotFrac(rows[1], f) == 1.0 && HalfFrac(rows[1], f) == 0.7;
    assert Imbalance(rows[0], f) == 0.0;
    assert Imbalance(rows[1], f) == 0.2;
  }
}
