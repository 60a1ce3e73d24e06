/** The bookkeeping of the variable pricer: the forbidden-assignment registry
    shared with branching and propagation, and the global pool of pattern
    (cluster) variables with its counters. */
module PricerCpmp {
  import opened Text
  import opened Host

  /** A master variable's data: its cluster's median and locations, and the
      name the variable was created under. */
  datatype PatternVar = PatternVar(name: string, median: int, locations: seq<int>)

  /** `"Pattern_" + str(median) + "_" + str(ordinal)`. */
  function VarName(median: nat, ordinal: nat): string {
    "Pattern_" + NatToString(median) + "_" + NatToString(ordinal)
  }

  /** Number of patterns in `pool` whose median is `m`. */
  function CountMedian(pool: seq<PatternVar>, m: int): nat {
    if |pool| == 0 then 0
    else CountMedian(pool[..|pool| - 1], m) + (if pool[|pool| - 1].median == m then 1 else 0)
  }

  predicate InGrid(p: (int, int), n: nat) {
    0 <= p.0 < n && 0 <= p.1 < n
  }

  /** Whether a registry entry `(median, location)` is one of those a call with
      `location` and `forbidden` writes, looking at medians below `upto`. */
  predicate Flagged(p: (int, int), upto: nat, location: int, forbidden: seq<bool>)
    requires upto <= |forbidden|
  {
    p.1 == location && 0 <= p.0 < upto && forbidden[p.0]
  }

  /** The registry after every flagged entry has been set to `value`. */
  function SetFlagged(reg: map<(int, int), bool>, upto: nat, location: int, forbidden: seq<bool>, value: bool)
    : map<(int, int), bool>
    requires upto <= |forbidden|
  {
    map p | p in reg :: if Flagged(p, upto, location, forbidden) then value else reg[p]
  }

  /** The registry after `forbidAssignments(location, forbidden)`. */
  function Forbid(reg: map<(int, int), bool>, n: nat, location: int, forbidden: seq<bool>): map<(int, int), bool>
    requires n <= |forbidden|
  {
    SetFlagged(reg, n, location, forbidden, true)
  }

  /** The registry after `allowAssignments(location, forbidden)`. */
  function Allow(reg: map<(int, int), bool>, n: nat, location: int, forbidden: seq<bool>): map<(int, int), bool>
    requires n <= |forbidden|
  {
    SetFlagged(reg, n, location, forbidden, false)
  }

  /** Forbidding sets every flagged entry, and leaves every other entry, in
      particular those of other locations and of unflagged medians, as it was. */
  lemma ForbidEffect(reg: map<(int, int), bool>, n: nat, location: int, forbidden: seq<bool>)
    requires n <= |forbidden| && forall p :: InGrid(p, n) ==> p in reg
    ensures Forbid(reg, n, location, forbidden).Keys == reg.Keys
    ensures forall m :: 0 <= m < n && 0 <= location < n && forbidden[m] ==>
      (m, location) in reg && Forbid(reg, n, location, forbidden)[(m, location)]
    ensures forall p :: p in reg && (p.1 != location || !(0 <= p.0 < n && forbidden[p.0])) ==>
      Forbid(reg, n, location, forbidden)[p] == reg[p]
  {
  }

  /** Allowing clears every flagged entry whatever it held before: the
      registry is a flat boolean, not a count of forbidding constraints. */
  lemma AllowEffect(reg: map<(int, int), bool>, n: nat, location: int, forbidden: seq<bool>)
    requires n <= |forbidden| && forall p :: InGrid(p, n) ==> p in reg
    ensures Allow(reg, n, location, forbidden).Keys == reg.Keys
    ensures forall m :: 0 <= m < n && 0 <= location < n && forbidden[m] ==>
      (m, location) in reg && !Allow(reg, n, location, forbidden)[(m, location)]
    ensures forall p :: p in reg && (p.1 != location || !(0 <= p.0 < n && forbidden[p.0])) ==>
      Allow(reg, n, location, forbidden)[p] == reg[p]
  {
  }

  /** Forbidding and then allowing with the same arguments restores the
      registry exactly when none of the flagged entries was set beforehand. */
  lemma ForbidThenAllow(reg: map<(int, int), bool>, n: nat, location: int, forbidden: seq<bool>)
    requires n <= |forbidden|
    ensures Allow(Forbid(reg, n, location, forbidden), n, location, forbidden) == reg
        <==> (forall p :: p in reg && Flagged(p, n, location, forbidden) ==> !reg[p])
  {
    var after := Allow(Forbid(reg, n, location, forbidden), n, location, forbidden);
    if forall p :: p in reg && Flagged(p, n, location, forbidden) ==> !reg[p] {
      assert after.Keys == reg.Keys;
      forall p | p in reg ensures after[p] == reg[p] {
      }
    } else {
      var p :| p in reg && Flagged(p, n, location, forbidden) && reg[p];
      assert !after[p];
    }
  }

  /** The range guard that `forbidAssignments` and `allowAssignments` assert
      inside their loops, as written: it compares the flag `forbidden[median]`,
      read as the integer 1, with `nlocations`, instead of `median`. */
  predicate LoopGuardAsWritten(nlocations: nat, forbidden: seq<bool>, median: nat)
    requires median < |forbidden|
  {
    forbidden[median] ==> 0 <= 1 < nlocations
  }

  /** The guard as evidently intended: the median is a valid index. */
  predicate LoopGuardIntended(nlocations: nat, forbidden: seq<bool>, median: nat)
    requires median < |forbidden|
  {
    forbidden[median] ==> 0 <= median < nlocations
  }

  /** With a single location and its median flagged, the guard as written
      fails although the entry to be written is a valid one. */
  lemma LoopGuardAsWrittenRejectsSingleLocation()
    ensures !LoopGuardAsWritten(1, [true], 0)
    ensures LoopGuardIntended(1, [true], 0)
  {
  }

  /** The guard as written rejects exactly the flagged medians of an instance
      with fewer than two locations, whatever the median. */
  lemma LoopGuardAsWrittenIff(nlocations: nat, forbidden: seq<bool>, median: nat)
    requires median < |forbidden|
    ensures LoopGuardAsWritten(nlocations, forbidden, median) <==> (!forbidden[median] || nlocations >= 2)
  {
  }

  /** Each median's counter is the number of patterns generated for it. */
  ghost predicate CountersMatch(counters: map<int, int>, pool: seq<PatternVar>) {
    forall m :: m in counters ==> counters[m] == CountMedian(pool, m)
  }

  ghost predicate MediansInRange(pool: seq<PatternVar>, n: nat) {
    forall k :: 0 <= k < |pool| ==> 0 <= pool[k].median < n
  }

  /** Every location of a cluster is one of the `n` locations. */
  predicate InLocations(locations: seq<int>, n: nat) {
    forall q :: 0 <= q < |locations| ==> 0 <= locations[q] < n
  }

  /** Every pattern's cluster lies within the `n` locations, so that branching
      can index its assignment matrix with them. */
  ghost predicate LocationsInRange(pool: seq<PatternVar>, n: nat) {
    forall k :: 0 <= k < |pool| ==> InLocations(pool[k].locations, n)
  }

  /** The `k`-th pattern of a median is named after that median and `k`. */
  ghost predicate NamesNumbered(pool: seq<PatternVar>) {
    forall k :: 0 <= k < |pool| ==>
      pool[k].median >= 0 && pool[k].name == VarName(pool[k].median, CountMedian(pool[..k], pool[k].median))
  }

  lemma CountMedianAppend(pool: seq<PatternVar>, x: PatternVar, m: int)
    ensures CountMedian(pool + [x], m) == CountMedian(pool, m) + (if x.median == m then 1 else 0)
  {
    assert (pool + [x])[..|pool|] == pool;
  }

  /** Appending a pattern named after its median's current count keeps the
      numbering of the names. */
  lemma NamesNumberedAppend(pool: seq<PatternVar>, x: PatternVar)
    requires NamesNumbered(pool) && x.median >= 0
    requires x.name == VarName(x.median, CountMedian(pool, x.median))
    ensures NamesNumbered(pool + [x])
  {
    var q := pool + [x];
    forall k | 0 <= k < |q|
      ensures q[k].median >= 0 && q[k].name == VarName(q[k].median, CountMedian(q[..k], q[k].median))
    {
      if k < |pool| {
        assert q[..k] == pool[..k];
      } else {
        assert q[..k] == pool;
      }
    }
  }

  /** What `addColumn` does to the pool and the counters keeps them in step. */
  lemma PoolAppend(counters: map<int, int>, pool: seq<PatternVar>, n: nat, x: PatternVar)
    requires CountersMatch(counters, pool) && MediansInRange(pool, n) && LocationsInRange(pool, n) && NamesNumbered(pool)
    requires x.median in counters && 0 <= x.median < n && InLocations(x.locations, n)
    requires x.name == VarName(x.median, counters[x.median])
    ensures CountersMatch(counters[x.median := counters[x.median] + 1], pool + [x])
    ensures MediansInRange(pool + [x], n) && LocationsInRange(pool + [x], n) && NamesNumbered(pool + [x])
  {
    NamesNumberedAppend(pool, x);
    var after := counters[x.median := counters[x.median] + 1];
    forall m | m in after ensures after[m] == CountMedian(pool + [x], m) {
      CountMedianAppend(pool, x, m);
    }
  }

  class Pricer {
    const nlocations: nat
    /** The global pool of pattern variables, in creation order; it only grows. */
    var patternVars: seq<PatternVar>
    var nvars: int
    /** For each median, the number of pattern variables generated for it. */
    var nVarsMedian: map<int, int>
    /** `(median, location) -> bool`: true when the assignment is forbidden. */
    var forbiddenassignments: map<(int, int), bool>

    /** The part of `Valid` that propagation relies on: one variable per
        pattern, each pattern's median a location. */
    ghost predicate PoolValid()
      reads this
    {
      nvars == |patternVars| && MediansInRange(patternVars, nlocations)
    }

    ghost predicate Valid()
      reads this
    {
      && PoolValid()
      && LocationsInRange(patternVars, nlocations)
      && (forall p :: p in forbiddenassignments <==> InGrid(p, nlocations))
      && (forall m :: m in nVarsMedian <==> 0 <= m < nlocations)
      && CountersMatch(nVarsMedian, patternVars)
      && NamesNumbered(patternVars)
    }

    /** The pricer as the model set-up leaves it: no pattern yet, every
        counter 0, every assignment allowed. */
    constructor (n: nat)
      ensures Valid() && nlocations == n
      ensures patternVars == [] && nvars == 0
      ensures forall m :: m in nVarsMedian ==> nVarsMedian[m] == 0
      ensures forall p :: p in forbiddenassignments ==> !forbiddenassignments[p]
    {
      nlocations := n;
      patternVars := [];
      nvars := 0;
      var counters: map<int, int> := map[];
      var registry: map<(int, int), bool> := map[];
      var median := 0;
      while median < n
        invariant 0 <= median <= n
        invariant forall m :: m in counters <==> 0 <= m < median
        invariant forall m :: m in counters ==> counters[m] == 0
        invariant forall p :: p in registry <==> 0 <= p.0 < median && 0 <= p.1 < n
        invariant forall p :: p in registry ==> !registry[p]
      {
        counters := counters[median := 0];
        var location := 0;
        while location < n
          invariant 0 <= location <= n
          invariant forall p :: p in registry <==>
            (0 <= p.0 < median && 0 <= p.1 < n) || (p.0 == median && 0 <= p.1 < location)
          invariant forall p :: p in registry ==> !registry[p]
        {
          registry := registry[(median, location) := false];
          location := location + 1;
        }
        median := median + 1;
      }
      nVarsMedian := counters;
      forbiddenassignments := registry;
    }

    /** Whether `target` occurs in the pattern's location list. */
    static method IsLocationInCluster(v: PatternVar, target: int) returns (r: bool)
      ensures r <==> target in v.locations
    {
      var k := 0;
      while k < |v.locations|
        invariant 0 <= k <= |v.locations|
        invariant target !in v.locations[..k]
      {
        if v.locations[k] == target {
          return true;
        }
        k := k + 1;
      }
      assert v.locations[..k] == v.locations;
      return false;
    }

    /** Registers a new pattern variable for `median` with the given locations
        (its objective cost is not modelled) and creates its master variable
        with bounds [0, 1]. */
    method AddColumn(host: HostSolver, median: int, sollocations: seq<int>)
      requires Valid() && host.Valid()
      requires median in nVarsMedian
      requires InLocations(sollocations, nlocations)
      modifies this, host
      ensures Valid() && host.Valid()
      ensures patternVars == old(patternVars) + [PatternVar(VarName(median, old(nVarsMedian[median])), median, sollocations)]
      ensures nvars == old(nvars) + 1
      ensures nVarsMedian == old(nVarsMedian)[median := old(nVarsMedian[median]) + 1]
      ensures forbiddenassignments == old(forbiddenassignments)
      ensures host.lbLocal == old(host.lbLocal) + [0.0] && host.ubLocal == old(host.ubLocal) + [1.0]
      ensures host.repropagated == old(host.repropagated)
    {
      var ordinal := nVarsMedian[median];
      var varName := VarName(median, ordinal);
      nVarsMedian := nVarsMedian[median := ordinal + 1];
      host.AddVar(0.0, 1.0);
      var newVar := PatternVar(varName, median, sollocations);
      PoolAppend(old(nVarsMedian), patternVars, nlocations, newVar);
      patternVars := patternVars + [newVar];
      nvars := nvars + 1;
    }

    method ForbidAssignments(location: int, forbidden: seq<bool>)
      requires Valid() && 0 <= location < nlocations && |forbidden| >= nlocations
      modifies this`forbiddenassignments
      ensures Valid()
      ensures forbiddenassignments == Forbid(old(forbiddenassignments), nlocations, location, forbidden)
    {
      var median := 0;
      while median < nlocations
        invariant 0 <= median <= nlocations
        invariant forbiddenassignments == SetFlagged(old(forbiddenassignments), median, location, forbidden, true)
      {
        if forbidden[median] {
          forbiddenassignments := forbiddenassignments[(median, location) := true];
        }
        median := median + 1;
      }
    }

    method AllowAssignments(location: int, forbidden: seq<bool>)
      requires Valid() && 0 <= location < nlocations && |forbidden| >= nlocations
      modifies this`forbiddenassignments
      ensures Valid()
      ensures forbiddenassignments == Allow(old(forbiddenassignments), nlocations, location, forbidden)
    {
      var median := 0;
      while median < nlocations
        invariant 0 <= median <= nlocations
        invariant forbiddenassignments == SetFlagged(old(forbiddenassignments), median, location, forbidden, false)
      {
        if forbidden[median] {
          forbiddenassignments := forbiddenassignments[(median, location) := false];
        }
        median := median + 1;
      }
    }

    method ForbidAssignment(median: int, location: int)
      requires Valid() && 0 <= median < nlocations && 0 <= location < nlocations
      modifies this`forbiddenassignments
      ensures Valid()
      ensures forbiddenassignments == old(forbiddenassignments)[(median, location) := true]
    {
      forbiddenassignments := forbiddenassignments[(median, location) := true];
    }

    method AllowAssignment(median: int, location: int)
      requires Valid() && 0 <= median < nlocations && 0 <= location < nlocations
      modifies this`forbiddenassignments
      ensures Valid()
      ensures forbiddenassignments == old(forbiddenassignments)[(median, location) := false]
    {
      forbiddenassignments := forbiddenassignments[(median, location) := false];
    }

    method IsAssignmentForbidden(median: int, location: int) returns (r: bool)
      requires Valid() && 0 <= median < nlocations && 0 <= location < nlocations
      ensures r == forbiddenassignments[(median, location)]
    {
      r := forbiddenassignments[(median, location)];
    }
  }

  /** Once created, the variable names of the pool are pairwise distinct:
      each median's counter numbers its patterns 0, 1, 2, ... */
  lemma {:induction false} PatternNamesDistinct(pool: seq<PatternVar>, i: nat, j: nat)
    requires NamesNumbered(pool)
    requires i < j < |pool|
    ensures pool[i].name != pool[j].name
  {
    if pool[i].name == pool[j].name {
      var mi, mj := pool[i].median, pool[j].median;
      VarNameInjective(mi, CountMedian(pool[..i], mi), mj, CountMedian(pool[..j], mj));
      CountMedianGrows(pool, i, j);
    }
  }

  /** A pattern with median `pool[i].median` at index `i` makes that median's
      count over any longer prefix larger than over `pool[..i]`. */
  lemma {:induction false} CountMedianGrows(pool: seq<PatternVar>, i: nat, j: nat)
    requires i < j <= |pool|
    ensures CountMedian(pool[..j], pool[i].median) > CountMedian(pool[..i], pool[i].median)
  {
    var m := pool[i].median;
    assert pool[..j][..j - 1] == pool[..j - 1];
    if j == i + 1 {
      assert CountMedian(pool[..j], m) == CountMedian(pool[..i], m) + 1;
    } else {
      CountMedianGrows(pool, i, j - 1);
    }
  }

  lemma VarNameInjective(m1: nat, k1: nat, m2: nat, k2: nat)
    requires VarName(m1, k1) == VarName(m2, k2)
    ensures m1 == m2 && k1 == k2
  {
    var a, b := NatToString(m1), NatToString(m2);
    var prefix := "Pattern_";
    assert VarName(m1, k1) == prefix + (a + "_" + NatToString(k1));
    assert VarName(m2, k2) == prefix + (b + "_" + NatToString(k2));
    assert a + "_" + NatToString(k1) == VarName(m1, k1)[|prefix|..];
    DigitsThenUnderscore(a, NatToString(k1), b, NatToString(k2));
    NatToStringInjective(m1, m2);
    NatToStringInjective(k1, k2);
  }

  /** Index of the first `_` in `s`, or `|s|` when there is none. */
  function FirstUnderscore(s: string): (k: nat)
    ensures k <= |s|
  {
    if |s| == 0 then 0 else if s[0] == '_' then 0 else 1 + FirstUnderscore(s[1..])
  }

  lemma {:induction false} UnderscoreAfterDigits(a: string, x: string)
    requires AllDigits(a)
    ensures FirstUnderscore(a + "_" + x) == |a|
  {
    if |a| > 0 {
      assert (a + "_" + x)[1..] == a[1..] + "_" + x;
      UnderscoreAfterDigits(a[1..], x);
    }
  }

  /** A digit string followed by `_` can be split back uniquely. */
  lemma DigitsThenUnderscore(a: string, x: string, b: string, y: string)
    requires AllDigits(a) && AllDigits(b)
    requires a + "_" + x == b + "_" + y
    ensures a == b && x == y
  {
    var s := a + "_" + x;
    UnderscoreAfterDigits(a, x);
    UnderscoreAfterDigits(b, y);
    assert a == s[..|a|] == b;
    assert x == s[|a| + 1..] == y;
  }
}
