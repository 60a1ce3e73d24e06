/** The semi-assignment constraint handler: each branching constraint keeps,
    for its node, which medians its location may not use and how far along
    the global pattern pool it has propagated that decision. */
module ConsSemiassign {
  import opened Host
  import opened PricerCpmp

  datatype PropResult = DidNotFind | ReducedDom | Cutoff

  /** The fields of a constraint's data, as a value. */
  datatype ConsState = ConsState(location: int, forbidden: seq<bool>, propagate: bool, npropvars: nat)

  /** The local bounds of the master variables, as a value. */
  datatype Bounds = Bounds(lb: seq<real>, ub: seq<real>)

  /** What propagation reads but never changes: the pattern pool, the number
      of pattern variables and the host's zero test. */
  datatype Env = Env(pool: seq<PatternVar>, nvars: int, isFeasZero: real -> bool)

  /** The bounds once one constraint's scan is over, the running result and
      the constraint's new cursor. */
  datatype ScanOutcome = ScanOutcome(bounds: Bounds, result: PropResult, npropvars: int)

  datatype PropState = PropState(conss: seq<ConsState>, bounds: Bounds, result: PropResult)

  /** The pool, the bounds and a forbidden vector fit together: every variable
      the scan can visit has bounds and a median that indexes `forbidden`. */
  ghost predicate Fits(env: Env, b: Bounds, forbidden: seq<bool>) {
    && 0 <= env.nvars <= |env.pool|
    && |b.lb| == |b.ub| && env.nvars <= |b.ub|
    && forall v :: 0 <= v < env.nvars ==> 0 <= env.pool[v].median < |forbidden|
  }

  /** Variable `v` is to be fixed to 0 for the constraint: its upper bound is
      not already zero, its median is forbidden and its cluster holds the
      constraint's location. */
  ghost predicate Matches(env: Env, b: Bounds, location: int, forbidden: seq<bool>, v: int)
    requires Fits(env, b, forbidden) && 0 <= v < env.nvars
  {
    !env.isFeasZero(b.ub[v]) && forbidden[env.pool[v].median] && location in env.pool[v].locations
  }

  function Fix(b: Bounds, v: nat): (r: Bounds)
    requires v < |b.lb| && v < |b.ub|
    ensures |r.lb| == |b.lb| && |r.ub| == |b.ub|
  {
    Bounds(b.lb[v := 0.0], b.ub[v := 0.0])
  }

  /** The scan of one constraint's loop from variable `i` on, as `consprop`
      runs it with result `res` so far; the cursor it returns is one past the
      last variable the loop visited (`i` itself when it visits none). */
  ghost function Scan(env: Env, b: Bounds, location: int, forbidden: seq<bool>, i: nat, res: PropResult)
    : (r: ScanOutcome)
    requires Fits(env, b, forbidden)
    ensures |r.bounds.lb| == |b.lb| && |r.bounds.ub| == |b.ub|
    ensures i <= r.npropvars
    decreases env.nvars - i
  {
    if i >= env.nvars then ScanOutcome(b, res, i)
    else if Matches(env, b, location, forbidden, i) then
      if b.lb[i] > 0.0 then ScanOutcome(b, Cutoff, i + 1)
      else Scan(env, Fix(b, i), location, forbidden, i + 1, ReducedDom)
    else Scan(env, b, location, forbidden, i + 1, res)
  }

  /** The first variable from `i` on whose fix would be infeasible, or `nvars`. */
  ghost function FirstBlocked(env: Env, b: Bounds, location: int, forbidden: seq<bool>, i: nat): (r: int)
    requires Fits(env, b, forbidden)
    ensures r == env.nvars || i <= r < env.nvars
    ensures i >= env.nvars ==> r == env.nvars
    decreases env.nvars - i
  {
    if i >= env.nvars then env.nvars
    else if Matches(env, b, location, forbidden, i) && b.lb[i] > 0.0 then i
    else FirstBlocked(env, b, location, forbidden, i + 1)
  }

  /** Some variable in `[i, j)` is to be fixed. */
  ghost predicate AnyMatch(env: Env, b: Bounds, location: int, forbidden: seq<bool>, i: int, j: int)
    requires Fits(env, b, forbidden)
  {
    exists v :: 0 <= i <= v < j && v < env.nvars && Matches(env, b, location, forbidden, v)
  }

  /** Fixing variable `i` changes neither what a later variable matches nor
      where the first infeasible fix after `i` is. */
  lemma {:induction false} FixKeepsLater(env: Env, b: Bounds, location: int, forbidden: seq<bool>, i: nat, j: nat)
    requires Fits(env, b, forbidden) && i < env.nvars && i < j
    ensures Fits(env, Fix(b, i), forbidden)
    ensures forall v :: j <= v < env.nvars ==>
      Matches(env, Fix(b, i), location, forbidden, v) == Matches(env, b, location, forbidden, v)
    ensures FirstBlocked(env, Fix(b, i), location, forbidden, j) == FirstBlocked(env, b, location, forbidden, j)
    decreases env.nvars - j
  {
    if j < env.nvars {
      FixKeepsLater(env, b, location, forbidden, i, j + 1);
    }
  }

  /** The bounds after one constraint's scan: up to the first infeasible fix,
      every matching variable is fixed to 0, and nothing else changes. */
  lemma ScanBounds(env: Env, b: Bounds, location: int, forbidden: seq<bool>, i: nat, res: PropResult, v: nat)
    requires Fits(env, b, forbidden) && v < |b.ub|
    ensures var o := Scan(env, b, location, forbidden, i, res);
      var stop := FirstBlocked(env, b, location, forbidden, i);
      if i <= v < stop && Matches(env, b, location, forbidden, v)
      then o.bounds.lb[v] == 0.0 && o.bounds.ub[v] == 0.0
      else o.bounds.lb[v] == b.lb[v] && o.bounds.ub[v] == b.ub[v]
  {
    var stop := FirstBlocked(env, b, location, forbidden, i);
    if i <= v < stop && Matches(env, b, location, forbidden, v) {
      ScanFixes(env, b, location, forbidden, i, res, v);
    } else {
      ScanKeeps(env, b, location, forbidden, i, res, v);
    }
  }

  /** A matching variable before the first infeasible fix is fixed to 0. */
  lemma {:induction false} ScanFixes(env: Env, b: Bounds, location: int, forbidden: seq<bool>, i: nat, res: PropResult, v: nat)
    requires Fits(env, b, forbidden) && i <= v < FirstBlocked(env, b, location, forbidden, i)
    requires Matches(env, b, location, forbidden, v)
    ensures Scan(env, b, location, forbidden, i, res).bounds.lb[v] == 0.0
    ensures Scan(env, b, location, forbidden, i, res).bounds.ub[v] == 0.0
    decreases env.nvars - i
  {
    if Matches(env, b, location, forbidden, i) {
      var b' := Fix(b, i);
      FixKeepsLater(env, b, location, forbidden, i, i + 1);
      if v > i {
        ScanFixes(env, b', location, forbidden, i + 1, ReducedDom, v);
      } else {
        ScanKeeps(env, b', location, forbidden, i + 1, ReducedDom, v);
      }
    } else {
      ScanFixes(env, b, location, forbidden, i + 1, res, v);
    }
  }

  /** Every other variable keeps its bounds. */
  lemma {:induction false} ScanKeeps(env: Env, b: Bounds, location: int, forbidden: seq<bool>, i: nat, res: PropResult, v: nat)
    requires Fits(env, b, forbidden) && v < |b.ub|
    requires !(i <= v < FirstBlocked(env, b, location, forbidden, i) && Matches(env, b, location, forbidden, v))
    ensures Scan(env, b, location, forbidden, i, res).bounds.lb[v] == b.lb[v]
    ensures Scan(env, b, location, forbidden, i, res).bounds.ub[v] == b.ub[v]
    decreases env.nvars - i
  {
    if i < env.nvars {
      if Matches(env, b, location, forbidden, i) {
        if b.lb[i] <= 0.0 {
          FixKeepsLater(env, b, location, forbidden, i, i + 1);
          ScanKeeps(env, Fix(b, i), location, forbidden, i + 1, ReducedDom, v);
        }
      } else {
        ScanKeeps(env, b, location, forbidden, i + 1, res, v);
      }
    }
  }

  /** The result after one constraint's scan: CUTOFF on an infeasible fix,
      otherwise REDUCEDDOM when some variable was fixed and the running
      result when none was. */
  lemma {:induction false} ScanResult(env: Env, b: Bounds, location: int, forbidden: seq<bool>, i: nat, res: PropResult)
    requires Fits(env, b, forbidden)
    ensures var o := Scan(env, b, location, forbidden, i, res);
      var stop := FirstBlocked(env, b, location, forbidden, i);
      o.result == (if stop < env.nvars then Cutoff
                   else if AnyMatch(env, b, location, forbidden, i, stop) then ReducedDom
                   else res)
    decreases env.nvars - i
  {
    if i < env.nvars {
      var stop := FirstBlocked(env, b, location, forbidden, i);
      if Matches(env, b, location, forbidden, i) {
        if b.lb[i] <= 0.0 {
          FixKeepsLater(env, b, location, forbidden, i, i + 1);
          ScanResult(env, Fix(b, i), location, forbidden, i + 1, ReducedDom);
          if stop == env.nvars {
            assert AnyMatch(env, b, location, forbidden, i, stop);
          }
        }
      } else {
        ScanResult(env, b, location, forbidden, i + 1, res);
        if stop == env.nvars && AnyMatch(env, b, location, forbidden, i, stop) {
          var v :| 0 <= i <= v < stop && v < env.nvars && Matches(env, b, location, forbidden, v);
          assert AnyMatch(env, b, location, forbidden, i + 1, stop);
        }
      }
    }
  }

  /** The cursor after one constraint's scan: one past the offending variable
      on CUTOFF, `nvars` after a full scan, unchanged when there was nothing
      to scan. */
  lemma {:induction false} ScanCursor(env: Env, b: Bounds, location: int, forbidden: seq<bool>, i: nat, res: PropResult)
    requires Fits(env, b, forbidden)
    ensures var o := Scan(env, b, location, forbidden, i, res);
      var stop := FirstBlocked(env, b, location, forbidden, i);
      o.npropvars == (if stop < env.nvars then stop + 1 else if i < env.nvars then env.nvars else i)
    decreases env.nvars - i
  {
    if i < env.nvars {
      if Matches(env, b, location, forbidden, i) {
        if b.lb[i] <= 0.0 {
          FixKeepsLater(env, b, location, forbidden, i, i + 1);
          ScanCursor(env, Fix(b, i), location, forbidden, i + 1, ReducedDom);
        }
      } else {
        ScanCursor(env, b, location, forbidden, i + 1, res);
      }
    }
  }

  /** A constraint's state fits the pool and the bounds. */
  ghost predicate ConsFits(env: Env, b: Bounds, c: ConsState) {
    Fits(env, b, c.forbidden)
  }

  ghost predicate AllFit(env: Env, st: PropState) {
    forall k :: 0 <= k < |st.conss| ==> ConsFits(env, st.bounds, st.conss[k])
  }

  /** One constraint's turn in `consprop`: scanned when its `propagate` flag
      is set, then marked as propagated with its new cursor. */
  ghost function PropagateOne(env: Env, b: Bounds, c: ConsState, res: PropResult): (r: (Bounds, PropResult, ConsState))
    requires ConsFits(env, b, c)
    ensures |r.0.lb| == |b.lb| && |r.0.ub| == |b.ub|
    ensures r.2.location == c.location && r.2.forbidden == c.forbidden
  {
    if c.propagate then
      var o := Scan(env, b, c.location, c.forbidden, c.npropvars, res);
      (o.bounds, o.result, c.(propagate := false, npropvars := o.npropvars))
    else (b, res, c)
  }

  lemma OneKeepsFit(env: Env, st: PropState, k: nat)
    requires AllFit(env, st) && k < |st.conss|
    ensures var r := PropagateOne(env, st.bounds, st.conss[k], st.result);
      AllFit(env, PropState(st.conss[k := r.2], r.0, r.1))
  {
  }

  /** One turn of `consprop`: constraint `k` propagates, and the rest follows. */
  lemma PropagateFromStep(env: Env, st: PropState, k: nat)
    requires AllFit(env, st) && k < |st.conss| && st.result != Cutoff
    ensures var r := PropagateOne(env, st.bounds, st.conss[k], st.result);
      var next := PropState(st.conss[k := r.2], r.0, r.1);
      AllFit(env, next) && PropagateFrom(env, st, k) == PropagateFrom(env, next, k + 1)
  {
    OneKeepsFit(env, st, k);
  }

  /** `consprop` over the constraints from index `k` on: stops at the first
      CUTOFF, otherwise gives every constraint its turn in order. */
  ghost function PropagateFrom(env: Env, st: PropState, k: nat): (r: PropState)
    requires AllFit(env, st)
    ensures |r.conss| == |st.conss| && |r.bounds.lb| == |st.bounds.lb| && |r.bounds.ub| == |st.bounds.ub|
    decreases |st.conss| - k
  {
    if k >= |st.conss| || st.result == Cutoff then st
    else
      var r := PropagateOne(env, st.bounds, st.conss[k], st.result);
      OneKeepsFit(env, st, k);
      PropagateFrom(env, PropState(st.conss[k := r.2], r.0, r.1), k + 1)
  }

  /** Propagation never changes a constraint's location or forbidden medians,
      and leaves alone the constraints already past and those whose
      `propagate` flag is clear. */
  lemma {:induction false} PropagateFromFrame(env: Env, st: PropState, k: nat)
    requires AllFit(env, st)
    ensures var f := PropagateFrom(env, st, k);
      forall j :: 0 <= j < |st.conss| ==>
        && f.conss[j].location == st.conss[j].location
        && f.conss[j].forbidden == st.conss[j].forbidden
        && (j < k || !st.conss[j].propagate ==> f.conss[j] == st.conss[j])
    decreases |st.conss| - k
  {
    if k < |st.conss| && st.result != Cutoff {
      var r := PropagateOne(env, st.bounds, st.conss[k], st.result);
      OneKeepsFit(env, st, k);
      PropagateFromFrame(env, PropState(st.conss[k := r.2], r.0, r.1), k + 1);
    }
  }

  /** Each step of propagation only ever writes zeros into the upper bounds. */
  lemma {:induction false} PropagateFromOnlyZeroes(env: Env, st: PropState, k: nat, v: nat)
    requires AllFit(env, st) && v < |st.bounds.ub|
    ensures var f := PropagateFrom(env, st, k);
      f.bounds.ub[v] == st.bounds.ub[v] || f.bounds.ub[v] == 0.0
    ensures st.bounds.ub[v] == 0.0 ==> PropagateFrom(env, st, k).bounds.ub[v] == 0.0
    decreases |st.conss| - k
  {
    if k < |st.conss| && st.result != Cutoff {
      var c := st.conss[k];
      var r := PropagateOne(env, st.bounds, c, st.result);
      if c.propagate {
        ScanBounds(env, st.bounds, c.location, c.forbidden, c.npropvars, st.result, v);
      }
      OneKeepsFit(env, st, k);
      PropagateFromOnlyZeroes(env, PropState(st.conss[k := r.2], r.0, r.1), k + 1, v);
    }
  }

  /** Without CUTOFF every constraint from `k` on ends with its `propagate`
      flag clear, and a constraint that was to be propagated has its cursor
      at `nvars` (or where it was, if that was already past `nvars`). */
  lemma {:induction false} PropagateFromCompletes(env: Env, st: PropState, k: nat)
    requires AllFit(env, st)
    ensures var f := PropagateFrom(env, st, k);
      f.result != Cutoff ==>
        && st.result != Cutoff
        && forall j :: k <= j < |st.conss| ==>
             && !f.conss[j].propagate
             && f.conss[j].npropvars ==
                  (if st.conss[j].propagate && st.conss[j].npropvars < env.nvars then env.nvars
                   else st.conss[j].npropvars)
    decreases |st.conss| - k
  {
    if k < |st.conss| && st.result != Cutoff {
      var c := st.conss[k];
      var r := PropagateOne(env, st.bounds, c, st.result);
      var next := PropState(st.conss[k := r.2], r.0, r.1);
      OneKeepsFit(env, st, k);
      PropagateFromCompletes(env, next, k + 1);
      PropagateFromFrame(env, next, k + 1);
      if c.propagate {
        ScanResult(env, st.bounds, c.location, c.forbidden, c.npropvars, st.result);
        ScanCursor(env, st.bounds, c.location, c.forbidden, c.npropvars, st.result);
      }
    }
  }

  /** CUTOFF stops propagation: when it occurs, some constraint that was to be
      propagated got its turn and every constraint after it is untouched. */
  lemma {:induction false} PropagateFromCutoff(env: Env, st: PropState, k: nat)
    requires AllFit(env, st)
    ensures var f := PropagateFrom(env, st, k);
      f.result == Cutoff && st.result != Cutoff ==>
        exists j :: k <= j < |st.conss| && st.conss[j].propagate && !f.conss[j].propagate &&
          forall j' :: j < j' < |st.conss| ==> f.conss[j'] == st.conss[j']
    decreases |st.conss| - k
  {
    var f := PropagateFrom(env, st, k);
    if k < |st.conss| && st.result != Cutoff && f.result == Cutoff {
      var c := st.conss[k];
      var r := PropagateOne(env, st.bounds, c, st.result);
      var next := PropState(st.conss[k := r.2], r.0, r.1);
      OneKeepsFit(env, st, k);
      PropagateFromFrame(env, next, k + 1);
      assert f == PropagateFrom(env, next, k + 1);
      if r.1 == Cutoff {
        assert k <= k < |st.conss| && st.conss[k].propagate && !f.conss[k].propagate;
      } else {
        PropagateFromCutoff(env, next, k + 1);
        var j :| k + 1 <= j < |next.conss| && next.conss[j].propagate && !f.conss[j].propagate &&
          forall j' :: j < j' < |next.conss| ==> f.conss[j'] == next.conss[j'];
        assert st.conss[j] == next.conss[j];
      }
    }
  }

  /** Propagation clears the forbidden columns: without CUTOFF, every pattern
      variable that a propagated constraint had not yet seen, whose median
      the constraint forbids and whose cluster holds its location, ends with
      a zero upper bound. */
  lemma {:induction false} PropagationClearsForbiddenColumns(env: Env, st: PropState, k: nat)
    requires AllFit(env, st) && env.isFeasZero(0.0)
    ensures var f := PropagateFrom(env, st, k);
      f.result != Cutoff ==>
        forall j, v ::
          && k <= j < |st.conss| && st.conss[j].propagate && st.conss[j].npropvars <= v < env.nvars
          && st.conss[j].forbidden[env.pool[v].median] && st.conss[j].location in env.pool[v].locations
          ==> env.isFeasZero(f.bounds.ub[v])
    decreases |st.conss| - k
  {
    var f := PropagateFrom(env, st, k);
    if k < |st.conss| && st.result != Cutoff && f.result != Cutoff {
      var c := st.conss[k];
      var r := PropagateOne(env, st.bounds, c, st.result);
      var next := PropState(st.conss[k := r.2], r.0, r.1);
      OneKeepsFit(env, st, k);
      PropagationClearsForbiddenColumns(env, next, k + 1);
      PropagateFromCompletes(env, next, k + 1);
      forall j, v |
          && k <= j < |st.conss| && st.conss[j].propagate && st.conss[j].npropvars <= v < env.nvars
          && st.conss[j].forbidden[env.pool[v].median] && st.conss[j].location in env.pool[v].locations
        ensures env.isFeasZero(f.bounds.ub[v])
      {
        if j == k {
          ScanBounds(env, st.bounds, c.location, c.forbidden, c.npropvars, st.result, v);
          ScanResult(env, st.bounds, c.location, c.forbidden, c.npropvars, st.result);
          PropagateFromOnlyZeroes(env, next, k + 1, v);
        } else {
          assert next.conss[j] == st.conss[j];
        }
      }
    }
  }

  /** The result says whether anything changed: starting from DIDNOTFIND and
      without CUTOFF, propagation ends with DIDNOTFIND exactly when it left
      every bound as it was. */
  lemma {:induction false} PropagateFromResult(env: Env, st: PropState, k: nat)
    requires AllFit(env, st) && env.isFeasZero(0.0) && st.result == DidNotFind
    ensures var f := PropagateFrom(env, st, k);
      f.result != Cutoff ==> (f.result == DidNotFind <==> f.bounds == st.bounds)
    decreases |st.conss| - k
  {
    var f := PropagateFrom(env, st, k);
    if k < |st.conss| && f.result != Cutoff {
      var c := st.conss[k];
      var r := PropagateOne(env, st.bounds, c, st.result);
      var next := PropState(st.conss[k := r.2], r.0, r.1);
      OneKeepsFit(env, st, k);
      if c.propagate {
        var stop := FirstBlocked(env, st.bounds, c.location, c.forbidden, c.npropvars);
        ScanResult(env, st.bounds, c.location, c.forbidden, c.npropvars, st.result);
        if r.1 == DidNotFind {
          forall v | 0 <= v < |st.bounds.ub|
            ensures r.0.lb[v] == st.bounds.lb[v] && r.0.ub[v] == st.bounds.ub[v]
          {
            ScanBounds(env, st.bounds, c.location, c.forbidden, c.npropvars, st.result, v);
          }
          assert r.0 == st.bounds;
          PropagateFromResult(env, next, k + 1);
        } else if r.1 == ReducedDom {
          var v :| 0 <= c.npropvars <= v < stop && v < env.nvars
            && Matches(env, st.bounds, c.location, c.forbidden, v);
          ScanBounds(env, st.bounds, c.location, c.forbidden, c.npropvars, st.result, v);
          PropagateFromOnlyZeroes(env, next, k + 1, v);
          assert f.bounds.ub[v] != st.bounds.ub[v];
          PropagateFromReducedSticks(env, next, k + 1);
        }
      } else {
        PropagateFromResult(env, next, k + 1);
      }
    }
  }

  /** Once REDUCEDDOM, the result stays REDUCEDDOM unless CUTOFF follows. */
  lemma {:induction false} PropagateFromReducedSticks(env: Env, st: PropState, k: nat)
    requires AllFit(env, st) && st.result == ReducedDom
    ensures PropagateFrom(env, st, k).result in {ReducedDom, Cutoff}
    decreases |st.conss| - k
  {
    if k < |st.conss| {
      var c := st.conss[k];
      var r := PropagateOne(env, st.bounds, c, st.result);
      if c.propagate {
        ScanResult(env, st.bounds, c.location, c.forbidden, c.npropvars, st.result);
      }
      OneKeepsFit(env, st, k);
      if r.1 == ReducedDom {
        PropagateFromReducedSticks(env, PropState(st.conss[k := r.2], r.0, r.1), k + 1);
      }
    }
  }

  class ConsData {
    /** The location for which some medians are forbidden. */
    const location: int
    /** For each median, whether the location may not be assigned to it. */
    const forbidden: seq<bool>
    /** The node the constraint belongs to. */
    const node: Node
    /** Whether the constraint is still to be propagated. */
    var propagate: bool
    /** Number of pattern variables present when it was last propagated. */
    var npropvars: nat

    /** `createConsSemiassign(name, location, forbidden, node)`: a fresh
        constraint that still has every variable to propagate. */
    constructor (location: int, forbidden: seq<bool>, node: Node)
      ensures this.location == location && this.forbidden == forbidden && this.node == node
      ensures propagate && npropvars == 0
    {
      this.location := location;
      this.forbidden := forbidden;
      this.node := node;
      propagate := true;
      npropvars := 0;
    }

    ghost function State(): ConsState
      reads this
    {
      ConsState(location, forbidden, propagate, npropvars)
    }
  }

  ghost function States(conss: seq<ConsData>): (r: seq<ConsState>)
    reads conss
    ensures |r| == |conss|
    ensures forall k :: 0 <= k < |conss| ==> r[k] == conss[k].State()
  {
    seq(|conss|, k requires 0 <= k < |conss| reads conss => conss[k].State())
  }

  /** When only constraint `k` may have changed, only its state differs. */
  lemma StatesAfterOne(conss: seq<ConsData>, k: nat, before: seq<ConsState>)
    requires k < |conss| == |before|
    requires forall j :: 0 <= j < |conss| && j != k ==> conss[j].State() == before[j]
    ensures States(conss) == before[k := conss[k].State()]
  {
  }

  ghost function HostBounds(host: HostSolver): Bounds
    reads host
  {
    Bounds(host.lbLocal, host.ubLocal)
  }

  ghost function PoolEnv(pricer: Pricer, host: HostSolver): Env
    reads pricer, host
  {
    Env(pricer.patternVars, pricer.nvars, host.isFeasZero)
  }

  class Conshdlr {
    const pricer: Pricer

    constructor (pricer: Pricer)
      ensures this.pricer == pricer
    {
      this.pricer := pricer;
    }

    /** `consprop`: propagates the given (distinct) constraints in order,
        stopping at the first CUTOFF. */
    method ConsProp(conss: seq<ConsData>, host: HostSolver) returns (result: PropResult)
      requires pricer.PoolValid() && host.Valid() && pricer.nvars <= |host.ubLocal|
      requires forall k :: 0 <= k < |conss| ==> |conss[k].forbidden| >= pricer.nlocations
      requires forall k1, k2 :: 0 <= k1 < k2 < |conss| ==> conss[k1] != conss[k2]
      modifies host, conss
      ensures host.Valid() && host.repropagated == old(host.repropagated)
      ensures AllFit(PoolEnv(pricer, host), PropState(old(States(conss)), old(HostBounds(host)), DidNotFind))
      ensures PropState(States(conss), HostBounds(host), result)
           == PropagateFrom(PoolEnv(pricer, host), PropState(old(States(conss)), old(HostBounds(host)), DidNotFind), 0)
    {
      ghost var env := PoolEnv(pricer, host);
      ghost var start := PropState(States(conss), HostBounds(host), DidNotFind);
      assert AllFit(env, start) by {
        forall k | 0 <= k < |conss| ensures ConsFits(env, start.bounds, start.conss[k]) {
          assert start.conss[k].forbidden == conss[k].forbidden;
        }
      }
      result := DidNotFind;
      var k := 0;
      while k < |conss|
        invariant 0 <= k <= |conss|
        invariant host.Valid() && host.repropagated == old(host.repropagated)
        invariant env == PoolEnv(pricer, host) && pricer.nvars <= |host.ubLocal|
        invariant AllFit(env, PropState(States(conss), HostBounds(host), result))
        invariant PropagateFrom(env, PropState(States(conss), HostBounds(host), result), k)
               == PropagateFrom(env, start, 0)
      {
        if result == Cutoff {
          break;
        }
        ghost var before := PropState(States(conss), HostBounds(host), result);
        assert before.conss[k] == conss[k].State();
        assert forall j :: 0 <= j < |conss| && j != k ==> conss[j] != conss[k];
        result := PropagateCons(conss[k], host, result);
        StatesAfterOne(conss, k, before.conss);
        PropagateFromStep(env, before, k);
        k := k + 1;
      }
    }

    /** One pass of the loop body of `consprop`: when the constraint is to be
        propagated, fixes to 0 the matching pattern variables it has not yet
        seen, stopping on an infeasible fix, then records how far it got. */
    method PropagateCons(c: ConsData, host: HostSolver, res: PropResult) returns (result: PropResult)
      requires pricer.PoolValid() && host.Valid() && pricer.nvars <= |host.ubLocal|
      requires |c.forbidden| >= pricer.nlocations && res != Cutoff
      modifies host, c
      ensures host.Valid() && host.repropagated == old(host.repropagated)
      ensures ConsFits(PoolEnv(pricer, host), old(HostBounds(host)), old(c.State()))
      ensures (HostBounds(host), result, c.State())
           == PropagateOne(PoolEnv(pricer, host), old(HostBounds(host)), old(c.State()), res)
    {
      ghost var env := PoolEnv(pricer, host);
      ghost var b0, c0 := HostBounds(host), c.State();
      result := res;
      if c.propagate {
        ghost var o := Scan(env, b0, c0.location, c0.forbidden, c0.npropvars, res);
        var last;
        result, last := FixMatching(c, host, res);
        assert HostBounds(host) == o.bounds && result == o.result && last + 1 == o.npropvars;
        c.propagate, c.npropvars := false, last + 1;
        assert c.State() == c0.(propagate := false, npropvars := o.npropvars);
      }
    }

    /** The loop of `consprop` over the pattern variables created since the
        constraint's last propagation; `last` is the last variable visited,
        or one before the cursor when there is none. */
    method FixMatching(c: ConsData, host: HostSolver, res: PropResult) returns (result: PropResult, last: int)
      requires pricer.PoolValid() && host.Valid() && pricer.nvars <= |host.ubLocal|
      requires |c.forbidden| >= pricer.nlocations && res != Cutoff
      modifies host
      ensures host.Valid() && host.repropagated == old(host.repropagated)
      ensures Fits(PoolEnv(pricer, host), old(HostBounds(host)), c.forbidden)
      ensures ScanOutcome(HostBounds(host), result, last + 1)
           == Scan(PoolEnv(pricer, host), old(HostBounds(host)), c.location, c.forbidden, c.npropvars, res)
    {
      ghost var env := PoolEnv(pricer, host);
      ghost var expected := Scan(env, HostBounds(host), c.location, c.forbidden, c.npropvars, res);
      result := res;
      last := c.npropvars - 1;
      var i := c.npropvars;
      while i < pricer.nvars
        modifies host
        invariant c.npropvars <= i && last == i - 1
        invariant host.Valid() && host.repropagated == old(host.repropagated)
        invariant env == PoolEnv(pricer, host)
        invariant |host.ubLocal| == |old(host.ubLocal)|
        invariant Fits(env, HostBounds(host), c.forbidden)
        invariant result != Cutoff
        invariant Scan(env, HostBounds(host), c.location, c.forbidden, i, result) == expected
      {
        ghost var b := HostBounds(host);
        last := i;
        var v := pricer.patternVars[i];
        var inCluster := Pricer.IsLocationInCluster(v, c.location);
        if !host.isFeasZero(host.ubLocal[i]) && c.forbidden[v.median] && inCluster {
          assert Matches(env, b, c.location, c.forbidden, i);
          var infeasible, fixed := host.FixVarToZero(i);
          if infeasible {
            result := Cutoff;
            assert ScanOutcome(HostBounds(host), result, last + 1) == expected;
            return;
          }
          result := ReducedDom;
          assert HostBounds(host) == Fix(b, i);
          assert fixed;
        } else {
          assert !Matches(env, b, c.location, c.forbidden, i);
        }
        i := i + 1;
      }
    }

    /** `consactive`: forbids the constraint's assignments in the registry and,
        when pattern variables were created since its last propagation, marks
        it for propagation and asks the host to repropagate its node. */
    method ConsActive(cons: ConsData, host: HostSolver)
      requires pricer.Valid() && cons.npropvars <= pricer.nvars
      requires 0 <= cons.location < pricer.nlocations && |cons.forbidden| >= pricer.nlocations
      modifies cons, host, pricer`forbiddenassignments
      ensures pricer.Valid()
      ensures pricer.forbiddenassignments
           == Forbid(old(pricer.forbiddenassignments), pricer.nlocations, cons.location, cons.forbidden)
      ensures cons.npropvars == old(cons.npropvars)
      ensures cons.propagate == (old(cons.npropvars) < pricer.nvars || old(cons.propagate))
      ensures host.repropagated == old(host.repropagated) + (if old(cons.npropvars) < pricer.nvars then [cons.node] else [])
      ensures host.lbLocal == old(host.lbLocal) && host.ubLocal == old(host.ubLocal)
    {
      if cons.npropvars < pricer.nvars {
        cons.propagate := true;
        host.RepropagateNode(cons.node);
      }
      pricer.ForbidAssignments(cons.location, cons.forbidden);
    }

    /** `consdeactive`: allows the constraint's assignments again and clears
        its propagation flag. */
    method ConsDeactive(cons: ConsData)
      requires pricer.Valid()
      requires 0 <= cons.location < pricer.nlocations && |cons.forbidden| >= pricer.nlocations
      modifies cons`propagate, pricer`forbiddenassignments
      ensures pricer.Valid()
      ensures pricer.forbiddenassignments
           == Allow(old(pricer.forbiddenassignments), pricer.nlocations, cons.location, cons.forbidden)
      ensures !cons.propagate && cons.npropvars == old(cons.npropvars)
    {
      pricer.AllowAssignments(cons.location, cons.forbidden);
      cons.propagate := false;
    }

    /** `createConsSemiassign`. */
    method CreateConsSemiassign(location: int, forbidden: seq<bool>, node: Node) returns (cons: ConsData)
      ensures fresh(cons)
      ensures cons.location == location && cons.forbidden == forbidden && cons.node == node
      ensures cons.propagate && cons.npropvars == 0
    {
      cons := new ConsData(location, forbidden, node);
    }
  }
}
