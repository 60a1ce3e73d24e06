/** The part of the branch-and-bound host (SCIP) that the plugins touch:
    the local bounds of the master variables at the current node, the
    record of nodes whose propagation was re-requested, and the numeric
    tolerance tests, which are left abstract. */
module Host {

  /** An opaque handle of a search-tree node. */
  type Node = nat

  class HostSolver {
    /** Local lower and upper bound of master variable `v`, indexed by creation order. */
    var lbLocal: seq<real>
    var ubLocal: seq<real>
    /** `repropagateNode(node)` events, oldest first. */
    var repropagated: seq<Node>

    /** `isFeasZero`: the host's "zero within feasibility tolerance" test. */
    const isFeasZero: real -> bool
    /** `frac(x) > EPS`: the host's "not integral within tolerance" test. */
    const isFractional: real -> bool

    ghost predicate Valid()
      reads this
    {
      |lbLocal| == |ubLocal| && isFeasZero(0.0)
    }

    constructor (isFeasZero: real -> bool, isFractional: real -> bool)
      requires isFeasZero(0.0)
      ensures Valid()
      ensures lbLocal == [] && ubLocal == [] && repropagated == []
      ensures this.isFeasZero == isFeasZero && this.isFractional == isFractional
    {
      this.isFeasZero := isFeasZero;
      this.isFractional := isFractional;
      lbLocal, ubLocal, repropagated := [], [], [];
    }

    /** `addVar(..., lb, ub)`: a new master variable with the given bounds. */
    method AddVar(lb: real, ub: real)
      requires Valid()
      modifies this
      ensures Valid()
      ensures lbLocal == old(lbLocal) + [lb] && ubLocal == old(ubLocal) + [ub]
      ensures repropagated == old(repropagated)
    {
      lbLocal := lbLocal + [lb];
      ubLocal := ubLocal + [ub];
    }

    /** `fixVar(v, 0.0)`: infeasible exactly when the lower bound is positive,
        and then nothing changes; otherwise both bounds become 0, and `fixed`
        says whether that changed them. */
    method FixVarToZero(v: nat) returns (infeasible: bool, fixed: bool)
      requires Valid() && v < |ubLocal|
      modifies this
      ensures Valid()
      ensures infeasible == (old(lbLocal[v]) > 0.0)
      ensures infeasible ==> lbLocal == old(lbLocal) && ubLocal == old(ubLocal) && !fixed
      ensures !infeasible ==> lbLocal == old(lbLocal)[v := 0.0] && ubLocal == old(ubLocal)[v := 0.0]
      ensures !infeasible ==> fixed == (old(lbLocal[v]) != 0.0 || old(ubLocal[v]) != 0.0)
      ensures repropagated == old(repropagated)
    {
      infeasible := lbLocal[v] > 0.0;
      fixed := false;
      if !infeasible {
        fixed := lbLocal[v] != 0.0 || ubLocal[v] != 0.0;
        lbLocal := lbLocal[v := 0.0];
        ubLocal := ubLocal[v := 0.0];
      }
    }

    /** `repropagateNode(node)`, recorded as an event. */
    method RepropagateNode(node: Node)
      modifies this
      ensures repropagated == old(repropagated) + [node]
      ensures lbLocal == old(lbLocal) && ubLocal == old(ubLocal)
    {
      repropagated := repropagated + [node];
    }
  }
}
