/**
 * When the descendant query is right, whatever has happened to the paths
 * (src/referential-engine/infrastructure/persistence/typeorm/orm-repositories.ts, findDescendants;
 * src/referential-engine/application/use-cases/noeud-hierarchique.use-cases.ts, listDescendants).
 */
module DescendantQuery {
  import opened Prelude
  import opened ParentGraph
  import opened MaterializedPath
  import opened PathMoves

  /** The path of p properly extends the path of n. */
  predicate Extends(rows: Rows, n: string, p: string) {
    n in rows && p in rows && rows[n].chemin <= rows[p].chemin && rows[n].chemin != rows[p].chemin
  }

  predicate ProperlyBelowParent(rows: Rows, n: string, p: string) {
    p in rows && rows[p].parentId.Some? && (rows[p].parentId.value == n || Extends(rows, n, rows[p].parentId.value))
  }

  /** Edge by edge: a path extends that of n exactly below n itself or below another such path. */
  ghost predicate EdgesAgree(rows: Rows, n: string) {
    forall p :: p in rows && p != n ==> (Extends(rows, n, p) <==> ProperlyBelowParent(rows, n, p))
  }

  ghost predicate ProperlyBelow(rows: Rows, n: string, p: string) {
    p in rows && p != n && Reaches(ParentsOf(rows), p, n)
  }

  /** A cycle of nodes whose paths extend that of n always passes through n. */
  ghost predicate LoopsPassThrough(rows: Rows, n: string) {
    forall x, k: nat :: Extends(rows, n, x) && k >= 1 && Climb(ParentsOf(rows), Some(x), k) == Some(x) ==>
      Reaches(ParentsOf(rows), x, n)
  }

  /** The prefix relation is the tree's, below n. */
  ghost predicate PrefixIsRight(rows: Rows, n: string) {
    forall p :: Extends(rows, n, p) <==> ProperlyBelow(rows, n, p)
  }

  lemma BelowIsBelowParent(rows: Rows, n: string, p: string)
    requires p in rows && p != n && ParentEdgesOk(rows)
    ensures ProperlyBelow(rows, n, p) <==>
            rows[p].parentId.Some? && (rows[p].parentId.value == n || ProperlyBelow(rows, n, rows[p].parentId.value))
  {
    ReachesFromParent(ParentsOf(rows), p, n);
    if rows[p].parentId == Some(n) { ReachesSelf(ParentsOf(rows), n); }
  }

  lemma RightAgrees(rows: Rows, n: string)
    requires n in rows && ParentEdgesOk(rows) && PrefixIsRight(rows, n)
    ensures EdgesAgree(rows, n) && LoopsPassThrough(rows, n)
  {
    forall p | p in rows && p != n ensures Extends(rows, n, p) <==> ProperlyBelowParent(rows, n, p) {
      BelowIsBelowParent(rows, n, p);
      hide Extends;
      hide ProperlyBelow;
      if rows[p].parentId.Some? { assert Extends(rows, n, rows[p].parentId.value) <==> ProperlyBelow(rows, n, rows[p].parentId.value); }
    }
    hide Extends;
    forall x | Extends(rows, n, x) ensures Reaches(ParentsOf(rows), x, n) {
      assert ProperlyBelow(rows, n, x);
    }
  }

  lemma ExtensionGoesOn(rows: Rows, n: string, x: string)
    requires EdgesAgree(rows, n) && Extends(rows, n, x)
    ensures x in rows && rows[x].parentId.Some?
    ensures rows[x].parentId.value == n || Extends(rows, n, rows[x].parentId.value)
    ensures Up(ParentsOf(rows), Some(x)) == rows[x].parentId
  {
    assert x != n;
    assert ProperlyBelowParent(rows, n, x);
  }

  lemma ExtensionGoesRound(rows: Rows, n: string, p: string, x: string, visited: set<string>, k: nat)
    requires LoopsPassThrough(rows, n) && Extends(rows, n, x)
    requires Walked(ParentsOf(rows), p, Some(x), visited, k) && x in visited
    ensures Reaches(ParentsOf(rows), p, n)
  {
    hide Extends;
    var parents := ParentsOf(rows);
    var j: nat :| j < k && Climb(parents, Some(p), j) == Some(x);
    ClimbMore(parents, Some(p), j, k - j);
    assert Climb(parents, Some(x), k - j) == Some(x);
    ReachesTransitively(parents, p, x, n);
  }

  /** Climbing from a node whose path extends that of n: where edges agree, the climb meets n or goes round. */
  lemma {:induction false} ExtensionClimbs(rows: Rows, n: string, p: string, x: string, visited: set<string>, k: nat)
    requires EdgesAgree(rows, n) && LoopsPassThrough(rows, n)
    requires Extends(rows, n, x) && Walked(ParentsOf(rows), p, Some(x), visited, k)
    ensures Reaches(ParentsOf(rows), p, n)
    decreases Remaining(ParentsOf(rows), Some(x), visited)
  {
    if x in visited {
      ExtensionGoesRound(rows, n, p, x, visited, k);
    } else {
      var parents := ParentsOf(rows);
      ExtensionGoesOn(rows, n, x);
      hide EdgesAgree;
      hide LoopsPassThrough;
      hide Extends;
      WalkOn(parents, p, x, visited, k);
      var q := rows[x].parentId.value;
      assert Climb(parents, Some(p), k + 1) == Some(q);
      if q != n {
        hide Walked;
        ExtensionClimbs(rows, n, p, q, visited + {x}, k + 1);
      }
    }
  }

  lemma {:induction false} BelowExtends(rows: Rows, n: string, p: string, k: nat)
    requires EdgesAgree(rows, n) && ParentEdgesOk(rows) && n in rows && p in rows && p != n
    requires Climb(ParentsOf(rows), Some(p), k) == Some(n)
    ensures Extends(rows, n, p)
    decreases k
  {
    var parents := ParentsOf(rows);
    assert k >= 1;
    ClimbMore(parents, Some(p), 1, k - 1);
    assert Climb(parents, Some(p), 1) == Up(parents, Climb(parents, Some(p), 0)) == rows[p].parentId;
    if rows[p].parentId.None? {
      NothingAboveNothing(parents, None, 0, k - 1);
    } else if rows[p].parentId.value != n {
      BelowExtends(rows, n, rows[p].parentId.value, k - 1);
    }
    assert ProperlyBelowParent(rows, n, p);
  }

  lemma AgreeingIsRight(rows: Rows, n: string)
    requires n in rows && ParentEdgesOk(rows) && EdgesAgree(rows, n) && LoopsPassThrough(rows, n)
    ensures PrefixIsRight(rows, n)
  {
    forall p ensures Extends(rows, n, p) <==> ProperlyBelow(rows, n, p) {
      if Extends(rows, n, p) {
        assert Walked(ParentsOf(rows), p, Some(p), {}, 0);
        ExtensionClimbs(rows, n, p, p, {}, 0);
      }
      if ProperlyBelow(rows, n, p) {
        var k: nat :| Climb(ParentsOf(rows), Some(p), k) == Some(n);
        BelowExtends(rows, n, p, k);
      }
    }
  }

  lemma AcyclicHasNoLoops(rows: Rows, n: string)
    requires Acyclic(ParentsOf(rows))
    ensures LoopsPassThrough(rows, n)
  {
  }

  // ---------------------------------------------------------------------------------------- over all runs

  /** `listDescendants` answers with exactly the nodes properly below n. */
  ghost predicate QueryIsRight(rows: Rows, n: string)
    requires n in rows
  {
    forall p :: p in FindDescendants(rows, rows[n].chemin) <==> p in rows && p != n && Reaches(ParentsOf(rows), p, n)
  }

  lemma QueryIsPrefix(commands: seq<Command>, n: string)
    requires n in Run(commands)
    ensures QueryIsRight(Run(commands), n) <==> PrefixIsRight(Run(commands), n)
  {
    var rows := Run(commands);
    forall p ensures p in FindDescendants(rows, rows[n].chemin) <==> Extends(rows, n, p) {
      if p in rows { QueryIsThePrefixTest(commands, n, p); }
    }
    hide Run;
    hide FindDescendants;
    hide Extends;
    hide Reaches;
    forall p ensures ProperlyBelow(rows, n, p) <==> p in rows && p != n && Reaches(ParentsOf(rows), p, n) {
    }
  }

  /**
   * In every reachable state, stale paths and cycles included: the query is right for n if and only if edges
   * agree on whose path extends that of n, and no cycle of such nodes leaves n out.
   */
  lemma QueryRightIff(commands: seq<Command>, n: string)
    requires n in Run(commands)
    ensures QueryIsRight(Run(commands), n) <==> EdgesAgree(Run(commands), n) && LoopsPassThrough(Run(commands), n)
  {
    var rows := Run(commands);
    QueryIsPrefix(commands, n);
    AlwaysShaped(commands);
    hide Run;
    hide EdgesAgree;
    hide LoopsPassThrough;
    hide PrefixIsRight;
    hide QueryIsRight;
    if PrefixIsRight(rows, n) { RightAgrees(rows, n); }
    if EdgesAgree(rows, n) && LoopsPassThrough(rows, n) { AgreeingIsRight(rows, n); }
  }

  /** While the graph is a forest, comparing strings edge by edge decides whether the query is right. */
  lemma QueryRightInAForestIff(commands: seq<Command>, n: string)
    requires n in Run(commands) && Acyclic(ParentsOf(Run(commands)))
    ensures QueryIsRight(Run(commands), n) <==> EdgesAgree(Run(commands), n)
  {
    QueryRightIff(commands, n);
    AcyclicHasNoLoops(Run(commands), n);
  }

  // ------------------------------------------------------------------------------ the test of the reattachment

  /** Different nodes have different paths in every reachable state: a path ends in its own node. */
  lemma PathsDiffer(rows: Rows, n: string, p: string)
    requires AllShaped(rows) && n in rows && p in rows && rows[n].chemin == rows[p].chemin
    ensures n == p
  {
    var ids :| |ids| == rows[n].rang && rows[n].chemin == Join(ids) && (forall i :: 0 <= i < |ids| ==> IsId(ids[i]))
               && ids != [] && ids[|ids| - 1] == n;
    var ids' :| |ids'| == rows[p].rang && rows[p].chemin == Join(ids') && (forall i :: 0 <= i < |ids'| ==> IsId(ids'[i]))
                && ids' != [] && ids'[|ids'| - 1] == p;
    JoinInjective(ids, ids');
  }

  /** The test on strings, for moves of n, is the test on the tree. */
  ghost predicate TestIsRight(rows: Rows, n: string)
    requires n in rows
  {
    forall p :: p in rows ==> (WouldCreateCycle(rows[n].chemin, rows[p].chemin) <==> Reaches(ParentsOf(rows), p, n))
  }

  lemma TestIsPrefix(rows: Rows, n: string)
    requires AllShaped(rows) && n in rows
    ensures TestIsRight(rows, n) <==> PrefixIsRight(rows, n)
  {
    ReachesSelf(ParentsOf(rows), n);
    forall p | p in rows ensures WouldCreateCycle(rows[n].chemin, rows[p].chemin) <==> p == n || Extends(rows, n, p) {
      if rows[n].chemin == rows[p].chemin { PathsDiffer(rows, n, p); }
    }
    hide AllShaped;
    hide WouldCreateCycle;
    hide Reaches;
    if TestIsRight(rows, n) {
      forall p ensures Extends(rows, n, p) <==> ProperlyBelow(rows, n, p) {
        if p in rows && p != n {
          assert WouldCreateCycle(rows[n].chemin, rows[p].chemin) <==> Extends(rows, n, p);
        }
      }
    }
    if PrefixIsRight(rows, n) {
      forall p | p in rows ensures WouldCreateCycle(rows[n].chemin, rows[p].chemin) <==> Reaches(ParentsOf(rows), p, n) {
        assert Extends(rows, n, p) <==> ProperlyBelow(rows, n, p);
      }
    }
  }

  /** In every reachable state, the cycle test of the moves of n is right exactly where the query below n is. */
  lemma TestRightIff(commands: seq<Command>, n: string)
    requires n in Run(commands)
    ensures TestIsRight(Run(commands), n) <==> EdgesAgree(Run(commands), n) && LoopsPassThrough(Run(commands), n)
  {
    AlwaysShaped(commands);
    TestIsPrefix(Run(commands), n);
    QueryIsPrefix(commands, n);
    QueryRightIff(commands, n);
    hide *;
  }
}
