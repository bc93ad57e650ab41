/**
 * Parent pointers: every node has at most one parent. Nothing is assumed of the data, which may hold
 * cycles and parents that do not exist.
 */
module ParentGraph {
  import opened Prelude

  type Parents = map<string, Option<string>>

  function Up(p: Parents, at: Option<string>): Option<string> {
    if at.Some? && at.value in p then p[at.value] else None
  }

  /** The node k steps above, if any. */
  function Climb(p: Parents, at: Option<string>, k: nat): Option<string> {
    if k == 0 then at else Up(p, Climb(p, at, k - 1))
  }

  /** y is x or lies above it. */
  ghost predicate Reaches(p: Parents, x: string, y: string) {
    exists k: nat :: Climb(p, Some(x), k) == Some(y)
  }

  ghost predicate Acyclic(p: Parents) {
    forall x: string, k: nat :: k >= 1 ==> Climb(p, Some(x), k) != Some(x)
  }

  ghost predicate ParentsExist(p: Parents) {
    forall x :: x in p && p[x].Some? ==> p[x].value in p
  }

  lemma {:induction false} ClimbMore(p: Parents, at: Option<string>, j: nat, k: nat)
    ensures Climb(p, Climb(p, at, j), k) == Climb(p, at, j + k)
  {
    if k > 0 {
      ClimbMore(p, at, j, k - 1);
    }
  }

  lemma {:induction false} NothingAboveNothing(p: Parents, at: Option<string>, j: nat, k: nat)
    requires j <= k && Climb(p, at, j) == None
    ensures Climb(p, at, k) == None
  {
    if j < k {
      NothingAboveNothing(p, at, j, k - 1);
    }
  }

  // ---------------------------------------------------------------------------- walking up the parents

  /** What a walk that remembers its nodes knows after k steps. */
  ghost predicate Walked(p: Parents, start: string, current: Option<string>, visited: set<string>, k: nat) {
    && current == Climb(p, Some(start), k)
    && (forall j: nat :: j < k ==> Climb(p, Some(start), j).Some?)
    && visited == set j: nat | j < k && Climb(p, Some(start), j).Some? :: Climb(p, Some(start), j).value
  }

  /** Steps a walk can still take. */
  ghost function Remaining(p: Parents, current: Option<string>, visited: set<string>): nat {
    if current.None? then 0 else 1 + |p.Keys - visited|
  }

  lemma WalkOn(p: Parents, start: string, x: string, visited: set<string>, k: nat)
    requires Walked(p, start, Some(x), visited, k) && x !in visited
    ensures Walked(p, start, Up(p, Some(x)), visited + {x}, k + 1)
    ensures Remaining(p, Up(p, Some(x)), visited + {x}) < Remaining(p, Some(x), visited)
  {
    assert Climb(p, Some(start), k + 1) == Up(p, Climb(p, Some(start), k));
    if x in p {
      assert p.Keys - (visited + {x}) == (p.Keys - visited) - {x};
    }
  }

  /** A walk that comes back to a node it has seen will never see another one. */
  lemma {:induction false} GoingRound(p: Parents, start: string, x: string, visited: set<string>, k: nat, n: nat)
    requires Walked(p, start, Some(x), visited, k) && x in visited
    ensures Climb(p, Some(start), n).Some? && Climb(p, Some(start), n).value in visited
  {
    if n >= k {
      var j: nat :| j < k && Climb(p, Some(start), j) == Some(x);
      GoingRound(p, start, x, visited, k, j + (n - k));
      ClimbMore(p, Some(start), j, n - k);
      ClimbMore(p, Some(start), k, n - k);
    } else {
      assert Climb(p, Some(start), n).Some?;
    }
  }

  /** Where the walk may stop, the target is reached only if it was met. */
  lemma WalkEnds(p: Parents, start: string, current: Option<string>, visited: set<string>, k: nat, target: string)
    requires Walked(p, start, current, visited, k) && target !in visited
    requires current.None? || current.value in visited
    ensures !Reaches(p, start, target)
  {
    forall n: nat ensures Climb(p, Some(start), n) != Some(target) {
      if current.Some? {
        GoingRound(p, start, current.value, visited, k, n);
      } else if n >= k {
        NothingAboveNothing(p, Some(start), k, n);
      } else {
        assert Climb(p, Some(start), n).value in visited;
      }
    }
  }

  // --------------------------------------------------------------------------------- moving one node

  ghost predicate SameExceptAt(n: string, p: Parents, p': Parents) {
    forall x :: x != n ==> Up(p, Some(x)) == Up(p', Some(x))
  }

  /** A climb that does not pass through n does not depend on the parent of n. */
  lemma {:induction false} ClimbAvoiding(n: string, p: Parents, p': Parents, at: Option<string>, k: nat)
    requires SameExceptAt(n, p, p')
    requires forall i: nat :: i < k ==> Climb(p, at, i) != Some(n)
    ensures Climb(p', at, k) == Climb(p, at, k)
  {
    if k > 0 {
      ClimbAvoiding(n, p, p', at, k - 1);
    }
  }

  lemma {:induction false} FirstMeeting(p: Parents, at: Option<string>, n: string, k: nat) returns (i: nat)
    requires Climb(p, at, k) == Some(n)
    ensures i <= k && Climb(p, at, i) == Some(n) && forall j: nat :: j < i ==> Climb(p, at, j) != Some(n)
  {
    if j: nat :| j < k && Climb(p, at, j) == Some(n) {
      i := FirstMeeting(p, at, n, j);
    } else {
      i := k;
    }
  }

  /** Moving n under q keeps the graph acyclic, provided n does not lie above q. */
  lemma MoveKeepsAcyclic(p: Parents, n: string, q: Option<string>)
    requires Acyclic(p) && (q.Some? ==> !Reaches(p, q.value, n))
    ensures Acyclic(p[n := q])
  {
    var p' := p[n := q];
    forall x: string, k: nat | k >= 1 ensures Climb(p', Some(x), k) != Some(x) {
      if Climb(p', Some(x), k) == Some(x) {
        NoCycleAfterMove(p, n, q, x, k);
      }
    }
  }

  lemma NoCycleAfterMove(p: Parents, n: string, q: Option<string>, x: string, k: nat)
    requires Acyclic(p) && (q.Some? ==> !Reaches(p, q.value, n)) && k >= 1
    ensures Climb(p[n := q], Some(x), k) != Some(x)
  {
    var p' := p[n := q];
    if Climb(p', Some(x), k) == Some(x) {
      if i: nat :| i < k && Climb(p', Some(x), i) == Some(n) {
        // The cycle goes through n, hence through q: q would lie below n.
        ClimbMore(p', Some(x), i, k);
        ClimbMore(p', Some(x), k, i);
        ClimbMore(p', Some(n), 1, k - 1);
        assert Climb(p', Some(n), 1) == Up(p', Climb(p', Some(n), 0)) == q;
        assert Climb(p', q, k - 1) == Some(n);
        if q.None? {
          NothingAboveNothing(p', q, 0, k - 1);
        } else {
          var f := FirstMeeting(p', q, n, k - 1);
          ClimbAvoiding(n, p', p, q, f);
        }
        assert false;
      } else {
        ClimbAvoiding(n, p', p, Some(x), k);
        assert false;
      }
    }
  }

  /** And only then: moving n under one of its own descendants, or under itself, makes a cycle. */
  lemma MoveBelowItselfMakesACycle(p: Parents, n: string, q: string)
    requires Reaches(p, q, n)
    ensures !Acyclic(p[n := Some(q)])
  {
    var p' := p[n := Some(q)];
    var k: nat :| Climb(p, Some(q), k) == Some(n);
    var f := FirstMeeting(p, Some(q), n, k);
    ClimbAvoiding(n, p, p', Some(q), f);
    ClimbMore(p', Some(n), 1, f);
    assert Climb(p', Some(n), 1) == Up(p', Climb(p', Some(n), 0)) == Some(q);
    assert Climb(p', Some(n), 1 + f) == Some(n);
  }

  /** A node that nobody has as a parent can be given any parent but itself. */
  lemma FreshNodeKeepsAcyclic(p: Parents, n: string, q: Option<string>)
    requires Acyclic(p) && ParentsExist(p) && n !in p && q != Some(n)
    ensures Acyclic(p[n := q])
  {
    forall k: nat ensures Climb(p, q, k) != Some(n) {
    }
    MoveKeepsAcyclic(p, n, q);
  }

  // ------------------------------------------------------------------------------ the order it defines

  lemma ReachesSelf(p: Parents, x: string)
    ensures Reaches(p, x, x)
  {
    assert Climb(p, Some(x), 0) == Some(x);
  }

  lemma ReachesTransitively(p: Parents, x: string, y: string, z: string)
    requires Reaches(p, x, y) && Reaches(p, y, z)
    ensures Reaches(p, x, z)
  {
    var j: nat :| Climb(p, Some(x), j) == Some(y);
    var k: nat :| Climb(p, Some(y), k) == Some(z);
    ClimbMore(p, Some(x), j, k);
  }

  lemma ReachesAntisymmetrically(p: Parents, x: string, y: string)
    requires Acyclic(p) && Reaches(p, x, y) && Reaches(p, y, x)
    ensures x == y
  {
    var j: nat :| Climb(p, Some(x), j) == Some(y);
    var k: nat :| Climb(p, Some(y), k) == Some(x);
    ClimbMore(p, Some(x), j, k);
  }

  /** One step at the start of the climb. */
  lemma ReachesFromParent(p: Parents, x: string, y: string)
    requires x != y
    ensures Reaches(p, x, y) <==> x in p && p[x].Some? && Reaches(p, p[x].value, y)
  {
    assert Climb(p, Some(x), 1) == Up(p, Climb(p, Some(x), 0)) == Up(p, Some(x));
    if Reaches(p, x, y) {
      var k: nat :| Climb(p, Some(x), k) == Some(y);
      assert k >= 1;
      ClimbMore(p, Some(x), 1, k - 1);
      if Up(p, Some(x)).None? { NothingAboveNothing(p, Some(x), 1, k); }
    }
    if x in p && p[x].Some? && Reaches(p, p[x].value, y) {
      var k: nat :| Climb(p, p[x], k) == Some(y);
      ClimbMore(p, Some(x), 1, k);
      assert Climb(p, Some(x), 1 + k) == Some(y);
    }
  }
}
