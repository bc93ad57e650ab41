/**
 * What reattaching nodes does to the materialized paths, and what the prefix query finds.
 * Sources: src/referential-engine/application/use-cases/noeud-hierarchique.use-cases.ts,
 * src/referential-engine/domain/entities/noeud-hierarchique.entity.ts,
 * src/referential-engine/infrastructure/persistence/typeorm/orm-repositories.ts.
 */
module PathMoves {
  import opened Prelude
  import opened ParentGraph
  import opened MaterializedPath

  predicate Childless(rows: Rows, n: string) {
    forall c :: c in rows ==> rows[c].parentId != Some(n)
  }

  lemma CreationKeepsExact(rows: Rows, id: string, n: Noeud)
    requires Exact(rows) && IsId(id) && id !in rows
    requires n.parentId.Some? ==> n.parentId.value in rows
    requires n.chemin == Extend(Base(rows, n.parentId), id) && n.rang == RankAbove(rows, n.parentId) + 1
    ensures Exact(rows[id := n])
  {
    var rows' := rows[id := n];
    hide IsId;
    hide Extend;
    forall x | x in rows' ensures ExactAt(rows', x) {
      if x != id { assert ExactAt(rows, x); }
    }
  }

  lemma StatusKeepsExact(rows: Rows, id: string, publie: bool, actif: bool)
    requires Exact(rows) && id in rows
    ensures Exact(rows[id := rows[id].(publie := publie, actif := actif)])
  {
    var rows' := rows[id := rows[id].(publie := publie, actif := actif)];
    hide IsId;
    hide Extend;
    forall x | x in rows' ensures ExactAt(rows', x) {
      assert ExactAt(rows, x);
    }
  }

  /** Everything but the children of the moved node stays exact. */
  lemma OnlyChildrenSuffer(rows: Rows, id: string, q: Option<string>, x: string)
    requires Exact(rows) && id in rows && x in rows && (q.Some? ==> q.value in rows && q.value != id)
    requires x == id || rows[x].parentId != Some(id)
    ensures ExactAt(rows[id := Moved(rows, id, q)], x)
  {
    assert ExactAt(rows, x);
    hide Extend;
  }

  lemma ChildSuffers(rows: Rows, id: string, q: Option<string>, c: string)
    requires Exact(rows) && id in rows && c in rows && rows[c].parentId == Some(id) && c != id
    requires q.Some? ==> q.value in rows && q.value != id
    ensures ExactAt(rows[id := Moved(rows, id, q)], c) <==> q == rows[id].parentId
  {
    var rows' := rows[id := Moved(rows, id, q)];
    assert ExactAt(rows, c) && ExactAt(rows, id);
    if ExactAt(rows', c) {
      var a, b := rows[id].chemin, rows'[id].chemin;
      assert Extend(a, c) == Extend(b, c);
      assert a == Extend(a, c)[..|a|] && b == Extend(b, c)[..|b|];
      ExactEnds(rows, rows[id].parentId);
      ExactEnds(rows, q);
      ExtendInjective(Base(rows, rows[id].parentId), id, Base(rows, q), id);
      SameBaseSameParent(rows, rows[id].parentId, q);
    }
  }

  lemma SameBaseSameParent(rows: Rows, p: Option<string>, q: Option<string>)
    requires Exact(rows) && (p.Some? ==> p.value in rows) && (q.Some? ==> q.value in rows)
    requires Base(rows, p) == Base(rows, q)
    ensures p == q
  {
    if p.Some? { LongerThanTheRoot(rows, p.value); }
    if q.Some? { LongerThanTheRoot(rows, q.value); }
    if p.Some? && q.Some? { ExactPathsDiffer(rows, p.value, q.value); }
  }

  lemma LongerThanTheRoot(rows: Rows, n: string)
    requires Exact(rows) && n in rows
    ensures |rows[n].chemin| >= 2
  {
    assert ExactAt(rows, n);
  }

  /** A childless node, or one that keeps its parent: only such moves leave every path exact. */
  lemma MoveKeepsExactIff(rows: Rows, id: string, parentId: Option<string>, villes: nat)
    requires Exact(rows) && ReattachEffect(rows, id, parentId, villes).Ok?
    ensures Exact(ReattachEffect(rows, id, parentId, villes).value) <==>
            Childless(rows, id) || Given(parentId) == rows[id].parentId
  {
    var q := Given(parentId);
    assert q != Some(id) && (q.Some? ==> q.value in rows);
    hide WouldCreateCycle;
    hide PublishedChild;
    hide Moved;
    MovedExactIff(rows, id, q);
  }

  lemma MovedExactIff(rows: Rows, id: string, q: Option<string>)
    requires Exact(rows) && id in rows && q != Some(id) && (q.Some? ==> q.value in rows)
    ensures Exact(rows[id := Moved(rows, id, q)]) <==> Childless(rows, id) || q == rows[id].parentId
  {
    var rows' := rows[id := Moved(rows, id, q)];
    hide IsId;
    hide Moved;
    forall x | x in rows && rows[x].parentId != Some(id) ensures ExactAt(rows', x) {
      OnlyChildrenSuffer(rows, id, q, x);
    }
    OnlyChildrenSuffer(rows, id, q, id);
    forall c | c in rows && rows[c].parentId == Some(id) ensures ExactAt(rows', c) <==> q == rows[id].parentId {
      if c == id { NotItsOwnParent(rows, id); } else { ChildSuffers(rows, id, q, c); }
    }
    hide ExactAt;
  }

  lemma NotItsOwnParent(rows: Rows, id: string)
    requires Exact(rows) && id in rows
    ensures rows[id].parentId != Some(id)
  {
    assert ExactAt(rows, id);
  }

  /** Out of an exact state any accepted move, of an inner node too, leaves a forest. */
  lemma AcceptedMoveIsAcyclic(rows: Rows, id: string, parentId: Option<string>, villes: nat)
    requires Exact(rows) && ReattachEffect(rows, id, parentId, villes).Ok?
    ensures Acyclic(ParentsOf(ReattachEffect(rows, id, parentId, villes).value))
  {
    var q := Given(parentId);
    ExactIsAcyclic(rows);
    if q.Some? { PrefixTestIsExact(rows, id, q.value); }
    hide WouldCreateCycle;
    hide PublishedChild;
    MoveKeepsAcyclic(ParentsOf(rows), id, q);
    assert ParentsOf(rows[id := Moved(rows, id, q)]) == ParentsOf(rows)[id := q];
  }

  /** And the test refuses nothing else: between two nodes it accepts, the move would have closed a cycle. */
  lemma RefusedIffCyclic(rows: Rows, id: string, q: string)
    requires Exact(rows) && id in rows && q in rows && q != "" && !PublishedChild(rows, id)
    ensures ReattachEffect(rows, id, Some(q), 0) == Err(Circular) <==> !Acyclic(ParentsOf(rows)[id := Some(q)])
  {
    ExactIsAcyclic(rows);
    PrefixTestIsExact(rows, id, q);
    hide WouldCreateCycle;
    hide PublishedChild;
    if Reaches(ParentsOf(rows), q, id) {
      MoveBelowItselfMakesACycle(ParentsOf(rows), id, q);
    } else {
      MoveKeepsAcyclic(ParentsOf(rows), id, Some(q));
    }
  }

  // -------------------------------------------------------------------------------------------- over runs

  /** A command that does not move a node which has children to another parent. */
  ghost predicate QuietStep(rows: Rows, c: Command) {
    c.Reattach? && ReattachEffect(rows, c.id, c.nouveauParentId, c.villes).Ok? ==>
      Childless(rows, c.id) || Given(c.nouveauParentId) == rows[c.id].parentId
  }

  ghost predicate Quiet(commands: seq<Command>) {
    forall k :: 0 <= k < |commands| ==> QuietStep(Run(commands[..k]), commands[k])
  }

  lemma StepKeepsExactIff(rows: Rows, c: Command)
    requires Exact(rows)
    ensures Exact(Next(rows, c)) <==> QuietStep(rows, c)
  {
    hide Exact;
    match c {
      case Create(id, pays, domaine, parentId, niveauDefini) =>
        if Next(rows, c) != rows { CreationKeepsExact(rows, id, Next(rows, c)[id]); }
      case Reattach(id, parentId, villes) =>
        if ReattachEffect(rows, id, parentId, villes).Ok? { MoveKeepsExactIff(rows, id, parentId, villes); }
      case SetStatus(id, publie, actif) =>
        if id in rows { StatusKeepsExact(rows, id, publie, actif); }
    }
  }

  lemma EmptyIsExact()
    ensures Exact(map[])
  {
  }

  lemma {:induction false} QuietRunIsExact(commands: seq<Command>)
    requires Quiet(commands)
    ensures Exact(Run(commands))
  {
    hide Exact;
    hide QuietStep;
    hide Next;
    if commands == [] {
      EmptyIsExact();
    } else {
      var n := |commands| - 1;
      var init := commands[..n];
      forall k | 0 <= k < |init| ensures QuietStep(Run(init[..k]), init[k]) {
        assert init[..k] == commands[..k];
        assert commands[k] == init[k];
      }
      QuietRunIsExact(init);
      StepKeepsExactIff(Run(init), commands[n]);
      assert QuietStep(Run(commands[..n]), commands[n]);
    }
  }

  /** All paths stay exact all along a run if and only if no move takes children elsewhere. */
  lemma ExactAllAlongIffQuiet(commands: seq<Command>)
    ensures (forall k :: 0 <= k <= |commands| ==> Exact(Run(commands[..k]))) <==> Quiet(commands)
  {
    hide Exact;
    hide QuietStep;
    hide Next;
    if Quiet(commands) {
      forall k | 0 <= k <= |commands| ensures Exact(Run(commands[..k])) {
        var init := commands[..k];
        forall i | 0 <= i < |init| ensures QuietStep(Run(init[..i]), init[i]) {
          assert init[..i] == commands[..i];
          assert commands[i] == init[i];
        }
        QuietRunIsExact(init);
      }
    } else {
      var k :| 0 <= k < |commands| && !QuietStep(Run(commands[..k]), commands[k]);
      assert commands[..k + 1][..k] == commands[..k];
      assert Run(commands[..k + 1]) == Next(Run(commands[..k]), commands[k]);
      if Exact(Run(commands[..k])) { StepKeepsExactIff(Run(commands[..k]), commands[k]); }
    }
  }

  /** After a quiet run, one more command of any kind still leaves a forest. */
  lemma ForestAfterQuietRun(commands: seq<Command>, c: Command)
    requires Quiet(commands)
    ensures Acyclic(ParentsOf(Run(commands + [c])))
  {
    QuietRunIsExact(commands);
    assert (commands + [c])[..|commands|] == commands;
    var rows := Run(commands);
    hide Exact;
    if QuietStep(rows, c) {
      StepKeepsExactIff(rows, c);
      hide Next;
      ExactIsAcyclic(Next(rows, c));
    } else {
      AcceptedMoveIsAcyclic(rows, c.id, c.nouveauParentId, c.villes);
    }
  }

  // ------------------------------------------------------------------ forests, whatever the state of the paths

  /** Out of any forest, stale paths included, an accepted move leaves a forest unless the parent lies below the node. */
  lemma AcceptedMoveIsAcyclicIff(rows: Rows, id: string, q: string, villes: nat)
    requires Acyclic(ParentsOf(rows)) && q != "" && ReattachEffect(rows, id, Some(q), villes).Ok?
    ensures Acyclic(ParentsOf(ReattachEffect(rows, id, Some(q), villes).value)) <==> !Reaches(ParentsOf(rows), q, id)
  {
    hide WouldCreateCycle;
    hide PublishedChild;
    assert ParentsOf(rows[id := Moved(rows, id, Some(q))]) == ParentsOf(rows)[id := Some(q)];
    if Reaches(ParentsOf(rows), q, id) {
      MoveBelowItselfMakesACycle(ParentsOf(rows), id, q);
    } else {
      MoveKeepsAcyclic(ParentsOf(rows), id, Some(q));
    }
  }

  /** A node on the way up from q whose path is not its parent's path plus itself. */
  ghost predicate StaleOnTheWay(rows: Rows, q: string, k: nat) {
    exists i: nat :: i < k && Climb(ParentsOf(rows), Some(q), i).Some? && Climb(ParentsOf(rows), Some(q), i).value in rows
                     && !ExactAt(rows, Climb(ParentsOf(rows), Some(q), i).value)
  }

  /** Where no node on the way up from q to id is stale, the path of q starts with the path of id. */
  lemma {:induction false} ExactWayHasPrefix(rows: Rows, q: string, id: string, k: nat)
    requires id in rows && Climb(ParentsOf(rows), Some(q), k) == Some(id) && !StaleOnTheWay(rows, q, k)
    ensures q in rows && rows[id].chemin <= rows[q].chemin
    decreases k
  {
    if k > 0 {
      var at := Climb(ParentsOf(rows), Some(q), k - 1);
      assert at.Some? && at.value in rows && rows[at.value].parentId == Some(id);
      assert ExactAt(rows, at.value);
      assert rows[id].chemin <= Extend(rows[id].chemin, at.value);
      ExactWayHasPrefix(rows, q, at.value, k - 1);
    }
  }

  /** So a move that was accepted and closes a cycle passed a stale node, between the new parent and the moved node. */
  lemma AcceptedCycleIsStale(rows: Rows, id: string, q: string, villes: nat) returns (k: nat)
    requires q != "" && ReattachEffect(rows, id, Some(q), villes).Ok? && Acyclic(ParentsOf(rows))
    requires !Acyclic(ParentsOf(ReattachEffect(rows, id, Some(q), villes).value))
    ensures Climb(ParentsOf(rows), Some(q), k) == Some(id) && StaleOnTheWay(rows, q, k)
  {
    AcceptedMoveIsAcyclicIff(rows, id, q, villes);
    k :| Climb(ParentsOf(rows), Some(q), k) == Some(id);
    if !StaleOnTheWay(rows, q, k) {
      ExactWayHasPrefix(rows, q, id, k);
    }
  }

  /** A command that the code accepts although it puts a node below itself. */
  ghost predicate PutsBelowItself(rows: Rows, c: Command) {
    && c.Reattach? && ReattachEffect(rows, c.id, c.nouveauParentId, c.villes).Ok?
    && Given(c.nouveauParentId).Some? && Reaches(ParentsOf(rows), c.nouveauParentId.value, c.id)
  }

  lemma StepKeepsForestIff(rows: Rows, c: Command)
    requires AllShaped(rows) && Acyclic(ParentsOf(rows))
    ensures Acyclic(ParentsOf(Next(rows, c))) <==> !PutsBelowItself(rows, c)
  {
    hide WouldCreateCycle;
    hide PublishedChild;
    hide Shaped;
    hide Extend;
    match c {
      case Create(id, _, _, parentId, _) =>
        if Next(rows, c) != rows {
          assert ParentsOf(Next(rows, c)) == ParentsOf(rows)[id := Given(parentId)];
          FreshNodeKeepsAcyclic(ParentsOf(rows), id, Given(parentId));
        }
      case Reattach(id, parentId, villes) =>
        if ReattachEffect(rows, id, parentId, villes).Ok? {
          if Given(parentId).Some? {
            AcceptedMoveIsAcyclicIff(rows, id, parentId.value, villes);
          } else {
            assert ParentsOf(Next(rows, c)) == ParentsOf(rows)[id := None];
            MoveKeepsAcyclic(ParentsOf(rows), id, None);
          }
        }
      case SetStatus(id, _, _) =>
        assert ParentsOf(Next(rows, c)) == ParentsOf(rows);
    }
  }

  lemma EmptyIsAForest()
    ensures Acyclic(ParentsOf(map[]))
  {
    EmptyIsExact();
    ExactIsAcyclic(map[]);
  }

  ghost predicate ForestAfter(commands: seq<Command>, k: nat)
    requires k <= |commands|
  {
    Acyclic(ParentsOf(Run(commands[..k])))
  }

  ghost predicate SoundAt(commands: seq<Command>, k: nat)
    requires k < |commands|
  {
    !PutsBelowItself(Run(commands[..k]), commands[k])
  }

  lemma ForestStep(commands: seq<Command>, k: nat)
    requires k < |commands| && ForestAfter(commands, k)
    ensures ForestAfter(commands, k + 1) <==> SoundAt(commands, k)
  {
    hide Acyclic;
    hide PutsBelowItself;
    hide Next;
    hide AllShaped;
    var init := commands[..k];
    assert commands[..k + 1][..k] == init;
    assert Run(commands[..k + 1]) == Next(Run(init), commands[k]);
    AlwaysShaped(init);
    StepKeepsForestIff(Run(init), commands[k]);
  }

  lemma {:induction false} ForestSoFar(commands: seq<Command>, k: nat)
    requires k <= |commands| && forall i :: 0 <= i < |commands| ==> SoundAt(commands, i)
    ensures ForestAfter(commands, k)
  {
    if k == 0 {
      assert commands[..0] == [];
      EmptyIsAForest();
    } else {
      ForestSoFar(commands, k - 1);
      ForestStep(commands, k - 1);
    }
  }

  /** The graph is a forest all along a run if and only if no command of it puts a node below itself. */
  lemma ForestAllAlongIff(commands: seq<Command>)
    ensures (forall k :: 0 <= k <= |commands| ==> ForestAfter(commands, k)) <==>
            (forall k :: 0 <= k < |commands| ==> SoundAt(commands, k))
  {
    hide ForestAfter;
    hide SoundAt;
    if forall k :: 0 <= k < |commands| ==> SoundAt(commands, k) {
      forall k | 0 <= k <= |commands| ensures ForestAfter(commands, k) {
        ForestSoFar(commands, k);
      }
    }
    if forall k :: 0 <= k <= |commands| ==> ForestAfter(commands, k) {
      forall k | 0 <= k < |commands| ensures SoundAt(commands, k) {
        assert ForestAfter(commands, k) && ForestAfter(commands, k + 1);
        ForestStep(commands, k);
      }
    }
  }

  // ------------------------------------------------------------------------------------- named levels

  /** Every node stands at a rank for which its country names a level. */
  ghost predicate LevelsNamed(rows: Rows, levels: set<(string, nat)>) {
    forall id :: id in rows ==> (rows[id].pays, rows[id].rang) in levels
  }

  /** The country and the rank for which creation asks whether a level is named. */
  function AskedLevel(rows: Rows, pays: Option<string>, parentId: Option<string>): (string, nat) {
    if Given(parentId).Some? && parentId.value in rows then (rows[parentId.value].pays, rows[parentId.value].rang + 1)
    else (if pays.Some? then pays.value else "", 1)
  }

  /** Creation never puts a node at a rank without a name. */
  lemma CreationKeepsLevelsNamed(rows: Rows, levels: set<(string, nat)>, id: string, pays: Option<string>,
                                 domaine: Option<string>, parentId: Option<string>, niveauDefini: bool)
    requires LevelsNamed(rows, levels) && (niveauDefini <==> AskedLevel(rows, pays, parentId) in levels)
    ensures var r := CreateEffect(rows, id, pays, domaine, parentId, niveauDefini);
            && (r.Ok? ==> LevelsNamed(r.value, levels))
            && (r == Err(UndefinedNiveau) ==> AskedLevel(rows, pays, parentId) !in levels)
  {
    hide Extend;
  }

  /** A reattachment does not ask: it keeps every rank named if and only if the node's new rank happens to be. */
  lemma MoveKeepsLevelsNamedIff(rows: Rows, levels: set<(string, nat)>, id: string, parentId: Option<string>, villes: nat)
    requires LevelsNamed(rows, levels) && ReattachEffect(rows, id, parentId, villes).Ok?
    ensures LevelsNamed(ReattachEffect(rows, id, parentId, villes).value, levels) <==>
            (rows[id].pays, RankAbove(rows, Given(parentId)) + 1) in levels
  {
    hide WouldCreateCycle;
    hide PublishedChild;
    hide Extend;
    var rows' := ReattachEffect(rows, id, parentId, villes).value;
    assert (rows'[id].pays, rows'[id].rang) == (rows[id].pays, RankAbove(rows, Given(parentId)) + 1);
  }

  /** What a reattachment must satisfy, all at once. */
  lemma AcceptedIff(rows: Rows, id: string, q: string, villes: nat)
    requires id in rows && q in rows && q != ""
    ensures ReattachEffect(rows, id, Some(q), villes).Ok? <==>
            && (forall c :: c in rows && rows[c].parentId == Some(id) ==> !(rows[c].publie && rows[c].actif))
            && villes == 0 && rows[q].pays == rows[id].pays
            && !(|rows[id].chemin| <= |rows[q].chemin| && rows[q].chemin[..|rows[id].chemin|] == rows[id].chemin)
  {
  }

  // ------------------------------------------------------------------------------------- the prefix query

  /** SQL LIKE with `%`, `_` and the escape character. */
  predicate Like(pattern: string, s: string)
    decreases |pattern|, |s|
  {
    if pattern == "" then s == ""
    else if pattern[0] == '%' then Like(pattern[1..], s) || (s != "" && Like(pattern, s[1..]))
    else if pattern[0] == '_' then s != "" && Like(pattern[1..], s[1..])
    else if pattern[0] == '\\' then |pattern| >= 2 && s != "" && s[0] == pattern[1] && Like(pattern[2..], s[1..])
    else s != "" && s[0] == pattern[0] && Like(pattern[1..], s[1..])
  }

  function FindDescendants(rows: Rows, chemin: string): set<string> {
    set id | id in rows && Like(chemin + "%", rows[id].chemin) && rows[id].chemin != chemin
  }

  predicate Plain(s: string) {
    forall i :: 0 <= i < |s| ==> s[i] != '%' && s[i] != '_' && s[i] != '\\'
  }

  lemma {:induction false} LikeAnything(s: string)
    ensures Like("%", s)
  {
    if s != "" {
      LikeAnything(s[1..]);
    } else {
      assert Like("%"[1..], s);
    }
  }

  lemma {:induction false} LikeIsPrefix(prefix: string, s: string)
    requires Plain(prefix)
    ensures Like(prefix + "%", s) <==> prefix <= s
  {
    if prefix == "" {
      assert prefix + "%" == "%";
      LikeAnything(s);
    } else {
      assert (prefix + "%")[1..] == prefix[1..] + "%";
      if s != "" {
        LikeIsPrefix(prefix[1..], s[1..]);
        assert prefix == [prefix[0]] + prefix[1..] && s == [s[0]] + s[1..];
      }
    }
  }

  lemma {:induction false} JoinIsPlain(ids: seq<string>)
    requires forall i :: 0 <= i < |ids| ==> IsId(ids[i])
    ensures Plain(Join(ids))
  {
    if ids != [] {
      var last := ids[|ids| - 1];
      JoinIsPlain(ids[..|ids| - 1]);
      forall i | 0 <= i < |last| ensures last[i] != '%' && last[i] != '_' && last[i] != '\\' {
        assert last[i] in last;
      }
    }
  }

  lemma PathIsPlain(rows: Rows, n: string)
    requires AllShaped(rows) && n in rows
    ensures Plain(rows[n].chemin)
  {
    var ids :| rows[n].chemin == Join(ids) && forall i :: 0 <= i < |ids| ==> IsId(ids[i]);
    JoinIsPlain(ids);
  }

  lemma QueryOnAPlainPath(rows: Rows, n: string, p: string)
    requires n in rows && p in rows && Plain(rows[n].chemin)
    ensures p in FindDescendants(rows, rows[n].chemin) <==>
              WouldCreateCycle(rows[n].chemin, rows[p].chemin) && rows[p].chemin != rows[n].chemin
  {
    LikeIsPrefix(rows[n].chemin, rows[p].chemin);
  }

  /** In every state at all, the query is the prefix test of the reattachment. */
  lemma QueryIsThePrefixTest(commands: seq<Command>, n: string, p: string)
    requires n in Run(commands) && p in Run(commands)
    ensures var rows := Run(commands);
            p in FindDescendants(rows, rows[n].chemin) <==>
              WouldCreateCycle(rows[n].chemin, rows[p].chemin) && rows[p].chemin != rows[n].chemin
  {
    var rows := Run(commands);
    AlwaysShaped(commands);
    PathIsPlain(rows, n);
    hide AllShaped;
    QueryOnAPlainPath(rows, n, p);
  }

  lemma {:induction false} ExactPathIsPlain(rows: Rows, n: string)
    requires Exact(rows) && n in rows
    ensures Plain(rows[n].chemin)
    decreases |rows[n].chemin|
  {
    assert ExactAt(rows, n);
    forall i | 0 <= i < |n| ensures n[i] != '%' && n[i] != '_' && n[i] != '\\' {
      assert n[i] in n;
    }
    if rows[n].parentId.Some? {
      ExactPathIsPlain(rows, rows[n].parentId.value);
    }
  }

  /** Where paths are exact the query finds exactly the nodes properly below n. */
  lemma DescendantsAreTheSubtree(rows: Rows, n: string)
    requires Exact(rows) && n in rows
    ensures forall p :: p in FindDescendants(rows, rows[n].chemin) <==> p in rows && p != n && Reaches(ParentsOf(rows), p, n)
  {
    ExactPathIsPlain(rows, n);
    hide Exact;
    forall p | p in rows
      ensures p in FindDescendants(rows, rows[n].chemin) <==> p != n && Reaches(ParentsOf(rows), p, n)
    {
      QueryOnAPlainPath(rows, n, p);
      PrefixTestIsExact(rows, n, p);
      if rows[p].chemin == rows[n].chemin { ExactPathsDiffer(rows, n, p); }
      hide FindDescendants;
    }
  }

  /** So it does after every quiet run. */
  lemma QuietDescendantsAreTheSubtree(commands: seq<Command>, n: string)
    requires Quiet(commands) && n in Run(commands)
    ensures var rows := Run(commands);
            forall p :: p in FindDescendants(rows, rows[n].chemin) <==> p in rows && p != n && Reaches(ParentsOf(rows), p, n)
  {
    QuietRunIsExact(commands);
    hide Exact;
    hide FindDescendants;
    DescendantsAreTheSubtree(Run(commands), n);
  }

  // -------------------------------------------------------------------------- what an inner move leads to

  const GROW: seq<Command> :=
    [ Create("a", Some("cm"), Some("adm"), None, true) ]
    + [ Create("b", None, None, Some("a"), true) ]
    + [ Create("c", None, None, Some("b"), true) ]
    + [ Create("d", Some("cm"), Some("adm"), None, true) ]

  const INNER_MOVE := Reattach("b", Some("d"), 0)
  const SECOND_MOVE := Reattach("b", Some("c"), 0)

  function Plant(parentId: Option<string>, chemin: string, rang: nat): Noeud {
    Noeud("cm", "adm", parentId, chemin, rang, false, true)
  }

  lemma RunSnoc(commands: seq<Command>, c: Command)
    ensures Run(commands + [c]) == Next(Run(commands), c)
  {
    assert (commands + [c])[..|commands|] == commands;
  }

  lemma Planted()
    ensures Run(GROW) == map["a" := Plant(None, "/a/", 1), "b" := Plant(Some("a"), "/a/b/", 2),
                             "c" := Plant(Some("b"), "/a/b/c/", 3), "d" := Plant(None, "/d/", 1)]
  {
    var a, b := Create("a", Some("cm"), Some("adm"), None, true), Create("b", None, None, Some("a"), true);
    var c, d := Create("c", None, None, Some("b"), true), Create("d", Some("cm"), Some("adm"), None, true);
    assert [] + [a] == [a];
    RunSnoc([], a);
    RunSnoc([a], b);
    RunSnoc([a] + [b], c);
    RunSnoc([a] + [b] + [c], d);
    assert Extend("/", "a") == "/a/" && Extend("/a/", "b") == "/a/b/";
    assert Extend("/a/b/", "c") == "/a/b/c/" && Extend("/", "d") == "/d/";
    hide Run;
    var s1: Rows := map["a" := Plant(None, "/a/", 1)];
    assert Next(map[], a) == s1;
    var s2 := s1["b" := Plant(Some("a"), "/a/b/", 2)];
    assert Next(s1, b) == s2;
    var s3 := s2["c" := Plant(Some("b"), "/a/b/c/", 3)];
    assert Next(s2, c) == s3;
  }

  lemma InnerMoved()
    ensures Run(GROW + [INNER_MOVE]) == map["a" := Plant(None, "/a/", 1), "b" := Plant(Some("d"), "/d/b/", 2),
                                            "c" := Plant(Some("b"), "/a/b/c/", 3), "d" := Plant(None, "/d/", 1)]
  {
    Planted();
    RunSnoc(GROW, INNER_MOVE);
    hide Run;
    assert Extend("/d/", "b") == "/d/b/";
  }

  /** Moving b, which has the child c, leaves c under its old path: a query below b no longer finds c. */
  lemma InnerMoveLeavesStalePaths()
    ensures var rows := Run(GROW + [INNER_MOVE]);
            && "b" in rows && "c" in rows && rows["c"].parentId == Some("b")
            && rows["b"].chemin == "/d/b/" && rows["c"].chemin == "/a/b/c/"
            && !Exact(rows) && "c" !in FindDescendants(rows, rows["b"].chemin)
  {
    InnerMoved();
    hide Run;
    var rows := Run(GROW + [INNER_MOVE]);
    assert |Extend("/d/b/", "c")| == 7;
    assert Extend("/d/b/", "c")[1] == 'd' && "/a/b/c/"[1] == 'a';
    assert !ExactAt(rows, "c");
    LikeIsPrefix("/d/b/", "/a/b/c/");
  }

  /** And the stale path lets a second move close a cycle: b under c under b. */
  lemma InnerMoveLetsACycleThrough()
    ensures ReattachEffect(Run(GROW + [INNER_MOVE]), "b", Some("c"), 0).Ok?
    ensures !Acyclic(ParentsOf(Run(GROW + [INNER_MOVE] + [SECOND_MOVE])))
  {
    InnerMoved();
    RunSnoc(GROW + [INNER_MOVE], SECOND_MOVE);
    hide Run;
    assert "/d/b/"[1] == 'd' && "/a/b/c/"[1] == 'a';
    var p := ParentsOf(Run(GROW + [INNER_MOVE] + [SECOND_MOVE]));
    assert p["b"] == Some("c") && p["c"] == Some("b");
    assert Climb(p, Some("b"), 1) == Up(p, Climb(p, Some("b"), 0));
    assert Climb(p, Some("b"), 2) == Some("b");
  }

  /** Moving d below c takes it to the fourth rank, for which no level was ever asked. */
  lemma MoveCanReachAnUnnamedRank()
    ensures var rows := Run(GROW); var r := ReattachEffect(rows, "d", Some("c"), 0);
            var levels: set<(string, nat)> := {("cm", 1), ("cm", 2), ("cm", 3)};
            LevelsNamed(rows, levels) && r.Ok? && !LevelsNamed(r.value, levels)
  {
    Planted();
    hide Run;
    assert "/d/"[1] == 'd' && "/a/b/c/"[1] == 'a';
    MoveKeepsLevelsNamedIff(Run(GROW), {("cm", 1), ("cm", 2), ("cm", 3)}, "d", Some("c"), 0);
  }
}
