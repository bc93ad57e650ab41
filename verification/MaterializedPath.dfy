/**
 * Administrative nodes and their materialized paths
 * (src/referential-engine/domain/entities/noeud-hierarchique.entity.ts,
 * src/referential-engine/application/use-cases/noeud-hierarchique.use-cases.ts,
 * src/referential-engine/infrastructure/persistence/typeorm/orm-repositories.ts, findDescendants).
 */
module MaterializedPath {
  import opened Prelude
  import opened ParentGraph

  datatype Noeud = Noeud(
    pays: string,
    domaine: string,
    parentId: Option<string>,
    chemin: string,
    rang: nat,
    publie: bool,
    actif: bool
  )

  type Rows = map<string, Noeud>

  /** A uuid: not empty, without the separator and without a character special to LIKE. */
  predicate IsId(id: string) {
    id != "" && forall c :: c in id ==> c != '/' && c != '%' && c != '_' && c != '\\'
  }

  // ---------------------------------------------------------------------------------------------- paths

  function Extend(base: string, id: string): string {
    base + id + "/"
  }

  /** The path through these nodes, from the root down. */
  function Join(ids: seq<string>): string {
    if ids == [] then "/" else Extend(Join(ids[..|ids| - 1]), ids[|ids| - 1])
  }

  predicate EndsWithSlash(s: string) {
    s != "" && s[|s| - 1] == '/'
  }

  lemma NoSlashInside(id: string)
    requires IsId(id)
    ensures forall i :: 0 <= i < |id| ==> id[i] != '/'
  {
    forall i | 0 <= i < |id| ensures id[i] != '/' {
      assert id[i] in id;
    }
  }

  /** A prefix that ends with a slash stops before the last segment or is the whole path. */
  lemma PrefixOfExtend(c: string, base: string, id: string)
    requires EndsWithSlash(c) && IsId(id)
    ensures c <= Extend(base, id) <==> c <= base || c == Extend(base, id)
  {
    var whole := Extend(base, id);
    assert base <= whole;
    NoSlashInside(id);
    if c <= whole && |c| > |base| {
      assert c[|c| - 1] == whole[|c| - 1];
      assert forall i :: |base| <= i < |whole| - 1 ==> whole[i] == id[i - |base|];
    } else if c <= whole {
      assert c == whole[..|c|] == base[..|c|];
    }
  }

  lemma ExtendInjective(a: string, x: string, b: string, y: string)
    requires EndsWithSlash(a) && EndsWithSlash(b) && IsId(x) && IsId(y)
    requires Extend(a, x) == Extend(b, y)
    ensures a == b && x == y
  {
    if |a| != |b| {
      LongerBase(a, x, b, y);
      LongerBase(b, y, a, x);
    }
    assert a == Extend(a, x)[..|a|] && b == Extend(b, y)[..|b|];
    assert x == Extend(a, x)[|a|..|a| + |x|] && y == Extend(b, y)[|b|..|b| + |y|];
  }

  lemma LongerBase(a: string, x: string, b: string, y: string)
    requires EndsWithSlash(a) && IsId(y) && Extend(a, x) == Extend(b, y) && x != ""
    ensures |a| <= |b|
  {
    NoSlashInside(y);
    assert forall i :: |b| <= i < |b| + |y| ==> Extend(b, y)[i] == y[i - |b|];
    assert Extend(a, x)[|a| - 1] == '/';
  }

  lemma {:induction false} JoinEndsWithSlash(ids: seq<string>)
    ensures EndsWithSlash(Join(ids))
  {
  }

  /** A path has only one splitting into segments. */
  lemma {:induction false} JoinInjective(ids: seq<string>, ids': seq<string>)
    requires (forall i :: 0 <= i < |ids| ==> IsId(ids[i])) && (forall i :: 0 <= i < |ids'| ==> IsId(ids'[i]))
    requires Join(ids) == Join(ids')
    ensures ids == ids'
  {
    if ids != [] && ids' != [] {
      var n, n' := |ids| - 1, |ids'| - 1;
      JoinEndsWithSlash(ids[..n]);
      JoinEndsWithSlash(ids'[..n']);
      ExtendInjective(Join(ids[..n]), ids[n], Join(ids'[..n']), ids'[n']);
      JoinInjective(ids[..n], ids'[..n']);
      assert ids == ids[..n] + [ids[n]] && ids' == ids'[..n'] + [ids'[n']];
    } else if ids != [] {
      JoinEndsWithSlash(ids[..|ids| - 1]);
    } else if ids' != [] {
      JoinEndsWithSlash(ids'[..|ids'| - 1]);
    }
  }

  // -------------------------------------------------------------------------------- use cases, as values

  datatype NoeudError =
    | NotFound | UndefinedNiveau | MissingRootFields | PublishedChildren | AttachedVilles | Circular | CrossCountry

  function WouldCreateCycle(cheminNoeud: string, cheminCandidat: string): bool {
    cheminNoeud <= cheminCandidat
  }

  predicate PublishedChild(rows: Rows, id: string) {
    exists c :: c in rows && rows[c].parentId == Some(id) && rows[c].publie && rows[c].actif
  }

  function Given(s: Option<string>): Option<string> {
    if s == Some("") then None else s
  }

  function Root(id: string, pays: string, domaine: string): Noeud {
    Noeud(pays, domaine, None, Extend("/", id), 1, false, true)
  }

  function Child(rows: Rows, id: string, parentId: string): Noeud
    requires parentId in rows
  {
    var parent := rows[parentId];
    Noeud(parent.pays, parent.domaine, Some(parentId), Extend(parent.chemin, id), parent.rang + 1, false, true)
  }

  /** The uuid is new; whether the country names a level for the rank is asked of its own repository. */
  function CreateEffect(rows: Rows, id: string, pays: Option<string>, domaine: Option<string>, parentId: Option<string>,
                        niveauDefini: bool): Result<Rows, NoeudError>
  {
    if Given(parentId).Some? then
      if parentId.value !in rows then Err(NotFound)
      else if !niveauDefini then Err(UndefinedNiveau)
      else Ok(rows[id := Child(rows, id, parentId.value)])
    else if Given(pays).None? || Given(domaine).None? then Err(MissingRootFields)
    else if !niveauDefini then Err(UndefinedNiveau)
    else Ok(rows[id := Root(id, pays.value, domaine.value)])
  }

  /** `reattachToParent`: only the moved node changes. */
  function Moved(rows: Rows, id: string, parentId: Option<string>): Noeud
    requires id in rows && (parentId.Some? ==> parentId.value in rows)
  {
    if parentId.None? then rows[id].(parentId := None, chemin := Extend("/", id), rang := 1)
    else
      var q := rows[parentId.value];
      rows[id].(parentId := parentId, chemin := Extend(q.chemin, id), rang := q.rang + 1)
  }

  /** `villes` is the counter of attached cities. */
  function ReattachEffect(rows: Rows, id: string, parentId: Option<string>, villes: nat): Result<Rows, NoeudError> {
    if id !in rows then Err(NotFound)
    else if PublishedChild(rows, id) then Err(PublishedChildren)
    else if villes > 0 then Err(AttachedVilles)
    else if Given(parentId).Some? && parentId.value !in rows then Err(NotFound)
    else if Given(parentId).Some? && WouldCreateCycle(rows[id].chemin, rows[parentId.value].chemin) then Err(Circular)
    else if Given(parentId).Some? && rows[parentId.value].pays != rows[id].pays then Err(CrossCountry)
    else Ok(rows[id := Moved(rows, id, Given(parentId))])
  }

  datatype Command =
    | Create(id: string, pays: Option<string>, domaine: Option<string>, parentId: Option<string>, niveauDefini: bool)
    | Reattach(id: string, nouveauParentId: Option<string>, villes: nat)
    | SetStatus(id: string, publie: bool, actif: bool)

  /** Any change of status or activation is allowed here, more than the workflow allows. */
  function Next(rows: Rows, c: Command): Rows {
    match c
    case Create(id, pays, domaine, parentId, niveauDefini) =>
      var r := CreateEffect(rows, id, pays, domaine, parentId, niveauDefini);
      if IsId(id) && id !in rows && r.Ok? then r.value else rows
    case Reattach(id, parentId, villes) =>
      var r := ReattachEffect(rows, id, parentId, villes);
      if r.Ok? then r.value else rows
    case SetStatus(id, publie, actif) =>
      if id in rows then rows[id := rows[id].(publie := publie, actif := actif)] else rows
  }

  function Run(commands: seq<Command>): Rows {
    if commands == [] then map[]
    else Next(Run(commands[..|commands| - 1]), commands[|commands| - 1])
  }

  /** What a creation stores: a root of rank 1, or a child in its parent's country and domain, one rank below it. */
  lemma CreationOutcome(rows: Rows, id: string, pays: Option<string>, domaine: Option<string>, parentId: Option<string>, niveauDefini: bool)
    requires IsId(id) && id !in rows
    ensures var rows' := Next(rows, Create(id, pays, domaine, parentId, niveauDefini));
            var r := CreateEffect(rows, id, pays, domaine, parentId, niveauDefini);
            if parentId.Some? && parentId.value != "" then
              && rows' == (if parentId.value in rows && niveauDefini then
                             rows[id := Noeud(rows[parentId.value].pays, rows[parentId.value].domaine, parentId,
                                              rows[parentId.value].chemin + id + "/", rows[parentId.value].rang + 1, false, true)]
                           else rows)
              && (parentId.value !in rows <==> r == Err(NotFound))
              && (parentId.value in rows && !niveauDefini <==> r == Err(UndefinedNiveau))
            else
              var named := pays.Some? && pays.value != "" && domaine.Some? && domaine.value != "";
              && rows' == (if named && niveauDefini then
                             rows[id := Noeud(pays.value, domaine.value, None, "/" + id + "/", 1, false, true)]
                           else rows)
              && (!named <==> r == Err(MissingRootFields)) && (named && !niveauDefini <==> r == Err(UndefinedNiveau))
  {
  }

  /** What a reattachment demands, and what it stores: parent, path and rank change, and nothing else. */
  lemma ReattachmentOutcome(rows: Rows, id: string, parentId: Option<string>, villes: nat)
    ensures var rows', r := Next(rows, Reattach(id, parentId, villes)), ReattachEffect(rows, id, parentId, villes);
            var toRoot := parentId.None? || parentId.value == "";
            && (r.Ok? <==>
                  && id in rows && villes == 0
                  && !(exists c :: c in rows && rows[c].parentId == Some(id) && rows[c].publie && rows[c].actif)
                  && (toRoot || (parentId.value in rows && !(rows[id].chemin <= rows[parentId.value].chemin)
                                 && rows[parentId.value].pays == rows[id].pays)))
            && (r.Err? ==> rows' == rows)
            && (r.Ok? && toRoot ==>
                  rows' == rows[id := Noeud(rows[id].pays, rows[id].domaine, None, "/" + id + "/", 1, rows[id].publie, rows[id].actif)])
            && (r.Ok? && !toRoot ==>
                  rows' == rows[id := Noeud(rows[id].pays, rows[id].domaine, parentId, rows[parentId.value].chemin + id + "/",
                                            rows[parentId.value].rang + 1, rows[id].publie, rows[id].actif)])
  {
  }

  function ParentsOf(rows: Rows): Parents {
    map id | id in rows :: rows[id].parentId
  }

  // ----------------------------------------------------------------------------------- shape of all paths

  /** A path that splits into `rang` segments, the last one being the node itself. */
  ghost predicate Shaped(id: string, n: Noeud) {
    exists ids: seq<string> ::
      && |ids| == n.rang && n.chemin == Join(ids) && (forall i :: 0 <= i < |ids| ==> IsId(ids[i]))
      && ids != [] && ids[|ids| - 1] == id
  }

  ghost predicate ParentEdgesOk(rows: Rows) {
    forall id :: id in rows ==>
      && (rows[id].parentId.Some? ==> rows[id].parentId.value in rows && rows[rows[id].parentId.value].pays == rows[id].pays)
      && (rows[id].parentId.None? <==> rows[id].rang == 1)
  }

  ghost predicate AllShaped(rows: Rows) {
    (forall id :: id in rows ==> IsId(id) && Shaped(id, rows[id])) && ParentEdgesOk(rows)
  }

  lemma ShapedRoot(id: string, n: Noeud)
    requires IsId(id) && n.chemin == Extend("/", id) && n.rang == 1
    ensures Shaped(id, n)
  {
    assert Join([id]) == Extend(Join([id][..0]), id);
    assert [id][0] == id;
  }

  lemma ShapedBelow(id: string, n: Noeud, parentId: string, parent: Noeud)
    requires IsId(id) && Shaped(parentId, parent) && n.chemin == Extend(parent.chemin, id) && n.rang == parent.rang + 1
    ensures Shaped(id, n)
  {
    var ids :| |ids| == parent.rang && parent.chemin == Join(ids) && forall i :: 0 <= i < |ids| ==> IsId(ids[i]);
    assert (ids + [id])[..|ids|] == ids;
    assert Join(ids + [id]) == n.chemin;
  }

  lemma NextKeepsShape(rows: Rows, c: Command)
    requires AllShaped(rows)
    ensures AllShaped(Next(rows, c))
  {
    hide Shaped;
    hide IsId;
    hide PublishedChild;
    hide Extend;
    if Next(rows, c) != rows {
      match c {
        case Create(id, _, _, parentId, _) => NewKeepsShape(rows, id, Next(rows, c)[id], Given(parentId));
        case Reattach(id, parentId, _) => NewKeepsShape(rows, id, Next(rows, c)[id], Given(parentId));
        case SetStatus(id, _, _) =>
          ShapeIsInThePath(id, rows[id], Next(rows, c)[id]);
          EdgesKept(rows, id, Next(rows, c)[id]);
      }
    }
  }

  lemma ShapeIsInThePath(id: string, n: Noeud, n': Noeud)
    requires Shaped(id, n) && n'.chemin == n.chemin && n'.rang == n.rang
    ensures Shaped(id, n')
  {
  }

  lemma EdgesKept(rows: Rows, id: string, n: Noeud)
    requires ParentEdgesOk(rows)
    requires id in rows ==> n.pays == rows[id].pays
    requires n.parentId.Some? ==> n.parentId.value in rows && rows[n.parentId.value].pays == n.pays
    requires n.parentId.None? <==> n.rang == 1
    ensures ParentEdgesOk(rows[id := n])
  {
  }

  lemma ShapedHasRank(id: string, n: Noeud)
    requires Shaped(id, n)
    ensures n.rang >= 1
  {
  }

  lemma NewKeepsShape(rows: Rows, id: string, n: Noeud, parentId: Option<string>)
    requires AllShaped(rows) && IsId(id) && n.parentId == parentId
    requires id in rows ==> n.pays == rows[id].pays
    requires parentId.None? ==> n.chemin == Extend("/", id) && n.rang == 1
    requires parentId.Some? ==> parentId.value in rows && n.chemin == Extend(rows[parentId.value].chemin, id)
                                && n.rang == rows[parentId.value].rang + 1 && n.pays == rows[parentId.value].pays
    ensures AllShaped(rows[id := n])
  {
    hide Shaped;
    hide Extend;
    hide IsId;
    if parentId.None? {
      ShapedRoot(id, n);
    } else {
      ShapedBelow(id, n, parentId.value, rows[parentId.value]);
      ShapedHasRank(parentId.value, rows[parentId.value]);
    }
    EdgesKept(rows, id, n);
    hide ParentEdgesOk;
  }

  /** Whatever is moved: every path keeps its shape, and every parent is in the same country. */
  lemma {:induction false} AlwaysShaped(commands: seq<Command>)
    ensures AllShaped(Run(commands))
  {
    if commands != [] {
      AlwaysShaped(commands[..|commands| - 1]);
      NextKeepsShape(Run(commands[..|commands| - 1]), commands[|commands| - 1]);
    }
  }

  // ------------------------------------------------------------------------------------------ exact paths

  /** Nodes from a root down to n, each the parent of the next. */
  ghost predicate IsLineage(rows: Rows, ids: seq<string>, n: string)
    decreases |ids|
  {
    && n in rows && ids != [] && ids[|ids| - 1] == n
    && (if |ids| == 1 then rows[n].parentId == None
        else rows[n].parentId == Some(ids[|ids| - 2]) && IsLineage(rows, ids[..|ids| - 1], ids[|ids| - 2]))
  }

  /** The path of every node names its ancestors, root first, then itself. */
  ghost predicate ExactPaths(rows: Rows) {
    forall n :: n in rows ==> exists ids :: IsLineage(rows, ids, n) && rows[n].chemin == Join(ids) && rows[n].rang == |ids|
  }

  function Base(rows: Rows, parentId: Option<string>): string {
    if parentId.Some? && parentId.value in rows then rows[parentId.value].chemin else "/"
  }

  function RankAbove(rows: Rows, parentId: Option<string>): nat {
    if parentId.Some? && parentId.value in rows then rows[parentId.value].rang else 0
  }

  /** The same, one parent edge at a time. */
  ghost predicate Exact(rows: Rows) {
    forall n :: n in rows ==> IsId(n) && ExactAt(rows, n)
  }

  ghost predicate ExactAt(rows: Rows, n: string)
    requires n in rows
  {
    && (rows[n].parentId.Some? ==> rows[n].parentId.value in rows)
    && rows[n].chemin == Extend(Base(rows, rows[n].parentId), n)
    && rows[n].rang == RankAbove(rows, rows[n].parentId) + 1
  }

  lemma {:induction false} LineageOf(rows: Rows, n: string) returns (ids: seq<string>)
    requires Exact(rows) && n in rows
    ensures IsLineage(rows, ids, n) && rows[n].chemin == Join(ids) && rows[n].rang == |ids|
    decreases |rows[n].chemin|
  {
    assert ExactAt(rows, n);
    if rows[n].parentId.None? {
      ids := [n];
      assert ids[..0] == [];
    } else {
      var above := LineageOf(rows, rows[n].parentId.value);
      ids := above + [n];
      assert ids[..|above|] == above;
    }
  }

  lemma {:induction false} LineageIsUnique(rows: Rows, ids: seq<string>, ids': seq<string>, n: string)
    requires IsLineage(rows, ids, n) && IsLineage(rows, ids', n)
    ensures ids == ids'
    decreases |ids|
  {
    var init, init' := ids[..|ids| - 1], ids'[..|ids'| - 1];
    if init != [] && init' != [] {
      LineageIsUnique(rows, init, init', ids[|ids| - 2]);
    }
    assert ids == init + [n] && ids' == init' + [n];
  }

  lemma ExactMeansExactPaths(rows: Rows)
    requires forall n :: n in rows ==> IsId(n)
    ensures Exact(rows) <==> ExactPaths(rows)
  {
    if Exact(rows) {
      forall n | n in rows ensures exists ids :: IsLineage(rows, ids, n) && rows[n].chemin == Join(ids) && rows[n].rang == |ids| {
        var ids := LineageOf(rows, n);
      }
    }
    if ExactPaths(rows) {
      forall n | n in rows ensures ExactAt(rows, n) {
        ExactEdge(rows, n);
      }
    }
  }

  lemma ExactEdge(rows: Rows, n: string)
    requires ExactPaths(rows) && n in rows
    ensures ExactAt(rows, n)
  {
    var ids :| IsLineage(rows, ids, n) && rows[n].chemin == Join(ids) && rows[n].rang == |ids|;
    var init := ids[..|ids| - 1];
    if init == [] {
      assert ids == [n];
      assert Join(ids) == Extend("/", n);
    } else {
      var p := ids[|ids| - 2];
      assert IsLineage(rows, init, p) && rows[n].parentId == Some(p);
      hide IsLineage;
      var above :| IsLineage(rows, above, p) && rows[p].chemin == Join(above) && rows[p].rang == |above|;
      LineageIsUnique(rows, above, init, p);
      assert Join(ids) == Extend(Join(init), n);
    }
  }

  lemma ExactEnds(rows: Rows, parentId: Option<string>)
    requires Exact(rows)
    ensures EndsWithSlash(Base(rows, parentId))
  {
    if parentId.Some? && parentId.value in rows { assert ExactAt(rows, parentId.value); }
  }

  /** Different nodes have different paths. */
  lemma ExactPathsDiffer(rows: Rows, n: string, p: string)
    requires Exact(rows) && n in rows && p in rows && rows[n].chemin == rows[p].chemin
    ensures n == p
  {
    assert ExactAt(rows, n) && ExactAt(rows, p);
    ExactEnds(rows, rows[n].parentId);
    ExactEnds(rows, rows[p].parentId);
    ExtendInjective(Base(rows, rows[n].parentId), n, Base(rows, rows[p].parentId), p);
  }

  // -------------------------------------------------------------------- the prefix test and the tree agree

  lemma {:induction false} BelowHasPrefix(rows: Rows, p: string, n: string, k: nat)
    requires Exact(rows) && p in rows && n in rows && Climb(ParentsOf(rows), Some(p), k) == Some(n)
    ensures rows[n].chemin <= rows[p].chemin && (k >= 1 ==> |rows[n].chemin| < |rows[p].chemin|)
    decreases k
  {
    if k > 0 {
      var at := Climb(ParentsOf(rows), Some(p), k - 1).value;
      assert ExactAt(rows, at);
      BelowHasPrefix(rows, p, at, k - 1);
    }
  }

  lemma {:induction false} PrefixIsAbove(rows: Rows, n: string, p: string)
    requires Exact(rows) && n in rows && p in rows && rows[n].chemin <= rows[p].chemin
    ensures Reaches(ParentsOf(rows), p, n)
    decreases |rows[p].chemin|
  {
    assert ExactAt(rows, n) && ExactAt(rows, p);
    var base := Base(rows, rows[p].parentId);
    PrefixOfExtend(rows[n].chemin, base, p);
    if rows[n].chemin == rows[p].chemin {
      ExactPathsDiffer(rows, n, p);
      ReachesSelf(ParentsOf(rows), n);
    } else if rows[p].parentId.Some? {
      PrefixIsAbove(rows, n, rows[p].parentId.value);
      ReachesParent(rows, p);
      ReachesTransitively(ParentsOf(rows), p, rows[p].parentId.value, n);
    } else {
      assert false;
    }
  }

  lemma ReachesParent(rows: Rows, p: string)
    requires p in rows && rows[p].parentId.Some?
    ensures Reaches(ParentsOf(rows), p, rows[p].parentId.value)
  {
    assert Climb(ParentsOf(rows), Some(p), 1) == Up(ParentsOf(rows), Climb(ParentsOf(rows), Some(p), 0));
  }

  /** In an exact state the test on strings is the test on the tree. */
  lemma PrefixTestIsExact(rows: Rows, n: string, p: string)
    requires Exact(rows) && n in rows && p in rows
    ensures WouldCreateCycle(rows[n].chemin, rows[p].chemin) <==> Reaches(ParentsOf(rows), p, n)
  {
    if Reaches(ParentsOf(rows), p, n) {
      var k: nat :| Climb(ParentsOf(rows), Some(p), k) == Some(n);
      BelowHasPrefix(rows, p, n, k);
    }
    if rows[n].chemin <= rows[p].chemin {
      PrefixIsAbove(rows, n, p);
    }
  }

  lemma {:induction false} ExactClimbStays(rows: Rows, x: string, k: nat)
    requires Exact(rows) && x in rows && Climb(ParentsOf(rows), Some(x), k).Some?
    ensures Climb(ParentsOf(rows), Some(x), k).value in rows
  {
    if k > 0 {
      ExactClimbStays(rows, x, k - 1);
      assert ExactAt(rows, Climb(ParentsOf(rows), Some(x), k - 1).value);
    }
  }

  lemma ExactIsAcyclic(rows: Rows)
    requires Exact(rows)
    ensures Acyclic(ParentsOf(rows))
  {
    forall x: string, k: nat | k >= 1 ensures Climb(ParentsOf(rows), Some(x), k) != Some(x) {
      if Climb(ParentsOf(rows), Some(x), k) == Some(x) {
        if x in rows {
          BelowHasPrefix(rows, x, x, k);
        } else {
          assert Climb(ParentsOf(rows), Some(x), 1) == Up(ParentsOf(rows), Climb(ParentsOf(rows), Some(x), 0));
          NothingAboveNothing(ParentsOf(rows), Some(x), 1, k);
        }
      }
    }
  }
}
