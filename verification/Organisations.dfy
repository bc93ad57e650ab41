/**
 * The tree of organisations and their subsidiaries
 * (src/org/infrastructure/persistence/typeorm/orm-repositories.ts, isDescendantOf;
 * src/org/application/use-cases/organisation.use-cases.ts; src/org/domain/entities/organisation.entity.ts;
 * src/org/infrastructure/adapters/organisation-lookup.adapter.ts).
 */
module Organisations {
  import opened Prelude
  import opened ParentGraph

  /** Identifiers are `uuid` columns: the database refuses an empty one (`Refused`). */
  datatype OrgError = NotFound | CircularParenting | SelfParenting | Refused

  // --------------------------------------------------------------------------------- lookups, as values

  /** An empty identifier counts as none. */
  function OrNone(id: Option<string>): Option<string> {
    if id == Some("") then None else id
  }

  /** The parents as a walk sees them. */
  function Truthy(rows: Parents): Parents {
    map x | x in rows :: OrNone(rows[x])
  }

  /** What `isDescendantOf` answers. */
  ghost predicate IsDescendant(rows: Parents, organisationId: string, ancestor: string) {
    organisationId != "" && Reaches(Truthy(rows), organisationId, ancestor)
  }

  /** `isDescendantOrSelf` of the lookup adapter. */
  ghost predicate DescendantOrSelf(rows: Parents, organisationId: string, ancestor: string) {
    organisationId == ancestor || IsDescendant(rows, organisationId, ancestor)
  }

  // ------------------------------------------------------------------------------- use cases, as values

  /** The uuid is new. */
  function CreateEffect(rows: Parents, id: string, mere: Option<string>): Result<Parents, OrgError> {
    if mere == Some("") then Err(Refused)
    else if mere.Some? && mere.value !in rows then Err(NotFound)
    else if mere == Some(id) then Err(SelfParenting)
    else Ok(rows[id := mere])
  }

  ghost function ReattachEffect(rows: Parents, id: string, mere: Option<string>): Result<Parents, OrgError> {
    if id !in rows then Err(NotFound)
    else if mere == Some("") then Err(Refused)
    else if mere.Some? && mere.value !in rows then Err(NotFound)
    else if mere.Some? && IsDescendant(rows, mere.value, id) then Err(CircularParenting)
    else if mere == Some(id) then Err(SelfParenting)
    else Ok(rows[id := mere])
  }

  datatype Command = Create(id: string, mere: Option<string>) | Reattach(id: string, mere: Option<string>)

  /** A command that fails stores nothing; a creation always brings a new, non-empty identifier. */
  ghost function Next(rows: Parents, c: Command): Parents {
    var r := match c
      case Create(id, mere) => if id == "" || id in rows then Ok(rows) else CreateEffect(rows, id, mere)
      case Reattach(id, mere) => ReattachEffect(rows, id, mere);
    if r.Ok? then r.value else rows
  }

  ghost function Run(commands: seq<Command>): Parents {
    if commands == [] then map[]
    else Next(Run(commands[..|commands| - 1]), commands[|commands| - 1])
  }

  ghost predicate Forest(rows: Parents) {
    Acyclic(rows) && ParentsExist(rows) && "" !in rows
  }

  // ---------------------------------------------------------------------------------------- the forest

  lemma InForest(rows: Parents)
    requires Forest(rows)
    ensures Truthy(rows) == rows
    ensures forall x, y :: x in rows ==> (IsDescendant(rows, x, y) <==> Reaches(rows, x, y))
  {
    assert Truthy(rows) == rows;
  }

  lemma NextKeepsForest(rows: Parents, c: Command)
    requires Forest(rows)
    ensures Forest(Next(rows, c))
  {
    InForest(rows);
    match c {
      case Create(id, mere) =>
        if id != "" && id !in rows && mere != Some(id) { FreshNodeKeepsAcyclic(rows, id, mere); }
      case Reattach(id, mere) =>
        if ReattachEffect(rows, id, mere).Ok? { MoveKeepsAcyclic(rows, id, mere); }
    }
  }

  lemma {:induction false} AlwaysAForest(commands: seq<Command>)
    ensures Forest(Run(commands))
  {
    if commands == [] {
      forall x: string, k: nat | k >= 1 ensures Climb(map[], Some(x), k) != Some(x) {
        NothingAboveNothing(map[], Some(x), 1, k);
      }
    } else {
      AlwaysAForest(commands[..|commands| - 1]);
      NextKeepsForest(Run(commands[..|commands| - 1]), commands[|commands| - 1]);
    }
  }

  /** Between existing organisations, a reattachment is refused exactly when it would close a cycle. */
  lemma RefusedIffCyclic(commands: seq<Command>, id: string, mere: string)
    requires id in Run(commands) && mere in Run(commands)
    ensures var rows := Run(commands);
            ReattachEffect(rows, id, Some(mere)) ==
              if Acyclic(rows[id := Some(mere)]) then Ok(rows[id := Some(mere)]) else Err(CircularParenting)
  {
    var rows := Run(commands);
    AlwaysAForest(commands);
    InForest(rows);
    if Reaches(rows, mere, id) {
      MoveBelowItselfMakesACycle(rows, id, mere);
    } else {
      MoveKeepsAcyclic(rows, id, Some(mere));
      if mere == id { ReachesSelf(rows, id); }
    }
  }

  /** A creation is accepted exactly without a mother or under an existing one, and stores just that. */
  lemma CreationOutcome(commands: seq<Command>, id: string, mere: Option<string>)
    requires id != "" && id !in Run(commands)
    ensures var rows := Run(commands); var accepted := mere.None? || mere.value in rows;
            && Next(rows, Create(id, mere)) == (if accepted then rows[id := mere] else rows)
            && (CreateEffect(rows, id, mere).Ok? <==> accepted)
            && (!accepted ==> CreateEffect(rows, id, mere) == Err(if mere == Some("") then Refused else NotFound))
  {
    AlwaysAForest(commands);
    hide Run;
    hide Acyclic;
  }

  /** A reattachment is accepted exactly when no cycle is closed; detaching always is. Nothing but the mother changes. */
  lemma ReattachmentOutcome(commands: seq<Command>, id: string, mere: Option<string>)
    ensures var rows := Run(commands); var r := ReattachEffect(rows, id, mere);
            var accepted := id in rows && (mere.None? || (mere.value in rows && Acyclic(rows[id := mere])));
            && Next(rows, Reattach(id, mere)) == (if accepted then rows[id := mere] else rows)
            && (r.Ok? <==> accepted)
            && (id !in rows ==> r == Err(NotFound))
            && (id in rows && mere == Some("") ==> r == Err(Refused))
            && (id in rows && mere.Some? && mere != Some("") && mere.value !in rows ==> r == Err(NotFound))
            && (id in rows && mere.Some? && mere.value in rows && !accepted ==> r == Err(CircularParenting))
  {
    AlwaysAForest(commands);
    if id in Run(commands) && mere.Some? && mere.value in Run(commands) {
      RefusedIffCyclic(commands, id, mere.value);
    }
    hide Run;
    hide Acyclic;
    hide IsDescendant;
  }

  /** In every reachable state `isDescendantOrSelf` is a partial order on all identifiers. */
  lemma DescendantOrSelfIsAnOrder(commands: seq<Command>, x: string, y: string, z: string)
    ensures var rows := Run(commands);
            && DescendantOrSelf(rows, x, x)
            && (DescendantOrSelf(rows, x, y) && DescendantOrSelf(rows, y, z) ==> DescendantOrSelf(rows, x, z))
            && (DescendantOrSelf(rows, x, y) && DescendantOrSelf(rows, y, x) ==> x == y)
            && (x in rows ==> (DescendantOrSelf(rows, x, y) <==> Reaches(rows, x, y)))
  {
    var rows := Run(commands);
    AlwaysAForest(commands);
    InForest(rows);
    if DescendantOrSelf(rows, x, y) && DescendantOrSelf(rows, y, z) && x != y && y != z {
      ReachesTransitively(rows, x, y, z);
    }
    if DescendantOrSelf(rows, x, y) && DescendantOrSelf(rows, y, x) && x != y {
      ReachesAntisymmetrically(rows, x, y);
    }
    ReachesSelf(rows, x);
  }

  /** Below a new mother exactly what the moved organisation carried along, and nothing else moves. */
  lemma MovedBelow(commands: seq<Command>, id: string, mere: string, x: string)
    requires var rows := Run(commands); id in rows && mere in rows && !Reaches(rows, mere, id)
    ensures var rows := Run(commands); var rows' := Run(commands + [Reattach(id, Some(mere))]);
            && (Reaches(rows, x, id) ==> Reaches(rows', x, mere))
            && (!Reaches(rows, x, id) ==> forall y :: Reaches(rows', x, y) <==> Reaches(rows, x, y))
  {
    var rows, all := Run(commands), commands + [Reattach(id, Some(mere))];
    assert all[..|commands|] == commands;
    AlwaysAForest(commands);
    InForest(rows);
    if id == mere { ReachesSelf(rows, id); }
    var rows' := rows[id := Some(mere)];
    assert Run(all) == rows';
    if Reaches(rows, x, id) {
      var k: nat :| Climb(rows, Some(x), k) == Some(id);
      var f := FirstMeeting(rows, Some(x), id, k);
      ClimbAvoiding(id, rows, rows', Some(x), f);
      assert Climb(rows', Some(x), f + 1) == Some(mere);
    } else {
      forall k: nat ensures Climb(rows', Some(x), k) == Climb(rows, Some(x), k) {
        ClimbAvoiding(id, rows, rows', Some(x), k);
      }
    }
  }

  // ------------------------------------------------------------------------------------ as it is written

  class Organisation {
    const id: string
    var organisationMereId: Option<string>

    constructor (id: string, mere: Option<string>)
      ensures this.id == id && organisationMereId == mere
    {
      this.id, organisationMereId := id, mere;
    }

    /** False when it throws SelfParentingError. */
    method ReattachToParent(mere: Option<string>) returns (ok: bool)
      modifies this
      ensures ok <==> mere != Some(id)
      ensures organisationMereId == if ok then mere else old(organisationMereId)
    {
      ok := mere != Some(id);
      if ok { organisationMereId := mere; }
    }
  }

  class OrganisationRepository {
    var rows: Parents

    constructor ()
      ensures rows == map[]
    {
      rows := map[];
    }

    method FindById(id: string) returns (o: Organisation?)
      ensures o == null <==> id !in rows
      ensures o != null ==> fresh(o) && o.id == id && o.organisationMereId == rows[id]
    {
      if id in rows { o := new Organisation(id, rows[id]); } else { o := null; }
    }

    method Save(o: Organisation)
      modifies this
      ensures rows == old(rows)[o.id := o.organisationMereId]
    {
      rows := rows[o.id := o.organisationMereId];
    }

    /** The walk, on any data: it ends, and answers whether the candidate is met on the way up. */
    method IsDescendantOf(candidateAncestorId: string, organisationId: string) returns (r: bool)
      ensures r <==> IsDescendant(rows, organisationId, candidateAncestorId)
    {
      var current := Some(organisationId);
      var visited: set<string> := {};
      ghost var p, k: nat := Truthy(rows), 0;
      while current != None && current != Some("")
        invariant organisationId != "" ==> Walked(p, organisationId, OrNone(current), visited, k)
        invariant organisationId == "" ==> current == Some("")
        invariant candidateAncestorId !in visited
        decreases Remaining(p, OrNone(current), visited)
      {
        if current.value == candidateAncestorId { return true; }
        if current.value in visited {
          WalkEnds(p, organisationId, current, visited, k, candidateAncestorId);
          return false;
        }
        WalkOn(p, organisationId, current.value, visited, k);
        visited := visited + {current.value};
        current := if current.value in rows then rows[current.value] else None;
        k := k + 1;
      }
      if organisationId != "" { WalkEnds(p, organisationId, None, visited, k, candidateAncestorId); }
      r := false;
    }

    method IsDescendantOrSelf(organisationId: string, ancestorOrganisationId: string) returns (r: bool)
      ensures r <==> DescendantOrSelf(rows, organisationId, ancestorOrganisationId)
    {
      if organisationId == ancestorOrganisationId { return true; }
      r := IsDescendantOf(ancestorOrganisationId, organisationId);
    }
  }

  class OrganisationUseCases {
    const repository: OrganisationRepository

    constructor (repository: OrganisationRepository)
      ensures this.repository == repository
    {
      this.repository := repository;
    }

    method Create(id: string, mere: Option<string>) returns (r: Result<string, OrgError>)
      requires id != "" && id !in repository.rows
      modifies repository
      ensures r == match CreateEffect(old(repository.rows), id, mere) case Ok(_) => Ok(id) case Err(e) => Err(e)
      ensures repository.rows == Next(old(repository.rows), Command.Create(id, mere))
    {
      if mere == Some("") { return Err(Refused); }
      if mere.Some? {
        var found := repository.FindById(mere.value);
        if found == null { return Err(NotFound); }
      }
      if mere == Some(id) { return Err(SelfParenting); }
      var organisation := new Organisation(id, mere);
      repository.Save(organisation);
      r := Ok(id);
    }

    method Reattach(organisationId: string, nouvelleMere: Option<string>) returns (r: Result<(), OrgError>)
      modifies repository
      ensures r == match ReattachEffect(old(repository.rows), organisationId, nouvelleMere)
                   case Ok(_) => Ok(()) case Err(e) => Err(e)
      ensures repository.rows == Next(old(repository.rows), Command.Reattach(organisationId, nouvelleMere))
    {
      var organisation := repository.FindById(organisationId);
      if organisation == null { return Err(NotFound); }
      if nouvelleMere == Some("") { return Err(Refused); }
      if nouvelleMere.Some? {
        var cible := repository.FindById(nouvelleMere.value);
        if cible == null { return Err(NotFound); }
        var creeraitUnCycle := repository.IsDescendantOf(organisationId, nouvelleMere.value);
        if creeraitUnCycle { return Err(CircularParenting); }
      }
      var ok := organisation.ReattachToParent(nouvelleMere);
      if !ok { return Err(SelfParenting); }
      repository.Save(organisation);
      r := Ok(());
    }
  }
}
