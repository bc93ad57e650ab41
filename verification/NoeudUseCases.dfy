/**
 * The use cases on administrative nodes as they are written: load, guard, change the entity, save
 * (src/referential-engine/application/use-cases/noeud-hierarchique.use-cases.ts,
 * src/referential-engine/domain/entities/noeud-hierarchique.entity.ts,
 * src/referential-engine/infrastructure/persistence/typeorm/orm-repositories.ts). Each method is proved
 * equal to the command of MaterializedPath that stands for it.
 */
module NoeudUseCases {
  import opened Prelude
  import opened MaterializedPath
  import PathMoves

  class NoeudHierarchique {
    const id: string
    var props: Noeud

    constructor Reconstitute(id: string, props: Noeud)
      ensures this.id == id && this.props == props
    {
      this.id, this.props := id, props;
    }

    constructor CreateRoot(id: string, pays: string, domaine: string)
      ensures this.id == id && props == Root(id, pays, domaine)
    {
      this.id := id;
      props := Noeud(pays, domaine, None, "/" + id + "/", 1, false, true);
    }

    constructor CreateChild(id: string, parent: NoeudHierarchique)
      ensures this.id == id
      ensures props == Noeud(parent.props.pays, parent.props.domaine, Some(parent.id), Extend(parent.props.chemin, id),
                             parent.props.rang + 1, false, true)
    {
      this.id := id;
      props := Noeud(parent.props.pays, parent.props.domaine, Some(parent.id), parent.props.chemin + id + "/",
                     parent.props.rang + 1, false, true);
    }

    /** False when it throws CrossCountryReattachmentError. */
    method ReattachToParent(parent: NoeudHierarchique?) returns (ok: bool)
      requires parent != this
      modifies this
      ensures ok <==> parent == null || parent.props.pays == old(props).pays
      ensures !ok ==> props == old(props)
      ensures ok && parent == null ==> props == old(props).(parentId := None, chemin := Extend("/", id), rang := 1)
      ensures ok && parent != null ==>
                props == old(props).(parentId := Some(parent.id), chemin := Extend(parent.props.chemin, id),
                                     rang := parent.props.rang + 1)
    {
      if parent != null {
        if parent.props.pays != props.pays { return false; }
        props := props.(parentId := Some(parent.id));
        props := props.(chemin := parent.props.chemin + id + "/");
        props := props.(rang := parent.props.rang + 1);
      } else {
        props := props.(parentId := None, chemin := "/" + id + "/", rang := 1);
      }
      ok := true;
    }
  }

  /** `enfants.some(...)`. */
  method HasPublishedChild(enfants: seq<Noeud>) returns (found: bool)
    ensures found <==> exists e :: e in enfants && e.publie && e.actif
  {
    found := false;
    for i := 0 to |enfants|
      invariant found <==> exists j :: 0 <= j < i && enfants[j].publie && enfants[j].actif
    {
      if enfants[i].publie && enfants[i].actif { found := true; }
    }
  }

  class NoeudRepository {
    var rows: Rows

    constructor ()
      ensures rows == map[]
    {
      rows := map[];
    }

    method FindById(id: string) returns (n: NoeudHierarchique?)
      ensures n == null <==> id !in rows
      ensures n != null ==> fresh(n) && n.id == id && n.props == rows[id]
    {
      if id in rows { n := new NoeudHierarchique.Reconstitute(id, rows[id]); } else { n := null; }
    }

    method FindChildren(parentId: string) returns (enfants: seq<Noeud>)
      ensures forall e :: e in enfants <==> exists c :: c in rows && rows[c].parentId == Some(parentId) && rows[c] == e
    {
      enfants := [];
      var rest := rows.Keys;
      while rest != {}
        invariant rest <= rows.Keys
        invariant forall e :: e in enfants <==>
                    exists c :: c in rows && c !in rest && rows[c].parentId == Some(parentId) && rows[c] == e
        decreases rest
      {
        var c :| c in rest;
        rest := rest - {c};
        if rows[c].parentId == Some(parentId) { enfants := enfants + [rows[c]]; }
      }
    }

    method FindDescendants(chemin: string) returns (ids: set<string>)
      ensures ids == PathMoves.FindDescendants(rows, chemin)
    {
      ids := set id | id in rows && PathMoves.Like(chemin + "%", rows[id].chemin) && rows[id].chemin != chemin;
    }

    method Save(n: NoeudHierarchique)
      modifies this
      ensures rows == old(rows)[n.id := n.props]
    {
      rows := rows[n.id := n.props];
    }
  }

  function Outcome<T>(r: Result<Rows, NoeudError>, value: T): Result<T, NoeudError> {
    match r case Ok(_) => Ok(value) case Err(e) => Err(e)
  }

  class NoeudHierarchiqueUseCases {
    const repository: NoeudRepository

    constructor (repository: NoeudRepository)
      ensures this.repository == repository
    {
      this.repository := repository;
    }

    /** `niveauDefini` is the answer of the level repository for the country and the rank it is asked about. */
    method Create(id: string, pays: Option<string>, domaine: Option<string>, parentId: Option<string>, niveauDefini: bool)
      returns (r: Result<string, NoeudError>)
      requires IsId(id) && id !in repository.rows
      modifies repository
      ensures r == Outcome(CreateEffect(old(repository.rows), id, pays, domaine, parentId, niveauDefini), id)
      ensures repository.rows == Next(old(repository.rows), Command.Create(id, pays, domaine, parentId, niveauDefini))
    {
      var noeud: NoeudHierarchique;
      if parentId.Some? && parentId.value != "" {
        var parent := repository.FindById(parentId.value);
        if parent == null { return Err(NotFound); }
        if !niveauDefini { return Err(UndefinedNiveau); }
        noeud := new NoeudHierarchique.CreateChild(id, parent);
      } else {
        if pays.None? || pays.value == "" || domaine.None? || domaine.value == "" { return Err(MissingRootFields); }
        if !niveauDefini { return Err(UndefinedNiveau); }
        noeud := new NoeudHierarchique.CreateRoot(id, pays.value, domaine.value);
      }
      repository.Save(noeud);
      r := Ok(id);
    }

    method Reattach(noeudId: string, nouveauParentId: Option<string>, villes: nat) returns (r: Result<(), NoeudError>)
      modifies repository
      ensures r == Outcome(ReattachEffect(old(repository.rows), noeudId, nouveauParentId, villes), ())
      ensures repository.rows == Next(old(repository.rows), Command.Reattach(noeudId, nouveauParentId, villes))
    {
      var noeud := repository.FindById(noeudId);
      if noeud == null { return Err(NotFound); }
      var enfants := repository.FindChildren(noeudId);
      var published := HasPublishedChild(enfants);
      if published { return Err(PublishedChildren); }
      if villes > 0 { return Err(AttachedVilles); }
      var nouveauParent: NoeudHierarchique? := null;
      if nouveauParentId.Some? && nouveauParentId.value != "" {
        nouveauParent := repository.FindById(nouveauParentId.value);
        if nouveauParent == null { return Err(NotFound); }
        if WouldCreateCycle(noeud.props.chemin, nouveauParent.props.chemin) { return Err(Circular); }
      }
      var ok := noeud.ReattachToParent(nouveauParent);
      if !ok { return Err(CrossCountry); }
      repository.Save(noeud);
      r := Ok(());
    }

    /** Every node below this one, by one prefix query. */
    method ListDescendants(noeudId: string) returns (r: Result<set<string>, NoeudError>)
      ensures r == if noeudId !in repository.rows then Err(NotFound)
                   else Ok(PathMoves.FindDescendants(repository.rows, repository.rows[noeudId].chemin))
    {
      var noeud := repository.FindById(noeudId);
      if noeud == null { return Err(NotFound); }
      var ids := repository.FindDescendants(noeud.props.chemin);
      r := Ok(ids);
    }
  }
}
