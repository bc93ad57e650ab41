/**
 * The price grid use cases as they are written: load, guard, change the entity, save
 * (src/product/application/use-cases/grille-tarifaire.use-cases.ts,
 * src/product/domain/entities/grille-tarifaire.entity.ts,
 * src/product/infrastructure/persistence/typeorm/orm-repositories.ts). Each method is proved equal to
 * the command of PriceGrids that stands for it.
 */
module PriceGridUseCases {
  import opened Prelude
  import opened PriceGrids

  class GrilleTarifaire {
    const id: string
    var props: Grille

    constructor Reconstitute(id: string, props: Grille)
      ensures this.id == id && this.props == props
    {
      this.id, this.props := id, props;
    }

    /** `validate`, `rejectToDraft`, `publish` and `archive`: false when the transition is refused. */
    method MoveTo(to: Statut) returns (ok: bool)
      modifies this
      ensures ok <==> TransitionAllowed(old(props).statut, to)
      ensures props == if ok then old(props).(statut := to) else old(props)
    {
      ok := TransitionAllowed(props.statut, to);
      if ok { props := props.(statut := to); }
    }
  }

  /** True when it throws OverlappingPricingGridError. */
  method OverlapsWithExisting(rows: Rows, id: string, candidate: Grille, existantes: seq<string>) returns (refused: bool)
    requires forall e :: e in existantes ==> e in rows && rows[e].offre == candidate.offre && rows[e].statut == Publie
    requires forall e :: e in Publiees(rows, candidate.offre, candidate.devise) ==> e in existantes
    ensures refused <==> Overlaps(rows, id, candidate)
  {
    for i := 0 to |existantes|
      invariant forall j | 0 <= j < i && existantes[j] != id && rows[existantes[j]].devise == candidate.devise ::
                  !RangesOverlap(candidate.debut, candidate.fin, rows[existantes[j]].debut, rows[existantes[j]].fin)
    {
      var existante := existantes[i];
      if existante == id { continue; }
      if rows[existante].devise != candidate.devise { continue; }
      if RangesOverlap(candidate.debut, candidate.fin, rows[existante].debut, rows[existante].fin) {
        assert existante in Publiees(rows, candidate.offre, candidate.devise);
        return true;
      }
    }
    refused := false;
  }

  lemma IsTheLatest(rows: Rows, offre: string, v: int)
    requires OfOffre(rows, offre) == {} ==> v == 0
    requires OfOffre(rows, offre) != {} ==> exists id :: id in OfOffre(rows, offre) && rows[id].version == v
    requires forall id :: id in OfOffre(rows, offre) ==> rows[id].version <= v
    ensures v == LatestVersion(rows, offre)
  {
    if OfOffre(rows, offre) != {} {
      var top :| top in rows && rows[top].offre == offre && rows[top].version == LatestVersion(rows, offre);
      assert top in OfOffre(rows, offre);
      var id :| id in OfOffre(rows, offre) && rows[id].version == v;
      assert v in Versions(rows, offre);
    }
  }

  class GrilleTarifaireRepository {
    var rows: Rows

    constructor ()
      ensures rows == map[]
    {
      rows := map[];
    }

    method FindById(id: string) returns (g: GrilleTarifaire?)
      ensures g == null <==> id !in rows
      ensures g != null ==> fresh(g) && g.id == id && g.props == rows[id]
    {
      if id in rows { g := new GrilleTarifaire.Reconstitute(id, rows[id]); } else { g := null; }
    }

    /** In some order. */
    method FindPublieesByOffreEtDevise(offre: string, devise: string) returns (listed: seq<string>)
      ensures Lists(listed, Publiees(rows, offre, devise))
    {
      listed := [];
      var rest := Publiees(rows, offre, devise);
      while rest != {}
        invariant rest <= Publiees(rows, offre, devise)
        invariant Lists(listed, Publiees(rows, offre, devise) - rest)
        decreases rest
      {
        var id :| id in rest;
        listed := listed + [id];
        rest := rest - {id};
      }
    }

    method FindLatestVersion(offre: string) returns (v: int)
      ensures v == LatestVersion(rows, offre)
    {
      v := 0;
      var rest, first := OfOffre(rows, offre), true;
      while rest != {}
        invariant rest <= OfOffre(rows, offre)
        invariant first ==> rest == OfOffre(rows, offre) && v == 0
        invariant !first ==> exists id :: id in OfOffre(rows, offre) && rows[id].version == v
        invariant !first ==> forall id :: id in OfOffre(rows, offre) && id !in rest ==> rows[id].version <= v
        decreases rest
      {
        var id :| id in rest;
        rest := rest - {id};
        if first || rows[id].version > v { v := rows[id].version; }
        first := false;
      }
      IsTheLatest(rows, offre, v);
    }

    method Save(g: GrilleTarifaire)
      modifies this
      ensures rows == old(rows)[g.id := g.props]
    {
      rows := rows[g.id := g.props];
    }
  }

  function Outcome<T>(r: Result<Rows, GrilleError>, value: T): Result<T, GrilleError> {
    match r case Ok(_) => Ok(value) case Err(e) => Err(e)
  }

  datatype ActivePrice = ActivePrice(grilleId: string, version: int, montant: int, devise: string)

  class GrilleTarifaireUseCases {
    const repository: GrilleTarifaireRepository

    constructor (repository: GrilleTarifaireRepository)
      ensures this.repository == repository
    {
      this.repository := repository;
    }

    method Create(c: Creation) returns (r: Result<string, GrilleError>)
      requires c.id !in repository.rows
      modifies repository
      ensures r == Outcome(CreateEffect(old(repository.rows), c), c.id)
      ensures r.Ok? ==> repository.rows == old(repository.rows)[c.id := Grille(c.offre, LatestVersion(old(repository.rows), c.offre) + 1,
                                              c.devise, c.montant.Floor, c.debut, c.fin, Brouillon)]
      ensures repository.rows == Next(old(repository.rows), Command.Create(c))
    {
      hide LatestVersion;
      if !c.offreExists { return Err(OffreNotFound); }
      if !c.certifiee { return Err(UncertifiedCurrency); }
      var derniere := repository.FindLatestVersion(c.offre);
      var grille := NewGrille(c.offre, derniere + 1, c.devise, c.montant, c.debut, c.fin);
      if grille.Err? { return Err(grille.error); }
      var publiees := repository.FindPublieesByOffreEtDevise(c.offre, c.devise);
      var refused := OverlapsWithExisting(repository.rows, c.id, grille.value, publiees);
      if refused { return Err(Overlapping); }
      var entity := new GrilleTarifaire.Reconstitute(c.id, grille.value);
      repository.Save(entity);
      r := Ok(c.id);
    }

    method Publish(id: string) returns (r: Result<(), GrilleError>)
      modifies repository
      ensures r == Outcome(PublishEffect(old(repository.rows), id), ())
      ensures repository.rows == Next(old(repository.rows), Command.Publish(id))
      ensures r.Ok? ==> id in old(repository.rows)
                        && repository.rows == old(repository.rows)[id := old(repository.rows)[id].(statut := Publie)]
    {
      var grille := repository.FindById(id);
      if grille == null { return Err(NotFound); }
      var publiees := repository.FindPublieesByOffreEtDevise(grille.props.offre, grille.props.devise);
      var refused := OverlapsWithExisting(repository.rows, id, grille.props, publiees);
      if refused { return Err(Overlapping); }
      var ok := grille.MoveTo(Publie);
      if !ok { return Err(Transition); }
      repository.Save(grille);
      r := Ok(());
    }

    /** `validate`, `rejectToDraft` and `archive`. */
    method MoveTo(id: string, to: Statut) returns (r: Result<(), GrilleError>)
      modifies repository
      ensures r == Outcome(SetStatut(old(repository.rows), id, to), ())
      ensures r.Ok? ==> id in old(repository.rows)
                        && repository.rows == old(repository.rows)[id := old(repository.rows)[id].(statut := to)]
      ensures r.Err? ==> repository.rows == old(repository.rows)
    {
      var grille := repository.FindById(id);
      if grille == null { return Err(NotFound); }
      var ok := grille.MoveTo(to);
      if !ok { return Err(Transition); }
      repository.Save(grille);
      r := Ok(());
    }

    /** An error means that no published grid is in force; a price is the price of one that is. */
    method ResolveActivePrice(offre: string, devise: string, instant: int) returns (r: Result<ActivePrice, GrilleError>)
      ensures r.Err? ==> r.error == NotFound
      ensures r.Err? <==>
                forall id | id in repository.rows && repository.rows[id].offre == offre
                            && repository.rows[id].devise == devise && repository.rows[id].statut == Publie ::
                  !IsEffectiveAt(repository.rows[id], instant)
      ensures r.Ok? ==>
                && r.value.grilleId in repository.rows
                && var g := repository.rows[r.value.grilleId];
                   && g.offre == offre && g.devise == devise && g.statut == Publie
                   && g.debut <= instant && (g.fin.Some? ==> instant < g.fin.value)
                   && r.value == ActivePrice(r.value.grilleId, g.version, g.montant, devise)
    {
      var listed := repository.FindPublieesByOffreEtDevise(offre, devise);
      assert forall id :: id in listed ==> id in repository.rows;
      for i := 0 to |listed|
        invariant forall j :: 0 <= j < i ==> !IsEffectiveAt(repository.rows[listed[j]], instant)
      {
        assert listed[i] in listed;
        var g := repository.rows[listed[i]];
        if IsEffectiveAt(g, instant) {
          return Ok(ActivePrice(listed[i], g.version, g.montant, g.devise));
        }
      }
      forall id | id in repository.rows && repository.rows[id].offre == offre
                  && repository.rows[id].devise == devise && repository.rows[id].statut == Publie
        ensures !IsEffectiveAt(repository.rows[id], instant)
      {
        assert id in Publiees(repository.rows, offre, devise);
      }
      r := Err(NotFound);
    }
  }
}
