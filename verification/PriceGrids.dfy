/**
 * Dated price grids of an offer, their workflow and the price in force
 * (src/product/domain/entities/grille-tarifaire.entity.ts, src/product/domain/entities/catalog-workflow.ts,
 * src/product/application/use-cases/grille-tarifaire.use-cases.ts).
 */
module PriceGrids {
  import opened Prelude

  datatype Statut = Brouillon | Valide | Publie | Archive

  /** Dates are instants in milliseconds; no end date means in force until further notice. */
  datatype Grille = Grille(
    offre: string,
    version: int,
    devise: string,
    montant: int,
    debut: int,
    fin: Option<int>,
    statut: Statut
  )

  type Rows = map<string, Grille>

  datatype GrilleError =
    | OffreNotFound | UncertifiedCurrency | InvalidMontant | InvalidVersion | InvalidWindow | Overlapping | NotFound | Transition

  const ALLOWED_TRANSITIONS: map<Statut, seq<Statut>> :=
    map[Brouillon := [Valide], Valide := [Publie, Brouillon], Publie := [Archive], Archive := []]

  predicate TransitionAllowed(from: Statut, to: Statut) {
    from in ALLOWED_TRANSITIONS && to in ALLOWED_TRANSITIONS[from]
  }

  // ---------------------------------------------------------------------------------------------- windows

  predicate IsEffectiveAt(g: Grille, instant: int) {
    g.debut <= instant && (g.fin.None? || instant < g.fin.value)
  }

  predicate RangesOverlap(debutA: int, finA: Option<int>, debutB: int, finB: Option<int>) {
    (finB.None? || debutA < finB.value) && (finA.None? || debutB < finA.value)
  }

  predicate ValidWindow(debut: int, fin: Option<int>) {
    fin.Some? ==> fin.value > debut
  }

  /** Two valid windows overlap exactly when some instant lies in both. */
  lemma OverlapIsASharedInstant(a: Grille, b: Grille)
    requires ValidWindow(a.debut, a.fin) && ValidWindow(b.debut, b.fin)
    ensures RangesOverlap(a.debut, a.fin, b.debut, b.fin) <==> exists t :: IsEffectiveAt(a, t) && IsEffectiveAt(b, t)
  {
    var t := if a.debut < b.debut then b.debut else a.debut;
    if RangesOverlap(a.debut, a.fin, b.debut, b.fin) {
      assert IsEffectiveAt(a, t) && IsEffectiveAt(b, t);
    }
  }

  /** A grid is in force from its start on and until its end, which is no longer part of its window. */
  lemma InForceFromStartToEnd(g: Grille)
    requires ValidWindow(g.debut, g.fin)
    ensures IsEffectiveAt(g, g.debut) && !IsEffectiveAt(g, g.debut - 1)
    ensures g.fin.Some? ==> IsEffectiveAt(g, g.fin.value - 1) && !IsEffectiveAt(g, g.fin.value)
    ensures g.fin.None? ==> forall t :: t >= g.debut ==> IsEffectiveAt(g, t)
    ensures forall s, t, u :: s <= t <= u && IsEffectiveAt(g, s) && IsEffectiveAt(g, u) ==> IsEffectiveAt(g, t)
  {
  }

  /** A grid that starts when another ends takes over at once: they do not overlap, and one of them is always in force. */
  lemma SuccessionLeavesNoGap(a: Grille, b: Grille, t: int)
    requires ValidWindow(a.debut, a.fin) && ValidWindow(b.debut, b.fin) && a.fin == Some(b.debut)
    ensures !RangesOverlap(a.debut, a.fin, b.debut, b.fin) && !RangesOverlap(b.debut, b.fin, a.debut, a.fin)
    ensures a.debut <= t && (b.fin.None? || t < b.fin.value) ==> (IsEffectiveAt(a, t) <==> !IsEffectiveAt(b, t))
  {
  }

  // -------------------------------------------------------------------------------- use cases, as values

  /** `findPublieesByOffreEtDevise`. */
  function Publiees(rows: Rows, offre: string, devise: string): set<string> {
    set id | id in rows && rows[id].offre == offre && rows[id].devise == devise && rows[id].statut == Publie
  }

  /** Whether a published grid other than this one overlaps it. */
  predicate Overlaps(rows: Rows, id: string, g: Grille) {
    exists other :: other in Publiees(rows, g.offre, g.devise) && other != id
                    && RangesOverlap(g.debut, g.fin, rows[other].debut, rows[other].fin)
  }

  function Versions(rows: Rows, offre: string): set<int> {
    set id | id in rows && rows[id].offre == offre :: rows[id].version
  }

  function OfOffre(rows: Rows, offre: string): set<string> {
    set id | id in rows && rows[id].offre == offre
  }

  predicate IsLatest(rows: Rows, ids: set<string>, x: string) {
    x in ids && ids <= rows.Keys && forall y :: y in ids ==> rows[y].version <= rows[x].version
  }

  lemma {:induction false} LatestExists(rows: Rows, ids: set<string>)
    requires ids != {} && ids <= rows.Keys
    ensures exists x :: IsLatest(rows, ids, x)
  {
    var z :| z in ids;
    var rest := ids - {z};
    if rest == {} {
      assert ids == {z};
      assert IsLatest(rows, ids, z);
    } else {
      LatestExists(rows, rest);
      var x :| IsLatest(rows, rest, x);
      var m := if rows[z].version > rows[x].version then z else x;
      forall y | y in ids ensures rows[y].version <= rows[m].version {
        if y != z { assert y in rest; }
      }
      assert IsLatest(rows, ids, m);
    }
  }

  /** The version `findLatestVersion` finds, 0 when the offer has no grid. */
  ghost function LatestVersion(rows: Rows, offre: string): (v: int)
    ensures OfOffre(rows, offre) == {} ==> v == 0
    ensures OfOffre(rows, offre) != {} ==> v in Versions(rows, offre)
    ensures forall y :: y in Versions(rows, offre) ==> y <= v
  {
    var ids := OfOffre(rows, offre);
    if ids == {} then
      assert forall id :: id in rows && rows[id].offre == offre ==> id in ids;
      0
    else
      LatestExists(rows, ids);
      var x :| IsLatest(rows, ids, x);
      rows[x].version
  }

  /** `GrilleTarifaire.create`; the amount is a number of the language, an integer or not. */
  function NewGrille(offre: string, version: int, devise: string, montant: real, debut: int, fin: Option<int>)
    : Result<Grille, GrilleError>
  {
    if montant.Floor as real != montant || montant < 0.0 then Err(InvalidMontant)
    else if version < 1 then Err(InvalidVersion)
    else if fin.Some? && fin.value <= debut then Err(InvalidWindow)
    else Ok(Grille(offre, version, devise, montant.Floor, debut, fin, Brouillon))
  }

  /** The offer's and the currency's own repositories answer `offreExists` and `certifiee`; the uuid is new. */
  datatype Creation = Creation(id: string, offre: string, offreExists: bool, devise: string, certifiee: bool, montant: real,
                               debut: int, fin: Option<int>)

  ghost function CreateEffect(rows: Rows, c: Creation): Result<Rows, GrilleError> {
    if !c.offreExists then Err(OffreNotFound)
    else if !c.certifiee then Err(UncertifiedCurrency)
    else match NewGrille(c.offre, LatestVersion(rows, c.offre) + 1, c.devise, c.montant, c.debut, c.fin)
      case Err(e) => Err(e)
      case Ok(g) => if Overlaps(rows, c.id, g) then Err(Overlapping) else Ok(rows[c.id := g])
  }

  function SetStatut(rows: Rows, id: string, to: Statut): Result<Rows, GrilleError> {
    if id !in rows then Err(NotFound)
    else if !TransitionAllowed(rows[id].statut, to) then Err(Transition)
    else Ok(rows[id := rows[id].(statut := to)])
  }

  function PublishEffect(rows: Rows, id: string): Result<Rows, GrilleError> {
    if id !in rows then Err(NotFound)
    else if Overlaps(rows, id, rows[id]) then Err(Overlapping)
    else SetStatut(rows, id, Publie)
  }

  datatype Command =
    | Create(c: Creation) | Validate(id: string) | RejectToDraft(id: string) | Publish(id: string) | ArchiveGrid(id: string)

  ghost function Effect(rows: Rows, c: Command): Result<Rows, GrilleError> {
    match c
    case Create(creation) => CreateEffect(rows, creation)
    case Validate(id) => SetStatut(rows, id, Valide)
    case RejectToDraft(id) => SetStatut(rows, id, Brouillon)
    case Publish(id) => PublishEffect(rows, id)
    case ArchiveGrid(id) => SetStatut(rows, id, Archive)
  }

  ghost function Next(rows: Rows, c: Command): Rows {
    if c.Create? && c.c.id in rows then rows
    else if Effect(rows, c).Ok? then Effect(rows, c).value else rows
  }

  ghost function Run(commands: seq<Command>): Rows {
    if commands == [] then map[]
    else Next(Run(commands[..|commands| - 1]), commands[|commands| - 1])
  }

  // ------------------------------------------------------------------------------------------- invariant

  ghost predicate WellFormed(rows: Rows) {
    forall id :: id in rows ==> rows[id].montant >= 0 && ValidWindow(rows[id].debut, rows[id].fin)
  }

  ghost predicate Unambiguous(rows: Rows) {
    forall id :: id in rows && rows[id].statut == Publie ==> !Overlaps(rows, id, rows[id])
  }

  /** The versions of every offer are 1, 2, ..., n, each borne by one grid. */
  ghost predicate Numbered(rows: Rows) {
    && (forall id :: id in rows ==> 1 <= rows[id].version)
    && (forall id, v :: id in rows && 1 <= v < rows[id].version ==> v in Versions(rows, rows[id].offre))
    && (forall id, other :: id in rows && other in rows && id != other && rows[id].offre == rows[other].offre ==>
          rows[id].version != rows[other].version)
  }

  ghost predicate Inv(rows: Rows) {
    WellFormed(rows) && Unambiguous(rows) && Numbered(rows)
  }

  lemma StatusKeepsNumbered(rows: Rows, id: string, to: Statut)
    requires Numbered(rows) && id in rows
    ensures Numbered(rows[id := rows[id].(statut := to)])
  {
    var rows' := rows[id := rows[id].(statut := to)];
    forall offre ensures Versions(rows', offre) == Versions(rows, offre) {
      forall v | v in Versions(rows, offre) ensures v in Versions(rows', offre) {
        var other :| other in rows && rows[other].offre == offre && rows[other].version == v;
        assert other in rows' && rows'[other].offre == offre && rows'[other].version == v;
      }
      forall v | v in Versions(rows', offre) ensures v in Versions(rows, offre) {
        var other :| other in rows' && rows'[other].offre == offre && rows'[other].version == v;
        assert other in rows && rows[other].offre == offre && rows[other].version == v;
      }
    }
  }

  lemma CreationKeepsNumbered(rows: Rows, id: string, g: Grille)
    requires Numbered(rows) && id !in rows && g.version == LatestVersion(rows, g.offre) + 1
    ensures Numbered(rows[id := g])
  {
    var rows', n := rows[id := g], LatestVersion(rows, g.offre);
    assert forall offre, v :: v in Versions(rows, offre) ==> v in Versions(rows', offre) by {
      forall offre, v | v in Versions(rows, offre) ensures v in Versions(rows', offre) {
        var other :| other in rows && rows[other].offre == offre && rows[other].version == v;
        assert rows'[other] == rows[other];
      }
    }
    if Versions(rows, g.offre) != {} {
      var top :| top in rows && rows[top].offre == g.offre && rows[top].version == n;
      forall v | 1 <= v < g.version ensures v in Versions(rows', g.offre) {
        if v == n { assert n in Versions(rows, g.offre); } else { assert v in Versions(rows, rows[top].offre); }
      }
    }
    forall other | other in rows && rows[other].offre == g.offre ensures rows[other].version < g.version {
      assert rows[other].version in Versions(rows, g.offre);
    }
  }

  /** Only a publication can bring a new overlap, and it checks. */
  lemma StatusKeepsUnambiguous(rows: Rows, id: string, to: Statut)
    requires Unambiguous(rows) && WellFormed(rows) && id in rows && (to == Publie ==> !Overlaps(rows, id, rows[id]))
    ensures Unambiguous(rows[id := rows[id].(statut := to)])
  {
    var rows' := rows[id := rows[id].(statut := to)];
    forall a, b | a in rows' && b in rows' && a != b && rows'[a].statut == Publie
                  && b in Publiees(rows', rows'[a].offre, rows'[a].devise)
      ensures !RangesOverlap(rows'[a].debut, rows'[a].fin, rows'[b].debut, rows'[b].fin)
    {
      if a == id {
        assert b in Publiees(rows, rows[id].offre, rows[id].devise);
      } else if b == id {
        assert a in Publiees(rows, rows[id].offre, rows[id].devise);
      } else {
        assert b in Publiees(rows, rows[a].offre, rows[a].devise);
      }
    }
  }

  lemma CreationKeepsUnambiguous(rows: Rows, id: string, g: Grille)
    requires Unambiguous(rows) && id !in rows && g.statut == Brouillon
    ensures Unambiguous(rows[id := g])
  {
    var rows' := rows[id := g];
    forall a, b | a in rows && b in Publiees(rows', rows[a].offre, rows[a].devise)
      ensures b in Publiees(rows, rows[a].offre, rows[a].devise)
    {
    }
  }

  lemma NextKeepsInv(rows: Rows, c: Command)
    requires Inv(rows)
    ensures Inv(Next(rows, c))
  {
    match c {
      case Create(creation) =>
        if creation.id !in rows && CreateEffect(rows, creation).Ok? { CreationKeepsInv(rows, creation); }
      case Validate(id) => StatusKeepsInv(rows, id, Valide);
      case RejectToDraft(id) => StatusKeepsInv(rows, id, Brouillon);
      case Publish(id) =>
        if PublishEffect(rows, id).Ok? { StatusKeepsInv(rows, id, Publie); }
      case ArchiveGrid(id) => StatusKeepsInv(rows, id, Archive);
    }
  }

  lemma CreationKeepsInv(rows: Rows, c: Creation)
    requires Inv(rows) && c.id !in rows && CreateEffect(rows, c).Ok?
    ensures Inv(CreateEffect(rows, c).value)
  {
    hide Numbered;
    hide Unambiguous;
    hide Overlaps;
    hide LatestVersion;
    var g := CreateEffect(rows, c).value[c.id];
    CreationKeepsNumbered(rows, c.id, g);
    CreationKeepsUnambiguous(rows, c.id, g);
  }

  lemma StatusKeepsInv(rows: Rows, id: string, to: Statut)
    requires Inv(rows) && (to == Publie && id in rows ==> !Overlaps(rows, id, rows[id]))
    ensures SetStatut(rows, id, to).Ok? ==> Inv(SetStatut(rows, id, to).value)
  {
    hide Numbered;
    hide Unambiguous;
    hide Overlaps;
    hide TransitionAllowed;
    if id in rows {
      StatusKeepsNumbered(rows, id, to);
      StatusKeepsUnambiguous(rows, id, to);
    }
  }

  lemma {:induction false} RunKeepsInv(commands: seq<Command>)
    ensures Inv(Run(commands))
  {
    if commands != [] {
      RunKeepsInv(commands[..|commands| - 1]);
      NextKeepsInv(Run(commands[..|commands| - 1]), commands[|commands| - 1]);
    }
  }

  // ----------------------------------------------------------------------------------- what it gives

  /** For an offer, a currency and an instant, at most one published grid is in force. */
  lemma AtMostOnePrice(commands: seq<Command>, a: string, b: string, offre: string, devise: string, instant: int)
    requires var rows := Run(commands);
             a in Publiees(rows, offre, devise) && b in Publiees(rows, offre, devise)
             && IsEffectiveAt(rows[a], instant) && IsEffectiveAt(rows[b], instant)
    ensures a == b
  {
    var rows := Run(commands);
    RunKeepsInv(commands);
    OverlapIsASharedInstant(rows[a], rows[b]);
  }

  /** `find`: the first of the listed grids that is in force. */
  function FirstEffective(rows: Rows, listed: seq<string>, instant: int): (r: Option<string>)
    requires forall id :: id in listed ==> id in rows
    ensures r.None? ==> forall id :: id in listed ==> !IsEffectiveAt(rows[id], instant)
    ensures r.Some? ==> r.value in listed && r.value in rows && IsEffectiveAt(rows[r.value], instant)
  {
    if listed == [] then None
    else if IsEffectiveAt(rows[listed[0]], instant) then Some(listed[0])
    else FirstEffective(rows, listed[1..], instant)
  }

  ghost predicate Lists(listed: seq<string>, ids: set<string>) {
    forall id :: id in listed <==> id in ids
  }

  /** The price resolved does not depend on the order in which the database returns the published grids. */
  lemma PriceIgnoresRowOrder(commands: seq<Command>, offre: string, devise: string, instant: int,
                             one: seq<string>, two: seq<string>)
    requires Lists(one, Publiees(Run(commands), offre, devise)) && Lists(two, Publiees(Run(commands), offre, devise))
    ensures FirstEffective(Run(commands), one, instant) == FirstEffective(Run(commands), two, instant)
  {
    var rows := Run(commands);
    var a, b := FirstEffective(rows, one, instant), FirstEffective(rows, two, instant);
    if a.Some? && b.Some? {
      AtMostOnePrice(commands, a.value, b.value, offre, devise, instant);
    }
    if a.Some? { assert a.value in two; }
    if b.Some? { assert b.value in one; }
  }

  /** A validated grid can be published exactly when no other published grid shares an instant with it. */
  lemma PublishableIff(commands: seq<Command>, id: string)
    requires id in Run(commands) && Run(commands)[id].statut == Valide
    ensures var rows := Run(commands);
            PublishEffect(rows, id).Ok? <==>
              forall other, t | other in Publiees(rows, rows[id].offre, rows[id].devise) && other != id ::
                IsEffectiveAt(rows[other], t) ==> !IsEffectiveAt(rows[id], t)
  {
    var rows := Run(commands);
    RunKeepsInv(commands);
    assert TransitionAllowed(Valide, Publie);
    forall other | other in Publiees(rows, rows[id].offre, rows[id].devise)
      ensures RangesOverlap(rows[id].debut, rows[id].fin, rows[other].debut, rows[other].fin) <==>
              exists t :: IsEffectiveAt(rows[id], t) && IsEffectiveAt(rows[other], t)
    {
      OverlapIsASharedInstant(rows[id], rows[other]);
    }
    hide Run;
    hide RangesOverlap;
    hide Unambiguous;
    hide Numbered;
  }

  lemma NoGap(rows: Rows, offre: string)
    requires Numbered(rows)
    ensures LatestVersion(rows, offre) >= 0 && Versions(rows, offre) == UpTo(LatestVersion(rows, offre))
  {
    var top := LatestVersion(rows, offre);
    if OfOffre(rows, offre) != {} {
      var id :| id in rows && rows[id].offre == offre && rows[id].version == top;
      forall v | 1 <= v <= top ensures v in Versions(rows, offre) {
        if v < top { assert v in Versions(rows, rows[id].offre); }
      }
    } else {
      forall v ensures v !in Versions(rows, offre) {
      }
    }
  }

  /** The grids of an offer bear the versions 1 to n, each once, n being their number. */
  lemma VersionsAreOneToN(commands: seq<Command>, offre: string)
    ensures var rows := Run(commands); var n := |OfOffre(rows, offre)|;
            && (forall v :: v in Versions(rows, offre) <==> 1 <= v <= n)
            && LatestVersion(rows, offre) == n
            && (forall a, b | a in rows && b in rows && rows[a].offre == offre && rows[b].offre == offre ::
                  rows[a].version == rows[b].version ==> a == b)
  {
    var rows := Run(commands);
    RunKeepsInv(commands);
    hide Run;
    NoGap(rows, offre);
    var ids := OfOffre(rows, offre);
    assert Versions(rows, offre) == set id | id in ids :: rows[id].version;
    hide LatestVersion;
    hide Unambiguous;
    SameSize(rows, ids);
  }

  function UpTo(n: nat): (r: set<int>)
    ensures |r| == n && forall v :: v in r <==> 1 <= v <= n
  {
    if n == 0 then {} else UpTo(n - 1) + {n}
  }

  /** Distinct grids have distinct versions, so there are as many of one as of the other. */
  lemma {:induction false} SameSize(rows: Rows, ids: set<string>)
    requires ids <= rows.Keys
    requires forall a, b :: a in ids && b in ids && a != b ==> rows[a].version != rows[b].version
    ensures |set id | id in ids :: rows[id].version| == |ids|
    decreases ids
  {
    if ids != {} {
      var x :| x in ids;
      SameSize(rows, ids - {x});
      assert (set id | id in ids :: rows[id].version) == (set id | id in ids - {x} :: rows[id].version) + {rows[x].version};
    }
  }

  function AsReal(n: int): real {
    n as real
  }

  ghost predicate Integral(x: real) {
    exists n: int :: AsReal(n) == x
  }

  /** The table has one more grid, a draft with the next version and what the caller gave. */
  ghost predicate IsDraftOf(rows: Rows, rows': Rows, c: Creation) {
    && c.id in rows' && AsReal(rows'[c.id].montant) == c.montant
    && rows' == rows[c.id := Grille(c.offre, |OfOffre(rows, c.offre)| + 1, c.devise, rows'[c.id].montant, c.debut, c.fin, Brouillon)]
  }

  /**
   * A grid is accepted exactly for an integral, non-negative amount, a window with an end after its start and
   * no published grid over that window. It is then a draft with the next version and what the caller gave.
   */
  lemma CreationOutcome(commands: seq<Command>, c: Creation)
    ensures var rows := Run(commands); var r := CreateEffect(rows, c);
            && (r.Ok? <==>
                  && c.offreExists && c.certifiee && Integral(c.montant) && c.montant >= 0.0
                  && (c.fin.Some? ==> c.fin.value > c.debut)
                  && !exists other :: other != c.id && InForceTogether(rows, other, c.offre, c.devise, c.debut, c.fin))
            && (r.Ok? ==> IsDraftOf(rows, r.value, c))
            && (!c.offreExists ==> r == Err(OffreNotFound))
            && (c.offreExists && !c.certifiee ==> r == Err(UncertifiedCurrency))
            && (c.offreExists && c.certifiee && !(Integral(c.montant) && c.montant >= 0.0) ==> r == Err(InvalidMontant))
  {
    var rows := Run(commands);
    VersionsAreOneToN(commands, c.offre);
    RunKeepsInv(commands);
    hide Run;
    if c.montant.Floor as real == c.montant {
      assert AsReal(c.montant.Floor) == c.montant;
    }
    var g := Grille(c.offre, LatestVersion(rows, c.offre) + 1, c.devise, c.montant.Floor, c.debut, c.fin, Brouillon);
    if ValidWindow(c.debut, c.fin) { OverlapsIff(rows, c.id, g); }
    hide LatestVersion;
    hide Overlaps;
    hide Unambiguous;
    hide Numbered;
    hide InForceTogether;
  }

  /** A published grid of the offer and the currency is in force at some instant of a window. */
  ghost predicate InForceTogether(rows: Rows, other: string, offre: string, devise: string, debut: int, fin: Option<int>) {
    && other in rows && rows[other].offre == offre && rows[other].devise == devise && rows[other].statut == Publie
    && exists t: int :: debut <= t && (fin.Some? ==> t < fin.value) && IsEffectiveAt(rows[other], t)
  }

  lemma OverlapsIff(rows: Rows, id: string, g: Grille)
    requires WellFormed(rows) && ValidWindow(g.debut, g.fin)
    ensures Overlaps(rows, id, g) <==> exists other :: other != id && InForceTogether(rows, other, g.offre, g.devise, g.debut, g.fin)
  {
    forall other | other in Publiees(rows, g.offre, g.devise)
      ensures RangesOverlap(g.debut, g.fin, rows[other].debut, rows[other].fin) <==>
              InForceTogether(rows, other, g.offre, g.devise, g.debut, g.fin)
    {
      OverlapIsASharedInstant(g, rows[other]);
    }
    forall other | InForceTogether(rows, other, g.offre, g.devise, g.debut, g.fin) ensures other in Publiees(rows, g.offre, g.devise) {
    }
    hide InForceTogether;
    hide RangesOverlap;
    hide WellFormed;
  }

  /** The table is the same but for one grid, and that grid but for its status. */
  ghost predicate StatusBecomes(rows: Rows, rows': Rows, id: string, to: Statut) {
    && id in rows && rows'.Keys == rows.Keys && (forall other :: other in rows && other != id ==> rows'[other] == rows[other])
    && rows'[id] == Grille(rows[id].offre, rows[id].version, rows[id].devise, rows[id].montant, rows[id].debut, rows[id].fin, to)
  }

  /** Validation, rejection and archiving: from which status they are accepted, and which status they give. */
  lemma WorkflowOutcome(rows: Rows, id: string)
    ensures var r := Effect(rows, Validate(id));
            && (r.Ok? <==> id in rows && rows[id].statut == Brouillon) && (r.Ok? ==> StatusBecomes(rows, r.value, id, Valide))
            && (r.Err? ==> r.error == if id in rows then Transition else NotFound)
    ensures var r := Effect(rows, RejectToDraft(id));
            && (r.Ok? <==> id in rows && rows[id].statut == Valide) && (r.Ok? ==> StatusBecomes(rows, r.value, id, Brouillon))
            && (r.Err? ==> r.error == if id in rows then Transition else NotFound)
    ensures var r := Effect(rows, ArchiveGrid(id));
            && (r.Ok? <==> id in rows && rows[id].statut == Publie) && (r.Ok? ==> StatusBecomes(rows, r.value, id, Archive))
            && (r.Err? ==> r.error == if id in rows then Transition else NotFound)
  {
  }

  /** An accepted publication publishes the grid and changes nothing else; the overlap is refused before the status. */
  lemma PublicationOutcome(commands: seq<Command>, id: string)
    ensures var rows := Run(commands); var r := Effect(rows, Publish(id));
            && (r.Ok? ==> id in rows && rows[id].statut == Valide && StatusBecomes(rows, r.value, id, Publie))
            && (id !in rows <==> r == Err(NotFound))
            && (id in rows ==>
                  var g := rows[id];
                  var overlap := exists other :: other != id && InForceTogether(rows, other, g.offre, g.devise, g.debut, g.fin);
                  && (r == Err(Overlapping) <==> overlap)
                  && (r == Err(Transition) <==> !overlap && g.statut != Valide))
  {
    var rows := Run(commands);
    RunKeepsInv(commands);
    hide Run;
    if id in rows { OverlapsIff(rows, id, rows[id]); }
    hide Overlaps;
    hide Unambiguous;
    hide Numbered;
    hide InForceTogether;
  }

  /** A listing of the published grids of an offer in a currency, in any order. */
  ghost predicate ListsPublished(rows: Rows, listed: seq<string>, offre: string, devise: string) {
    forall id :: id in listed <==>
      id in rows && rows[id].offre == offre && rows[id].devise == devise && rows[id].statut == Publie
  }

  lemma AfterPublication(commands: seq<Command>, id: string)
    requires Effect(Run(commands), Publish(id)).Ok?
    ensures StatusBecomes(Run(commands), Run(commands + [Publish(id)]), id, Publie)
  {
    var after := commands + [Publish(id)];
    assert after[..|after| - 1] == commands;
    PublicationOutcome(commands, id);
    hide PublishEffect;
  }

  /** From an accepted publication on, the grid is the one found at every instant of its window. */
  lemma PublishedPriceIsFound(commands: seq<Command>, id: string, instant: int, listed: seq<string>)
    requires Effect(Run(commands), Publish(id)).Ok?
    ensures id in Run(commands)
    ensures var g, rows' := Run(commands)[id], Run(commands + [Publish(id)]);
            ListsPublished(rows', listed, g.offre, g.devise) && g.debut <= instant && (g.fin.Some? ==> instant < g.fin.value) ==>
            FirstEffective(rows', listed, instant) == Some(id)
  {
    AfterPublication(commands, id);
    var g, after := Run(commands)[id], commands + [Publish(id)];
    var rows' := Run(after);
    hide Run;
    hide Effect;
    if ListsPublished(rows', listed, g.offre, g.devise) && g.debut <= instant && (g.fin.Some? ==> instant < g.fin.value) {
      assert id in listed && IsEffectiveAt(rows'[id], instant);
      var found := FirstEffective(rows', listed, instant);
      AtMostOnePrice(after, found.value, id, g.offre, g.devise, instant);
    }
  }

  /** A validated grid can go back to draft and be validated again; nothing else goes back. */
  lemma OnlyRejectionGoesBack(rows: Rows, id: string)
    requires id in rows
    ensures SetStatut(rows, id, Brouillon).Ok? <==> rows[id].statut == Valide
    ensures SetStatut(rows, id, Valide).Ok? <==> rows[id].statut == Brouillon
    ensures SetStatut(rows, id, Archive).Ok? <==> rows[id].statut == Publie
  {
  }

  /** Grids are never removed, and nothing but their status ever changes. */
  lemma OnlyStatusChanges(rows: Rows, c: Command, id: string)
    requires id in rows
    ensures id in Next(rows, c) && Next(rows, c)[id] == rows[id].(statut := Next(rows, c)[id].statut)
    ensures Next(rows, c)[id].statut == rows[id].statut || TransitionAllowed(rows[id].statut, Next(rows, c)[id].statut)
    ensures rows[id].statut == Archive ==> Next(rows, c)[id] == rows[id]
    ensures rows[id].statut == Publie ==> Next(rows, c)[id].statut in {Publie, Archive}
    ensures Next(rows, c)[id].statut == Publie ==> rows[id].statut in {Valide, Publie}
  {
  }
}
