/**
 * The trees of elements inside versioned corpora
 * (src/referential-engine/domain/entities/corpus-element.entity.ts,
 * src/referential-engine/application/use-cases/corpus-element.use-cases.ts).
 */
module CorpusElements {
  import opened Prelude
  import opened ParentGraph

  datatype Element = Element(corpus: string, parentId: Option<string>)
  type Rows = map<string, Element>

  /** Identifiers are `uuid` columns: the database refuses an empty parent (`Refused`). */
  datatype CorpusError = CorpusNotFound | NoeudNotFound | ElementNotFound | ParentNotInSameCorpus | CircularParent | Refused

  function ParentsOf(rows: Rows): Parents {
    map id | id in rows :: rows[id].parentId
  }

  /** The rows of one corpus, as `findByCorpusVersionne` reads them. */
  function CorpusParents(rows: Rows, corpus: string): Parents {
    map id | id in rows && rows[id].corpus == corpus :: rows[id].parentId
  }

  // -------------------------------------------------------------------------------- use cases, as values

  predicate SameCorpus(rows: Rows, parentId: string, corpus: string) {
    parentId in rows && rows[parentId].corpus == corpus
  }

  /** The uuid is new; whether the corpus and the node exist is asked of their own repositories. */
  function AttachEffect(rows: Rows, id: string, corpus: string, corpusExists: bool, noeudExists: bool, parentId: Option<string>)
    : Result<Rows, CorpusError>
  {
    if !corpusExists then Err(CorpusNotFound)
    else if !noeudExists then Err(NoeudNotFound)
    else if parentId == Some("") then Err(Refused)
    else if parentId.Some? && !SameCorpus(rows, parentId.value, corpus) then Err(ParentNotInSameCorpus)
    else Ok(rows[id := Element(corpus, parentId)])
  }

  ghost function ReattachEffect(rows: Rows, id: string, parentId: Option<string>): Result<Rows, CorpusError> {
    if id !in rows then Err(ElementNotFound)
    else if parentId == Some("") then Err(Refused)
    else if parentId.Some? && !SameCorpus(rows, parentId.value, rows[id].corpus) then Err(ParentNotInSameCorpus)
    else if parentId.Some? && Reaches(CorpusParents(rows, rows[id].corpus), parentId.value, id) then Err(CircularParent)
    else Ok(rows[id := rows[id].(parentId := parentId)])
  }

  datatype Command =
    | Attach(id: string, corpus: string, corpusExists: bool, noeudExists: bool, parentId: Option<string>)
    | Reattach(id: string, parentId: Option<string>)

  ghost function Next(rows: Rows, c: Command): Rows {
    var r := match c
      case Attach(id, corpus, corpusExists, noeudExists, parentId) =>
        if id == "" || id in rows then Ok(rows) else AttachEffect(rows, id, corpus, corpusExists, noeudExists, parentId)
      case Reattach(id, parentId) => ReattachEffect(rows, id, parentId);
    if r.Ok? then r.value else rows
  }

  ghost function Run(commands: seq<Command>): Rows {
    if commands == [] then map[]
    else Next(Run(commands[..|commands| - 1]), commands[|commands| - 1])
  }

  // ------------------------------------------------------------------------------------------- the trees

  ghost predicate SameCorpusParents(rows: Rows) {
    forall id :: id in rows && rows[id].parentId.Some? ==> SameCorpus(rows, rows[id].parentId.value, rows[id].corpus)
  }

  ghost predicate Trees(rows: Rows) {
    SameCorpusParents(rows) && Acyclic(ParentsOf(rows)) && "" !in rows
  }

  /** A climb stays in its corpus, so the rows of the corpus are all it needs. */
  lemma {:induction false} ClimbStaysInCorpus(rows: Rows, x: string, k: nat)
    requires SameCorpusParents(rows) && x in rows
    ensures var at := Climb(ParentsOf(rows), Some(x), k);
            && Climb(CorpusParents(rows, rows[x].corpus), Some(x), k) == at
            && (at.Some? ==> SameCorpus(rows, at.value, rows[x].corpus))
  {
    if k > 0 {
      ClimbStaysInCorpus(rows, x, k - 1);
    }
  }

  /** The walk over the rows of one corpus answers as a walk over the whole table would. */
  lemma OneCorpusIsEnough(rows: Rows, x: string, y: string)
    requires SameCorpusParents(rows) && x in rows
    ensures Reaches(CorpusParents(rows, rows[x].corpus), x, y) <==> Reaches(ParentsOf(rows), x, y)
  {
    forall k: nat ensures Climb(CorpusParents(rows, rows[x].corpus), Some(x), k) == Climb(ParentsOf(rows), Some(x), k) {
      ClimbStaysInCorpus(rows, x, k);
    }
  }

  lemma NextKeepsTrees(rows: Rows, c: Command)
    requires Trees(rows)
    ensures Trees(Next(rows, c))
  {
    var p, rows' := ParentsOf(rows), Next(rows, c);
    match c {
      case Attach(id, corpus, _, _, parentId) =>
        if rows' != rows {
          assert ParentsOf(rows') == p[id := parentId];
          FreshNodeKeepsAcyclic(p, id, parentId);
        }
      case Reattach(id, parentId) =>
        if rows' != rows {
          assert ParentsOf(rows') == p[id := parentId];
          if parentId.Some? { OneCorpusIsEnough(rows, parentId.value, id); }
          MoveKeepsAcyclic(p, id, parentId);
        }
    }
  }

  lemma {:induction false} AlwaysTrees(commands: seq<Command>)
    ensures Trees(Run(commands))
  {
    if commands == [] {
      forall x: string, k: nat | k >= 1 ensures Climb(map[], Some(x), k) != Some(x) {
        NothingAboveNothing(map[], Some(x), 1, k);
      }
      assert ParentsOf(map[]) == map[];
    } else {
      AlwaysTrees(commands[..|commands| - 1]);
      NextKeepsTrees(Run(commands[..|commands| - 1]), commands[|commands| - 1]);
    }
  }

  /** Inside one corpus a reattachment is refused exactly when it would close a cycle. */
  lemma RefusedIffCyclic(commands: seq<Command>, id: string, parent: string)
    requires var rows := Run(commands); id in rows && SameCorpus(rows, parent, rows[id].corpus)
    ensures var rows := Run(commands);
            ReattachEffect(rows, id, Some(parent)) ==
              if Acyclic(ParentsOf(rows)[id := Some(parent)]) then Ok(rows[id := rows[id].(parentId := Some(parent))])
              else Err(CircularParent)
  {
    var rows := Run(commands);
    AlwaysTrees(commands);
    OneCorpusIsEnough(rows, parent, id);
    if Reaches(ParentsOf(rows), parent, id) {
      MoveBelowItselfMakesACycle(ParentsOf(rows), id, parent);
    } else {
      MoveKeepsAcyclic(ParentsOf(rows), id, Some(parent));
    }
  }

  /** An element is attached exactly to an existing corpus and node, under no parent or one of the same corpus. */
  lemma AttachmentOutcome(commands: seq<Command>, id: string, corpus: string, corpusExists: bool, noeudExists: bool,
                          parentId: Option<string>)
    requires id != "" && id !in Run(commands)
    ensures var rows := Run(commands); var r := AttachEffect(rows, id, corpus, corpusExists, noeudExists, parentId);
            var placed := parentId.None? || (parentId.value in rows && rows[parentId.value].corpus == corpus);
            && (r.Ok? <==> corpusExists && noeudExists && placed)
            && Next(rows, Attach(id, corpus, corpusExists, noeudExists, parentId)) ==
                 (if corpusExists && noeudExists && placed then rows[id := Element(corpus, parentId)] else rows)
            && (!corpusExists ==> r == Err(CorpusNotFound)) && (corpusExists && !noeudExists ==> r == Err(NoeudNotFound))
            && (corpusExists && noeudExists && !placed ==> r == Err(if parentId == Some("") then Refused else ParentNotInSameCorpus))
  {
    AlwaysTrees(commands);
    hide Run;
    hide Acyclic;
  }

  /** A reattachment is accepted exactly inside the corpus and without a cycle; it changes the parent of the element alone. */
  lemma ReattachmentOutcome(commands: seq<Command>, id: string, parentId: Option<string>)
    ensures var rows := Run(commands); var r := ReattachEffect(rows, id, parentId);
            var accepted := id in rows && (parentId.None? || (parentId.value in rows && rows[parentId.value].corpus == rows[id].corpus
                                                              && Acyclic(ParentsOf(rows)[id := parentId])));
            && (r.Ok? <==> accepted)
            && Next(rows, Reattach(id, parentId)) == (if accepted then rows[id := Element(rows[id].corpus, parentId)] else rows)
            && (id !in rows ==> r == Err(ElementNotFound))
            && (id in rows && parentId == Some("") ==> r == Err(Refused))
  {
    AlwaysTrees(commands);
    if id in Run(commands) && parentId.Some? && SameCorpus(Run(commands), parentId.value, Run(commands)[id].corpus) {
      RefusedIffCyclic(commands, id, parentId.value);
    }
    hide Run;
    hide Acyclic;
    hide Reaches;
  }

  /** In every reachable state the elements of a corpus are ordered by its own rows alone. */
  lemma OneCorpusIsAlwaysEnough(commands: seq<Command>, x: string, y: string)
    requires x in Run(commands)
    ensures var rows := Run(commands);
            && (Reaches(CorpusParents(rows, rows[x].corpus), x, y) <==> Reaches(ParentsOf(rows), x, y))
            && (Reaches(ParentsOf(rows), x, y) ==> y in rows && rows[y].corpus == rows[x].corpus)
  {
    var rows := Run(commands);
    AlwaysTrees(commands);
    OneCorpusIsEnough(rows, x, y);
    if Reaches(ParentsOf(rows), x, y) {
      var k: nat :| Climb(ParentsOf(rows), Some(x), k) == Some(y);
      ClimbStaysInCorpus(rows, x, k);
    }
  }

  // ------------------------------------------------------------------------------------ as it is written

  /** One element of the flat list given to the cycle test. */
  datatype Plat = Plat(id: string, parentId: Option<string>)

  /** `new Map(...)`: the last entry of an identifier wins. */
  function Index(elements: seq<Plat>): Parents {
    if elements == [] then map[]
    else Index(elements[..|elements| - 1])[elements[|elements| - 1].id := elements[|elements| - 1].parentId]
  }

  /** On any list, even one with cycles and missing parents: it ends, and tells whether the element is met. */
  method WouldCreateCycleInCorpus(elements: seq<Plat>, elementId: string, candidateParentId: string) returns (r: bool)
    ensures r <==> Reaches(Index(elements), candidateParentId, elementId)
  {
    var parentIndex: Parents := map[];
    for i := 0 to |elements|
      invariant parentIndex == Index(elements[..i])
    {
      assert elements[..i + 1][..i] == elements[..i];
      parentIndex := parentIndex[elements[i].id := elements[i].parentId];
    }
    assert elements[..|elements|] == elements;
    var curseur := Some(candidateParentId);
    var dejaVus: set<string> := {};
    ghost var k: nat := 0;
    while curseur != None
      invariant Walked(parentIndex, candidateParentId, curseur, dejaVus, k)
      invariant elementId !in dejaVus
      decreases Remaining(parentIndex, curseur, dejaVus)
    {
      if curseur.value == elementId { return true; }
      if curseur.value in dejaVus {
        WalkEnds(parentIndex, candidateParentId, curseur, dejaVus, k, elementId);
        return false;
      }
      WalkOn(parentIndex, candidateParentId, curseur.value, dejaVus, k);
      dejaVus := dejaVus + {curseur.value};
      curseur := if curseur.value in parentIndex then parentIndex[curseur.value] else None;
      k := k + 1;
    }
    WalkEnds(parentIndex, candidateParentId, curseur, dejaVus, k, elementId);
    r := false;
  }

  class CorpusElement {
    const id: string
    const corpusVersionneId: string
    var parentId: Option<string>

    constructor (id: string, corpus: string, parentId: Option<string>)
      ensures this.id == id && corpusVersionneId == corpus && this.parentId == parentId
    {
      this.id, corpusVersionneId, this.parentId := id, corpus, parentId;
    }

    method ReattachToParent(parentId: Option<string>)
      modifies this
      ensures this.parentId == parentId
    {
      this.parentId := parentId;
    }
  }

  class CorpusElementRepository {
    var rows: Rows

    constructor ()
      ensures rows == map[]
    {
      rows := map[];
    }

    method FindById(id: string) returns (e: CorpusElement?)
      ensures e == null <==> id !in rows
      ensures e != null ==> fresh(e) && e.id == id && Element(e.corpusVersionneId, e.parentId) == rows[id]
    {
      if id in rows { e := new CorpusElement(id, rows[id].corpus, rows[id].parentId); } else { e := null; }
    }

    /** In some order. */
    method FindByCorpusVersionne(corpus: string) returns (elements: seq<Plat>)
      ensures Index(elements) == CorpusParents(rows, corpus)
    {
      elements := [];
      var rest := set id | id in rows && rows[id].corpus == corpus;
      while rest != {}
        invariant rest <= CorpusParents(rows, corpus).Keys
        invariant Index(elements) == CorpusParents(rows, corpus) - rest
        decreases rest
      {
        var id :| id in rest;
        ghost var before := elements;
        elements := elements + [Plat(id, rows[id].parentId)];
        assert elements[..|before|] == before;
        rest := rest - {id};
      }
    }

    method Save(e: CorpusElement)
      modifies this
      ensures rows == old(rows)[e.id := Element(e.corpusVersionneId, e.parentId)]
    {
      rows := rows[e.id := Element(e.corpusVersionneId, e.parentId)];
    }
  }

  class CorpusElementUseCases {
    const repository: CorpusElementRepository

    constructor (repository: CorpusElementRepository)
      ensures this.repository == repository
    {
      this.repository := repository;
    }

    method Attach(id: string, corpus: string, corpusExists: bool, noeudExists: bool, parentId: Option<string>)
      returns (r: Result<string, CorpusError>)
      requires id != "" && id !in repository.rows
      modifies repository
      ensures r == match AttachEffect(old(repository.rows), id, corpus, corpusExists, noeudExists, parentId)
                   case Ok(_) => Ok(id) case Err(e) => Err(e)
      ensures repository.rows == Next(old(repository.rows), Command.Attach(id, corpus, corpusExists, noeudExists, parentId))
    {
      if !corpusExists { return Err(CorpusNotFound); }
      if !noeudExists { return Err(NoeudNotFound); }
      if parentId == Some("") { return Err(Refused); }
      if parentId.Some? {
        var parent := repository.FindById(parentId.value);
        if parent == null || parent.corpusVersionneId != corpus { return Err(ParentNotInSameCorpus); }
      }
      var element := new CorpusElement(id, corpus, parentId);
      repository.Save(element);
      r := Ok(id);
    }

    method Reattach(id: string, nouveauParentId: Option<string>) returns (r: Result<(), CorpusError>)
      modifies repository
      ensures r == match ReattachEffect(old(repository.rows), id, nouveauParentId) case Ok(_) => Ok(()) case Err(e) => Err(e)
      ensures repository.rows == Next(old(repository.rows), Command.Reattach(id, nouveauParentId))
    {
      var element := repository.FindById(id);
      if element == null { return Err(ElementNotFound); }
      if nouveauParentId == Some("") { return Err(Refused); }
      if nouveauParentId.Some? {
        var nouveauParent := repository.FindById(nouveauParentId.value);
        if nouveauParent == null || nouveauParent.corpusVersionneId != element.corpusVersionneId {
          return Err(ParentNotInSameCorpus);
        }
        var elementsPlats := repository.FindByCorpusVersionne(element.corpusVersionneId);
        var cycle := WouldCreateCycleInCorpus(elementsPlats, id, nouveauParentId.value);
        if cycle { return Err(CircularParent); }
      }
      element.ReattachToParent(nouveauParentId);
      repository.Save(element);
      r := Ok(());
    }
  }
}
