/**
 * Refresh-token families: a login opens a family, each refresh consumes its token and mints the next, a
 * replayed token revokes the family (src/identity/application/use-cases/refresh-token.use-case.ts,
 * src/identity/application/use-cases/authenticate-user.use-case.ts,
 * src/identity/domain/entities/rbac-and-tokens.entity.ts,
 * src/identity/infrastructure/persistence/typeorm/orm-repositories.ts). A request runs in one transaction,
 * whose writes are kept or undone as a whole.
 */
module RefreshTokens {
  import opened Prelude

  datatype Token = Token(
    gsgId: string,
    tokenHash: string,
    familyId: string,
    expireLe: int,
    consommeLe: Option<int>,
    revoqueLe: Option<int>
  )

  type Rows = map<string, Token>

  const REFRESH_TOKEN_TTL_MS := 30 * 24 * 60 * 60 * 1000

  datatype TokenError = InvalidCredentials | Revoked | AlreadyUsed | Expired

  // ------------------------------------------------------------------------------- requests, as values

  /** `assertValidAndConsume`, in the order of its tests. */
  function Consume(k: Token, now: int): Result<Token, TokenError> {
    if k.revoqueLe.Some? then Err(Revoked)
    else if k.consommeLe.Some? then Err(AlreadyUsed)
    else if k.expireLe <= now then Err(Expired)
    else Ok(k.(consommeLe := Some(now)))
  }

  function FamilyRevoked(rows: Rows, family: string, now: int): Rows {
    map id | id in rows :: if rows[id].familyId == family then rows[id].(revoqueLe := Some(now)) else rows[id]
  }

  function Issue(gsgId: string, hash: string, family: string, now: int): Token {
    Token(gsgId, hash, family, now + REFRESH_TOKEN_TTL_MS, None, None)
  }

  /**
   * `hash` is the hash of the token presented; `proceeds` is false when the user is unknown or may not
   * authenticate, or when anything else fails before the successor is saved. The successor's uuid is new.
   */
  datatype Refresh = Refresh(id: string, hash: string, now: int, proceeds: bool, successor: string, successorHash: string)

  datatype Attempt = Attempt(rows: Rows, result: Result<string, TokenError>)

  function RefreshEffect(rows: Rows, r: Refresh): Attempt {
    if r.id !in rows || rows[r.id].tokenHash != r.hash then Attempt(rows, Err(InvalidCredentials))
    else match Consume(rows[r.id], r.now)
      case Err(AlreadyUsed) => Attempt(FamilyRevoked(rows, rows[r.id].familyId, r.now), Err(AlreadyUsed))
      case Err(e) => Attempt(rows, Err(e))
      case Ok(consumed) =>
        var rows1 := rows[r.id := consumed];
        if !r.proceeds then Attempt(rows1, Err(InvalidCredentials))
        else Attempt(rows1[r.successor := Issue(consumed.gsgId, r.successorHash, consumed.familyId, r.now)], Ok(r.successor))
  }

  /** A consumption that was kept, and the token minted by it, if any. */
  datatype Use = Use(token: string, successor: Option<string>)

  /** `used` remembers the consumptions in order, `roots` each family's login token, `revoked` the families revoked. */
  datatype State = State(rows: Rows, used: seq<Use>, roots: map<string, string>, revoked: set<string>)

  const INIT := State(map[], [], map[], {})

  datatype Action =
    | Login(id: string, family: string, gsgId: string, hash: string, now: int)
    | Request(r: Refresh, kept: bool)

  predicate Consumes(rows: Rows, r: Refresh) {
    r.id in rows && rows[r.id].tokenHash == r.hash && Consume(rows[r.id], r.now).Ok?
  }

  predicate Replays(rows: Rows, r: Refresh) {
    r.id in rows && rows[r.id].tokenHash == r.hash && Consume(rows[r.id], r.now) == Err(AlreadyUsed)
  }

  /** Identifiers of tokens and families are new uuids. */
  function Next(s: State, a: Action): State {
    match a
    case Login(id, family, gsgId, hash, now) =>
      if id in s.rows || family in s.roots then s
      else s.(rows := s.rows[id := Issue(gsgId, hash, family, now)], roots := s.roots[family := id])
    case Request(r, kept) =>
      if r.successor in s.rows || !kept then s
      else s.(rows := RefreshEffect(s.rows, r).rows,
              used := if Consumes(s.rows, r)
                      then s.used + [Use(r.id, if r.proceeds then Some(r.successor) else None)] else s.used,
              revoked := if Replays(s.rows, r) then s.revoked + {s.rows[r.id].familyId} else s.revoked)
  }

  function Run(s: State, actions: seq<Action>): State
    decreases |actions|
  {
    if actions == [] then s
    else Next(Run(s, actions[..|actions| - 1]), actions[|actions| - 1])
  }

  // ------------------------------------------------------------------------------------------- invariant

  ghost predicate OneLive(rows: Rows) {
    forall a, b | a in rows && b in rows && rows[a].familyId == rows[b].familyId ::
      rows[a].consommeLe.None? && rows[b].consommeLe.None? ==> a == b
  }

  ghost predicate UsedOk(s: State) {
    && (forall i, j :: 0 <= i < j < |s.used| ==> s.used[i].token != s.used[j].token)
    && (forall i :: 0 <= i < |s.used| ==> s.used[i].token in s.rows && s.rows[s.used[i].token].consommeLe.Some?)
    && (forall id :: id in s.rows && s.rows[id].consommeLe.Some? ==> IsUsed(s.used, id))
  }

  ghost predicate IsUsed(used: seq<Use>, id: string) {
    exists i :: 0 <= i < |used| && used[i].token == id
  }

  ghost predicate IsSuccessor(used: seq<Use>, id: string) {
    exists i :: 0 <= i < |used| && used[i].successor == Some(id)
  }

  /** The login token, or the successor of a token of the family. */
  ghost predicate HasOrigin(s: State, id: string)
    requires id in s.rows
  {
    s.rows[id].familyId in s.roots
    && (id == s.roots[s.rows[id].familyId] || IsSuccessor(s.used, id))
  }

  ghost predicate LineageOk(s: State) {
    && (forall id :: id in s.rows ==> HasOrigin(s, id))
    && (forall f :: f in s.roots ==> s.roots[f] in s.rows && s.rows[s.roots[f]].familyId == f)
    && (forall i :: 0 <= i < |s.used| ==> SuccessorOk(s, s.used[i]))
    && (forall i, j :: 0 <= i < j < |s.used| && s.used[i].successor.Some? ==> s.used[i].successor != s.used[j].successor)
  }

  ghost predicate SuccessorOk(s: State, u: Use) {
    u.successor.Some? ==>
      && u.successor.value in s.rows && u.token in s.rows
      && s.rows[u.successor.value].familyId == s.rows[u.token].familyId
      && s.rows[u.token].familyId in s.roots && u.successor.value != s.roots[s.rows[u.token].familyId]
  }

  ghost predicate RevokedOk(s: State) {
    && (forall id :: id in s.rows ==> (s.rows[id].revoqueLe.Some? <==> s.rows[id].familyId in s.revoked))
    && (forall f :: f in s.revoked ==> f in s.roots)
  }

  ghost predicate Inv(s: State) {
    OneLive(s.rows) && UsedOk(s) && LineageOk(s) && RevokedOk(s)
  }

  lemma UsedGrows(used: seq<Use>, u: Use, id: string)
    ensures IsUsed(used + [u], id) <==> IsUsed(used, id) || u.token == id
    ensures IsSuccessor(used + [u], id) <==> IsSuccessor(used, id) || u.successor == Some(id)
  {
    var used' := used + [u];
    assert used'[|used|] == u;
    assert forall i :: 0 <= i < |used| ==> used'[i] == used[i];
  }

  lemma LoginKeepsLineage(s: State, id: string, family: string, k: Token)
    requires LineageOk(s) && id !in s.rows && family !in s.roots && k.familyId == family
    ensures LineageOk(s.(rows := s.rows[id := k], roots := s.roots[family := id]))
  {
    var s' := s.(rows := s.rows[id := k], roots := s.roots[family := id]);
    hide IsSuccessor;
    forall x | x in s'.rows ensures HasOrigin(s', x) {
      if x != id { assert HasOrigin(s, x); }
    }
    forall i | 0 <= i < |s.used| ensures SuccessorOk(s', s.used[i]) {
      assert SuccessorOk(s, s.used[i]);
    }
  }

  lemma LiveAmongFewer(rows: Rows, rows': Rows)
    requires OneLive(rows) && rows'.Keys == rows.Keys
    requires forall x :: x in rows ==>
               rows'[x].familyId == rows[x].familyId && (rows'[x].consommeLe.None? ==> rows[x].consommeLe.None?)
    ensures OneLive(rows')
  {
  }

  lemma LiveWithOneMore(rows: Rows, id: string, k: Token)
    requires OneLive(rows) && id !in rows
    requires forall x :: x in rows && rows[x].familyId == k.familyId ==> rows[x].consommeLe.Some?
    ensures OneLive(rows[id := k])
  {
  }

  lemma RevocationIsRecorded(s: State, family: string, now: int)
    requires RevokedOk(s) && family in s.roots
    ensures RevokedOk(s.(rows := FamilyRevoked(s.rows, family, now), revoked := s.revoked + {family}))
  {
  }

  lemma NotRevoked(s: State, s': State)
    requires RevokedOk(s) && s'.revoked == s.revoked && s.roots.Keys <= s'.roots.Keys
    requires forall x :: x in s'.rows ==>
               if x in s.rows then s'.rows[x].familyId == s.rows[x].familyId && s'.rows[x].revoqueLe == s.rows[x].revoqueLe
               else s'.rows[x].revoqueLe.None? && s'.rows[x].familyId !in s.revoked
    ensures RevokedOk(s')
  {
  }

  lemma LoginKeepsInv(s: State, id: string, family: string, k: Token)
    requires Inv(s) && id !in s.rows && family !in s.roots
    requires k.familyId == family && k.consommeLe.None? && k.revoqueLe.None?
    ensures Inv(s.(rows := s.rows[id := k], roots := s.roots[family := id]))
  {
    hide OneLive;
    hide RevokedOk;
    hide UsedOk;
    hide LineageOk;
    LoginKeepsLineage(s, id, family, k);
    forall x | x in s.rows ensures s.rows[x].familyId != family {
      FamilyHasRoot(s, x);
    }
    var s' := s.(rows := s.rows[id := k], roots := s.roots[family := id]);
    LiveWithOneMore(s.rows, id, k);
    RootsAreNotRevoked(s, family);
    NotRevoked(s, s');
    UnusedIsUnused(s, s', id);
  }

  /** Changing no family leaves the lineage as it is. */
  lemma SameFamiliesSameLineage(s: State, s': State)
    requires LineageOk(s) && s'.used == s.used && s'.roots == s.roots && s'.rows.Keys == s.rows.Keys
    requires forall x :: x in s.rows ==> s'.rows[x].familyId == s.rows[x].familyId
    ensures LineageOk(s')
  {
    hide IsSuccessor;
    forall x | x in s.rows ensures HasOrigin(s', x) {
      assert HasOrigin(s, x);
    }
    forall i | 0 <= i < |s.used| ensures SuccessorOk(s', s.used[i]) {
      assert SuccessorOk(s, s.used[i]);
    }
  }

  lemma SameConsumptionsSameUses(s: State, s': State)
    requires UsedOk(s) && s'.used == s.used && s'.rows.Keys == s.rows.Keys
    requires forall x :: x in s.rows ==> s'.rows[x].consommeLe == s.rows[x].consommeLe
    ensures UsedOk(s')
  {
    hide IsUsed;
  }

  lemma UnusedIsUnused(s: State, s': State, id: string)
    requires UsedOk(s) && id !in s.rows && s'.used == s.used && s'.rows.Keys == s.rows.Keys + {id}
    requires s'.rows[id].consommeLe.None? && forall x :: x in s.rows ==> s'.rows[x] == s.rows[x]
    ensures UsedOk(s')
  {
    hide IsUsed;
  }

  lemma LiveIsNotRevoked(s: State, id: string)
    requires RevokedOk(s) && id in s.rows && s.rows[id].revoqueLe.None?
    ensures s.rows[id].familyId !in s.revoked
  {
  }

  lemma RootsAreNotRevoked(s: State, family: string)
    requires RevokedOk(s) && family !in s.roots
    ensures family !in s.revoked
  {
  }

  lemma ConsumptionIsUsed(s: State, s': State, u: Use)
    requires UsedOk(s) && u.token in s.rows && s.rows[u.token].consommeLe.None? && s'.used == s.used + [u]
    requires s.rows.Keys <= s'.rows.Keys
    requires forall x :: x in s'.rows ==>
               (s'.rows[x].consommeLe.Some? <==> x == u.token || (x in s.rows && s.rows[x].consommeLe.Some?))
    ensures UsedOk(s')
  {
    hide IsUsed;
    forall x | x in s'.rows && s'.rows[x].consommeLe.Some? ensures IsUsed(s'.used, x) {
      UsedGrows(s.used, u, x);
    }
  }

  lemma RevocationKeepsInv(s: State, family: string, now: int)
    requires Inv(s) && family in s.roots
    ensures Inv(s.(rows := FamilyRevoked(s.rows, family, now), revoked := s.revoked + {family}))
  {
    hide OneLive;
    hide RevokedOk;
    hide UsedOk;
    hide LineageOk;
    var s' := s.(rows := FamilyRevoked(s.rows, family, now), revoked := s.revoked + {family});
    SameFamiliesSameLineage(s, s');
    SameConsumptionsSameUses(s, s');
    LiveAmongFewer(s.rows, s'.rows);
    RevocationIsRecorded(s, family, now);
    hide LineageOk;
  }

  lemma ConsumptionKeepsLineage(s: State, rows': Rows, u: Use)
    requires LineageOk(s) && rows'.Keys == s.rows.Keys && u.successor.None?
    requires forall x :: x in s.rows ==> rows'[x].familyId == s.rows[x].familyId
    ensures LineageOk(s.(rows := rows', used := s.used + [u]))
  {
    var s' := s.(rows := rows', used := s.used + [u]);
    forall x | x in rows' ensures HasOrigin(s', x) {
      assert HasOrigin(s, x);
      UsedGrows(s.used, u, x);
    }
    hide IsSuccessor;
    forall i | 0 <= i < |s'.used| ensures SuccessorOk(s', s'.used[i]) {
      if i < |s.used| { assert SuccessorOk(s, s.used[i]); }
    }
  }

  /** The one live token is consumed. */
  lemma ConsumptionKeepsInv(s: State, id: string, now: int)
    requires Inv(s) && id in s.rows && s.rows[id].consommeLe.None?
    ensures Inv(s.(rows := s.rows[id := s.rows[id].(consommeLe := Some(now))], used := s.used + [Use(id, None)]))
  {
    hide OneLive;
    hide RevokedOk;
    hide UsedOk;
    hide LineageOk;
    var s' := s.(rows := s.rows[id := s.rows[id].(consommeLe := Some(now))], used := s.used + [Use(id, None)]);
    ConsumptionKeepsLineage(s, s'.rows, Use(id, None));
    ConsumptionIsUsed(s, s', Use(id, None));
    LiveAmongFewer(s.rows, s'.rows);
    NotRevoked(s, s');
    hide LineageOk;
  }

  lemma NoOtherLive(rows: Rows, id: string, now: int)
    requires OneLive(rows) && id in rows && rows[id].consommeLe.None?
    ensures var rows1 := rows[id := rows[id].(consommeLe := Some(now))];
            forall x :: x in rows1 && rows1[x].familyId == rows[id].familyId ==> rows1[x].consommeLe.Some?
  {
  }

  lemma SuccessionKeepsLineage(s: State, id: string, next: string, k: Token)
    requires LineageOk(s) && id in s.rows && next !in s.rows && k.familyId == s.rows[id].familyId
    ensures LineageOk(s.(rows := s.rows[next := k], used := s.used + [Use(id, Some(next))]))
  {
    var u := Use(id, Some(next));
    var s' := s.(rows := s.rows[next := k], used := s.used + [u]);
    FamilyHasRoot(s, id);
    forall x | x in s'.rows ensures HasOrigin(s', x) {
      if x != next { assert HasOrigin(s, x); }
      UsedGrows(s.used, u, x);
    }
    hide IsSuccessor;
    hide HasOrigin;
    forall i | 0 <= i < |s'.used| ensures SuccessorOk(s', s'.used[i]) {
      if i < |s.used| { assert SuccessorOk(s, s.used[i]); }
    }
    forall i | 0 <= i < |s.used| ensures s.used[i].successor != Some(next) {
      assert SuccessorOk(s, s.used[i]);
    }
  }

  /** The one live token is consumed and a new one minted in its place. */
  lemma SuccessionKeepsInv(s: State, id: string, now: int, next: string, k: Token)
    requires Inv(s) && id in s.rows && s.rows[id].consommeLe.None? && s.rows[id].revoqueLe.None? && next !in s.rows
    requires k.familyId == s.rows[id].familyId && k.consommeLe.None? && k.revoqueLe.None?
    ensures Inv(s.(rows := s.rows[id := s.rows[id].(consommeLe := Some(now))][next := k], used := s.used + [Use(id, Some(next))]))
  {
    hide OneLive;
    hide RevokedOk;
    hide UsedOk;
    hide LineageOk;
    var rows1 := s.rows[id := s.rows[id].(consommeLe := Some(now))];
    var s' := s.(rows := rows1[next := k], used := s.used + [Use(id, Some(next))]);
    SameFamiliesSameLineage(s, s.(rows := rows1));
    SuccessionKeepsLineage(s.(rows := rows1), id, next, k);
    ConsumptionIsUsed(s, s', Use(id, Some(next)));
    LiveAmongFewer(s.rows, rows1);
    NoOtherLive(s.rows, id, now);
    LiveWithOneMore(rows1, next, k);
    LiveIsNotRevoked(s, id);
    NotRevoked(s, s');
    hide LineageOk;
  }

  lemma RequestKeepsInv(s: State, r: Refresh)
    requires Inv(s) && r.successor !in s.rows
    ensures Inv(Next(s, Request(r, true)))
  {
    hide UsedOk;
    hide LineageOk;
    if Consumes(s.rows, r) {
      var k := s.rows[r.id];
      if r.proceeds {
        SuccessionKeepsInv(s, r.id, r.now, r.successor, Issue(k.gsgId, r.successorHash, k.familyId, r.now));
      } else {
        ConsumptionKeepsInv(s, r.id, r.now);
      }
    } else if Replays(s.rows, r) {
      FamilyHasRoot(s, r.id);
      RevocationKeepsInv(s, s.rows[r.id].familyId, r.now);
    }
  }

  lemma FamilyHasRoot(s: State, id: string)
    requires LineageOk(s) && id in s.rows
    ensures s.rows[id].familyId in s.roots
  {
    assert HasOrigin(s, id);
  }

  lemma {:induction false} RunKeepsInv(actions: seq<Action>)
    ensures Inv(Run(INIT, actions))
  {
    if actions != [] {
      var s := Run(INIT, actions[..|actions| - 1]);
      RunKeepsInv(actions[..|actions| - 1]);
      hide Inv;
      match actions[|actions| - 1] {
        case Login(id, family, gsgId, hash, now) =>
          if id !in s.rows && family !in s.roots { LoginKeepsInv(s, id, family, Issue(gsgId, hash, family, now)); }
        case Request(r, kept) =>
          if kept && r.successor !in s.rows { RequestKeepsInv(s, r); }
      }
    }
  }

  // --------------------------------------------------------------------------------------- what it gives

  /** A family never has two live tokens, and every other token was consumed, exactly once. */
  lemma OneLiveTokenPerFamily(actions: seq<Action>, a: string, b: string)
    requires a in Run(INIT, actions).rows && b in Run(INIT, actions).rows && a != b
    requires Run(INIT, actions).rows[a].familyId == Run(INIT, actions).rows[b].familyId
    ensures var s := Run(INIT, actions);
            s.rows[a].consommeLe.Some? || s.rows[b].consommeLe.Some?
  {
    RunKeepsInv(actions);
  }

  function Uses(used: seq<Use>, id: string): nat {
    if used == [] then 0 else Uses(used[..|used| - 1], id) + if used[|used| - 1].token == id then 1 else 0
  }

  lemma {:induction false} UsesOfDistinct(used: seq<Use>, id: string)
    requires forall i, j :: 0 <= i < j < |used| ==> used[i].token != used[j].token
    ensures Uses(used, id) == if exists i :: 0 <= i < |used| && used[i].token == id then 1 else 0
  {
    if used != [] {
      var n := |used| - 1;
      UsesOfDistinct(used[..n], id);
      if i :| 0 <= i < n && used[..n][i].token == id { assert used[i].token == id; }
      if i :| 0 <= i < |used| && used[i].token == id {
        if i < n { assert used[..n][i].token == id; }
      }
    }
  }

  lemma ConsumedExactlyOnce(actions: seq<Action>, id: string)
    requires id in Run(INIT, actions).rows
    ensures var s := Run(INIT, actions);
            Uses(s.used, id) == if s.rows[id].consommeLe.Some? then 1 else 0
  {
    RunKeepsInv(actions);
    UsesOfDistinct(Run(INIT, actions).used, id);
  }

  /** Every token but the login's succeeds exactly one token, of its own family. */
  lemma RotationIsAChain(actions: seq<Action>, id: string)
    requires id in Run(INIT, actions).rows
    ensures var s := Run(INIT, actions); var family := s.rows[id].familyId;
            && family in s.roots
            && (id == s.roots[family] <==> forall i :: 0 <= i < |s.used| ==> s.used[i].successor != Some(id))
            && (forall i :: 0 <= i < |s.used| && s.used[i].successor == Some(id) ==>
                  s.used[i].token in s.rows && s.rows[s.used[i].token].familyId == family)
            && (forall i, j | 0 <= i < |s.used| && 0 <= j < |s.used| ::
                  s.used[i].successor == Some(id) && s.used[j].successor == Some(id) ==> i == j)
  {
    var s := Run(INIT, actions);
    RunKeepsInv(actions);
    assert HasOrigin(s, id);
    forall i | 0 <= i < |s.used| ensures SuccessorOk(s, s.used[i]) {
    }
  }

  /** The tokens of a family and whether each was consumed. */
  function FamilyOf(rows: Rows, family: string): map<string, Option<int>> {
    map id | id in rows && rows[id].familyId == family :: rows[id].consommeLe
  }

  lemma RevokedTokensRefuse(s: State, r: Refresh)
    requires RevokedOk(s) && r.id in s.rows && s.rows[r.id].familyId in s.revoked
    ensures !Consumes(s.rows, r) && !Replays(s.rows, r) && RefreshEffect(s.rows, r).rows == s.rows
  {
  }

  lemma OtherFamiliesOnly(rows: Rows, r: Refresh, family: string)
    requires r.id in rows && rows[r.id].familyId != family && r.successor !in rows
    ensures FamilyOf(RefreshEffect(rows, r).rows, family) == FamilyOf(rows, family)
  {
  }

  lemma StepFreezesRevoked(s: State, a: Action, family: string)
    requires Inv(s) && family in s.revoked
    ensures family in Next(s, a).revoked && FamilyOf(Next(s, a).rows, family) == FamilyOf(s.rows, family)
  {
    hide UsedOk;
    hide OneLive;
    hide LineageOk;
    match a {
      case Login(id, _, gsgId, hash, now) =>
      case Request(r, kept) =>
        if kept && r.successor !in s.rows && r.id in s.rows {
          if s.rows[r.id].familyId == family { RevokedTokensRefuse(s, r); } else { OtherFamiliesOnly(s.rows, r, family); }
          hide RefreshEffect;
          hide FamilyOf;
        }
    }
  }

  lemma {:induction false} RunAppend(s: State, first: seq<Action>, rest: seq<Action>)
    ensures Run(s, first + rest) == Run(Run(s, first), rest)
    decreases |rest|
  {
    hide Next;
    if rest == [] {
      assert first + rest == first;
    } else {
      var n := |rest| - 1;
      assert (first + rest)[..|first| + n] == first + rest[..n];
      RunAppend(s, first, rest[..n]);
    }
  }

  /** Once the revocation of a family has been kept, none of its tokens is consumed or minted again. */
  lemma {:induction false} RevokedFamilyIsFrozen(first: seq<Action>, rest: seq<Action>, family: string)
    requires family in Run(INIT, first).revoked
    ensures family in Run(INIT, first + rest).revoked
    ensures FamilyOf(Run(INIT, first + rest).rows, family) == FamilyOf(Run(INIT, first).rows, family)
    decreases |rest|
  {
    hide Inv;
    hide FamilyOf;
    hide Next;
    if rest == [] {
      assert first + rest == first;
    } else {
      var n := |rest| - 1;
      RevokedFamilyIsFrozen(first, rest[..n], family);
      assert (first + rest)[..|first| + n] == first + rest[..n];
      RunKeepsInv(first + rest[..n]);
      StepFreezesRevoked(Run(INIT, first + rest[..n]), rest[n], family);
    }
  }

  /**
   * A replay is answered by an error, and the writes of the request that ends in that error are kept or
   * not: the family's live token is refused from then on if and only if they were.
   */
  lemma ReplayRevokesIffKept(actions: seq<Action>, replay: Refresh, kept: bool, later: Refresh)
    requires var s := Run(INIT, actions);
             && Replays(s.rows, replay) && replay.successor !in s.rows
             && Consumes(s.rows, later) && s.rows[later.id].familyId == s.rows[replay.id].familyId && later.proceeds
    ensures var s := Run(INIT, actions); var after := Next(s, Request(replay, kept));
            && RefreshEffect(s.rows, replay).result == Err(AlreadyUsed)
            && (s.rows[replay.id].familyId in after.revoked <==> kept)
            && RefreshEffect(after.rows, later).result == if kept then Err(Revoked) else Ok(later.successor)
  {
    RunKeepsInv(actions);
    hide Run;
    hide UsedOk;
    hide LineageOk;
    hide OneLive;
  }

  /** A token just issued can be consumed during thirty days, its last instant excluded, and only once. */
  lemma LivesThirtyDays(gsgId: string, hash: string, family: string, issued: int, now: int, again: int)
    ensures var k := Issue(gsgId, hash, family, issued);
            && (Consume(k, now).Ok? <==> now < issued + 2_592_000_000)
            && (Consume(k, now).Ok? ==> Consume(Consume(k, now).value, again) == Err(AlreadyUsed))
  {
  }

  /** How a token is answered while it is neither consumed nor revoked: `hash` and `issued` are its own. */
  ghost predicate AnswersAsIssued(rows: Rows, id: string, hash: string, issued: int) {
    forall r: Refresh :: r.id == id ==>
      RefreshEffect(rows, r).result ==
      if r.hash != hash then Err(InvalidCredentials)
      else if r.now >= issued + 2_592_000_000 then Err(Expired)
      else if !r.proceeds then Err(InvalidCredentials)
      else Ok(r.successor)
  }

  /**
   * The token of a login is accepted with its own hash for thirty days. Its successor is accepted in the same
   * way with the successor's hash, and the token itself is then refused as already used.
   */
  lemma LoginThenRefresh(s: State, id: string, family: string, gsgId: string, hash: string, issued: int, r: Refresh)
    requires id !in s.rows && family !in s.roots
    ensures var s1 := Next(s, Login(id, family, gsgId, hash, issued));
            && AnswersAsIssued(s1.rows, id, hash, issued)
            && (r.id == id && RefreshEffect(s1.rows, r).result == Ok(r.successor) && r.successor !in s1.rows ==>
                  var s2 := Next(s1, Request(r, true));
                  && AnswersAsIssued(s2.rows, r.successor, r.successorHash, r.now)
                  && (forall again: Refresh :: again.id == id ==>
                        RefreshEffect(s2.rows, again).result == Err(if again.hash == hash then AlreadyUsed else InvalidCredentials)))
  {
  }

  /** What a request leaves of the table, in each of its endings. */
  lemma RefreshOutcome(rows: Rows, r: Refresh)
    requires r.successor !in rows
    ensures var rows', result := RefreshEffect(rows, r).rows, RefreshEffect(rows, r).result;
            var spent := r.id in rows && rows[r.id].tokenHash == r.hash && rows[r.id].revoqueLe.None?
                         && rows[r.id].consommeLe.None? && r.now < rows[r.id].expireLe;
            && (result.Ok? <==> spent && r.proceeds)
            && (r.id !in rows || rows[r.id].tokenHash != r.hash || (spent && !r.proceeds) ==> result == Err(InvalidCredentials))
            && (r.id in rows && rows[r.id].tokenHash == r.hash && rows[r.id].revoqueLe.Some? ==> result == Err(Revoked))
            && (r.id in rows && rows[r.id].tokenHash == r.hash && rows[r.id].revoqueLe.None? && rows[r.id].consommeLe.Some? ==>
                  result == Err(AlreadyUsed))
            && rows'.Keys == rows.Keys + (if result.Ok? then {r.successor} else {})
            && (result.Ok? ==> var k := rows[r.id];
                  rows'[r.successor] == Token(k.gsgId, r.successorHash, k.familyId, r.now + 2_592_000_000, None, None))
            && (spent ==> rows'[r.id] == rows[r.id].(consommeLe := Some(r.now)))
            && (result == Err(AlreadyUsed) ==>
                  forall k | k in rows && rows[k].familyId == rows[r.id].familyId :: rows'[k] == rows[k].(revoqueLe := Some(r.now)))
            && (forall k | k in rows && !(spent && k == r.id)
                           && !(result == Err(AlreadyUsed) && rows[k].familyId == rows[r.id].familyId) :: rows'[k] == rows[k])
  {
  }

  /** Nothing of a token changes but its consumption, once, and its revocation. */
  lemma TokensKeepWhatTheyAre(actions: seq<Action>, a: Action, id: string)
    requires id in Run(INIT, actions).rows
    ensures var s := Run(INIT, actions); var s' := Next(s, a);
            && id in s'.rows && s'.rows[id] == s.rows[id].(consommeLe := s'.rows[id].consommeLe, revoqueLe := s'.rows[id].revoqueLe)
            && (s.rows[id].consommeLe.Some? ==> s'.rows[id].consommeLe == s.rows[id].consommeLe)
            && (s.rows[id].revoqueLe.Some? ==> s'.rows[id].revoqueLe == s.rows[id].revoqueLe)
  {
    RunKeepsInv(actions);
    hide Run;
    hide UsedOk;
    hide LineageOk;
    hide OneLive;
  }

  /** The family is that of this login, and every token in it belongs to the same user. */
  ghost predicate BelongsTo(s: State, family: string, root: string, gsgId: string) {
    && family in s.roots && s.roots[family] == root
    && forall k :: k in s.rows && s.rows[k].familyId == family ==> s.rows[k].gsgId == gsgId
  }

  lemma StepKeepsOwner(s: State, a: Action, family: string, root: string, gsgId: string)
    requires BelongsTo(s, family, root, gsgId)
    ensures BelongsTo(Next(s, a), family, root, gsgId)
  {
    if a.Request? && a.r.successor !in s.rows {
      RefreshOutcome(s.rows, a.r);
      hide RefreshEffect;
    }
  }

  /** Whatever happens after a login, each token of its family bears the user who logged in. */
  lemma {:induction false} LoginOwnsItsFamily(first: seq<Action>, id: string, family: string, gsgId: string, hash: string, now: int,
                                             rest: seq<Action>)
    requires id !in Run(INIT, first).rows && family !in Run(INIT, first).roots
    ensures BelongsTo(Run(INIT, first + [Login(id, family, gsgId, hash, now)] + rest), family, id, gsgId)
    decreases |rest|
  {
    hide BelongsTo;
    hide Next;
    var login := first + [Login(id, family, gsgId, hash, now)];
    if rest == [] {
      assert login + rest == login && login[..|login| - 1] == first;
      RunKeepsInv(first);
      LoginOwnsItsToken(Run(INIT, first), id, family, gsgId, hash, now);
    } else {
      var n := |rest| - 1;
      LoginOwnsItsFamily(first, id, family, gsgId, hash, now, rest[..n]);
      assert (login + rest)[..|login| + n] == login + rest[..n];
      StepKeepsOwner(Run(INIT, login + rest[..n]), rest[n], family, id, gsgId);
    }
  }

  lemma LoginOwnsItsToken(s: State, id: string, family: string, gsgId: string, hash: string, now: int)
    requires Inv(s) && id !in s.rows && family !in s.roots
    ensures BelongsTo(Next(s, Login(id, family, gsgId, hash, now)), family, id, gsgId)
  {
    hide OneLive;
    hide RevokedOk;
    hide UsedOk;
    forall x | x in s.rows ensures s.rows[x].familyId != family {
      FamilyHasRoot(s, x);
    }
  }

  // ------------------------------------------------------------------------------------ as it is written

  class RefreshToken {
    const id: string
    var props: Token

    constructor Reconstitute(id: string, props: Token)
      ensures this.id == id && this.props == props
    {
      this.id, this.props := id, props;
    }

    method AssertValidAndConsume(now: int) returns (r: Result<(), TokenError>)
      modifies this
      ensures match Consume(old(props), now)
              case Ok(consumed) => r == Ok(()) && props == consumed
              case Err(e) => r == Err(e) && props == old(props)
    {
      if props.revoqueLe.Some? { return Err(Revoked); }
      if props.consommeLe.Some? { return Err(AlreadyUsed); }
      if props.expireLe <= now { return Err(Expired); }
      props := props.(consommeLe := Some(now));
      r := Ok(());
    }
  }

  class RefreshTokenRepository {
    var rows: Rows

    constructor ()
      ensures rows == map[]
    {
      rows := map[];
    }

    method FindById(id: string) returns (k: RefreshToken?)
      ensures k == null <==> id !in rows
      ensures k != null ==> fresh(k) && k.id == id && k.props == rows[id]
    {
      if id in rows { k := new RefreshToken.Reconstitute(id, rows[id]); } else { k := null; }
    }

    method Save(k: RefreshToken)
      modifies this
      ensures rows == old(rows)[k.id := k.props]
    {
      rows := rows[k.id := k.props];
    }

    method RevokeFamily(family: string, now: int)
      modifies this
      ensures rows == FamilyRevoked(old(rows), family, now)
    {
      rows := map id | id in rows :: if rows[id].familyId == family then rows[id].(revoqueLe := Some(now)) else rows[id];
    }
  }

  class RefreshTokenUseCase {
    const repository: RefreshTokenRepository

    constructor (repository: RefreshTokenRepository)
      ensures this.repository == repository
    {
      this.repository := repository;
    }

    method Execute(r: Refresh) returns (result: Result<string, TokenError>)
      requires r.successor !in repository.rows
      modifies repository
      ensures Attempt(repository.rows, result) == RefreshEffect(old(repository.rows), r)
    {
      var existing := repository.FindById(r.id);
      if existing == null { return Err(InvalidCredentials); }
      if r.hash != existing.props.tokenHash { return Err(InvalidCredentials); }
      var consumed := existing.AssertValidAndConsume(r.now);
      if consumed.Err? {
        if consumed.error == AlreadyUsed {
          repository.RevokeFamily(existing.props.familyId, r.now);
        }
        return Err(consumed.error);
      }
      repository.Save(existing);
      if !r.proceeds { return Err(InvalidCredentials); }
      var next := new RefreshToken.Reconstitute(
        r.successor, Issue(existing.props.gsgId, r.successorHash, existing.props.familyId, r.now));
      repository.Save(next);
      result := Ok(r.successor);
    }

    /** The request's transaction around the use case. */
    method InTransaction(r: Refresh, kept: bool) returns (result: Result<string, TokenError>)
      requires r.successor !in repository.rows
      modifies repository
      ensures result == RefreshEffect(old(repository.rows), r).result
      ensures forall s: State :: s.rows == old(repository.rows) ==> repository.rows == Next(s, Request(r, kept)).rows
    {
      var before := repository.rows;
      result := Execute(r);
      if !kept { repository.rows := before; }
    }

    /** `completeAuthentication`, as far as tokens go: the first token of a new family. */
    method OpenFamily(id: string, family: string, gsgId: string, hash: string, now: int)
      requires id !in repository.rows
      modifies repository
      ensures forall s: State :: s.rows == old(repository.rows) && family !in s.roots ==>
                repository.rows == Next(s, Login(id, family, gsgId, hash, now)).rows
    {
      var first := new RefreshToken.Reconstitute(id, Token(gsgId, hash, family, now + REFRESH_TOKEN_TTL_MS, None, None));
      repository.Save(first);
    }
  }
}
