/**
 * The cache of JWKS key sets, one per Supabase project
 * (src/identity/infrastructure/security/supabase-session-verifier.adapter.ts). Each stretch of code between two `await`s
 * is one step; any number of verifications interleave their steps, under a clock that never goes back.
 */
module JwksCache {
  import opened Prelude

  /** A published key; the token libraries decide what verifies. */
  datatype Jwk = Jwk(kid: Option<string>, material: string)

  datatype CachedJwks = CachedJwks(keys: seq<Jwk>, fetchedAtMs: int)

  /** One network call: still under way, or how it ended. `known` is what was cached when it failed. */
  datatype Status = Outstanding | Succeeded(entry: CachedJwks) | Failed(known: Option<CachedJwks>)
  datatype Flight = Flight(project: string, status: Status)

  datatype Answer = Keys(entry: CachedJwks) | NoKeys | Threw

  /**
   * A call of `getKeys`, or of `forceRefreshIfAllowed` (`forced`): what the cache held when it
   * started, the flight it waits for, if any, and its answer once it has one.
   */
  datatype Task = Task(project: string, forced: bool, startedAt: int, existant: Option<CachedJwks>, flight: Option<nat>,
                       answer: Option<Answer>)

  datatype Admission = Admission(project: string, at: int)

  /** `flights`, `tasks` and `admitted` remember every network call, call and admitted forced refresh. */
  datatype State = State(
    cache: map<string, CachedJwks>,
    inFlight: map<string, nat>,
    lastForcedRefreshAtMs: map<string, int>,
    flights: seq<Flight>,
    tasks: map<nat, Task>,
    admitted: seq<Admission>,
    clock: int
  )

  datatype Config = Config(ttlMs: int, cooldownMs: int)

  const INIT := State(map[], map[], map[], [], map[], [], 0)

  function Get<V>(m: map<string, V>, p: string): Option<V> {
    if p in m then Some(m[p]) else None
  }

  // ----------------------------------------------------------------------------------------------- steps

  /** `fetchAndCache`: the call already under way for the project, or a new one. */
  function Fetch(s: State, p: string): State {
    if p in s.inFlight then s
    else s.(flights := s.flights + [Flight(p, Outstanding)], inFlight := s.inFlight[p := |s.flights|])
  }

  function Waiting(s: State, k: nat, p: string, forced: bool, now: int): State {
    var s1 := Fetch(s, p);
    s1.(tasks := s1.tasks[k := Task(p, forced, now, Get(s.cache, p), Get(s1.inFlight, p), None)])
  }

  predicate Fresh(c: Config, e: Option<CachedJwks>, now: int) {
    e.Some? && now - e.value.fetchedAtMs < c.ttlMs
  }

  function GetKeysStep(c: Config, s: State, k: nat, p: string, now: int): State {
    var existant := Get(s.cache, p);
    if k in s.tasks || now < s.clock then s
    else
      var s1 := s.(clock := now);
      if Fresh(c, existant, now)
      then s1.(tasks := s1.tasks[k := Task(p, false, now, existant, None, Some(Keys(existant.value)))])
      else Waiting(s1, k, p, false, now)
  }

  function LastForced(s: State, p: string): int {
    if p in s.lastForcedRefreshAtMs then s.lastForcedRefreshAtMs[p] else 0
  }

  /** The clock is read twice: for the test at `now`, for the record at `later`. */
  function ForceStep(c: Config, s: State, k: nat, p: string, now: int, later: int): State {
    if k in s.tasks || now < s.clock || later < now then s
    else if now - LastForced(s, p) < c.cooldownMs
    then s.(clock := now, tasks := s.tasks[k := Task(p, true, now, Get(s.cache, p), None, Some(NoKeys))])
    else Waiting(s.(clock := later, lastForcedRefreshAtMs := s.lastForcedRefreshAtMs[p := later],
                    admitted := s.admitted + [Admission(p, later)]), k, p, true, now)
  }

  /** The network call ends; on success its keys are cached in the same stretch. */
  function SettleStep(s: State, f: nat, reply: Option<seq<Jwk>>, now: int): State {
    if f < |s.flights| && s.flights[f].status == Outstanding && s.clock <= now then
      var p := s.flights[f].project;
      match reply
      case Some(keys) =>
        var e := CachedJwks(keys, now);
        s.(clock := now, cache := s.cache[p := e], flights := s.flights[f := Flight(p, Succeeded(e))])
      case None =>
        s.(clock := now, flights := s.flights[f := Flight(p, Failed(Get(s.cache, p)))])
    else s
  }

  predicate Settled(s: State, f: nat) {
    f < |s.flights| && s.flights[f].status != Outstanding
  }

  /** `finally`: the project has no call under way any more. */
  function FinallyStep(s: State, p: string): State {
    if p in s.inFlight && Settled(s, s.inFlight[p]) then s.(inFlight := s.inFlight - {p}) else s
  }

  /** What a caller does with the end of the call it shares. */
  function AnswerFrom(t: Task, status: Status): Answer
    requires status != Outstanding
  {
    match status
    case Succeeded(e) => Keys(e)
    case Failed(_) => if t.forced then NoKeys else if t.existant.Some? then Keys(t.existant.value) else Threw
  }

  /** Callers are resumed after the `finally` of the call they share. */
  function ResumeStep(s: State, k: nat): State {
    if k in s.tasks && s.tasks[k].answer.None? && s.tasks[k].flight.Some? && Settled(s, s.tasks[k].flight.value)
       && Get(s.inFlight, s.tasks[k].project) != s.tasks[k].flight
    then
      var t := s.tasks[k];
      s.(tasks := s.tasks[k := t.(answer := Some(AnswerFrom(t, s.flights[t.flight.value].status)))])
    else s
  }

  datatype Action =
    | GetKeys(k: nat, p: string, now: int)
    | ForceRefresh(k: nat, p: string, now: int, later: int)
    | Settle(f: nat, reply: Option<seq<Jwk>>, now: int)
    | Finally(p: string)
    | Resume(k: nat)

  function Next(c: Config, s: State, a: Action): State {
    match a
    case GetKeys(k, p, now) => GetKeysStep(c, s, k, p, now)
    case ForceRefresh(k, p, now, later) => ForceStep(c, s, k, p, now, later)
    case Settle(f, reply, now) => SettleStep(s, f, reply, now)
    case Finally(p) => FinallyStep(s, p)
    case Resume(k) => ResumeStep(s, k)
  }

  function Run(c: Config, s: State, actions: seq<Action>): State
    decreases |actions|
  {
    if actions == [] then s
    else Next(c, Run(c, s, actions[..|actions| - 1]), actions[|actions| - 1])
  }

  // ------------------------------------------------------------------------------------------- invariant

  /** The map of calls under way holds every outstanding call of every project. */
  ghost predicate FlightsOk(s: State) {
    && (forall p :: p in s.inFlight ==> s.inFlight[p] < |s.flights| && s.flights[s.inFlight[p]].project == p)
    && (forall f :: 0 <= f < |s.flights| && s.flights[f].status == Outstanding ==>
          Get(s.inFlight, s.flights[f].project) == Some(f))
    && (forall p :: p in s.inFlight && s.flights[s.inFlight[p]].status.Failed? ==>
          s.flights[s.inFlight[p]].status.known == Get(s.cache, p))
  }

  ghost predicate TaskOk(c: Config, s: State, t: Task) {
    match t.flight
    case None =>
      if t.forced then t.answer == Some(NoKeys)
      else Fresh(c, t.existant, t.startedAt) && t.answer == Some(Keys(t.existant.value))
    case Some(f) =>
      && f < |s.flights| && s.flights[f].project == t.project
      && (s.flights[f].status == Outstanding ==> t.existant == Get(s.cache, t.project))
      && (s.flights[f].status.Failed? ==> t.existant == s.flights[f].status.known)
      && (t.answer.Some? ==> Settled(s, f) && t.answer.value == AnswerFrom(t, s.flights[f].status))
  }

  ghost predicate TasksOk(c: Config, s: State) {
    forall k :: k in s.tasks ==> TaskOk(c, s, s.tasks[k])
  }

  ghost predicate Spaced(c: Config, admitted: seq<Admission>) {
    forall i, j :: 0 <= i < j < |admitted| && admitted[i].project == admitted[j].project ==>
      admitted[j].at - admitted[i].at >= c.cooldownMs
  }

  ghost predicate WasAdmitted(admitted: seq<Admission>, p: string, at: int) {
    exists i :: 0 <= i < |admitted| && admitted[i] == Admission(p, at)
  }

  ghost predicate AdmissionsOk(c: Config, s: State) {
    && Spaced(c, s.admitted)
    && (forall i :: 0 <= i < |s.admitted| ==>
          s.admitted[i].project in s.lastForcedRefreshAtMs && s.admitted[i].at <= s.lastForcedRefreshAtMs[s.admitted[i].project])
    && (forall p :: p in s.lastForcedRefreshAtMs ==>
          s.lastForcedRefreshAtMs[p] <= s.clock && WasAdmitted(s.admitted, p, s.lastForcedRefreshAtMs[p]))
  }

  ghost predicate Inv(c: Config, s: State) {
    FlightsOk(s) && TasksOk(c, s) && AdmissionsOk(c, s)
  }

  lemma FetchKeeps(s: State, p: string)
    requires FlightsOk(s)
    ensures var s1 := Fetch(s, p);
            && FlightsOk(s1) && p in s1.inFlight && s.flights <= s1.flights
            && s1 == s.(flights := s1.flights, inFlight := s1.inFlight)
            && (forall f :: |s.flights| <= f < |s1.flights| ==> s1.flights[f] == Flight(p, Outstanding))
  {
  }

  lemma WaitingKeepsInv(c: Config, s: State, k: nat, p: string, forced: bool, now: int)
    requires Inv(c, s) && k !in s.tasks
    ensures Inv(c, Waiting(s, k, p, forced, now))
  {
    FetchKeeps(s, p);
    var s1, s2 := Fetch(s, p), Waiting(s, k, p, forced, now);
    hide Fetch;
    var t := s2.tasks[k];
    assert TaskOk(c, s2, t);
    forall j | j in s.tasks ensures TaskOk(c, s2, s2.tasks[j]) {
      assert TaskOk(c, s, s.tasks[j]);
    }
  }

  lemma GetKeysKeepsInv(c: Config, s: State, k: nat, p: string, now: int)
    requires Inv(c, s)
    ensures Inv(c, GetKeysStep(c, s, k, p, now))
  {
    if k !in s.tasks && s.clock <= now {
      var s1 := s.(clock := now);
      assert Inv(c, s1) by {
        forall j | j in s1.tasks ensures TaskOk(c, s1, s1.tasks[j]) { assert TaskOk(c, s, s.tasks[j]); }
      }
      if Fresh(c, Get(s.cache, p), now) {
        var s2 := GetKeysStep(c, s, k, p, now);
        forall j | j in s2.tasks ensures TaskOk(c, s2, s2.tasks[j]) {
          if j != k { assert TaskOk(c, s, s.tasks[j]); }
        }
      } else {
        WaitingKeepsInv(c, s1, k, p, false, now);
      }
    }
  }

  lemma ForceKeepsInv(c: Config, s: State, k: nat, p: string, now: int, later: int)
    requires Inv(c, s)
    ensures Inv(c, ForceStep(c, s, k, p, now, later))
  {
    if k !in s.tasks && s.clock <= now <= later {
      if now - LastForced(s, p) < c.cooldownMs {
        var s2 := ForceStep(c, s, k, p, now, later);
        forall j | j in s2.tasks ensures TaskOk(c, s2, s2.tasks[j]) {
          if j != k { assert TaskOk(c, s, s.tasks[j]); }
        }
      } else {
        var s1 := s.(clock := later, lastForcedRefreshAtMs := s.lastForcedRefreshAtMs[p := later],
                     admitted := s.admitted + [Admission(p, later)]);
        assert TasksOk(c, s1) by {
          forall j | j in s1.tasks ensures TaskOk(c, s1, s1.tasks[j]) { assert TaskOk(c, s, s.tasks[j]); }
        }
        AdmissionRecorded(c, s, s1, p, now, later);
        hide AdmissionsOk;
        hide TasksOk;
        hide FlightsOk;
        assert FlightsOk(s1) by { FlightsUnchanged(s, s1); }
        WaitingKeepsInv(c, s1, k, p, true, now);
      }
    }
  }

  lemma AdmissionRecorded(c: Config, s: State, s': State, p: string, now: int, later: int)
    requires AdmissionsOk(c, s) && s.clock <= now <= later && now - LastForced(s, p) >= c.cooldownMs
    requires s'.lastForcedRefreshAtMs == s.lastForcedRefreshAtMs[p := later] && s'.clock == later
    requires s'.admitted == s.admitted + [Admission(p, later)]
    ensures AdmissionsOk(c, s')
  {
    var n := |s.admitted|;
    assert s'.admitted[n] == Admission(p, later);
    forall q | q in s'.lastForcedRefreshAtMs ensures WasAdmitted(s'.admitted, q, s'.lastForcedRefreshAtMs[q]) {
      if q != p {
        var i :| 0 <= i < n && s.admitted[i] == Admission(q, s.lastForcedRefreshAtMs[q]);
        assert s'.admitted[i] == s.admitted[i];
      }
    }
  }

  lemma FlightsUnchanged(s: State, s': State)
    requires FlightsOk(s) && s'.flights == s.flights && s'.inFlight == s.inFlight && s'.cache == s.cache
    ensures FlightsOk(s')
  {
  }

  lemma SettleKeepsInv(c: Config, s: State, f: nat, reply: Option<seq<Jwk>>, now: int)
    requires Inv(c, s)
    ensures Inv(c, SettleStep(s, f, reply, now))
  {
    var s1 := SettleStep(s, f, reply, now);
    if s1 != s {
      forall j | j in s1.tasks ensures TaskOk(c, s1, s1.tasks[j]) {
        assert TaskOk(c, s, s.tasks[j]);
      }
    }
  }

  lemma FinallyKeepsInv(c: Config, s: State, p: string)
    requires Inv(c, s)
    ensures Inv(c, FinallyStep(s, p))
  {
    var s1 := FinallyStep(s, p);
    forall j | j in s1.tasks ensures TaskOk(c, s1, s1.tasks[j]) {
      assert TaskOk(c, s, s.tasks[j]);
    }
  }

  lemma ResumeKeepsInv(c: Config, s: State, k: nat)
    requires Inv(c, s)
    ensures Inv(c, ResumeStep(s, k))
  {
    var s1 := ResumeStep(s, k);
    FlightsUnchanged(s, s1);
    hide FlightsOk;
    hide AdmissionsOk;
    forall j | j in s1.tasks ensures TaskOk(c, s1, s1.tasks[j]) {
      assert TaskOk(c, s, s.tasks[j]);
    }
    hide TaskOk;
    assert AdmissionsOk(c, s1) by { AdmissionsUnchanged(c, s, s1); }
  }

  lemma AdmissionsUnchanged(c: Config, s: State, s': State)
    requires AdmissionsOk(c, s) && s'.admitted == s.admitted && s'.lastForcedRefreshAtMs == s.lastForcedRefreshAtMs
    requires s.clock <= s'.clock
    ensures AdmissionsOk(c, s')
  {
  }

  lemma {:induction false} RunKeepsInv(c: Config, actions: seq<Action>)
    ensures Inv(c, Run(c, INIT, actions))
  {
    if actions != [] {
      var s := Run(c, INIT, actions[..|actions| - 1]);
      RunKeepsInv(c, actions[..|actions| - 1]);
      hide Inv;
      match actions[|actions| - 1] {
        case GetKeys(k, p, now) => GetKeysKeepsInv(c, s, k, p, now);
        case ForceRefresh(k, p, now, later) => ForceKeepsInv(c, s, k, p, now, later);
        case Settle(f, reply, now) => SettleKeepsInv(c, s, f, reply, now);
        case Finally(p) => FinallyKeepsInv(c, s, p);
        case Resume(k) => ResumeKeepsInv(c, s, k);
      }
    }
  }

  // --------------------------------------------------------------------------------------- what it gives

  /** At no time are two network calls outstanding for one project. */
  lemma SingleFlight(c: Config, actions: seq<Action>, f: nat, g: nat)
    requires var s := Run(c, INIT, actions);
             f < |s.flights| && g < |s.flights| && s.flights[f].status == Outstanding && s.flights[g].status == Outstanding
    requires Run(c, INIT, actions).flights[f].project == Run(c, INIT, actions).flights[g].project
    ensures f == g
  {
    RunKeepsInv(c, actions);
  }

  /**
   * What `getKeys` answers: keys younger than the TTL; or the keys of the shared call; or, that call
   * having failed, exactly what was cached at the moment it failed, an error if that was nothing.
   */
  lemma GetKeysAnswers(c: Config, actions: seq<Action>, k: nat)
    requires var s := Run(c, INIT, actions);
             k in s.tasks && !s.tasks[k].forced && s.tasks[k].answer.Some?
    ensures var s := Run(c, INIT, actions); var t := s.tasks[k];
            match t.flight
            case None => t.answer.value.Keys? && t.startedAt - t.answer.value.entry.fetchedAtMs < c.ttlMs
            case Some(f) =>
              f < |s.flights| && s.flights[f].project == t.project &&
              match s.flights[f].status
              case Outstanding => false
              case Succeeded(e) => t.answer.value == Keys(e)
              case Failed(known) => t.answer.value == if known.Some? then Keys(known.value) else Threw
  {
    RunKeepsInv(c, actions);
    assert TaskOk(c, Run(c, INIT, actions), Run(c, INIT, actions).tasks[k]);
  }

  /** A call of `getKeys` for p that started after the run `before` found something in the cache. */
  ghost predicate StartedWithKeys(before: State, s: State, p: string) {
    && p in s.cache
    && (forall k :: k in before.tasks ==> k in s.tasks)
    && (forall k :: k in s.tasks && k !in before.tasks && s.tasks[k].project == p ==> s.tasks[k].existant.Some?)
  }

  lemma StepStartsWithKeys(c: Config, before: State, s: State, p: string, a: Action)
    requires StartedWithKeys(before, s, p)
    ensures StartedWithKeys(before, Next(c, s, a), p)
  {
  }

  lemma {:induction false} LaterCallsStartWithKeys(c: Config, before: State, rest: seq<Action>, p: string)
    requires p in before.cache
    ensures StartedWithKeys(before, Run(c, before, rest), p)
    decreases |rest|
  {
    if rest != [] {
      LaterCallsStartWithKeys(c, before, rest[..|rest| - 1], p);
      StepStartsWithKeys(c, before, Run(c, before, rest[..|rest| - 1]), p, rest[|rest| - 1]);
    }
  }

  lemma {:induction false} RunAppend(c: Config, s: State, first: seq<Action>, rest: seq<Action>)
    ensures Run(c, s, first + rest) == Run(c, Run(c, s, first), rest)
    decreases |rest|
  {
    hide Next;
    if rest == [] {
      assert first + rest == first;
    } else {
      var n := |rest| - 1;
      assert (first + rest)[..|first| + n] == first + rest[..n];
      RunAppend(c, s, first, rest[..n]);
    }
  }

  /** Once a call for the project has succeeded, `getKeys` called from then on never throws. */
  lemma NeverFailsOnceCached(c: Config, first: seq<Action>, rest: seq<Action>, p: string, k: nat)
    requires p in Run(c, INIT, first).cache && k !in Run(c, INIT, first).tasks
    requires var s := Run(c, INIT, first + rest);
             k in s.tasks && s.tasks[k].project == p && !s.tasks[k].forced && s.tasks[k].answer.Some?
    ensures Run(c, INIT, first + rest).tasks[k].answer.value.Keys?
  {
    RunAppend(c, INIT, first, rest);
    LaterCallsStartWithKeys(c, Run(c, INIT, first), rest, p);
    RunKeepsInv(c, first + rest);
    assert TaskOk(c, Run(c, INIT, first + rest), Run(c, INIT, first + rest).tasks[k]);
  }

  /** A success is cached, and the cache only ever changes by a success. */
  lemma CacheHoldsTheLastSuccess(c: Config, s: State, a: Action, p: string)
    ensures var s' := Next(c, s, a);
            || Get(s'.cache, p) == Get(s.cache, p)
            || (a.Settle? && a.reply.Some? && a.f < |s.flights| && s.flights[a.f] == Flight(p, Outstanding)
                && Get(s'.cache, p) == Some(CachedJwks(a.reply.value, a.now))
                && s'.flights[a.f].status == Succeeded(CachedJwks(a.reply.value, a.now)))
  {
  }

  /** The caller waits for the project's one call: the one under way, or else a new one, and that is all that is started. */
  ghost predicate WaitsForOneCall(s: State, s': State, k: nat, p: string, forced: bool, now: int) {
    && p in s'.inFlight && s'.tasks == s.tasks[k := Task(p, forced, now, Get(s.cache, p), Some(s'.inFlight[p]), None)]
    && (if p in s.inFlight then s'.flights == s.flights && s'.inFlight == s.inFlight
        else s'.flights == s.flights + [Flight(p, Outstanding)] && s'.inFlight == s.inFlight[p := |s.flights|])
    && s'.cache == s.cache
  }

  /** The caller has its answer and nothing else happens. */
  ghost predicate AnsweredAtOnce(s: State, s': State, k: nat, answer: Answer) {
    && k in s'.tasks && s'.tasks[k].answer == Some(answer) && s'.tasks[k].flight == None
    && s'.flights == s.flights && s'.inFlight == s.inFlight && s'.cache == s.cache && s'.admitted == s.admitted
  }

  /** A set younger than the TTL is answered at once, without a network call; otherwise the caller waits for one. */
  lemma FreshSetIsServed(c: Config, s: State, k: nat, p: string, now: int)
    requires k !in s.tasks && s.clock <= now
    ensures var s' := Next(c, s, GetKeys(k, p, now));
            if p in s.cache && now - s.cache[p].fetchedAtMs < c.ttlMs then AnsweredAtOnce(s, s', k, Keys(s.cache[p]))
            else WaitsForOneCall(s, s', k, p, false, now) && s'.admitted == s.admitted
  {
  }

  ghost predicate CooledDown(c: Config, s: State, p: string, now: int) {
    && (forall i :: 0 <= i < |s.admitted| && s.admitted[i].project == p ==> now - s.admitted[i].at >= c.cooldownMs)
    && ((forall i :: 0 <= i < |s.admitted| ==> s.admitted[i].project != p) ==> now >= c.cooldownMs)
  }

  lemma CooledDownIff(c: Config, s: State, p: string, now: int)
    requires AdmissionsOk(c, s)
    ensures CooledDown(c, s, p, now) <==> now - LastForced(s, p) >= c.cooldownMs
  {
    if p in s.lastForcedRefreshAtMs {
      var i: nat :| i < |s.admitted| && s.admitted[i] == Admission(p, s.lastForcedRefreshAtMs[p]);
      assert s.admitted[i].project == p;
    }
    hide Spaced;
  }

  lemma ForceOutcome(c: Config, s: State, k: nat, p: string, now: int, later: int)
    requires k !in s.tasks && s.clock <= now <= later
    ensures var s' := Next(c, s, ForceRefresh(k, p, now, later));
            if now - LastForced(s, p) >= c.cooldownMs
            then s'.admitted == s.admitted + [Admission(p, later)] && WaitsForOneCall(s, s', k, p, true, now)
            else AnsweredAtOnce(s, s', k, NoKeys)
  {
  }

  /**
   * A forced refresh is admitted exactly when the cooldown has passed since every earlier one of the project, and since
   * the origin of time when there was none. Admitted, it waits for a network call; refused, it answers without keys.
   */
  lemma ForcedIffCooledDown(c: Config, actions: seq<Action>, k: nat, p: string, now: int, later: int)
    requires var s := Run(c, INIT, actions); k !in s.tasks && s.clock <= now <= later
    ensures var s := Run(c, INIT, actions); var s' := Next(c, s, ForceRefresh(k, p, now, later));
            if CooledDown(c, s, p, now)
            then s'.admitted == s.admitted + [Admission(p, later)] && WaitsForOneCall(s, s', k, p, true, now)
            else AnsweredAtOnce(s, s', k, NoKeys)
  {
    hide *;
    var s := Run(c, INIT, actions);
    assert AdmissionsOk(c, s) by { AdmissionsInv(c, actions); }
    CooledDownIff(c, s, p, now);
    ForceOutcome(c, s, k, p, now, later);
  }

  lemma AdmissionsInv(c: Config, actions: seq<Action>)
    ensures AdmissionsOk(c, Run(c, INIT, actions))
  {
    RunKeepsInv(c, actions);
    hide Run;
    hide AdmissionsOk;
  }

  /** What a forced refresh answers: the keys of its call, or none when the call failed or it was refused. */
  lemma ForcedAnswers(c: Config, actions: seq<Action>, k: nat)
    requires var s := Run(c, INIT, actions); k in s.tasks && s.tasks[k].forced && s.tasks[k].answer.Some?
    ensures var s := Run(c, INIT, actions); var t := s.tasks[k];
            match t.flight
            case None => t.answer.value == NoKeys
            case Some(f) =>
              f < |s.flights| && s.flights[f].project == t.project &&
              match s.flights[f].status
              case Outstanding => false
              case Succeeded(e) => t.answer.value == Keys(e)
              case Failed(_) => t.answer.value == NoKeys
  {
    RunKeepsInv(c, actions);
    assert TaskOk(c, Run(c, INIT, actions), Run(c, INIT, actions).tasks[k]);
  }

  /** A call once made keeps its project, its kind and the network call it waits for; it is answered once. */
  lemma CallsOnlyGainAnswers(c: Config, s: State, a: Action, k: nat)
    requires k in s.tasks
    ensures var s' := Next(c, s, a);
            && k in s'.tasks && s'.tasks[k] == s.tasks[k].(answer := s'.tasks[k].answer)
            && (s.tasks[k].answer.Some? ==> s'.tasks[k].answer == s.tasks[k].answer)
  {
  }

  /**
   * Three stretches bring a waiting caller its answer: the end of its network call, which alone changes the cache, the
   * `finally`, after which the project has no call under way, and the caller's own continuation.
   */
  lemma WaiterGetsItsAnswer(c: Config, actions: seq<Action>, k: nat, f: nat, reply: Option<seq<Jwk>>, now: int)
    requires var s := Run(c, INIT, actions);
             && k in s.tasks && s.tasks[k].answer == None && s.tasks[k].flight == Some(f)
             && f < |s.flights| && s.flights[f].status == Outstanding && s.clock <= now
    ensures var s := Run(c, INIT, actions); var t := s.tasks[k]; var p := t.project;
            var s1 := Next(c, s, Settle(f, reply, now)); var s2 := Next(c, s1, Finally(p)); var s3 := Next(c, s2, Resume(k));
            && s1.cache == (if reply.Some? then s.cache[p := CachedJwks(reply.value, now)] else s.cache)
            && s1.flights == s.flights[f := Flight(p, if reply.Some? then Succeeded(CachedJwks(reply.value, now)) else Failed(Get(s.cache, p)))]
            && p in s1.inFlight && s2.inFlight == s.inFlight - {p} && s2.cache == s1.cache && s2.flights == s1.flights
            && k in s3.tasks
            && s3.tasks[k].answer == Some(if reply.Some? then Keys(CachedJwks(reply.value, now))
                                          else if t.forced then NoKeys
                                          else if p in s.cache then Keys(s.cache[p]) else Threw)
            && s3.cache == s2.cache && s3.flights == s2.flights && s3.inFlight == s2.inFlight
  {
    RunKeepsInv(c, actions);
    hide Run;
    hide AdmissionsOk;
    assert TaskOk(c, Run(c, INIT, actions), Run(c, INIT, actions).tasks[k]);
  }

  function Count(admitted: seq<Admission>, p: string, from: int, to: int): nat {
    if admitted == [] then 0
    else
      var last := admitted[|admitted| - 1];
      Count(admitted[..|admitted| - 1], p, from, to) + if last.project == p && from <= last.at <= to then 1 else 0
  }

  lemma {:induction false} LastInWindow(c: Config, admitted: seq<Admission>, p: string, from: int, to: int) returns (i: nat)
    requires Spaced(c, admitted) && c.cooldownMs >= 0 && Count(admitted, p, from, to) >= 1
    ensures i < |admitted| && admitted[i].project == p && admitted[i].at <= to
    ensures admitted[i].at >= from + (Count(admitted, p, from, to) - 1) * c.cooldownMs
  {
    var n := |admitted| - 1;
    var init, last := admitted[..n], admitted[n];
    var m := Count(init, p, from, to);
    if m == 0 {
      i := n;
    } else {
      i := LastInWindow(c, init, p, from, to);
      if last.project == p && from <= last.at <= to {
        OneMore(m - 1, c.cooldownMs);
        i := n;
      }
    }
  }

  /** However many verifications run, a window of length w admits at most floor(w / cooldown) + 1 forced refreshes. */
  lemma ForcedRefreshRate(c: Config, actions: seq<Action>, p: string, from: int, w: nat)
    requires c.cooldownMs >= 1
    ensures Count(Run(c, INIT, actions).admitted, p, from, from + w) <= w / c.cooldownMs + 1
  {
    RunKeepsInv(c, actions);
    hide *;
    assert Spaced(c, Run(c, INIT, actions).admitted) by { AdmissionsAreSpaced(c, Run(c, INIT, actions)); }
    WindowBound(c, Run(c, INIT, actions).admitted, p, from, w);
  }

  lemma AdmissionsAreSpaced(c: Config, s: State)
    requires Inv(c, s)
    ensures Spaced(c, s.admitted)
  {
  }

  lemma WindowBound(c: Config, admitted: seq<Admission>, p: string, from: int, w: nat)
    requires c.cooldownMs >= 1 && Spaced(c, admitted)
    ensures Count(admitted, p, from, from + w) <= w / c.cooldownMs + 1
  {
    var n := Count(admitted, p, from, from + w);
    if n >= 1 {
      var i := LastInWindow(c, admitted, p, from, from + w);
      Quotient(n - 1, c.cooldownMs, w);
    }
  }
}
