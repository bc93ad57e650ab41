/**
 * The session verifier as it is written: maps updated in place, one method for each stretch of code
 * between two `await`s, and the loop over the candidate keys
 * (src/identity/infrastructure/security/supabase-session-verifier.adapter.ts).
 */
module JwksVerifier {
  import opened Prelude
  import opened JwksCache

  /** `tryVerifyWithKeys`, as a search: the first key that fits, in the order of the set. */
  function FirstAccepted(keys: seq<Jwk>, kid: Option<string>, accepts: Jwk -> Option<string>): (r: Option<string>)
    ensures r.Some? <==> exists j :: 0 <= j < |keys| && Candidate(keys[j], kid) && accepts(keys[j]).Some?
  {
    if keys == [] then None
    else if Candidate(keys[0], kid) && accepts(keys[0]).Some? then accepts(keys[0])
    else FirstAccepted(keys[1..], kid, accepts)
  }

  /** Without a key identifier in the token's header every key is tried. */
  predicate Candidate(key: Jwk, kid: Option<string>) {
    kid.None? || kid.value == "" || key.kid == kid
  }

  /** The key at j may have signed the token and accepts it, and no key before it does. */
  predicate IsFirstAccepted(keys: seq<Jwk>, kid: Option<string>, accepts: Jwk -> Option<string>, j: nat) {
    && j < |keys| && (kid.None? || kid == Some("") || keys[j].kid == kid) && accepts(keys[j]).Some?
    && forall i :: 0 <= i < j && (kid.None? || kid == Some("") || keys[i].kid == kid) ==> accepts(keys[i]).None?
  }

  /** The answer is what the first fitting key gave, and nothing exactly when no key fits. */
  lemma {:induction false} FirstAcceptedIff(keys: seq<Jwk>, kid: Option<string>, accepts: Jwk -> Option<string>)
    ensures var r := FirstAccepted(keys, kid, accepts);
            if r.Some? then exists j: nat :: IsFirstAccepted(keys, kid, accepts, j) && r == accepts(keys[j])
            else forall j :: 0 <= j < |keys| && (kid.None? || kid == Some("") || keys[j].kid == kid) ==> accepts(keys[j]).None?
  {
    if keys != [] {
      if Candidate(keys[0], kid) && accepts(keys[0]).Some? {
        assert IsFirstAccepted(keys, kid, accepts, 0);
      } else {
        FirstAcceptedIff(keys[1..], kid, accepts);
        if FirstAccepted(keys[1..], kid, accepts).Some? {
          var j: nat :| IsFirstAccepted(keys[1..], kid, accepts, j)
                        && FirstAccepted(keys[1..], kid, accepts) == accepts(keys[1..][j]);
          assert IsFirstAccepted(keys, kid, accepts, j + 1) by {
            forall i | 0 <= i < j + 1 && Candidate(keys[i], kid) ensures accepts(keys[i]).None? {
              if i > 0 { assert keys[i] == keys[1..][i - 1]; }
            }
          }
        } else {
          forall j | 0 <= j < |keys| && Candidate(keys[j], kid) ensures accepts(keys[j]).None? {
            if j > 0 { assert keys[j] == keys[1..][j - 1]; }
          }
        }
      }
    }
  }

  lemma {:induction false} FirstAcceptedSkips(keys: seq<Jwk>, kid: Option<string>, accepts: Jwk -> Option<string>, i: nat)
    requires i <= |keys|
    requires forall j :: 0 <= j < i ==> !(Candidate(keys[j], kid) && accepts(keys[j]).Some?)
    ensures FirstAccepted(keys, kid, accepts) == FirstAccepted(keys[i..], kid, accepts)
  {
    if i > 0 {
      FirstAcceptedSkips(keys[1..], kid, accepts, i - 1);
      assert keys[1..][i - 1..] == keys[i..];
    } else {
      assert keys[0..] == keys;
    }
  }

  class JoseSupabaseSessionVerifier {
    const config: Config
    var cache: map<string, CachedJwks>
    var inFlight: map<string, nat>
    var lastForcedRefreshAtMs: map<string, int>
    // What the language's runtime keeps: the promises, the suspended calls and the clock.
    var flights: seq<Flight>
    var tasks: map<nat, Task>
    ghost var admitted: seq<Admission>
    var clock: int

    constructor (config: Config)
      ensures this.config == config && View() == INIT
    {
      this.config := config;
      cache, inFlight, lastForcedRefreshAtMs := map[], map[], map[];
      flights, tasks, admitted, clock := [], map[], [], 0;
    }

    ghost function View(): State
      reads this
    {
      State(cache, inFlight, lastForcedRefreshAtMs, flights, tasks, admitted, clock)
    }

    /** The promise of the call under way for the project, or of the call this starts. */
    method FetchAndCache(p: string) returns (f: nat)
      modifies this
      ensures View() == Fetch(old(View()), p)
      ensures p in inFlight && f == inFlight[p]
    {
      if p in inFlight { return inFlight[p]; }
      f := |flights|;
      flights := flights + [Flight(p, Outstanding)];
      inFlight := inFlight[p := f];
    }

    method GetKeys(k: nat, p: string, now: int)
      requires k !in tasks && clock <= now
      modifies this
      ensures View() == Next(config, old(View()), Action.GetKeys(k, p, now))
    {
      clock := now;
      var existant := if p in cache then Some(cache[p]) else None;
      if existant.Some? && now - existant.value.fetchedAtMs < config.ttlMs {
        tasks := tasks[k := Task(p, false, now, existant, None, Some(Keys(existant.value)))];
        return;
      }
      var f := FetchAndCache(p);
      tasks := tasks[k := Task(p, false, now, existant, Some(f), None)];
    }

    method ForceRefreshIfAllowed(k: nat, p: string, now: int, later: int)
      requires k !in tasks && clock <= now <= later
      modifies this
      ensures View() == Next(config, old(View()), Action.ForceRefresh(k, p, now, later))
    {
      var dernierForcage := if p in lastForcedRefreshAtMs then lastForcedRefreshAtMs[p] else 0;
      var existant := if p in cache then Some(cache[p]) else None;
      clock := now;
      if now - dernierForcage < config.cooldownMs {
        tasks := tasks[k := Task(p, true, now, existant, None, Some(NoKeys))];
        return;
      }
      clock := later;
      lastForcedRefreshAtMs := lastForcedRefreshAtMs[p := later];
      admitted := admitted + [Admission(p, later)];
      var f := FetchAndCache(p);
      tasks := tasks[k := Task(p, true, now, existant, Some(f), None)];
    }

    /** The `then` of `fetchAndCache`, or the rejection of its promise. */
    method FetchEnds(f: nat, reply: Option<seq<Jwk>>, now: int)
      requires f < |flights| && flights[f].status == Outstanding && clock <= now
      modifies this
      ensures View() == Next(config, old(View()), Settle(f, reply, now))
    {
      clock := now;
      var p := flights[f].project;
      if reply.Some? {
        var entry := CachedJwks(reply.value, now);
        cache := cache[p := entry];
        flights := flights[f := Flight(p, Succeeded(entry))];
      } else {
        flights := flights[f := Flight(p, Failed(if p in cache then Some(cache[p]) else None))];
      }
    }

    method FetchFinally(p: string)
      requires p in inFlight && Settled(View(), inFlight[p])
      modifies this
      ensures View() == Next(config, old(View()), Finally(p))
    {
      inFlight := inFlight - {p};
    }

    /** What a caller does once the promise it awaits is settled and its `finally` has run. */
    method Resume(k: nat)
      requires k in tasks && tasks[k].answer.None? && tasks[k].flight.Some? && Settled(View(), tasks[k].flight.value)
      requires tasks[k].project in inFlight ==> inFlight[tasks[k].project] != tasks[k].flight.value
      modifies this
      ensures View() == Next(config, old(View()), Action.Resume(k))
    {
      var call := tasks[k];
      var answer := match flights[call.flight.value].status
        case Succeeded(entry) => Keys(entry)
        case _ =>
          if call.forced then NoKeys
          else match call.existant
            case Some(entry) => Keys(entry)
            case None => Threw;
      tasks := tasks[k := call.(answer := Some(answer))];
    }

    method TryVerifyWithKeys(keys: seq<Jwk>, kid: Option<string>, accepts: Jwk -> Option<string>)
      returns (payload: Option<string>)
      ensures payload == FirstAccepted(keys, kid, accepts)
    {
      payload := None;
      var i := 0;
      while i < |keys|
        invariant 0 <= i <= |keys| && payload == None
        invariant forall j :: 0 <= j < i ==> !(Candidate(keys[j], kid) && accepts(keys[j]).Some?)
      {
        if Candidate(keys[i], kid) {
          payload := accepts(keys[i]);
          if payload.Some? {
            FirstAcceptedSkips(keys, kid, accepts, i);
            return;
          }
        }
        i := i + 1;
      }
      FirstAcceptedSkips(keys, kid, accepts, i);
    }
  }
}
