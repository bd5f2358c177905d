/** The portal's tables behind one mutex: web sessions, capped in all and per principal, and the login buckets. */
module WebServer {
  import opened Basics
  import opened LoginThrottle

  const SESSION_TTL := 12 * 3600 * SECOND
  const MAX_SESSIONS := 1024
  const MAX_PER_PRINCIPAL := 16

  datatype Principal = Admin | User(id: int)

  datatype WebSession = WebSession(
    expires: nat, csrf: string, principal: Principal, username: string, authVersion: int, mustChange: bool)

  datatype Credential = Credential(
    hash: string, principal: Principal, username: string, authVersion: int, mustChange: bool, disabled: bool)

  /** What credentialForUsername answers when there is no such account. */
  const NO_CREDENTIAL := Credential("", User(0), "", 0, false, false)

  type Sessions = map<string, WebSession>

  function Unexpired(sessions: Sessions, now: nat): Sessions {
    map id | id in sessions && now < sessions[id].expires :: sessions[id]
  }

  function OwnedBy(sessions: Sessions, p: Principal): set<string> {
    set id | id in sessions && sessions[id].principal == p
  }

  /** The re-read credential is still the one the password was checked against. */
  predicate StillCurrent(current: Credential, cred: Credential) {
    && current.hash != "" && current.hash == cred.hash && !current.disabled
    && current.principal == cred.principal && current.authVersion == cred.authVersion
  }

  function NewSession(cred: Credential, csrf: string, now: nat): WebSession {
    WebSession(now + SESSION_TTL, csrf, cred.principal, cred.username, cred.authVersion, cred.mustChange)
  }

  /** An earliest-expiring session of the principal. */
  predicate Oldest(sessions: Sessions, p: Principal, id: string) {
    && id in OwnedBy(sessions, p)
    && forall other :: other in OwnedBy(sessions, p) ==> sessions[id].expires <= sessions[other].expires
  }

  ghost predicate Capped(sessions: Sessions) {
    |sessions| <= 1024 && forall p: Principal :: |OwnedBy(sessions, p)| <= 16
  }

  class Server {
    var sessions: Sessions
    var fails: Buckets
    var ipFails: Buckets
    const normal: string -> string

    /** Session ids are never blank; the code uses the blank id for "none found yet". */
    ghost predicate Valid()
      reads this
    {
      Capped(sessions) && "" !in sessions
    }

    constructor (normal: string -> string)
      ensures Valid() && sessions == map[] && fails == map[] && ipFails == map[] && this.normal == normal
    {
      sessions, fails, ipFails, this.normal := map[], map[], map[], normal;
      new;
      assert forall p :: OwnedBy(sessions, p) == {};
    }

    method PruneSessions(now: nat)
      modifies `sessions
      ensures forall id :: id in sessions <==> id in old(sessions) && now < old(sessions)[id].expires
      ensures forall id :: id in sessions ==> sessions[id] == old(sessions)[id]
      ensures sessions == Unexpired(old(sessions), now)
    {
      var before := sessions;
      var todo := sessions.Keys;
      while todo != {}
        invariant todo <= before.Keys
        invariant forall k :: k in sessions ==>
                    k in before && sessions[k] == before[k] && (k in todo || now < before[k].expires)
        invariant forall k :: k in before && (k in todo || now < before[k].expires) ==> k in sessions
      {
        var id :| id in todo;
        if !(now < before[id].expires) { sessions := sessions - {id}; }
        todo := todo - {id};
      }
      assert sessions == Unexpired(before, now);
    }

    /** The scan under the lock: how many sessions the principal has and, if any, an earliest-expiring one. */
    method Scan(p: Principal) returns (count: nat, oldest: string)
      requires "" !in sessions
      ensures count == |OwnedBy(sessions, p)|
      ensures count > 0 ==> Oldest(sessions, p, oldest)
    {
      count, oldest := 0, "";
      var oldestExpiry := 0;
      var todo := sessions.Keys;
      ghost var seen: set<string> := {};
      while todo != {}
        invariant todo <= sessions.Keys
        invariant forall id :: id in seen <==> id in sessions && id !in todo && sessions[id].principal == p
        invariant count == |seen|
        invariant oldest == "" <==> seen == {}
        invariant oldest != "" ==> oldest in seen && oldestExpiry == sessions[oldest].expires
        invariant forall id :: id in seen ==> sessions[oldest].expires <= sessions[id].expires
      {
        var id :| id in todo;
        todo := todo - {id};
        var sess := sessions[id];
        if sess.principal != p { continue; }
        count := count + 1;
        if oldest == "" || sess.expires < oldestExpiry { oldest, oldestExpiry := id, sess.expires; }
        seen := seen + {id};
      }
      assert seen == OwnedBy(sessions, p);
    }

    /** Inserts the session of a verified login. A principal at its own cap pays with its earliest-expiring
        session and is never refused; the global cap refuses only a principal below its own cap, and only
        while it is full of unexpired sessions. The clock is read twice, for pruning and for the expiry. */
    method CreateSession(
      id: string, lockKey: string, cred: Credential, current: Credential, csrf: string, now: nat, later: nat)
      returns (ok: bool)
      requires Valid() && id != ""
      modifies `sessions, `fails
      ensures Valid()
      ensures ok ==> && id in sessions
                     && sessions[id] == WebSession(later + 43_200_000_000_000, csrf, cred.principal, cred.username,
                                                   cred.authVersion, cred.mustChange)
      ensures ok <==>
              && current.hash != "" && current.hash == cred.hash && !current.disabled
              && current.principal == cred.principal && current.authVersion == cred.authVersion
              && (|OwnedBy(Unexpired(old(sessions), now), cred.principal)| >= 16
                  || |Unexpired(old(sessions), now)| < 1024)
      ensures !ok ==> fails == old(fails)
      ensures !ok ==> sessions == if StillCurrent(current, cred) then Unexpired(old(sessions), now) else old(sessions)
      ensures ok ==> fails == old(fails) - {lockKey}
      ensures ok ==> Inserted(Unexpired(old(sessions), now), sessions, id, NewSession(cred, csrf, later))
    {
      if !StillCurrent(current, cred) { return false; }
      PruneSessions(now);
      var live := sessions;
      UnexpiredCapped(old(sessions), now);
      var count, oldest := Scan(cred.principal);
      if count >= MAX_PER_PRINCIPAL { sessions := sessions - {oldest}; }
      if |sessions| >= MAX_SESSIONS {
        assert count < MAX_PER_PRINCIPAL;
        return false;
      }
      fails := fails - {lockKey};
      ghost var room := sessions;
      sessions := sessions[id := NewSession(cred, csrf, later)];
      RoomMade(live, room, cred.principal, oldest);
      InsertCapped(room, id, NewSession(cred, csrf, later));
      return true;
    }

    /** The look-up of a request: accepted until and including its expiry while its credential is current; a
        session that is not accepted is taken out of the table, and nothing else is. */
    method CurrentSession(id: string, credentialCurrent: WebSession -> bool, now: nat) returns (r: Option<WebSession>)
      requires Valid()
      modifies `sessions
      ensures Valid()
      ensures r.Some? <==>
              id in old(sessions) && now <= old(sessions)[id].expires && credentialCurrent(old(sessions)[id])
      ensures r.Some? ==> r.value == old(sessions)[id] && sessions == old(sessions)
      ensures r.None? ==> sessions == old(sessions) - {id}
    {
      if id !in sessions || now > sessions[id].expires || !credentialCurrent(sessions[id]) {
        ghost var before := sessions;
        sessions := sessions - {id};
        FewerCapped(before, sessions);
        return None;
      }
      return Some(sessions[id]);
    }

    method InvalidatePrincipal(p: Principal)
      requires Valid()
      modifies `sessions
      ensures Valid()
      ensures sessions == map id | id in old(sessions) && old(sessions)[id].principal != p :: old(sessions)[id]
    {
      var before := sessions;
      var todo := sessions.Keys;
      while todo != {}
        invariant todo <= before.Keys
        invariant forall k :: k in sessions ==>
                    k in before && sessions[k] == before[k] && (k in todo || before[k].principal != p)
        invariant forall k :: k in before && (k in todo || before[k].principal != p) ==> k in sessions
      {
        var id :| id in todo;
        if sessions[id].principal == p { sessions := sessions - {id}; }
        todo := todo - {id};
      }
      FewerCapped(before, sessions);
    }

    static method PruneBuckets(buckets: Buckets, now: nat) returns (kept: Buckets)
      ensures kept == Pruned(buckets, now)
    {
      kept := buckets;
      var todo := buckets.Keys;
      while todo != {}
        invariant todo <= buckets.Keys
        invariant forall k :: k in kept ==>
                    k in buckets && kept[k] == buckets[k] && (k in todo || !Forgotten(buckets[k], now))
        invariant forall k :: k in buckets && (k in todo || !Forgotten(buckets[k], now)) ==> k in kept
      {
        var key :| key in todo;
        if now >= buckets[key].until && now - buckets[key].lastSeen > RETENTION { kept := kept - {key}; }
        todo := todo - {key};
      }
      assert kept == Pruned(buckets, now);
    }

    static method AllowAttempt(buckets: Buckets, key: string, limit: nat, now: nat) returns (ok: bool, after: Buckets)
      requires limit > 0
      ensures ok == Admits(buckets, key, limit, now)
      ensures after == Allow(buckets, key, limit, now)
    {
      if key !in buckets && |buckets| >= MAX_ENTRIES { return false, buckets; }
      var f := if key in buckets then buckets[key] else Bucket(0, 0, 0);
      if f.count >= limit {
        if now < f.until { return false, buckets; }
        f := Bucket(0, 0, 0);
      }
      f := f.(count := f.count + 1, lastSeen := now);
      if f.count >= limit { f := f.(until := now + LOCKOUT); }
      return true, buckets[key := f];
    }

    /** The address bucket is charged first, and stays charged when the name bucket refuses. */
    method BeginLoginAttempt(ip: string, username: string, now: nat) returns (ok: bool)
      modifies `fails, `ipFails
      ensures var step := Step(old(Tables(fails, ipFails)), Attempt(ip, FailureKey(normal, ip, username), now));
              ok == step.admitted && Tables(fails, ipFails) == step.after
    {
      fails := PruneBuckets(fails, now);
      ipFails := PruneBuckets(ipFails, now);
      ok, ipFails := AllowAttempt(ipFails, ip, MAX_IP_ATTEMPTS, now);
      if !ok { return; }
      ok, fails := AllowAttempt(fails, FailureKey(normal, ip, username), MAX_LOGIN_FAILS, now);
    }
  }

  // ---------- what an insertion does to a table, and the caps over any history ----------

  /** after is before with the session under id, less one earliest-expiring session of the same principal
      when that principal was at its cap. */
  ghost predicate Inserted(before: Sessions, after: Sessions, id: string, session: WebSession) {
    if |OwnedBy(before, session.principal)| < MAX_PER_PRINCIPAL then after == before[id := session]
    else exists victim :: Oldest(before, session.principal, victim) && after == (before - {victim})[id := session]
  }

  lemma FewerCapped(before: Sessions, after: Sessions)
    requires Capped(before)
    requires forall id :: id in after ==> id in before && after[id].principal == before[id].principal
    ensures Capped(after)
  {
    SubsetSize(after.Keys, before.Keys);
    forall p: Principal ensures |OwnedBy(after, p)| <= MAX_PER_PRINCIPAL {
      SubsetSize(OwnedBy(after, p), OwnedBy(before, p));
    }
  }

  lemma UnexpiredCapped(sessions: Sessions, now: nat)
    requires Capped(sessions)
    ensures Capped(Unexpired(sessions, now))
  {
    FewerCapped(sessions, Unexpired(sessions, now));
  }

  lemma RoomMade(live: Sessions, room: Sessions, p: Principal, oldest: string)
    requires Capped(live)
    requires if |OwnedBy(live, p)| >= MAX_PER_PRINCIPAL then Oldest(live, p, oldest) && room == live - {oldest}
             else room == live
    ensures Capped(room) && |OwnedBy(room, p)| < MAX_PER_PRINCIPAL
  {
    FewerCapped(live, room);
    if |OwnedBy(live, p)| >= MAX_PER_PRINCIPAL {
      assert OwnedBy(room, p) == OwnedBy(live, p) - {oldest};
    }
  }

  lemma InsertCapped(room: Sessions, id: string, session: WebSession)
    requires Capped(room) && |room| < MAX_SESSIONS && |OwnedBy(room, session.principal)| < MAX_PER_PRINCIPAL
    ensures Capped(room[id := session])
  {
    var after := room[id := session];
    assert after.Keys == room.Keys + {id};
    forall p: Principal ensures |OwnedBy(after, p)| <= MAX_PER_PRINCIPAL {
      SubsetSize(OwnedBy(after, p), OwnedBy(room, p) + if p == session.principal then {id} else {});
    }
  }
}
