/** What holds of the relay over whole runs, whatever interleaves. */
module RelayTheorems {
  import opened Basics
  import opened RelayDb
  import opened RelaySystem
  import opened RelayInvariants

  // ---------- one public address, one live tunnel; every row has its rightful owner ----------

  lemma UniqueExposureAlways(states: seq<Sys>, actions: seq<Action>, k: nat)
    requires IsRun(states, actions) && Init(states[0]) && k < |states|
    ensures UniqueExposure(states[k].db.proxies)
  {
    Reachable(states, actions, k);
  }

  lemma OwnershipAlways(states: seq<Sys>, actions: seq<Action>, k: nat, p: int)
    requires IsRun(states, actions) && Init(states[0]) && k < |states| && p in states[k].db.proxies
    ensures var db := states[k].db; var row := db.proxies[p];
            && row.sessionId in db.sessions && db.sessions[row.sessionId].tokenId in db.tokens
            && row.userId == db.sessions[row.sessionId].userId == db.tokens[db.sessions[row.sessionId].tokenId].userId
            && NamedProperly(row.typ, row.subdomain)
  {
    Reachable(states, actions, k);
  }

  /** A request whose unused address is blank, as the ktunnel client sends it. */
  predicate Normalised(r: Request) {
    if r.typ == "http" then r.remotePort == 0 else r.subdomain == ""
  }

  /** For normalised requests the check and the takeover suffice: the unique indexes never refuse. */
  lemma IndexesNeverRefuseNormalised(db: Db, r: Request)
    requires Normalised(r)
    ensures forall id :: id in db.proxies && id !in Holders(db.proxies, r) ==> !Clashes(db.proxies[id], r)
    ensures Known(db, r.sessionId) && Policy(db, r).None? ==> (Decide(db, r) == Denied(InUse) <==> Blocked(db, r))
  {
  }

  /** Otherwise they are what keeps exposure unique: a tcp request naming a live http row gets as far
      as the INSERT, and only the index refuses it. */
  lemma IndexesRefuseMixedRequest()
    ensures exists db: Db, r: Request ::
              && Owned(db) && UniqueExposure(db.proxies) && Known(db, r.sessionId)
              && Policy(db, r).None? && !Blocked(db, r) && Decide(db, r) == Denied(InUse)
              && !UniqueExposure(AfterAdmit(db, r, 0))
  {
    var row := Proxy(1, 1, "", "a", "http", "site", 0, 0, None);
    var db := Db(map[1 := User(false, 5)], map[1 := Token(1, None, 0, None)],
                 map[1 := Session(1, 1, "", 0, 0, None, false)], map[1 := row], map[], (0, 0));
    var r := Request(1, "", "b", "tcp", "site", 20000);
    assert Clashes(db.proxies[1], r) && 1 !in Holders(db.proxies, r);
    assert LiveOf(db.proxies, 1) - Holders(db.proxies, r) == {1};
    var after := AfterAdmit(db, r, 0);
    var added := NextId(db.proxies.Keys);
    assert after[1] == row && SameAddress(after[1], after[added]);
  }

  // ---------- quota ----------

  function Larger(a: int, b: int): int { if a > b then a else b }

  lemma EndingShrinks(proxies: map<int, Proxy>, ids: set<int>, n: int, user: int)
    ensures LiveOf(EndRows(proxies, ids, n), user) == LiveOf(proxies, user) - ids
  {
    var after := EndRows(proxies, ids, n);
    assert forall id :: id in LiveOf(after, user) <==> id in LiveOf(proxies, user) - ids;
  }

  lemma OnlyAdmissionAddsRows(db: Db, clock: int, op: Op)
    requires op.Admission? ==> Decide(db, op.request).Denied?
    ensures ProxiesAfter(db, clock, op).Keys == db.proxies.Keys
  {
  }

  lemma LiveShrinks(m: map<int, Proxy>, m': map<int, Proxy>, user: int)
    requires ProxiesEvolve(m, m') && m'.Keys == m.Keys
    ensures LiveOf(m', user) <= LiveOf(m, user)
    ensures |LiveOf(m', user)| <= |LiveOf(m, user)|
  {
    forall id | id in LiveOf(m', user) ensures id in LiveOf(m, user) {
      assert id in m && WriteOnce(m[id].endedAt, m'[id].endedAt);
    }
    SubsetSize(LiveOf(m', user), LiveOf(m, user));
  }

  lemma AdmissionLive(db: Db, r: Request, n: int, user: int)
    requires Known(db, r.sessionId)
    ensures var rest := LiveOf(db.proxies, user) - Holders(db.proxies, r);
            LiveOf(AfterAdmit(db, r, n), user)
            == if user == db.sessions[r.sessionId].userId then rest + {NextId(db.proxies.Keys)} else rest
  {
    EndingShrinks(db.proxies, Holders(db.proxies, r), n, user);
  }

  /** What is counted are all the user's rows that have not ended, of either type. */
  ghost predicate CountsLive(proxies: map<int, Proxy>) {
    forall id, user :: id in LiveOf(proxies, user) <==>
                         id in proxies && proxies[id].endedAt.None? && proxies[id].userId == user
  }

  /** An admission leaves its user within the limit in force. */
  lemma AdmissionWithinLimit(db: Db, r: Request, n: int)
    requires Decide(db, r).Admitted?
    ensures var user := db.sessions[r.sessionId].userId;
            |LiveOf(Admit(db, r, n), user)| <= db.users[user].maxTunnels
    ensures CountsLive(Admit(db, r, n))
  {
    AdmissionLive(db, r, n, db.sessions[r.sessionId].userId);
  }

  lemma QuotaStep(s: Sys, a: Action, s': Sys, user: int)
    requires Next(s, a, s') && user in s.db.users
    ensures |LiveOf(s'.db.proxies, user)| <= Larger(|LiveOf(s.db.proxies, user)|, s.db.users[user].maxTunnels)
  {
    if a.Run? && a.op.Admission? && Decide(s.db, a.op.request).Admitted? {
      AdmissionWithinLimit(s.db, a.op.request, s.clock);
      AdmissionLive(s.db, a.op.request, s.clock, user);
      if user != s.db.sessions[a.op.request.sessionId].userId {
        SubsetSize(LiveOf(s'.db.proxies, user), LiveOf(s.db.proxies, user));
      }
    } else if a.Run? {
      OnlyAdmissionAddsRows(s.db, s.clock, a.op);
      ExecProxies(s.db, s.clock, a.op);
      LiveShrinks(s.db.proxies, s'.db.proxies, user);
    }
  }

  /** Whatever bounds a user's limit throughout a run bounds the user's live tunnels: in particular a
      user whose limit is never lowered is always within it. */
  lemma {:induction false} QuotaAlways(states: seq<Sys>, actions: seq<Action>, k: nat, user: int, bound: nat)
    requires IsRun(states, actions) && Init(states[0]) && k < |states|
    requires forall i :: 0 <= i <= k && user in states[i].db.users ==> states[i].db.users[user].maxTunnels <= bound
    ensures |LiveOf(states[k].db.proxies, user)| <= bound && CountsLive(states[k].db.proxies)
  {
    if k == 0 {
      assert LiveOf(states[0].db.proxies, user) == {};
    } else if user in states[k - 1].db.users {
      QuotaAlways(states, actions, k - 1, user, bound);
      QuotaStep(states[k - 1], actions[k - 1], states[k], user);
    } else {
      Reachable(states, actions, k - 1);
      NoUserNoRows(states[k - 1], actions[k - 1], states[k], user);
    }
  }

  lemma NoUserNoRows(s: Sys, a: Action, s': Sys, user: int)
    requires Inv(s) && Next(s, a, s') && user !in s.db.users
    ensures LiveOf(s'.db.proxies, user) == {}
  {
    forall id | id in s.db.proxies ensures s.db.proxies[id].userId != user {
      assert Known(s.db, s.db.proxies[id].sessionId);
    }
    assert LiveOf(s.db.proxies, user) == {};
    if a.Run? && a.op.Admission? && Decide(s.db, a.op.request).Admitted? {
      AdmissionLive(s.db, a.op.request, s.clock, user);
    } else if a.Run? {
      OnlyAdmissionAddsRows(s.db, s.clock, a.op);
      ExecProxies(s.db, s.clock, a.op);
      LiveShrinks(s.db.proxies, s'.db.proxies, user);
    }
  }

  // ---------- takeover ----------

  /** A reconnecting client gets its own address back: the stale holder makes room for it. */
  lemma TakeoverWithinQuota(db: Db, r: Request, n: int)
    requires Owned(db) && UniqueExposure(db.proxies) && Normalised(r) && Known(db, r.sessionId)
    requires Policy(db, r).None? && Holders(db.proxies, r) != {} && !Blocked(db, r)
    requires if r.typ == "http" then r.subdomain != "" else r.remotePort != 0
    requires var user := db.sessions[r.sessionId].userId; |LiveOf(db.proxies, user)| <= db.users[user].maxTunnels
    ensures var holder := Holder(db, r);
            && Decide(db, r) == Admitted(db.proxies[holder].sessionId)
            && db.proxies[holder].sessionId != 0
            && Admit(db, r, n) == db.proxies[holder := db.proxies[holder].(endedAt := Some(n))][
                 NextId(db.proxies.Keys) := Proxy(r.sessionId, db.proxies[holder].userId, r.runId, r.name, r.typ,
                                                  r.subdomain, r.remotePort, n, None)]
  {
    var holder := Holder(db, r);
    assert HolderSessions(db.proxies, r) == {db.proxies[holder].sessionId};
    assert holder in LiveOf(db.proxies, db.sessions[r.sessionId].userId);
    AdmittedExactly(db, r);
  }

  /** A takeover leaves every user's number of live tunnels as it was. */
  lemma TakeoverKeepsCounts(db: Db, r: Request, n: int, user: int)
    requires Owned(db) && UniqueExposure(db.proxies) && Decide(db, r).Admitted? && Holders(db.proxies, r) != {}
    requires if r.typ == "http" then r.subdomain != "" else r.remotePort != 0
    ensures |LiveOf(Admit(db, r, n), user)| == |LiveOf(db.proxies, user)|
  {
    var holder := Holder(db, r);
    AdmissionLive(db, r, n, user);
    assert db.proxies[holder].userId == db.sessions[r.sessionId].userId;
    if user == db.sessions[r.sessionId].userId {
      assert holder in LiveOf(db.proxies, user);
    } else {
      assert LiveOf(db.proxies, user) - {holder} == LiveOf(db.proxies, user);
    }
  }

  /** The one live row at a requested address. */
  ghost function Holder(db: Db, r: Request): (holder: int)
    requires UniqueExposure(db.proxies) && Holders(db.proxies, r) != {}
    requires if r.typ == "http" then r.subdomain != "" else r.remotePort != 0
    ensures Holders(db.proxies, r) == {holder}
  {
    var holder := Max(Holders(db.proxies, r));
    assert forall id :: id in Holders(db.proxies, r) && id != holder ==>
                          SameAddress(db.proxies[id], db.proxies[holder]);
    holder
  }

  /** A live row with the name an http request asks for, or with the port another request asks for. */
  predicate HoldsAddress(p: Proxy, r: Request) {
    && p.endedAt.None?
    && (r.typ == "http" ==> p.subdomain == r.subdomain) && (r.typ != "http" ==> p.remotePort == r.remotePort)
  }

  /** Both ways: a normalised request is admitted exactly when policy allows it, nobody else and no
      tunnel of the same session holds the address, and there is room once the stale holder is gone. */
  lemma AdmittedExactly(db: Db, r: Request)
    requires Normalised(r)
    ensures Decide(db, r).Admitted? <==>
            && Known(db, r.sessionId) && Policy(db, r).None?
            && var user := db.sessions[r.sessionId].userId;
               && (forall p :: p in db.proxies && HoldsAddress(db.proxies[p], r)
                     ==> db.proxies[p].userId == user && db.proxies[p].sessionId != r.sessionId)
               && |LiveOf(db.proxies, user) - Holders(db.proxies, r)| < db.users[user].maxTunnels
    ensures forall p :: p in Holders(db.proxies, r) <==> p in db.proxies && HoldsAddress(db.proxies[p], r)
    ensures Decide(db, r).Admitted? && Owned(db) ==>
            (Decide(db, r).takeover == 0 <==> Holders(db.proxies, r) == {})
  {
    IndexesNeverRefuseNormalised(db, r);
  }

  // ---------- only the right step opens or ends a tunnel ----------

  /** The step admits tunnel p. */
  predicate Opens(s: Sys, a: Action, p: int) {
    a.Run? && a.op.Admission? && Decide(s.db, a.op.request).Admitted? && p == NextId(s.db.proxies.Keys)
  }

  /** A row appears only through an admission, with every policy in force at that moment satisfied. */
  lemma OpenedOnlyByAdmission(s: Sys, a: Action, s': Sys, p: int)
    requires Inv(s) && Next(s, a, s') && p !in s.db.proxies && p in s'.db.proxies
    ensures Opens(s, a, p)
    ensures var r, row := a.op.request, s'.db.proxies[p];
            && Known(s.db, r.sessionId)
            && row == Proxy(r.sessionId, s.db.sessions[r.sessionId].userId, r.runId, r.name, r.typ, r.subdomain,
                            r.remotePort, s.clock, None)
            && !s.db.sessions[r.sessionId].killed && s.db.sessions[r.sessionId].endedAt.None?
            && s.db.tokens[s.db.sessions[r.sessionId].tokenId].revokedAt.None?
            && !s.db.users[row.userId].disabled
            && |LiveOf(s'.db.proxies, row.userId)| <= s.db.users[row.userId].maxTunnels
            && (if row.typ == "http"
                then ValidLabel(row.subdomain) && row.subdomain != PORTAL
                     && (row.subdomain in s.db.reservations ==> s.db.reservations[row.subdomain] == row.userId)
                else row.typ == "tcp" && Window(s.db).0 <= row.remotePort <= Window(s.db).1)
  {
    if a.Run? && a.op.Admission? && Decide(s.db, a.op.request).Admitted? {
      AdmissionWithinLimit(s.db, a.op.request, s.clock);
    }
  }

  // ---------- names that belong to somebody else ----------

  /** The portal's name, or a name reserved to another user. */
  predicate Foreign(db: Db, name: string, user: int) {
    name != "" && (name == PORTAL || (name in db.reservations && db.reservations[name] != user))
  }

  /** A row opens on somebody else's name exactly when it is opened by a tcp request that carries it. */
  lemma ForeignNameExactly(s: Sys, a: Action, s': Sys, p: int)
    requires Inv(s) && Next(s, a, s') && p !in s.db.proxies && p in s'.db.proxies
    ensures a.Run? && a.op.Admission?
    ensures var r, row := a.op.request, s'.db.proxies[p];
            Foreign(s.db, row.subdomain, row.userId) <==> r.typ == "tcp" && Foreign(s.db, r.subdomain, row.userId)
  {
    OpenedOnlyByAdmission(s, a, s', p);
  }

  /** For a tcp request the reservations are not looked at, whatever name it carries. */
  lemma TcpIgnoresReservations(db: Db, r: Request, reservations: map<string, int>)
    requires r.typ == "tcp"
    ensures Decide(db.(reservations := reservations), r) == Decide(db, r)
  {
    var other := db.(reservations := reservations);
    assert Known(other, r.sessionId) <==> Known(db, r.sessionId);
    if Known(db, r.sessionId) {
      assert Policy(other, r) == Policy(db, r);
      assert Blocked(other, r) <==> Blocked(db, r);
    }
  }

  /** Request r takes a name that is not its user's, and own, which alone is admitted, is then refused. */
  predicate StandsInTheWay(db: Db, r: Request, own: Request) {
    && Known(db, r.sessionId) && Known(db, own.sessionId)
    && Foreign(db, r.subdomain, db.sessions[r.sessionId].userId)
    && Decide(db, own).Admitted? && Decide(db, r).Admitted?
    && Decide(db.(proxies := AfterAdmit(db, r, 0)), own) == Denied(InUse)
  }

  const TWO_USERS: Db := Db(
    map[1 := User(false, 5), 2 := User(false, 5)],
    map[1 := Token(1, None, 0, None), 2 := Token(2, None, 0, None)],
    map[1 := Session(1, 1, "", 0, 0, None, false), 2 := Session(2, 2, "", 0, 0, None, false)],
    map[], map["site" := 2], (0, 0))
  const TCP_SITE: Request := Request(1, "", "a", "tcp", "site", 20000)
  const OWN_SITE: Request := Request(2, "", "b", "http", "site", 0)

  lemma BothAdmitted()
    ensures Decide(TWO_USERS, OWN_SITE).Admitted? && Decide(TWO_USERS, TCP_SITE).Admitted?
  {
    assert "site" != PORTAL by { assert |"site"| != |PORTAL|; }
    assert LiveOf(TWO_USERS.proxies, 1) - Holders(TWO_USERS.proxies, TCP_SITE) == {};
    assert LiveOf(TWO_USERS.proxies, 2) - Holders(TWO_USERS.proxies, OWN_SITE) == {};
  }

  lemma OwnerRefused()
    ensures Decide(TWO_USERS.(proxies := AfterAdmit(TWO_USERS, TCP_SITE, 0)), OWN_SITE) == Denied(InUse)
  {
    var after := TWO_USERS.(proxies := AfterAdmit(TWO_USERS, TCP_SITE, 0));
    var added := NextId(TWO_USERS.proxies.Keys);
    assert "site" != PORTAL by { assert |"site"| != |PORTAL|; }
    assert after.proxies[added] == NewRow(1, TCP_SITE, 0) && Occupies(after.proxies[added], OWN_SITE);
    assert added in Holders(after.proxies, OWN_SITE);
    assert Blocked(after, OWN_SITE);
  }

  /** So such a request can stand in the way of the name's owner: user 1's tcp request takes the name
      reserved to user 2, whose own http request is then refused. */
  lemma TcpTakesReservedName()
    ensures Owned(TWO_USERS) && UniqueExposure(TWO_USERS.proxies)
    ensures StandsInTheWay(TWO_USERS, TCP_SITE, OWN_SITE)
  {
    BothAdmitted();
    OwnerRefused();
    assert "site" != PORTAL by { assert |"site"| != |PORTAL|; }
  }

  /** In a run of normalised requests no row ever opens on somebody else's name. */
  lemma NormalisedRespectsNames(states: seq<Sys>, actions: seq<Action>, k: nat, p: int)
    requires IsRun(states, actions) && Init(states[0]) && k < |actions|
    requires forall m {:trigger actions[m]} :: 0 <= m < |actions| && actions[m].Run? && actions[m].op.Admission?
               ==> Normalised(actions[m].op.request)
    requires p !in states[k].db.proxies && p in states[k + 1].db.proxies
    ensures !Foreign(states[k].db, states[k + 1].db.proxies[p].subdomain, states[k + 1].db.proxies[p].userId)
  {
    Reachable(states, actions, k);
    ForeignNameExactly(states[k], actions[k], states[k + 1], p);
  }

  /** The form of a public name, index by index. */
  lemma LabelForm(s: string)
    ensures ValidLabel(s) <==>
            && 1 <= |s| <= 63 && s[0] != '-' && s[|s| - 1] != '-'
            && forall i :: 0 <= i < |s| ==> 'a' <= s[i] <= 'z' || '0' <= s[i] <= '9' || s[i] == '-'
  {
    assert forall i :: 0 <= i < |s| ==> s[i] in s;
  }

  /** Why a request is refused: an unknown session, then policy, then the address, then the quota. */
  lemma RefusedBecause(db: Db, r: Request)
    requires Normalised(r)
    ensures r.sessionId !in db.sessions ==> Decide(db, r) == Denied(SessionUnknown)
    ensures Known(db, r.sessionId) && Policy(db, r).Some? ==> Decide(db, r) == Denied(Policy(db, r).value)
    ensures Known(db, r.sessionId) && Policy(db, r).None? ==>
              var user := db.sessions[r.sessionId].userId;
              if exists p :: p in db.proxies && HoldsAddress(db.proxies[p], r)
                             && (db.proxies[p].userId != user || db.proxies[p].sessionId == r.sessionId)
              then Decide(db, r) == Denied(InUse)
              else if |LiveOf(db.proxies, user) - Holders(db.proxies, r)| >= db.users[user].maxTunnels
              then Decide(db, r) == Denied(QuotaReached(db.users[user].maxTunnels))
              else Decide(db, r).Admitted?
  {
    IndexesNeverRefuseNormalised(db, r);
    AdmittedExactly(db, r);
    if Known(db, r.sessionId) && Policy(db, r).None? && Blocked(db, r) {
      var user := db.sessions[r.sessionId].userId;
      var p :| p in Holders(db.proxies, r)
               && (db.proxies[p].userId != user || db.proxies[p].sessionId == r.sessionId);
      assert HoldsAddress(db.proxies[p], r);
    }
  }

  /** The row an admission adds is the request's own, so that the client that asked for it can close it: a
      CloseProxy of that session and name ends it, and one of another session or name does not. */
  lemma AdmittedThenClosed(db: Db, r: Request, n: int, sid: int, name: string, m: int)
    requires Decide(db, r).Admitted?
    ensures var id := NextId(db.proxies.Keys); var after := Admit(db, r, n);
            && id !in db.proxies && id in after
            && after[id] == Proxy(r.sessionId, db.sessions[r.sessionId].userId, r.runId, r.name, r.typ, r.subdomain,
                                  r.remotePort, n, None)
            && var closed := EndProxy(db.(proxies := after), sid, name, m);
               id in closed && closed[id].endedAt == if sid == r.sessionId && name == r.name then Some(m) else None
  {
  }

  /** The three things that end row p of state s. */
  predicate Ends(s: Sys, a: Action, p: int) {
    p in s.db.proxies && a.Run? &&
    var row := s.db.proxies[p];
    match a.op
      case Close(sid, name) => sid == row.sessionId && name == row.name
      case Admission(r, _) =>
        && Decide(s.db, r).Admitted? && Occupies(row, r)
        && row.userId == s.db.sessions[r.sessionId].userId && row.sessionId != r.sessionId
      case SweepRows(cutoff, _) => row.sessionId in s.db.sessions && Stale(s.db.sessions[row.sessionId], cutoff)
      case _ => false
  }

  /** A live tunnel ends exactly by a CloseProxy of its own session and name, by its own user taking its
      address over from another session, or by the expiry of its session. */
  lemma EndedExactlyBy(s: Sys, a: Action, s': Sys, p: int)
    requires Inv(s) && Next(s, a, s') && p in s.db.proxies && s.db.proxies[p].Live()
    ensures p in s'.db.proxies
    ensures !s'.db.proxies[p].Live() <==> Ends(s, a, p)
    ensures Ends(s, a, p) && a.op.SweepRows? ==>
              s.db.sessions[s.db.proxies[p].sessionId].lastSeenAt < s.clock - 120
  {
    StepEvolves(s, a, s');
  }

  /** Over a run: a tunnel nothing ends stays live. A CloseProxy that arrives late, for the session a
      takeover replaced, is none of the steps that could end the successor. */
  lemma {:induction false} LiveUntilEnded(states: seq<Sys>, actions: seq<Action>, i: nat, j: nat, p: int)
    requires IsRun(states, actions) && Init(states[0]) && i <= j < |states|
    requires p in states[i].db.proxies && states[i].db.proxies[p].Live()
    requires forall k {:trigger actions[k]} :: i <= k < j ==> !Ends(states[k], actions[k], p)
    ensures p in states[j].db.proxies && states[j].db.proxies[p] == states[i].db.proxies[p]
    decreases j - i
  {
    if i < j {
      var s, a, s' := states[j - 1], actions[j - 1], states[j];
      LiveUntilEnded(states, actions, i, j - 1, p);
      Reachable(states, actions, j - 1);
      EndedExactlyBy(s, a, s', p);
      StepEvolves(s, a, s');
    }
  }

  // ---------- administration takes effect at once ----------

  /** Once a user is disabled none of the user's requests is admitted, and enabling undoes exactly that. */
  lemma DisableTakesEffect(db: Db, clock: int, u: int, r: Request)
    requires u in db.users && Known(db, r.sessionId) && db.sessions[r.sessionId].userId == u
    ensures Decide(Exec(db, clock, Disable(u, true)), r).Denied?
    ensures !db.users[u].disabled ==> Exec(Exec(db, clock, Disable(u, true)), clock, Disable(u, false)) == db
  {
    var off := Exec(db, clock, Disable(u, true));
    assert off == db.(users := db.users[u := db.users[u].(disabled := true)]);
  }

  /** A free name reserved to a user is refused to everybody else, with the owner named, until it is released;
      a name that is taken keeps its owner. */
  lemma ReservationTakesEffect(db: Db, clock: int, name: string, u: int, r: Request)
    requires u in db.users && name != PORTAL && Known(db, r.sessionId) && db.sessions[r.sessionId].userId != u
    requires r.typ == "http" && r.subdomain == name && name !in db.reservations
    ensures var reserved := Exec(db, clock, ReserveName(name, u));
            && Decide(reserved, r).Denied?
            && (Decide(db, r).Admitted? ==> Decide(reserved, r) == Denied(ReservedBy(u)))
            && Exec(reserved, clock, ReleaseName(name)) == db
            && forall v :: Exec(reserved, clock, ReserveName(name, v)) == reserved
  {
    var reserved := Exec(db, clock, ReserveName(name, u));
    assert reserved == db.(reservations := db.reservations[name := u]);
    assert db.reservations[name := u] - {name} == db.reservations;
  }

  /** A tcp request outside the stored window is refused with that window. */
  lemma WindowTakesEffect(db: Db, clock: int, lo: int, hi: int, r: Request)
    requires lo != 0 && hi != 0 && lo <= hi && r.typ == "tcp" && !(lo <= r.remotePort <= hi)
    ensures var windowed := Exec(db, clock, SetWindow(lo, hi));
            && Decide(windowed, r).Denied?
            && (Decide(db, r).Admitted? ==> Decide(windowed, r) == Denied(PortOutside(lo, hi)))
  {
  }

  /** A lowered limit ends nothing, but no further request is admitted until there is room. */
  lemma LimitTakesEffect(db: Db, clock: int, u: int, n: int, r: Request)
    requires u in db.users && Known(db, r.sessionId) && db.sessions[r.sessionId].userId == u
    requires |LiveOf(db.proxies, u) - Holders(db.proxies, r)| >= n
    ensures var limited := Exec(db, clock, Limit(u, n));
            && limited.proxies == db.proxies && Decide(limited, r).Denied?
            && (Decide(db, r).Admitted? ==> Decide(limited, r) == Denied(QuotaReached(n)))
  {
    var limited := Exec(db, clock, Limit(u, n));
    assert limited == db.(users := db.users[u := db.users[u].(maxTunnels := n)]);
    assert Known(limited, r.sessionId) && Policy(limited, r) == Policy(db, r);
    assert Blocked(limited, r) <==> Blocked(db, r);
  }

  // ---------- revocation and kill are final ----------

  predicate Barred(db: Db, sid: int)
  {
    && Known(db, sid)
    && (db.sessions[sid].killed || db.sessions[sid].endedAt.Some?
        || db.tokens[db.sessions[sid].tokenId].revokedAt.Some?)
  }

  lemma BarredSessionAddsNothing(s: Sys, a: Action, s': Sys, p: int)
    requires Inv(s) && Next(s, a, s') && p in s'.db.proxies
    requires Known(s.db, s'.db.proxies[p].sessionId) ==> Barred(s.db, s'.db.proxies[p].sessionId)
    ensures p in s.db.proxies
  {
    if p !in s.db.proxies { OpenedOnlyByAdmission(s, a, s', p); }
  }

  lemma {:induction false} RevokedAddsNothing(states: seq<Sys>, actions: seq<Action>, i: nat, j: nat, t: int, p: int)
    requires IsRun(states, actions) && Init(states[0]) && i <= j < |states|
    requires t in states[i].db.tokens && states[i].db.tokens[t].revokedAt.Some?
    requires p in states[j].db.proxies && states[j].db.proxies[p].sessionId in states[j].db.sessions
    requires states[j].db.sessions[states[j].db.proxies[p].sessionId].tokenId == t
    ensures p in states[i].db.proxies
    ensures t in states[j].db.tokens && states[j].db.tokens[t].revokedAt == states[i].db.tokens[t].revokedAt
    decreases j - i
  {
    RunEvolves(states, actions, i, j);
    if i < j {
      var s, s' := states[j - 1], states[j];
      Reachable(states, actions, j - 1);
      RunEvolves(states, actions, i, j - 1);
      StepEvolves(s, actions[j - 1], s');
      BarredSessionAddsNothing(s, actions[j - 1], s', p);
      assert s.db.proxies[p].sessionId == s'.db.proxies[p].sessionId;
      RevokedAddsNothing(states, actions, i, j - 1, t, p);
    }
  }

  /** What the UPDATE of a revocation matches: a token not revoked yet, of the owner if one is named. */
  predicate Matches(db: Db, t: int, owner: Option<int>) {
    && t in db.tokens && db.tokens[t].revokedAt.None?
    && (owner.None? || db.tokens[t].userId == owner.value)
  }

  /** The first UPDATE of a revocation revokes the token, for good: from then on it cannot log in, no session
      of it passes a check, and no row is ever added for it, not even through a session whose login
      authenticated before the revocation and was created after it. */
  lemma RevocationFinal(states: seq<Sys>, actions: seq<Action>, i: nat, j: nat, t: int, owner: Option<int>, p: int)
    requires IsRun(states, actions) && Init(states[0]) && i < j < |states|
    requires actions[i] == Run(Revoke(t, owner)) && Matches(states[i].db, t, owner)
    ensures t in states[j].db.tokens && states[j].db.tokens[t].revokedAt == Some(states[i].clock)
    ensures Follow(states[j].db, states[j].clock, LoginToken(t)) == None
    ensures forall sid, u, purpose :: Follow(states[j].db, states[j].clock, CheckToken(sid, t, u, purpose)) == None
    ensures BelongsTo(states[j].db, p, t) ==> p in states[i].db.proxies
  {
    RevokeMarks(states[i], actions[i], states[i + 1], t, owner);
    RunEvolves(states, actions, i + 1, j);
    if BelongsTo(states[j].db, p, t) { RevokedAddsNothing(states, actions, i + 1, j, t, p); }
  }

  predicate BelongsTo(db: Db, p: int, t: int) {
    && p in db.proxies && db.proxies[p].sessionId in db.sessions && db.sessions[db.proxies[p].sessionId].tokenId == t
  }

  lemma RevokeMarks(s: Sys, a: Action, s': Sys, t: int, owner: Option<int>)
    requires Next(s, a, s') && a == Run(Revoke(t, owner)) && Matches(s.db, t, owner)
    ensures s'.db == s.db.(tokens := s.db.tokens[t := s.db.tokens[t].(revokedAt := Some(s.clock))])
  {
  }

  /** The first UPDATE of a kill marks an open session, for good: from then on its check never passes and no
      row is ever added for it. */
  lemma KillFinal(states: seq<Sys>, actions: seq<Action>, i: nat, j: nat, sid: int, p: int)
    requires IsRun(states, actions) && Init(states[0]) && i < j < |states|
    requires actions[i] == Run(Kill(sid)) && sid in states[i].db.sessions && states[i].db.sessions[sid].endedAt.None?
    ensures sid in states[j].db.sessions && states[j].db.sessions[sid].killed
    ensures forall purpose :: Follow(states[j].db, states[j].clock, CheckSession(sid, purpose)) == None
    ensures p in states[j].db.proxies && states[j].db.proxies[p].sessionId == sid ==> p in states[i].db.proxies
  {
    KillMarks(states[i], actions[i], states[i + 1], sid);
    RunEvolves(states, actions, i + 1, j);
    ClosedAddsNothing(states, actions, i + 1, j, sid, p);
  }

  lemma KillMarks(s: Sys, a: Action, s': Sys, sid: int)
    requires Next(s, a, s') && a == Run(Kill(sid)) && sid in s.db.sessions && s.db.sessions[sid].endedAt.None?
    ensures s'.db == s.db.(sessions := s.db.sessions[sid := s.db.sessions[sid].(killed := true)])
  {
  }

  /** The second UPDATE of a kill holds the session's token back: for 300 seconds no login of it gets past
      the cooldown, whatever runs meanwhile. */
  lemma KickHolds(states: seq<Sys>, actions: seq<Action>, i: nat, j: nat, sid: int)
    requires IsRun(states, actions) && Init(states[0]) && i < j < |states|
    requires actions[i] == Run(KillCooldown(sid)) && sid in states[i].db.sessions
    requires states[j].clock < states[i].clock + 300
    ensures var t := states[i].db.sessions[sid].tokenId;
            forall u :: Follow(states[j].db, states[j].clock, LoginCooldown(t, u)) == None
  {
    var t := states[i].db.sessions[sid].tokenId;
    Reachable(states, actions, i);
    KickMarks(states[i], actions[i], states[i + 1], sid);
    KickStays(states, actions, i + 1, j, t, states[i].clock + 300);
  }

  lemma KickMarks(s: Sys, a: Action, s': Sys, sid: int)
    requires Inv(s) && Next(s, a, s') && a == Run(KillCooldown(sid)) && sid in s.db.sessions
    ensures var t := s.db.sessions[sid].tokenId;
            t in s.db.tokens && s'.clock == s.clock
            && s'.db == s.db.(tokens := s.db.tokens[t := s.db.tokens[t].(kickedUntil := s.clock + 300)])
  {
    assert Known(s.db, sid);
  }

  lemma {:induction false} KickStays(states: seq<Sys>, actions: seq<Action>, i: nat, j: nat, t: int, until: int)
    requires IsRun(states, actions) && i <= j < |states|
    requires t in states[i].db.tokens && states[i].db.tokens[t].kickedUntil >= until && states[i].clock + 300 >= until
    ensures t in states[j].db.tokens && states[j].db.tokens[t].kickedUntil >= until && states[j].clock + 300 >= until
    decreases j - i
  {
    if i < j {
      KickStays(states, actions, i, j - 1, t, until);
      StepKick(states[j - 1], actions[j - 1], states[j], t);
    }
  }

  lemma StepKick(s: Sys, a: Action, s': Sys, t: int)
    requires Next(s, a, s') && t in s.db.tokens
    ensures t in s'.db.tokens && s.clock <= s'.clock
    ensures s'.db.tokens[t].kickedUntil == s.db.tokens[t].kickedUntil || s'.db.tokens[t].kickedUntil == s.clock + 300
  {
  }

  lemma {:induction false} ClosedAddsNothing(states: seq<Sys>, actions: seq<Action>, i: nat, j: nat, sid: int, p: int)
    requires IsRun(states, actions) && Init(states[0]) && i <= j < |states|
    requires sid in states[i].db.sessions
    requires states[i].db.sessions[sid].killed || states[i].db.sessions[sid].endedAt.Some?
    ensures forall purpose :: Follow(states[j].db, states[j].clock, CheckSession(sid, purpose)) == None
    ensures p in states[j].db.proxies && states[j].db.proxies[p].sessionId == sid ==> p in states[i].db.proxies
    decreases j - i
  {
    RunEvolves(states, actions, i, j);
    if i < j && p in states[j].db.proxies && states[j].db.proxies[p].sessionId == sid {
      var s, s' := states[j - 1], states[j];
      Reachable(states, actions, j - 1);
      RunEvolves(states, actions, i, j - 1);
      StepEvolves(s, actions[j - 1], s');
      BarredSessionAddsNothing(s, actions[j - 1], s', p);
      ClosedAddsNothing(states, actions, i, j - 1, sid, p);
    }
  }
}
