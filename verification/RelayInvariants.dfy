/** What every step of the relay keeps. */
module RelayInvariants {
  import opened Basics
  import opened RelayDb
  import opened RelaySystem

  // ---------- monotone facts: rows are never deleted and some columns are write-once ----------

  predicate WriteOnce(before: Option<int>, after: Option<int>) { before.Some? ==> after == before }

  predicate TokensEvolve(m: map<int, Token>, m': map<int, Token>) {
    forall t :: t in m ==> t in m' && m'[t].userId == m[t].userId && WriteOnce(m[t].revokedAt, m'[t].revokedAt)
  }

  predicate SessionsEvolve(m: map<int, Session>, m': map<int, Session>) {
    forall s :: s in m ==> (
      && s in m' && m'[s].userId == m[s].userId && m'[s].tokenId == m[s].tokenId
      && (m[s].killed ==> m'[s].killed) && WriteOnce(m[s].endedAt, m'[s].endedAt))
  }

  predicate ProxiesEvolve(m: map<int, Proxy>, m': map<int, Proxy>) {
    forall p :: p in m ==> p in m' && m'[p] == m[p].(endedAt := m'[p].endedAt) && WriteOnce(m[p].endedAt, m'[p].endedAt)
  }

  predicate Evolves(db: Db, db': Db) {
    && db.users.Keys <= db'.users.Keys
    && TokensEvolve(db.tokens, db'.tokens)
    && SessionsEvolve(db.sessions, db'.sessions)
    && ProxiesEvolve(db.proxies, db'.proxies)
  }

  lemma AdmitEvolves(db: Db, r: Request, n: int)
    ensures ProxiesEvolve(db.proxies, Admit(db, r, n))
  {
    forall id | id in Holders(db.proxies, r) ensures db.proxies[id].Live() {}
  }

  lemma ExecTokens(db: Db, clock: int, op: Op)
    ensures TokensEvolve(db.tokens, Exec(db, clock, op).tokens)
  {
  }

  lemma ExecSessions(db: Db, clock: int, op: Op)
    ensures SessionsEvolve(db.sessions, Exec(db, clock, op).sessions)
  {
  }

  lemma ExecProxies(db: Db, clock: int, op: Op)
    ensures ProxiesEvolve(db.proxies, Exec(db, clock, op).proxies)
  {
    if op.Admission? { AdmitEvolves(db, op.request, clock); }
  }

  lemma ExecEvolves(db: Db, clock: int, op: Op)
    ensures Evolves(db, Exec(db, clock, op))
  {
    ExecTokens(db, clock, op);
    ExecSessions(db, clock, op);
    ExecProxies(db, clock, op);
    assert db.users.Keys <= Exec(db, clock, op).users.Keys;
  }

  lemma EvolvesTransitive(a: Db, b: Db, c: Db)
    requires Evolves(a, b) && Evolves(b, c)
    ensures Evolves(a, c)
  {
  }

  lemma StepEvolves(s: Sys, a: Action, s': Sys)
    requires Next(s, a, s')
    ensures Evolves(s.db, s'.db) && s.clock <= s'.clock
  {
    if a.Run? { ExecEvolves(s.db, s.clock, a.op); }
  }

  lemma {:induction false} RunEvolves(states: seq<Sys>, actions: seq<Action>, i: nat, j: nat)
    requires IsRun(states, actions) && i <= j < |states|
    ensures Evolves(states[i].db, states[j].db) && states[i].clock <= states[j].clock
    decreases j - i
  {
    if i < j {
      RunEvolves(states, actions, i, j - 1);
      StepEvolves(states[j - 1], actions[j - 1], states[j]);
      EvolvesTransitive(states[i].db, states[j - 1].db, states[j].db);
    }
  }

  // ---------- the invariant ----------

  /** Foreign keys, and the ownership they carry: a proxy's user is its session's, a session's is its token's. */
  predicate Owned(db: Db) {
    && (forall t :: t in db.tokens ==> db.tokens[t].userId in db.users)
    && SessionsOwned(db)
    && ProxiesOwned(db.sessions, db.proxies)
    && (forall n :: n in db.reservations ==> n != PORTAL && db.reservations[n] in db.users)
  }

  predicate SessionsOwned(db: Db) {
    forall s :: s in db.sessions ==>
      s > 0 && Known(db, s) && db.tokens[db.sessions[s].tokenId].userId == db.sessions[s].userId
  }

  predicate ProxiesOwned(sessions: map<int, Session>, proxies: map<int, Proxy>) {
    forall p :: p in proxies ==>
      proxies[p].sessionId in sessions && proxies[p].userId == sessions[proxies[p].sessionId].userId
  }

  predicate SameAddress(p: Proxy, q: Proxy) {
    (p.subdomain != "" && p.subdomain == q.subdomain) || (p.remotePort != 0 && p.remotePort == q.remotePort)
  }

  /** No two live rows share a public name or a public port. */
  predicate UniqueExposure(proxies: map<int, Proxy>) {
    forall a, b :: a in proxies && b in proxies && a != b && proxies[a].Live() && proxies[b].Live()
      ==> !SameAddress(proxies[a], proxies[b])
  }

  predicate NamedProperly(typ: string, subdomain: string) {
    if typ == "http" then ValidLabel(subdomain) && subdomain != PORTAL else typ == "tcp"
  }

  predicate RowsNamedProperly(proxies: map<int, Proxy>) {
    forall p :: p in proxies ==> NamedProperly(proxies[p].typ, proxies[p].subdomain)
  }

  predicate SeenInPast(sessions: map<int, Session>, clock: int) {
    forall s :: s in sessions ==> sessions[s].lastSeenAt <= clock
  }

  /** What an operation in flight may still rely on, whatever ran since its last statement. */
  predicate OpOk(db: Db, clock: int, op: Op) {
    match op
    case LoginCooldown(t, u) => t in db.tokens && db.tokens[t].userId == u
    case LoginUser(t, u) => t in db.tokens && db.tokens[t].userId == u
    case LoginStamp(t, u) => t in db.tokens && db.tokens[t].userId == u
    case LoginSession(t, u) => t in db.tokens && db.tokens[t].userId == u
    case CheckToken(sid, t, u, _) => sid in db.sessions && db.sessions[sid].tokenId == t && db.sessions[sid].userId == u
    case CheckUser(sid, u, _) => sid in db.sessions && db.sessions[sid].userId == u
    case Heartbeat(sid, _) => sid in db.sessions
    case Admission(r, touchedAt) =>
      && r.sessionId in db.sessions && NamedProperly(r.typ, r.subdomain)
      && (touchedAt.Some? ==> touchedAt.value <= db.sessions[r.sessionId].lastSeenAt)
    case SweepTime(cutoff) => cutoff <= clock - SESSION_STALE_AFTER
    case SweepRows(cutoff, _) => cutoff <= clock - SESSION_STALE_AFTER
    case SweepEnd(cutoff, _) => cutoff <= clock - SESSION_STALE_AFTER
    case _ => true
  }

  predicate Inv(s: Sys) {
    && Owned(s.db) && UniqueExposure(s.db.proxies) && RowsNamedProperly(s.db.proxies)
    && SeenInPast(s.db.sessions, s.clock)
    && forall op :: op in s.ops ==> OpOk(s.db, s.clock, op)
  }

  predicate SeenLater(m: map<int, Session>, m': map<int, Session>) {
    forall s :: s in m && s in m' ==> m[s].lastSeenAt <= m'[s].lastSeenAt
  }

  lemma ExecTimes(db: Db, clock: int, op: Op)
    requires SeenInPast(db.sessions, clock)
    ensures SeenInPast(Exec(db, clock, op).sessions, clock)
    ensures SeenLater(db.sessions, Exec(db, clock, op).sessions)
  {
  }

  lemma OpStaysOk(db: Db, clock: int, db': Db, clock': int, op: Op)
    requires OpOk(db, clock, op) && Evolves(db, db') && SeenLater(db.sessions, db'.sessions) && clock <= clock'
    ensures OpOk(db', clock', op)
  {
  }

  lemma ContinuationOk(db: Db, clock: int, op: Op)
    requires OpOk(db, clock, op) && Owned(db) && SeenInPast(db.sessions, clock)
    ensures var next := Follow(db, clock, op); next.Some? ==> OpOk(Exec(db, clock, op), clock, next.value)
    ensures Ignore(op).Some? ==> OpOk(db, clock, Ignore(op).value)
  {
  }

  lemma ExecOwned(db: Db, clock: int, op: Op)
    requires Owned(db) && OpOk(db, clock, op)
    ensures Owned(Exec(db, clock, op))
  {
    ExecSessionsOwned(db, clock, op);
    ExecProxiesOwned(db, clock, op);
    ExecTokens(db, clock, op);
  }

  lemma ExecSessionsOwned(db: Db, clock: int, op: Op)
    requires Owned(db) && OpOk(db, clock, op)
    ensures SessionsOwned(Exec(db, clock, op))
  {
    ExecTokens(db, clock, op);
  }

  lemma ExecProxiesOwned(db: Db, clock: int, op: Op)
    requires ProxiesOwned(db.sessions, db.proxies)
    ensures ProxiesOwned(SessionsAfter(db, clock, op), ProxiesAfter(db, clock, op))
  {
    ExecSessions(db, clock, op);
    ExecProxies(db, clock, op);
  }

  // ---------- unique exposure ----------

  lemma EndingKeepsUnique(proxies: map<int, Proxy>, ids: set<int>, n: int)
    requires UniqueExposure(proxies)
    ensures UniqueExposure(EndRows(proxies, ids, n))
  {
  }

  lemma AddingKeepsUnique(proxies: map<int, Proxy>, added: int, row: Proxy)
    requires UniqueExposure(proxies) && added !in proxies
    requires forall id :: id in proxies && proxies[id].Live() ==> !SameAddress(proxies[id], row)
    ensures UniqueExposure(proxies[added := row])
  {
  }

  lemma AdmitUnique(db: Db, r: Request, n: int)
    requires UniqueExposure(db.proxies)
    ensures UniqueExposure(Admit(db, r, n))
  {
    if Decide(db, r).Admitted? {
      var holders := Holders(db.proxies, r);
      EndingKeepsUnique(db.proxies, holders, n);
      var row := NewRow(db.sessions[r.sessionId].userId, r, n);
      AddingKeepsUnique(EndRows(db.proxies, holders, n), NextId(db.proxies.Keys), row);
    }
  }

  lemma ExecUnique(db: Db, clock: int, op: Op)
    requires UniqueExposure(db.proxies)
    ensures UniqueExposure(Exec(db, clock, op).proxies)
  {
    match op
    case Admission(r, _) => AdmitUnique(db, r, clock);
    case Close(sid, name) => EndingKeepsUnique(db.proxies, NamedRows(db, sid, name), clock);
    case SweepRows(cutoff, n) => EndingKeepsUnique(db.proxies, StaleRows(db, cutoff), n);
    case _ =>
  }

  lemma ExecNames(db: Db, clock: int, op: Op)
    requires RowsNamedProperly(db.proxies) && OpOk(db, clock, op)
    ensures RowsNamedProperly(Exec(db, clock, op).proxies)
  {
  }

  lemma StepKeepsInv(s: Sys, a: Action, s': Sys)
    requires Inv(s) && Next(s, a, s')
    ensures Inv(s')
  {
    StepEvolves(s, a, s');
    match a
    case Begin(_) =>
    case Wait(_) =>
    case Fail(op) => ContinuationOk(s.db, s.clock, op);
    case Run(op) =>
      ExecOwned(s.db, s.clock, op);
      ExecUnique(s.db, s.clock, op);
      ExecNames(s.db, s.clock, op);
      ExecTimes(s.db, s.clock, op);
      ContinuationOk(s.db, s.clock, op);
      forall o | o in s.ops ensures OpOk(s'.db, s'.clock, o) {
        OpStaysOk(s.db, s.clock, s'.db, s'.clock, o);
      }
  }

  lemma {:induction false} Reachable(states: seq<Sys>, actions: seq<Action>, k: nat)
    requires IsRun(states, actions) && Init(states[0]) && k < |states|
    ensures Inv(states[k])
  {
    if k > 0 {
      Reachable(states, actions, k - 1);
      StepKeepsInv(states[k - 1], actions[k - 1], states[k]);
    }
  }
}
