/** The relay's tables and the SQL statements that read and update them.
    A Db value is the content of the tables between two statements; every statement,
    and the whole of AdmitProxy's transaction, is one function on it. */
module RelayDb {
  import opened Basics

  const PORTAL := "ktunnel"
  const DEFAULT_LO := 20000
  const DEFAULT_HI := 29999
  const SESSION_STALE_AFTER := 120
  const KICK_COOLDOWN := 300

  datatype User = User(disabled: bool, maxTunnels: int)

  datatype Token = Token(userId: int, revokedAt: Option<int>, kickedUntil: int, lastUsedAt: Option<int>)

  datatype Session = Session(
    userId: int, tokenId: int, runId: string, startedAt: int, lastSeenAt: int,
    endedAt: Option<int>, killed: bool)

  datatype Proxy = Proxy(
    sessionId: int, userId: int, runId: string, name: string, typ: string,
    subdomain: string, remotePort: int, startedAt: int, endedAt: Option<int>)
  {
    predicate Live() { endedAt.None? }
  }

  datatype Db = Db(
    users: map<int, User>, tokens: map<int, Token>, sessions: map<int, Session>,
    proxies: map<int, Proxy>, reservations: map<string, int>, window: (int, int))

  const EMPTY := Db(map[], map[], map[], map[], map[], (0, 0))

  /** The window of remote ports in force: a missing or unusable setting means the default. */
  function Window(db: Db): (int, int) {
    if db.window.0 == 0 || db.window.1 == 0 || db.window.0 > db.window.1
    then (DEFAULT_LO, DEFAULT_HI) else db.window
  }

  // ---------- the statements, each as the new content of the one table it writes ----------

  function CreateUser(db: Db, maxTunnels: int): map<int, User> {
    db.users[NextId(db.users.Keys) := User(false, if maxTunnels <= 0 then 5 else maxTunnels)]
  }

  function SetMaxTunnels(db: Db, userId: int, n: int): map<int, User> {
    if userId !in db.users then db.users else db.users[userId := db.users[userId].(maxTunnels := n)]
  }

  function SetDisabled(db: Db, userId: int, disabled: bool): map<int, User> {
    if userId !in db.users then db.users else db.users[userId := db.users[userId].(disabled := disabled)]
  }

  function Reserve(db: Db, subdomain: string, userId: int): map<string, int> {
    if subdomain == PORTAL || subdomain in db.reservations || userId !in db.users then db.reservations
    else db.reservations[subdomain := userId]
  }

  function Release(db: Db, subdomain: string): map<string, int> {
    db.reservations - {subdomain}
  }

  function IssueToken(db: Db, userId: int): map<int, Token> {
    if userId !in db.users then db.tokens
    else db.tokens[NextId(db.tokens.Keys) := Token(userId, None, 0, None)]
  }

  function StampToken(db: Db, tokenId: int, n: int): map<int, Token> {
    if tokenId !in db.tokens then db.tokens else db.tokens[tokenId := db.tokens[tokenId].(lastUsedAt := Some(n))]
  }

  /** The row predicate of both revoking UPDATEs; owner is the user a self-service revoke names. */
  predicate Revocable(db: Db, tokenId: int, owner: Option<int>) {
    && tokenId in db.tokens && db.tokens[tokenId].revokedAt.None?
    && (owner.Some? ==> db.tokens[tokenId].userId == owner.value)
  }

  function MarkRevoked(db: Db, tokenId: int, owner: Option<int>, n: int): map<int, Token> {
    if !Revocable(db, tokenId, owner) then db.tokens
    else db.tokens[tokenId := db.tokens[tokenId].(revokedAt := Some(n))]
  }

  function KickToken(db: Db, sid: int, n: int): map<int, Token> {
    if sid !in db.sessions || db.sessions[sid].tokenId !in db.tokens then db.tokens
    else
      var t := db.sessions[sid].tokenId;
      db.tokens[t := db.tokens[t].(kickedUntil := n + KICK_COOLDOWN)]
  }

  function KillTokenSessions(db: Db, tokenId: int, owner: Option<int>): map<int, Session> {
    map id | id in db.sessions ::
      var s := db.sessions[id];
      if s.tokenId == tokenId && (owner.Some? ==> s.userId == owner.value) && s.endedAt.None?
      then s.(killed := true) else s
  }

  /** The row predicate of the killing UPDATE. */
  predicate Open(db: Db, sid: int) { sid in db.sessions && db.sessions[sid].endedAt.None? }

  function KillSession(db: Db, sid: int): map<int, Session> {
    if !Open(db, sid) then db.sessions else db.sessions[sid := db.sessions[sid].(killed := true)]
  }

  function CreateSession(db: Db, userId: int, tokenId: int, n: int): map<int, Session> {
    if userId !in db.users || tokenId !in db.tokens then db.sessions
    else db.sessions[NextId(db.sessions.Keys) := Session(userId, tokenId, "", n, n, None, false)]
  }

  function Touch(db: Db, sid: int, runId: string, n: int): map<int, Session> {
    if sid !in db.sessions then db.sessions
    else
      var s := db.sessions[sid];
      db.sessions[sid := s.(lastSeenAt := n, runId := if s.runId == "" then runId else s.runId)]
  }

  predicate Stale(s: Session, cutoff: int) { s.endedAt.None? && s.lastSeenAt < cutoff }

  function SweepSessions(db: Db, cutoff: int, n: int): map<int, Session> {
    map id | id in db.sessions ::
      if Stale(db.sessions[id], cutoff) then db.sessions[id].(endedAt := Some(n)) else db.sessions[id]
  }

  /** UPDATE proxies SET ended_at = n WHERE id IN ids. */
  function EndRows(proxies: map<int, Proxy>, ids: set<int>, n: int): map<int, Proxy> {
    map id | id in proxies :: if id in ids then proxies[id].(endedAt := Some(n)) else proxies[id]
  }

  function StaleRows(db: Db, cutoff: int): set<int> {
    set id | id in db.proxies && db.proxies[id].Live()
      && db.proxies[id].sessionId in db.sessions && Stale(db.sessions[db.proxies[id].sessionId], cutoff)
  }

  function SweepProxies(db: Db, cutoff: int, n: int): map<int, Proxy> {
    EndRows(db.proxies, StaleRows(db, cutoff), n)
  }

  function NamedRows(db: Db, sid: int, name: string): set<int> {
    set id | id in db.proxies && db.proxies[id].Live() && db.proxies[id].sessionId == sid && db.proxies[id].name == name
  }

  function EndProxy(db: Db, sid: int, name: string, n: int): map<int, Proxy> {
    EndRows(db.proxies, NamedRows(db, sid, name), n)
  }

  // ---------- admission ----------

  datatype Request = Request(
    sessionId: int, runId: string, name: string, typ: string, subdomain: string, remotePort: int)

  datatype Denial =
    | SessionUnknown | SessionTerminated | TokenRevoked | AccountDisabled
    | PortalName | ReservedBy(owner: int) | PortOutside(lo: int, hi: int) | TypeNotAllowed
    | InUse | QuotaReached(limit: int)
    | CustomDomains | InvalidSubdomain

  /** takeover is the session whose rows were replaced, 0 when there was none. */
  datatype Verdict = Admitted(takeover: int) | Denied(reason: Denial)

  /** The three-way join that resolves a session together with its user and token. */
  predicate Known(db: Db, sid: int) {
    && sid in db.sessions
    && db.sessions[sid].userId in db.users
    && db.sessions[sid].tokenId in db.tokens
  }

  function LiveOf(proxies: map<int, Proxy>, userId: int): set<int> {
    set id | id in proxies && proxies[id].Live() && proxies[id].userId == userId
  }

  /** Does row p occupy the address request r asks for: its name, or its port? */
  predicate Occupies(p: Proxy, r: Request) {
    p.Live() && (if r.typ == "http" then p.subdomain == r.subdomain else p.remotePort == r.remotePort)
  }

  function Holders(proxies: map<int, Proxy>, r: Request): set<int> {
    set id | id in proxies && Occupies(proxies[id], r)
  }

  function HolderSessions(proxies: map<int, Proxy>, r: Request): (ids: set<int>)
    ensures Holders(proxies, r) != {} ==> ids != {}
  {
    var ids := set id | id in Holders(proxies, r) :: proxies[id].sessionId;
    assert forall id :: id in Holders(proxies, r) ==> proxies[id].sessionId in ids;
    ids
  }

  /** Would the partial unique indexes refuse a live row with r's name and port? */
  predicate Clashes(p: Proxy, r: Request) {
    && p.Live()
    && ((r.subdomain != "" && p.subdomain == r.subdomain) || (r.remotePort != 0 && p.remotePort == r.remotePort))
  }

  function NewRow(userId: int, r: Request, n: int): Proxy {
    Proxy(r.sessionId, userId, r.runId, r.name, r.typ, r.subdomain, r.remotePort, n, None)
  }

  /** The policy checks that come before any row is looked at; None lets the request through. */
  function Policy(db: Db, r: Request): Option<Denial>
    requires Known(db, r.sessionId)
  {
    var s := db.sessions[r.sessionId];
    if s.killed || s.endedAt.Some? then Some(SessionTerminated)
    else if db.tokens[s.tokenId].revokedAt.Some? then Some(TokenRevoked)
    else if db.users[s.userId].disabled then Some(AccountDisabled)
    else if r.typ == "http" then
      if r.subdomain == PORTAL then Some(PortalName)
      else if r.subdomain in db.reservations && db.reservations[r.subdomain] in db.users
           && db.reservations[r.subdomain] != s.userId
      then Some(ReservedBy(db.reservations[r.subdomain]))
      else None
    else if r.typ == "tcp" then
      var (lo, hi) := Window(db);
      if r.remotePort < lo || r.remotePort > hi then Some(PortOutside(lo, hi)) else None
    else Some(TypeNotAllowed)
  }

  /** A live holder that may not be replaced: another user's, or the asking session's own. */
  predicate Blocked(db: Db, r: Request)
    requires Known(db, r.sessionId)
  {
    exists id | id in Holders(db.proxies, r) ::
      db.proxies[id].userId != db.sessions[r.sessionId].userId || db.proxies[id].sessionId == r.sessionId
  }

  /** What AdmitProxy answers, as a question about the tables before the transaction. */
  function Decide(db: Db, r: Request): Verdict {
    if !Known(db, r.sessionId) then Denied(SessionUnknown)
    else if Policy(db, r).Some? then Denied(Policy(db, r).value)
    else if Blocked(db, r) then Denied(InUse)
    else
      var user := db.sessions[r.sessionId].userId;
      var holders := Holders(db.proxies, r);
      if |LiveOf(db.proxies, user) - holders| >= db.users[user].maxTunnels then
        Denied(QuotaReached(db.users[user].maxTunnels))
      else if exists id | id in db.proxies :: id !in holders && Clashes(db.proxies[id], r) then Denied(InUse)
      else Admitted(if holders == {} then 0 else Max(HolderSessions(db.proxies, r)))
  }

  /** The proxies after an admission: every holder ended, one new live row, nothing else touched. */
  function AfterAdmit(db: Db, r: Request, n: int): map<int, Proxy>
    requires Known(db, r.sessionId)
  {
    EndRows(db.proxies, Holders(db.proxies, r), n)[
      NextId(db.proxies.Keys) := NewRow(db.sessions[r.sessionId].userId, r, n)]
  }

  function Admit(db: Db, r: Request, n: int): map<int, Proxy> {
    if Decide(db, r).Admitted? then AfterAdmit(db, r, n) else db.proxies
  }
}
