/** The relay as a state machine: operations in flight, one SQL statement a step.
    Exec is the tables after the next statement of an operation, Follow what is left of the operation.
    Everything here is about how the operations of handler.go, store.go and the sweep interleave. */
module RelaySystem {
  import opened Basics
  import opened RelayDb

  /** The text checks of a NewProxy request are done; the subdomain of an http request is lower-case. */
  datatype Ask = Ask(
    runId: string, name: string, typ: string, subdomain: string, customDomains: bool, remotePort: int)

  datatype Purpose = ForPing(runId: string) | ForProxy(ask: Ask)

  /** An operation, named by the statement it runs next. */
  datatype Op =
    // Login: Authenticate's three reads and one write, then the session row
    | LoginToken(tokenId: int)
    | LoginCooldown(tokenId: int, userId: int)
    | LoginUser(tokenId: int, userId: int)
    | LoginStamp(tokenId: int, userId: int)
    | LoginSession(tokenId: int, userId: int)
    // NewProxy and Ping: the session check's three reads, the heartbeat, the admission
    | CheckSession(sid: int, purpose: Purpose)
    | CheckToken(sid: int, tokenId: int, userId: int, purpose: Purpose)
    | CheckUser(sid: int, userId: int, purpose: Purpose)
    | Heartbeat(sid: int, purpose: Purpose)
    | Admission(request: Request, touchedAt: Option<int>)
    // CloseProxy
    | Close(sid: int, name: string)
    // The expiry sweep: two clock readings, two UPDATEs
    | SweepCutoff
    | SweepTime(cutoff: int)
    | SweepRows(cutoff: int, now: int)
    | SweepEnd(cutoff: int, now: int)
    // Revocation and kill: two UPDATEs each
    | Revoke(tokenId: int, owner: Option<int>)
    | RevokeSessions(tokenId: int, owner: Option<int>)
    | Kill(sid: int)
    | KillCooldown(sid: int)
    // Administration: one statement each
    | AddUser(limit: int)
    | AddToken(userId: int)
    | Limit(userId: int, limit: int)
    | Disable(userId: int, disabled: bool)
    | ReserveName(subdomain: string, userId: int)
    | ReleaseName(subdomain: string)
    | SetWindow(lo: int, hi: int)

  /** How many statements an operation may still run. */
  function Rank(op: Op): nat {
    match op
    case LoginToken(_) => 5
    case LoginCooldown(_, _) => 4
    case LoginUser(_, _) => 3
    case LoginStamp(_, _) => 2
    case CheckSession(_, _) => 5
    case CheckToken(_, _, _, _) => 4
    case CheckUser(_, _, _) => 3
    case Heartbeat(_, _) => 2
    case SweepCutoff => 4
    case SweepTime(_) => 3
    case SweepRows(_, _) => 2
    case Revoke(_, _) => 2
    case Kill(_) => 2
    case _ => 1
  }

  /** The operations that can begin at any time. */
  predicate Fresh(op: Op) {
    || op.LoginToken? || op.CheckSession? || op.Close? || op.SweepCutoff? || op.Revoke? || op.Kill?
    || op.AddUser? || op.AddToken? || op.Limit? || op.Disable? || op.ReserveName? || op.ReleaseName? || op.SetWindow?
  }

  predicate LabelChar(c: char) { 'a' <= c <= 'z' || '0' <= c <= '9' || c == '-' }

  /** ^[a-z0-9]([a-z0-9-]{0,61}[a-z0-9])?$ */
  predicate ValidLabel(s: string) {
    && 1 <= |s| <= 63
    && (forall c :: c in s ==> LabelChar(c))
    && s[0] != '-' && s[|s| - 1] != '-'
  }

  /** newProxy's own checks, between the heartbeat and the admission. */
  predicate WellFormed(ask: Ask) {
    if ask.typ == "http" then !ask.customDomains && ValidLabel(ask.subdomain) && ask.subdomain != PORTAL
    else ask.typ == "tcp"
  }

  function RequestOf(sid: int, ask: Ask): Request {
    Request(sid, ask.runId, ask.name, ask.typ, ask.subdomain, ask.remotePort)
  }

  /** What follows the heartbeat, whether or not its UPDATE succeeded. */
  function AfterHeartbeat(sid: int, purpose: Purpose, touchedAt: Option<int>): Option<Op> {
    match purpose
    case ForPing(_) => None
    case ForProxy(ask) => if WellFormed(ask) then Some(Admission(RequestOf(sid, ask), touchedAt)) else None
  }

  function RunIdOf(p: Purpose): string {
    match p case ForPing(r) => r case ForProxy(a) => a.runId
  }

  function UsersAfter(db: Db, op: Op): map<int, User> {
    match op
    case AddUser(n) => CreateUser(db, n)
    case Limit(u, n) => SetMaxTunnels(db, u, n)
    case Disable(u, b) => SetDisabled(db, u, b)
    case _ => db.users
  }

  function TokensAfter(db: Db, clock: int, op: Op): map<int, Token> {
    match op
    case AddToken(u) => IssueToken(db, u)
    case LoginStamp(t, _) => StampToken(db, t, clock)
    case Revoke(t, owner) => MarkRevoked(db, t, owner, clock)
    case KillCooldown(sid) => KickToken(db, sid, clock)
    case _ => db.tokens
  }

  function SessionsAfter(db: Db, clock: int, op: Op): map<int, Session> {
    match op
    case LoginSession(t, u) => CreateSession(db, u, t, clock)
    case Heartbeat(sid, p) => Touch(db, sid, RunIdOf(p), clock)
    case RevokeSessions(t, owner) => KillTokenSessions(db, t, owner)
    case Kill(sid) => KillSession(db, sid)
    case SweepEnd(cutoff, n) => SweepSessions(db, cutoff, n)
    case _ => db.sessions
  }

  function ProxiesAfter(db: Db, clock: int, op: Op): map<int, Proxy> {
    match op
    case Admission(r, _) => Admit(db, r, clock)
    case Close(sid, name) => EndProxy(db, sid, name, clock)
    case SweepRows(cutoff, n) => SweepProxies(db, cutoff, n)
    case _ => db.proxies
  }

  function ReservationsAfter(db: Db, op: Op): map<string, int> {
    match op
    case ReserveName(sub, u) => Reserve(db, sub, u)
    case ReleaseName(sub) => Release(db, sub)
    case _ => db.reservations
  }

  /** The tables after the operation's next statement. */
  function Exec(db: Db, clock: int, op: Op): Db {
    Db(UsersAfter(db, op), TokensAfter(db, clock, op), SessionsAfter(db, clock, op), ProxiesAfter(db, clock, op),
       ReservationsAfter(db, op), if op.SetWindow? then (op.lo, op.hi) else db.window)
  }

  /** What the operation does after that statement, given what the statement read; None when it is over. */
  function Follow(db: Db, clock: int, op: Op): (next: Option<Op>)
    ensures next.Some? ==> Rank(next.value) < Rank(op) && !Fresh(next.value)
  {
    match op
    case LoginToken(t) =>
      if t in db.tokens && db.tokens[t].revokedAt.None? then Some(LoginCooldown(t, db.tokens[t].userId)) else None
    case LoginCooldown(t, u) =>
      if t in db.tokens && db.tokens[t].kickedUntil - clock > 0 then None else Some(LoginUser(t, u))
    case LoginUser(t, u) => if u in db.users && !db.users[u].disabled then Some(LoginStamp(t, u)) else None
    case LoginStamp(t, u) => Some(LoginSession(t, u))
    case CheckSession(sid, p) =>
      if Known(db, sid) && !db.sessions[sid].killed && db.sessions[sid].endedAt.None?
      then Some(CheckToken(sid, db.sessions[sid].tokenId, db.sessions[sid].userId, p)) else None
    case CheckToken(sid, t, u, p) =>
      if t in db.tokens && db.tokens[t].revokedAt.None? then Some(CheckUser(sid, u, p)) else None
    case CheckUser(sid, u, p) => if u in db.users && !db.users[u].disabled then Some(Heartbeat(sid, p)) else None
    case Heartbeat(sid, p) => AfterHeartbeat(sid, p, Some(clock))
    case SweepCutoff => Some(SweepTime(clock - SESSION_STALE_AFTER))
    case SweepTime(cutoff) => Some(SweepRows(cutoff, clock))
    case SweepRows(cutoff, n) => Some(SweepEnd(cutoff, n))
    case Revoke(t, owner) => if Revocable(db, t, owner) then Some(RevokeSessions(t, owner)) else None
    case Kill(sid) => if Open(db, sid) then Some(KillCooldown(sid)) else None
    case _ => None
  }

  /** The continuation when the next statement fails and the code ignores the error. */
  function Ignore(op: Op): Option<Op> {
    match op
    case LoginCooldown(t, u) => Some(LoginUser(t, u))
    case LoginStamp(t, u) => Some(LoginSession(t, u))
    case Heartbeat(sid, p) => AfterHeartbeat(sid, p, None)
    case _ => None
  }

  /** The operation run to its end with nothing in between. */
  function Complete(db: Db, clock: int, op: Op): Db
    decreases Rank(op)
  {
    var next := Follow(db, clock, op);
    if next.Some? then Complete(Exec(db, clock, op), clock, next.value) else Exec(db, clock, op)
  }

  lemma SweepUnrolled(db: Db, clock: int)
    ensures var cutoff := clock - SESSION_STALE_AFTER;
            var half := db.(proxies := SweepProxies(db, cutoff, clock));
            Complete(db, clock, SweepCutoff) == half.(sessions := SweepSessions(half, cutoff, clock))
  {
    var cutoff := clock - SESSION_STALE_AFTER;
    var half := db.(proxies := SweepProxies(db, cutoff, clock));
    assert Exec(db, clock, SweepCutoff) == db && Exec(db, clock, SweepTime(cutoff)) == db;
    assert Exec(db, clock, SweepRows(cutoff, clock)) == half;
    SweepEndAlone(half, clock, cutoff);
  }

  lemma RevokeUnrolled(db: Db, clock: int, t: int, owner: Option<int>)
    ensures !Revocable(db, t, owner) ==> Complete(db, clock, Revoke(t, owner)) == db
    ensures Revocable(db, t, owner) ==>
              var marked := db.(tokens := MarkRevoked(db, t, owner, clock));
              Complete(db, clock, Revoke(t, owner)) == marked.(sessions := KillTokenSessions(marked, t, owner))
  {
    if Revocable(db, t, owner) {
      var marked := Exec(db, clock, Revoke(t, owner));
      assert Complete(db, clock, Revoke(t, owner)) == Complete(marked, clock, RevokeSessions(t, owner));
    }
  }

  lemma KillUnrolled(db: Db, clock: int, sid: int)
    ensures !Open(db, sid) ==> Complete(db, clock, Kill(sid)) == db
    ensures Open(db, sid) ==>
              var marked := db.(sessions := KillSession(db, sid));
              Complete(db, clock, Kill(sid)) == marked.(tokens := KickToken(marked, sid, clock))
  {
    if Open(db, sid) {
      var marked := Exec(db, clock, Kill(sid));
      assert Complete(db, clock, Kill(sid)) == Complete(marked, clock, KillCooldown(sid));
    }
  }

  lemma SweepEndAlone(db: Db, clock: int, cutoff: int)
    ensures Complete(db, clock, SweepEnd(cutoff, clock)) == db.(sessions := SweepSessions(db, cutoff, clock))
  {
  }

  // ---------- runs ----------

  /** The tables, the clock in seconds and the operations in flight. Identical operations are one
      element; a step may leave the operation it ran in the set, which stands for another copy. */
  datatype Sys = Sys(db: Db, clock: int, ops: set<Op>)

  /** Fail is a statement that failed: its operation stops, or goes on where the code ignores errors. */
  datatype Action = Begin(op: Op) | Wait(until: int) | Run(op: Op) | Fail(op: Op)

  predicate Continues(ops: set<Op>, next: Option<Op>, ops': set<Op>) {
    ops' <= ops + (if next.Some? then {next.value} else {})
  }

  predicate Next(s: Sys, a: Action, s': Sys) {
    match a
    case Begin(op) => Fresh(op) && s' == s.(ops := s.ops + {op})
    case Wait(until) => s.clock <= until && s' == s.(clock := until)
    case Run(op) =>
      op in s.ops && s'.clock == s.clock
      && s'.db == Exec(s.db, s.clock, op) && Continues(s.ops, Follow(s.db, s.clock, op), s'.ops)
    case Fail(op) =>
      op in s.ops && s'.clock == s.clock && s'.db == s.db && Continues(s.ops, Ignore(op), s'.ops)
  }

  predicate Init(s: Sys) { s.db == EMPTY && s.ops == {} }

  predicate IsRun(states: seq<Sys>, actions: seq<Action>) {
    && |states| == |actions| + 1
    && forall i {:trigger actions[i]} :: 0 <= i < |actions| ==> Next(states[i], actions[i], states[i + 1])
  }

  /** The admission follows its heartbeat within the session timeout. */
  predicate Prompt(s: Sys, a: Action) {
    a.Run? && a.op.Admission? ==> a.op.touchedAt.Some? && s.clock <= a.op.touchedAt.value + SESSION_STALE_AFTER
  }

  predicate PromptRun(states: seq<Sys>, actions: seq<Action>)
    requires IsRun(states, actions)
  {
    forall i {:trigger actions[i]} :: 0 <= i < |actions| ==> Prompt(states[i], actions[i])
  }

  lemma Prefix(states: seq<Sys>, actions: seq<Action>)
    requires IsRun(states, actions) && |actions| > 0
    ensures IsRun(states[..|actions|], actions[..|actions| - 1])
    ensures Next(states[|actions| - 1], actions[|actions| - 1], states[|actions|])
  {
  }
}
