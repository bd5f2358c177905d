/** The frps plugin endpoint: the login stamp and the four operations, run alone against the store. */
module RelayHandler {
  import opened Basics
  import opened Decimal
  import opened RelayDb
  import opened RelaySystem
  import opened RelayStore
  import opened RelayText

  /** Where the operations after a login find their session. */
  function SessionOf(metas: map<string, string>): Option<int> {
    if META_SESSION !in metas || metas[META_SESSION] == "" then None else Some(ParseIgnoringError(metas[META_SESSION]))
  }

  /** What login does to the metadata it keeps: the session's id and the user's name in, the secret out. */
  function Stamp(metas: map<string, string>, sid: nat, name: string): map<string, string> {
    metas[META_SESSION := Format(sid)][META_USER := name] - {META_TOKEN}
  }

  /** Whatever metadata the client sent, the stamped id is the one later operations find, the name is the
      user's, the token is gone, and nothing else was added or changed. */
  lemma StampResolves(metas: map<string, string>, sid: nat, name: string)
    requires sid <= MAX_INT64
    ensures SessionOf(Stamp(metas, sid, name)) == Some(sid)
    ensures META_USER in Stamp(metas, sid, name) && Stamp(metas, sid, name)[META_USER] == name
    ensures META_TOKEN !in Stamp(metas, sid, name)
    ensures forall k :: k !in {META_SESSION, META_USER, META_TOKEN} ==> (
              && (k in Stamp(metas, sid, name) <==> k in metas)
              && (k in metas ==> Stamp(metas, sid, name)[k] == metas[k]))
  {
    ParseFormat(sid);
    assert |META_SESSION| > |META_USER| > |META_TOKEN|;
    assert Stamp(metas, sid, name)[META_SESSION] == Format(sid);
  }

  /** The login as it goes back to frps: the user's own name, and the metadata that was kept. */
  function Rewrite(content: map<string, Field>, metas: map<string, string>, name: string): map<string, Field> {
    content[FIELD_USER := Plain(name)][FIELD_METAS := Object(AsValues(metas))]
  }

  lemma RewriteKeeps(content: map<string, Field>, metas: map<string, string>, name: string)
    ensures Texts(RawMetas(Rewrite(content, metas, name))) == metas
    ensures Rewrite(content, metas, name)[FIELD_USER] == Plain(name)
    ensures forall k :: k != FIELD_USER && k != FIELD_METAS ==> (
              && (k in Rewrite(content, metas, name) <==> k in content)
              && (k in content ==> Rewrite(content, metas, name)[k] == content[k]))
  {
    assert FIELD_USER != FIELD_METAS by { assert |FIELD_USER| != |FIELD_METAS|; }
    assert Texts(AsValues(metas)) == metas;
  }

  datatype LoginReply = Accepted(content: map<string, Field>) | Refused

  datatype Reply = Allow | Reject(why: Denial) | Malformed

  // ---------- the session check run alone ----------

  predicate Passes(db: Db, sid: int) {
    && Known(db, sid) && !db.sessions[sid].killed && db.sessions[sid].endedAt.None?
    && db.tokens[db.sessions[sid].tokenId].revokedAt.None? && !db.users[db.sessions[sid].userId].disabled
  }

  function Touched(db: Db, sid: int, purpose: Purpose, now: int): Db {
    db.(sessions := Touch(db, sid, RunIdOf(purpose), now))
  }

  /** The tables after a NewProxy or Ping that nothing interrupts. */
  function AfterCheck(db: Db, sid: int, p: Purpose, now: int): Db {
    if !Passes(db, sid) then db
    else
      var touched := Touched(db, sid, p, now);
      if p.ForProxy? && WellFormed(p.ask)
      then touched.(proxies := Admit(touched, RequestOf(sid, p.ask), now)) else touched
  }

  /** It is the run of the interleaved operation with nothing between its statements. */
  lemma CheckedRun(db: Db, now: int, sid: int, p: Purpose)
    ensures Complete(db, now, CheckSession(sid, p)) == AfterCheck(db, sid, p, now)
  {
    if Known(db, sid) && !db.sessions[sid].killed && db.sessions[sid].endedAt.None? {
      var s := db.sessions[sid];
      CheckedTail(db, now, sid, s.tokenId, s.userId, p);
      assert Exec(db, now, CheckSession(sid, p)) == db;
    }
  }

  lemma CheckedTail(db: Db, now: int, sid: int, t: int, u: int, p: Purpose)
    ensures Complete(db, now, CheckToken(sid, t, u, p)) ==
            if t in db.tokens && db.tokens[t].revokedAt.None? && u in db.users && !db.users[u].disabled
            then Complete(db, now, Heartbeat(sid, p)) else db
    ensures Complete(db, now, Heartbeat(sid, p)) ==
            var touched := Touched(db, sid, p, now);
            if p.ForProxy? && WellFormed(p.ask)
            then touched.(proxies := Admit(touched, RequestOf(sid, p.ask), now)) else touched
  {
    assert Exec(db, now, CheckToken(sid, t, u, p)) == db && Exec(db, now, CheckUser(sid, u, p)) == db;
    assert Exec(db, now, Heartbeat(sid, p)) == Touched(db, sid, p, now);
  }

  /** The tables after a login that nothing interrupts. */
  function AfterLogin(db: Db, t: int, now: int): Db
    requires t in db.tokens
  {
    var stamped := db.(tokens := StampToken(db, t, now));
    stamped.(sessions := CreateSession(stamped, db.tokens[t].userId, t, now))
  }

  /** May the token's holder log in: the token exists, is neither revoked nor cooling down, and its user is enabled? */
  predicate CanLogin(db: Db, t: int, now: int) {
    && t in db.tokens && db.tokens[t].revokedAt.None? && db.tokens[t].kickedUntil <= now
    && db.tokens[t].userId in db.users && !db.users[db.tokens[t].userId].disabled
  }

  /** A login that nothing interrupts adds one session, live and seen now, and stamps the token's last use, if
      the token is usable; otherwise it changes nothing. */
  lemma LoginRun(db: Db, now: int, t: int)
    ensures !CanLogin(db, t, now) ==> Complete(db, now, LoginToken(t)) == db
    ensures CanLogin(db, t, now) ==>
              Complete(db, now, LoginToken(t)) == db.(
                tokens := db.tokens[t := db.tokens[t].(lastUsedAt := Some(now))],
                sessions := db.sessions[
                  NextId(db.sessions.Keys) := Session(db.tokens[t].userId, t, "", now, now, None, false)])
    ensures CanLogin(db, t, now) ==> Complete(db, now, LoginToken(t)) == AfterLogin(db, t, now)
  {
    if CanLogin(db, t, now) { UsableLoginRun(db, now, t); } else { RefusedLoginRun(db, now, t); }
  }

  lemma RefusedLoginRun(db: Db, now: int, t: int)
    requires !CanLogin(db, t, now)
    ensures Complete(db, now, LoginToken(t)) == db
  {
    assert Exec(db, now, LoginToken(t)) == db;
    if t in db.tokens && db.tokens[t].revokedAt.None? {
      var u := db.tokens[t].userId;
      assert Exec(db, now, LoginCooldown(t, u)) == db && Exec(db, now, LoginUser(t, u)) == db;
      assert Complete(db, now, LoginToken(t)) == Complete(db, now, LoginCooldown(t, u));
      if db.tokens[t].kickedUntil <= now {
        assert Complete(db, now, LoginCooldown(t, u)) == Complete(db, now, LoginUser(t, u));
      }
    }
  }

  lemma UsableLoginRun(db: Db, now: int, t: int)
    requires CanLogin(db, t, now)
    ensures Complete(db, now, LoginToken(t)) == AfterLogin(db, t, now)
  {
    var u := db.tokens[t].userId;
    var stamped := db.(tokens := StampToken(db, t, now));
    assert Exec(db, now, LoginStamp(t, u)) == stamped;
    assert Exec(db, now, LoginUser(t, u)) == db;
    assert Exec(db, now, LoginCooldown(t, u)) == db && Exec(db, now, LoginToken(t)) == db;
    assert Complete(stamped, now, LoginSession(t, u)) == AfterLogin(db, t, now);
    assert Complete(db, now, LoginUser(t, u)) == Complete(stamped, now, LoginSession(t, u));
  }

  function ForSession(db: Db, metas: map<string, string>, p: Purpose, now: int): Db {
    if SessionOf(metas).None? then db else AfterCheck(db, SessionOf(metas).value, p, now)
  }

  class Handler {
    const store: Store
    /** The row a presented token's hash selects; an id without a row when there is none. */
    const tokenRow: string -> int
    /** The name of a user's row. */
    const userName: int -> string
    /** strings.ToLower. */
    const toLower: string -> string

    constructor (store: Store, tokenRow: string -> int, userName: int -> string, toLower: string -> string)
      ensures this.store == store && this.tokenRow == tokenRow && this.userName == userName && this.toLower == toLower
    {
      this.store, this.tokenRow, this.userName, this.toLower := store, tokenRow, userName, toLower;
    }

    /** May this login be accepted: its fields and metadata are within every bound, and its token is usable? */
    ghost predicate Acceptable(db: Db, content: map<string, Field>, now: int) {
      var metas := Texts(RawMetas(content));
      && BoundedFields(content) && |RawMetas(content)| <= MAX_META_ENTRIES && BoundedEntries(metas)
      && META_TOKEN in metas && BoundedText(metas[META_TOKEN], MAX_TOKEN, false)
      && CanLogin(db, tokenRow(metas[META_TOKEN]), now)
    }

    /** A login leaves in the client's metadata the id of the session it created, whatever the client
        put there, and no token; that id resolves to a session that passes the check. */
    method Login(content: map<string, Field>, now: int) returns (reply: LoginReply)
      requires forall s :: s in store.sessions ==> 0 < s < MAX_INT64
      modifies store
      ensures reply.Refused? ==> store.State() == old(store.State())
      ensures reply.Accepted? <==> Acceptable(old(store.State()), content, now)
      ensures reply.Accepted? ==>
        && SessionOf(Texts(RawMetas(reply.content))).Some?
        && var metas, sid := Texts(RawMetas(content)), SessionOf(Texts(RawMetas(reply.content))).value;
           && 0 < sid && sid in store.sessions && sid !in old(store.sessions) && Passes(store.State(), sid)
           && META_TOKEN in metas && tokenRow(metas[META_TOKEN]) in old(store.tokens)
           && store.sessions[sid].tokenId == tokenRow(metas[META_TOKEN])
           && store.State() == AfterLogin(old(store.State()), tokenRow(metas[META_TOKEN]), now)
           && var name := userName(store.sessions[sid].userId);
              reply.content == Rewrite(content, Stamp(metas, sid, name), name)
    {
      var ok := CheckFields(content);
      if !ok { return Refused; }
      var collected := LoginMetas(RawMetas(content));
      if collected.None? { return Refused; }
      var metas := collected.value;
      if META_TOKEN !in metas || metas[META_TOKEN] == "" { return Refused; }
      if !BoundedText(metas[META_TOKEN], MAX_TOKEN, false) { return Refused; }
      var sid := Connect(tokenRow(metas[META_TOKEN]), now);
      if sid.None? { return Refused; }
      var name := userName(store.sessions[sid.value].userId);
      StampResolves(metas, sid.value, name);
      RewriteKeeps(content, Stamp(metas, sid.value, name), name);
      return Accepted(Rewrite(content, Stamp(metas, sid.value, name), name));
    }

    /** Authenticate, then create the session. */
    method Connect(row: int, now: int) returns (sid: Option<int>)
      requires forall s :: s in store.sessions ==> 0 < s < MAX_INT64
      modifies store
      ensures sid.None? ==> store.State() == old(store.State())
      ensures sid.Some? <==> CanLogin(old(store.State()), row, now)
      ensures sid.Some? ==>
        && 0 < sid.value <= MAX_INT64 && sid.value !in old(store.sessions) && Passes(store.State(), sid.value)
        && row in old(store.tokens) && store.sessions[sid.value].tokenId == row
        && store.State() == AfterLogin(old(store.State()), row, now)
    {
      var auth := store.Authenticate(row, now);
      if !auth.Authenticated? { return None; }
      sid := store.CreateSession(auth.userId, row, now);
    }

    /** The session the login stamped, or why it is refused. */
    method Session(metas: map<string, string>) returns (r: Option<int>, why: Denial)
      ensures r.Some? <==> SessionOf(metas).Some? && Passes(store.State(), SessionOf(metas).value)
      ensures r.Some? ==> r == SessionOf(metas)
      ensures r.None? && SessionOf(metas).Some? && Known(store.State(), SessionOf(metas).value) ==>
        var s := store.sessions[SessionOf(metas).value];
        why == if s.killed || s.endedAt.Some? then SessionTerminated
               else if store.tokens[s.tokenId].revokedAt.Some? then TokenRevoked else AccountDisabled
      ensures r.None? && !(SessionOf(metas).Some? && Known(store.State(), SessionOf(metas).value)) ==>
        why == SessionUnknown
    {
      var id := SessionOf(metas);
      if id.None? || !Known(store.State(), id.value) { return None, SessionUnknown; }
      var s := store.sessions[id.value];
      if s.killed || s.endedAt.Some? { return None, SessionTerminated; }
      if store.tokens[s.tokenId].revokedAt.Some? { return None, TokenRevoked; }
      if store.users[s.userId].disabled { return None, AccountDisabled; }
      return id, SessionUnknown;
    }

    /** Exactly one row was added: the one asked for, an http name in lower case. */
    ghost predicate OpenedFor(sid: int, ask: Ask, now: int, before: map<int, Proxy>, after: map<int, Proxy>)
      reads store
    {
      && sid in store.sessions
      && exists id :: (
           && id !in before && after.Keys == before.Keys + {id}
           && after[id] == Proxy(sid, store.sessions[sid].userId, ask.runId, ask.name, ask.typ,
                                 if ask.typ == "http" then toLower(ask.subdomain) else ask.subdomain,
                                 ask.remotePort, now, None))
    }

    /** Allowed exactly when a row was added for the request; every other answer leaves the proxies alone. */
    method NewProxy(user: string, metas: map<string, string>, ask: Ask, now: int) returns (reply: Reply)
      modifies store
      ensures reply.Malformed? <==> !BoundedAsk(user, metas, ask)
      ensures reply.Malformed? ==> store.State() == old(store.State())
      ensures reply.Allow? ==> SessionOf(metas).Some?
      ensures reply.Allow? ==> OpenedFor(SessionOf(metas).value, ask, now, old(store.proxies), store.proxies)
      ensures !reply.Malformed? ==> store.State() == ForSession(old(store.State()), metas, ForProxy(Lowered(ask)), now)
      ensures reply.Allow? <==> store.proxies.Keys != old(store.proxies.Keys)
      ensures !reply.Allow? ==> store.proxies == old(store.proxies)
    {
      var ok := CheckBounds(user, metas, ask);
      if !ok { return Malformed; }
      var sess, why := Session(metas);
      if sess.None? { return Reject(why); }
      reply := Open(sess.value, ask, now);
    }

    ghost predicate BoundedAsk(user: string, metas: map<string, string>, ask: Ask) {
      && BoundedUser(user, ask.runId, metas) && BoundedText(ask.name, MAX_PROXY_NAME, false)
      && BoundedText(ask.typ, MAX_PROXY_TYPE, false) && BoundedText(ask.subdomain, MAX_SUBDOMAIN, true)
    }

    method CheckBounds(user: string, metas: map<string, string>, ask: Ask) returns (ok: bool)
      ensures ok <==> BoundedAsk(user, metas, ask)
    {
      ok := ValidUserInfo(user, ask.runId, metas);
      ok := ok && BoundedText(ask.name, MAX_PROXY_NAME, false) && BoundedText(ask.typ, MAX_PROXY_TYPE, false)
            && BoundedText(ask.subdomain, MAX_SUBDOMAIN, true);
    }

    /** The answer to an admission's verdict. */
    function Answer(v: Verdict): Reply {
      match v case Admitted(_) => Allow case Denied(why) => Reject(why)
    }

    /** The rest of newProxy, once the session is known to pass: heartbeat, request checks, admission. */
    method Open(sid: int, ask: Ask, now: int) returns (reply: Reply)
      requires Passes(store.State(), sid)
      modifies store
      ensures !reply.Malformed?
      ensures store.State() == AfterCheck(old(store.State()), sid, ForProxy(Lowered(ask)), now)
      ensures if WellFormed(Lowered(ask)) then
                var touched := Touched(old(store.State()), sid, ForProxy(Lowered(ask)), now);
                reply == Answer(Decide(touched, RequestOf(sid, Lowered(ask))))
              else reply.Reject?
      ensures reply.Allow? ==> OpenedFor(sid, ask, now, old(store.proxies), store.proxies)
      ensures reply.Allow? <==> store.proxies.Keys != old(store.proxies.Keys)
      ensures !reply.Allow? ==> store.proxies == old(store.proxies)
    {
      var asked := Lowered(ask);
      store.TouchSession(sid, ask.runId, now);
      if asked.typ == "http" {
        if asked.customDomains { return Reject(CustomDomains); }
        if !ValidLabel(asked.subdomain) { return Reject(InvalidSubdomain); }
        if asked.subdomain == PORTAL { return Reject(PortalName); }
      } else if asked.typ != "tcp" {
        return Reject(TypeNotAllowed);
      }
      var verdict := store.AdmitProxy(RequestOf(sid, asked), now);
      if verdict.Denied? { return Reject(verdict.reason); }
      assert NextId(old(store.proxies).Keys) in store.proxies.Keys;
      return Allow;
    }

    /** newProxy lower-cases the name of an http tunnel and leaves other requests as they came. */
    function Lowered(ask: Ask): Ask {
      if ask.typ == "http" then ask.(subdomain := toLower(ask.subdomain)) else ask
    }

    method Ping(user: string, runId: string, metas: map<string, string>, now: int) returns (reply: Reply)
      modifies store
      ensures reply.Malformed? <==> !BoundedUser(user, runId, metas)
      ensures reply.Allow? <==> BoundedUser(user, runId, metas)
                                && SessionOf(metas).Some? && Passes(old(store.State()), SessionOf(metas).value)
      ensures reply.Allow? ==> SessionOf(metas).value in store.sessions
                               && store.sessions[SessionOf(metas).value].lastSeenAt == now
      ensures reply.Malformed? ==> store.State() == old(store.State())
      ensures !reply.Malformed? ==> store.State() == ForSession(old(store.State()), metas, ForPing(runId), now)
    {
      var ok := ValidUserInfo(user, runId, metas);
      if !ok { return Malformed; }
      var sess, why := Session(metas);
      if sess.None? { return Reject(why); }
      store.TouchSession(sess.value, runId, now);
      return Allow;
    }

    /** Always allowed; ends only live rows of the stamped session with the given name. */
    method CloseProxy(user: string, runId: string, metas: map<string, string>, name: string, now: int)
      returns (reply: Reply)
      modifies store
      ensures reply.Allow?
      ensures forall p :: p in old(store.proxies)
                && (SessionOf(metas) != Some(old(store.proxies)[p].sessionId) || old(store.proxies)[p].name != name)
                ==> (p in store.proxies && store.proxies[p] == old(store.proxies)[p])
      ensures store.State() ==
        if BoundedUser(user, runId, metas) && BoundedText(name, MAX_PROXY_NAME, false) && SessionOf(metas).Some?
        then old(store.State()).(proxies := EndProxy(old(store.State()), SessionOf(metas).value, name, now))
        else old(store.State())
    {
      var ok := ValidUserInfo(user, runId, metas);
      if !ok || !BoundedText(name, MAX_PROXY_NAME, false) { return Allow; }
      if SessionOf(metas).Some? { store.EndProxy(SessionOf(metas).value, name, now); }
      return Allow;
    }
  }
}
