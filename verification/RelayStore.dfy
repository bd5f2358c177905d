/** The store itself: tables updated in place, each method proved against the statements of RelayDb
    and, where it is several statements, against the undisturbed run of the operation it performs. */
module RelayStore {
  import opened Basics
  import opened RelayDb
  import opened RelaySystem

  datatype AuthResult =
    | Authenticated(userId: int)
    | UnknownToken | RevokedToken | CoolingDown(minutes: int) | DisabledAccount

  class Store {
    var users: map<int, User>
    var tokens: map<int, Token>
    var sessions: map<int, Session>
    var proxies: map<int, Proxy>
    var reservations: map<string, int>
    var window: (int, int)

    function State(): Db
      reads this
    {
      Db(users, tokens, sessions, proxies, reservations, window)
    }

    constructor ()
      ensures State() == EMPTY
    {
      users, tokens, sessions, proxies, reservations, window := map[], map[], map[], map[], map[], (0, 0);
    }

    /** One transaction: the stale rows are ended before the quota is counted and the row inserted, and a
        refusal after that point rolls the ending back. Deciding on the tables as they were before the
        transaction gives the same answer, and a refusal changes nothing. */
    method AdmitProxy(r: Request, now: int) returns (v: Verdict)
      modifies `proxies
      ensures v == Decide(old(State()), r)
      ensures v.Admitted? ==> State() == old(State()).(proxies := AfterAdmit(old(State()), r, now))
      ensures v.Denied? ==> State() == old(State())
      ensures v.Admitted? ==> AdmittedAs(r, sessions[r.sessionId].userId, now, old(proxies), proxies)
    {
      var before := proxies;
      if r.sessionId !in sessions { return Denied(SessionUnknown); }
      var s := sessions[r.sessionId];
      if s.userId !in users || s.tokenId !in tokens { return Denied(SessionUnknown); }
      var refused := CheckPolicy(r);
      if refused.Some? { return Denied(refused.value); }

      var takeover := 0;
      var holders := set id | id in proxies && Occupies(proxies[id], r);
      ghost var db := State();
      assert holders == Holders(before, r);
      if holders != {} {
        if exists id | id in holders :: proxies[id].userId != s.userId || proxies[id].sessionId == r.sessionId {
          return Denied(InUse);
        }
        takeover := Max(HolderSessions(proxies, r));
        proxies := EndRows(proxies, holders, now);
      }
      assert !Blocked(db, r);
      Ended(before, proxies, holders, s.userId, now);
      if |LiveOf(proxies, s.userId)| >= users[s.userId].maxTunnels {
        proxies := before;
        return Denied(QuotaReached(users[s.userId].maxTunnels));
      }
      StillClashing(before, proxies, holders, r, now);
      if exists id | id in proxies :: Clashes(proxies[id], r) {
        proxies := before;
        return Denied(InUse);
      }
      proxies := proxies[NextId(proxies.Keys) := NewRow(s.userId, r, now)];
      AdmissionLeaves(before, r, s.userId, now);
      return Admitted(takeover);
    }

    /** What an admission leaves: one new live row that carries the request, the holders of its address ended
        now, and every other row as it was. */
    static ghost predicate AdmittedAs(
      r: Request, user: int, now: int, before: map<int, Proxy>, after: map<int, Proxy>)
    {
      && (exists id :: (
            && id !in before && after.Keys == before.Keys + {id}
            && after[id] == Proxy(r.sessionId, user, r.runId, r.name, r.typ, r.subdomain, r.remotePort, now, None)))
      && forall p :: p in before ==> (
           && p in after
           && after[p] == if before[p].endedAt.None?
                             && (if r.typ == "http" then before[p].subdomain == r.subdomain
                                 else before[p].remotePort == r.remotePort)
                          then before[p].(endedAt := Some(now)) else before[p])
    }

    static lemma AdmissionLeaves(before: map<int, Proxy>, r: Request, user: int, now: int)
      ensures var after := EndRows(before, Holders(before, r), now)[NextId(before.Keys) := NewRow(user, r, now)];
              AdmittedAs(r, user, now, before, after)
    {
      var after := EndRows(before, Holders(before, r), now)[NextId(before.Keys) := NewRow(user, r, now)];
      assert NextId(before.Keys) !in before && after.Keys == before.Keys + {NextId(before.Keys)};
    }

    /** The checks of the transaction that come before any proxy row is looked at. They let a request through
        exactly when its session, token and user are in good standing and the address is free to ask for:
        a name that is neither the portal's nor reserved to another user, or a port in the window in force. */
    method CheckPolicy(r: Request) returns (refused: Option<Denial>)
      requires Known(State(), r.sessionId)
      ensures refused == Policy(State(), r)
      ensures refused.None? <==> InGoodStanding(sessions[r.sessionId]) && FreeToAsk(r, sessions[r.sessionId].userId)
      ensures !InGoodStanding(sessions[r.sessionId]) ==>
        var s := sessions[r.sessionId];
        refused == Some(if s.killed || s.endedAt.Some? then SessionTerminated
                        else if tokens[s.tokenId].revokedAt.Some? then TokenRevoked else AccountDisabled)
      ensures InGoodStanding(sessions[r.sessionId]) && r.typ == "http" && r.subdomain == "ktunnel" ==>
                refused == Some(PortalName)
      ensures InGoodStanding(sessions[r.sessionId]) && r.typ == "tcp" && refused.Some? ==>
                refused.value.PortOutside? && forall p :: PortOpen(p) <==> refused.value.lo <= p <= refused.value.hi
      ensures InGoodStanding(sessions[r.sessionId]) && r.typ != "http" && r.typ != "tcp" ==>
                refused == Some(TypeNotAllowed)
      ensures refused.Some? && refused.value.ReservedBy? ==>
              && r.typ == "http" && r.subdomain in reservations && refused.value.owner == reservations[r.subdomain]
              && refused.value.owner != sessions[r.sessionId].userId
    {
      var s := sessions[r.sessionId];
      if s.killed || s.endedAt.Some? { return Some(SessionTerminated); }
      if tokens[s.tokenId].revokedAt.Some? { return Some(TokenRevoked); }
      if users[s.userId].disabled { return Some(AccountDisabled); }
      if r.typ == "http" {
        if r.subdomain == PORTAL { return Some(PortalName); }
        if r.subdomain in reservations && reservations[r.subdomain] in users {
          var owner := reservations[r.subdomain];
          if owner != s.userId { return Some(ReservedBy(owner)); }
        }
      } else if r.typ == "tcp" {
        var lo, hi := window.0, window.1;
        if lo == 0 || hi == 0 || lo > hi { lo, hi := DEFAULT_LO, DEFAULT_HI; }
        if r.remotePort < lo || r.remotePort > hi { return Some(PortOutside(lo, hi)); }
      } else {
        return Some(TypeNotAllowed);
      }
      return None;
    }

    predicate InGoodStanding(s: Session)
      requires s.userId in users && s.tokenId in tokens
      reads this
    {
      !s.killed && s.endedAt.None? && tokens[s.tokenId].revokedAt.None? && !users[s.userId].disabled
    }

    predicate FreeToAsk(r: Request, user: int)
      reads this
    {
      || (r.typ == "http" && r.subdomain != "ktunnel"
          && forall owner :: owner in users && owner != user ==>
               !(r.subdomain in reservations && reservations[r.subdomain] == owner))
      || (r.typ == "tcp" && PortOpen(r.remotePort))
    }

    /** The window in force is the stored one if that is usable, else 20000 to 29999. */
    predicate PortOpen(port: int)
      reads this
    {
      if window.0 != 0 && window.1 != 0 && window.0 <= window.1 then window.0 <= port <= window.1
      else 20000 <= port <= 29999
    }

    static lemma Ended(before: map<int, Proxy>, after: map<int, Proxy>, holders: set<int>, user: int, n: int)
      requires after == EndRows(before, holders, n) || (holders == {} && after == before)
      ensures after == EndRows(before, holders, n) && after.Keys == before.Keys
      ensures LiveOf(after, user) == LiveOf(before, user) - holders
    {
      assert forall id :: id in LiveOf(after, user) <==> id in LiveOf(before, user) - holders;
    }

    static lemma StillClashing(before: map<int, Proxy>, after: map<int, Proxy>, holders: set<int>, r: Request, n: int)
      requires after == EndRows(before, holders, n)
      ensures (exists id :: id in after && Clashes(after[id], r))
              <==> (exists id :: id in before && id !in holders && Clashes(before[id], r))
    {
      if id :| id in before && id !in holders && Clashes(before[id], r) {
        assert id in after && Clashes(after[id], r);
      }
      if id :| id in after && Clashes(after[id], r) {
        assert id in before && id !in holders && Clashes(before[id], r);
      }
    }

    /** Ends exactly the live rows of the session with that name, now; no other row and no other column changes. */
    method EndProxy(sid: int, name: string, now: int)
      modifies `proxies
      ensures proxies.Keys == old(proxies).Keys
      ensures forall p :: p in proxies && proxies[p].sessionId == sid && proxies[p].name == name ==>
                (proxies[p].endedAt == if old(proxies)[p].Live() then Some(now) else old(proxies)[p].endedAt)
      ensures forall p :: p in proxies ==> proxies[p] == old(proxies)[p].(endedAt := proxies[p].endedAt)
      ensures forall p :: p in proxies && !(proxies[p].sessionId == sid && proxies[p].name == name) ==>
                proxies[p] == old(proxies)[p]
      ensures State() == old(State()).(proxies := RelayDb.EndProxy(old(State()), sid, name, now))
    {
      proxies := EndRows(proxies, NamedRows(State(), sid, name), now);
    }

    /** Only the named session's row changes: it is seen now, and takes the run id if it has none. A session
        that has ended or was killed stays so. */
    method TouchSession(sid: int, runId: string, now: int)
      modifies `sessions
      ensures sessions.Keys == old(sessions).Keys
      ensures forall s :: s in sessions && s != sid ==> sessions[s] == old(sessions)[s]
      ensures sid in sessions ==>
        && sessions[sid].lastSeenAt == now
        && (old(sessions)[sid].runId != "" ==> sessions[sid].runId == old(sessions)[sid].runId)
        && (old(sessions)[sid].runId == "" ==> sessions[sid].runId == runId)
        && sessions[sid].endedAt == old(sessions)[sid].endedAt && sessions[sid].killed == old(sessions)[sid].killed
        && sessions[sid].userId == old(sessions)[sid].userId && sessions[sid].tokenId == old(sessions)[sid].tokenId
        && sessions[sid].startedAt == old(sessions)[sid].startedAt
      ensures State() == old(State()).(sessions := Touch(old(State()), sid, runId, now))
    {
      if sid in sessions {
        var s := sessions[sid];
        sessions := sessions[sid := s.(lastSeenAt := now, runId := if s.runId == "" then runId else s.runId)];
      }
    }

    /** Two UPDATEs: the rows of the stale sessions, then the sessions. Ended now is exactly every session not
        ended before and last seen more than 120 seconds ago, with or without tunnels, and its live tunnels. */
    method ExpireStaleSessions(now: int)
      modifies `proxies, `sessions
      ensures sessions.Keys == old(sessions).Keys && proxies.Keys == old(proxies).Keys
      ensures forall s :: s in sessions ==>
                sessions[s] == if old(sessions)[s].endedAt.None? && old(sessions)[s].lastSeenAt < now - 120
                               then old(sessions)[s].(endedAt := Some(now)) else old(sessions)[s]
      ensures forall p :: p in proxies ==>
                var row := old(proxies)[p];
                proxies[p] == if row.endedAt.None? && row.sessionId in old(sessions)
                                 && old(sessions)[row.sessionId].endedAt.None?
                                 && old(sessions)[row.sessionId].lastSeenAt < now - 120
                              then row.(endedAt := Some(now)) else row
      ensures State() == Complete(old(State()), now, SweepCutoff)
    {
      var cutoff := now - SESSION_STALE_AFTER;
      SweepUnrolled(State(), now);
      proxies := EndRows(proxies, StaleRows(State(), cutoff), now);
      sessions := SweepSessions(State(), cutoff, now);
    }

    /** Resolves a presented token; a success stamps its last use and nothing else changes. */
    method Authenticate(tokenId: int, now: int) returns (r: AuthResult)
      modifies `tokens
      ensures r.Authenticated? <==>
              && tokenId in old(tokens) && old(tokens)[tokenId].revokedAt.None?
              && old(tokens)[tokenId].kickedUntil <= now
              && old(tokens)[tokenId].userId in users && !users[old(tokens)[tokenId].userId].disabled
      ensures r.Authenticated? ==> r.userId == old(tokens)[tokenId].userId
      ensures r.RevokedToken? <==> tokenId in old(tokens) && old(tokens)[tokenId].revokedAt.Some?
      ensures r.CoolingDown? <==>
              tokenId in old(tokens) && old(tokens)[tokenId].revokedAt.None? && old(tokens)[tokenId].kickedUntil > now
      ensures r.DisabledAccount? <==>
              && tokenId in old(tokens) && old(tokens)[tokenId].revokedAt.None?
              && old(tokens)[tokenId].kickedUntil <= now
              && old(tokens)[tokenId].userId in users && users[old(tokens)[tokenId].userId].disabled
      ensures r.CoolingDown? ==> tokenId in old(tokens)
      ensures r.CoolingDown? ==> 60 * (r.minutes - 1) <= old(tokens)[tokenId].kickedUntil - now < 60 * r.minutes
      ensures r.Authenticated? ==> tokens == old(tokens)[tokenId := old(tokens)[tokenId].(lastUsedAt := Some(now))]
      ensures State() == if r.Authenticated? then old(State()).(tokens := StampToken(old(State()), tokenId, now))
                         else old(State())
    {
      if tokenId !in tokens { return UnknownToken; }
      var t := tokens[tokenId];
      if t.revokedAt.Some? { return RevokedToken; }
      var remaining := t.kickedUntil - now;
      if remaining > 0 { return CoolingDown(remaining / 60 + 1); }
      if t.userId !in users { return UnknownToken; }
      if users[t.userId].disabled { return DisabledAccount; }
      tokens := tokens[tokenId := t.(lastUsedAt := Some(now))];
      return Authenticated(t.userId);
    }

    /** Inserts a live session seen now; its id is new. */
    method CreateSession(userId: int, tokenId: int, now: int) returns (sid: Option<int>)
      modifies `sessions
      ensures sid.Some? <==> userId in users && tokenId in tokens
      ensures sid.Some? ==> sid.value !in old(sessions) && sid.value in sessions
      ensures sid.Some? ==> sessions == old(sessions)[sid.value := Session(userId, tokenId, "", now, now, None, false)]
      ensures State() == old(State()).(sessions := RelayDb.CreateSession(old(State()), userId, tokenId, now))
    {
      if userId !in users || tokenId !in tokens { return None; }
      var id := NextId(sessions.Keys);
      sessions := sessions[id := Session(userId, tokenId, "", now, now, None, false)];
      return Some(id);
    }

    /** RevokeToken and, with an owner, RevokeTokenForUser. False is ErrNotFound. */
    method RevokeToken(tokenId: int, owner: Option<int>, now: int) returns (found: bool)
      modifies `tokens, `sessions
      ensures found <==> Revocable(old(State()), tokenId, owner)
      ensures found <==> tokenId in old(tokens) && old(tokens)[tokenId].revokedAt.None?
                         && (owner.Some? ==> old(tokens)[tokenId].userId == owner.value)
      ensures found ==> tokens == old(tokens)[tokenId := old(tokens)[tokenId].(revokedAt := Some(now))]
      ensures !found ==> tokens == old(tokens) && sessions == old(sessions)
      ensures sessions.Keys == old(sessions).Keys
      ensures found ==> forall s :: s in sessions ==>
                sessions[s] == if old(sessions)[s].tokenId == tokenId && old(sessions)[s].endedAt.None?
                                  && (owner.Some? ==> old(sessions)[s].userId == owner.value)
                               then old(sessions)[s].(killed := true) else old(sessions)[s]
      ensures State() == Complete(old(State()), now, Revoke(tokenId, owner))
      ensures found ==> forall s :: s in sessions && sessions[s].tokenId == tokenId
                          && (owner.Some? ==> sessions[s].userId == owner.value)
                          ==> (sessions[s].killed || sessions[s].endedAt.Some?)
    {
      if !Revocable(State(), tokenId, owner) { return false; }
      ghost var db := State();
      tokens := tokens[tokenId := tokens[tokenId].(revokedAt := Some(now))];
      RevokeUnrolled(db, now, tokenId, owner);
      sessions := KillTokenSessions(State(), tokenId, owner);
      return true;
    }

    /** Marks a live session killed and holds its token back for the cooldown. False is ErrNotFound. */
    method KillSession(sid: int, now: int) returns (found: bool)
      modifies `tokens, `sessions
      ensures found <==> sid in old(sessions) && old(sessions)[sid].endedAt.None?
      ensures found ==> sessions == old(sessions)[sid := old(sessions)[sid].(killed := true)]
      ensures !found ==> sessions == old(sessions) && tokens == old(tokens)
      ensures tokens.Keys == old(tokens).Keys
      ensures found ==> forall t :: t in tokens ==>
                tokens[t] == if t == old(sessions)[sid].tokenId then old(tokens)[t].(kickedUntil := now + 300)
                             else old(tokens)[t]
      ensures State() == Complete(old(State()), now, Kill(sid))
    {
      if !Open(State(), sid) { return false; }
      ghost var db := State();
      sessions := sessions[sid := sessions[sid].(killed := true)];
      KillUnrolled(db, now, sid);
      var t := sessions[sid].tokenId;
      if t in tokens { tokens := tokens[t := tokens[t].(kickedUntil := now + KICK_COOLDOWN)]; }
      return true;
    }
  }
}
