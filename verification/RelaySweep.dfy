/** The expiry sweep's two UPDATEs among everything else: when a live tunnel can be left on an ended session,
    and when it cannot. */
module RelaySweep {
  import opened Basics
  import opened RelayDb
  import opened RelaySystem
  import opened RelayInvariants
  import opened RelayTheorems

  // ---------- no leaked rows ----------

  /** No live tunnel hangs on an ended session. */
  predicate NoLeak(sessions: map<int, Session>, proxies: map<int, Proxy>) {
    forall p :: p in proxies && proxies[p].Live() && proxies[p].sessionId in sessions
      ==> sessions[proxies[p].sessionId].endedAt.None?
  }

  /** Every session that carries a live tunnel was seen at or after the cutoff. */
  predicate AllSeen(sessions: map<int, Session>, proxies: map<int, Proxy>, cutoff: int) {
    forall p :: p in proxies && proxies[p].Live() && proxies[p].sessionId in sessions
      ==> sessions[proxies[p].sessionId].lastSeenAt >= cutoff
  }

  /** What the first UPDATE of a sweep establishes survives until its second. */
  predicate LeakInv(s: Sys) {
    && NoLeak(s.db.sessions, s.db.proxies)
    && forall op :: op in s.ops && op.SweepEnd? ==> AllSeen(s.db.sessions, s.db.proxies, op.cutoff)
  }

  lemma SweepRowsEstablishes(db: Db, cutoff: int, n: int)
    requires NoLeak(db.sessions, db.proxies)
    ensures AllSeen(db.sessions, SweepProxies(db, cutoff, n), cutoff)
    ensures NoLeak(db.sessions, SweepProxies(db, cutoff, n))
  {
  }

  lemma SweepEndClean(db: Db, cutoff: int, n: int)
    requires NoLeak(db.sessions, db.proxies) && AllSeen(db.sessions, db.proxies, cutoff)
    ensures NoLeak(SweepSessions(db, cutoff, n), db.proxies)
    ensures AllSeen(SweepSessions(db, cutoff, n), db.proxies, cutoff)
  {
  }

  lemma AdmitLeaksNothing(db: Db, r: Request, n: int)
    requires NoLeak(db.sessions, db.proxies)
    ensures NoLeak(db.sessions, Admit(db, r, n))
  {
  }

  /** Only the second UPDATE of a sweep can leave a tunnel behind. */
  lemma OthersLeakNothing(db: Db, clock: int, op: Op)
    requires NoLeak(db.sessions, db.proxies) && Owned(db) && !op.SweepEnd?
    ensures NoLeak(Exec(db, clock, op).sessions, Exec(db, clock, op).proxies)
  {
    match op
    case Admission(r, _) => AdmitLeaksNothing(db, r, clock);
    case SweepRows(cutoff, n) => SweepRowsEstablishes(db, cutoff, n);
    case Close(sid, name) => EndingLeaksNothing(db.sessions, db.proxies, NamedRows(db, sid, name), clock);
    case _ => QuietExecLeaksNothing(db, clock, op);
  }

  lemma EndingLeaksNothing(sessions: map<int, Session>, proxies: map<int, Proxy>, ids: set<int>, n: int)
    requires NoLeak(sessions, proxies)
    ensures NoLeak(sessions, EndRows(proxies, ids, n))
  {
  }

  lemma QuietExecLeaksNothing(db: Db, clock: int, op: Op)
    requires NoLeak(db.sessions, db.proxies) && Owned(db)
    requires !op.SweepEnd? && !op.SweepRows? && !op.Admission? && !op.Close?
    ensures NoLeak(SessionsAfter(db, clock, op), ProxiesAfter(db, clock, op))
  {
  }

  lemma ExecKeepsNoLeak(s: Sys, op: Op)
    requires LeakInv(s) && op in s.ops && Owned(s.db)
    ensures NoLeak(Exec(s.db, s.clock, op).sessions, Exec(s.db, s.clock, op).proxies)
  {
    if op.SweepEnd? { SweepEndClean(s.db, op.cutoff, op.now); } else { OthersLeakNothing(s.db, s.clock, op); }
  }

  lemma EndingKeepsSeen(sessions: map<int, Session>, proxies: map<int, Proxy>, ids: set<int>, n: int, cutoff: int)
    requires AllSeen(sessions, proxies, cutoff)
    ensures AllSeen(sessions, EndRows(proxies, ids, n), cutoff)
  {
  }

  lemma AdmissionKeepsSeen(db: Db, r: Request, n: int, cutoff: int)
    requires AllSeen(db.sessions, db.proxies, cutoff)
    requires r.sessionId in db.sessions && db.sessions[r.sessionId].lastSeenAt >= cutoff
    ensures AllSeen(db.sessions, Admit(db, r, n), cutoff)
  {
    EndingKeepsSeen(db.sessions, db.proxies, Holders(db.proxies, r), n, cutoff);
  }

  lemma SeeingKeepsSeen(
    sessions: map<int, Session>, sessions': map<int, Session>, proxies: map<int, Proxy>, cutoff: int)
    requires AllSeen(sessions, proxies, cutoff) && SeenLater(sessions, sessions')
    requires forall p :: p in proxies ==> proxies[p].sessionId in sessions
    ensures AllSeen(sessions', proxies, cutoff)
  {
  }

  lemma ExecKeepsSeen(db: Db, clock: int, op: Op, cutoff: int)
    requires (forall p :: p in db.proxies ==> db.proxies[p].sessionId in db.sessions) && SeenInPast(db.sessions, clock)
    requires AllSeen(db.sessions, db.proxies, cutoff)
    requires op.Admission? ==> op.request.sessionId in db.sessions
    requires op.Admission? ==> db.sessions[op.request.sessionId].lastSeenAt >= cutoff
    ensures AllSeen(SessionsAfter(db, clock, op), ProxiesAfter(db, clock, op), cutoff)
  {
    match op
    case Admission(r, _) => AdmissionKeepsSeen(db, r, clock, cutoff);
    case Close(sid, name) => EndingKeepsSeen(db.sessions, db.proxies, NamedRows(db, sid, name), clock, cutoff);
    case SweepRows(c, n) => EndingKeepsSeen(db.sessions, db.proxies, StaleRows(db, c), n, cutoff);
    case _ => QuietExecKeepsSeen(db, clock, op, cutoff);
  }

  lemma QuietExecKeepsSeen(db: Db, clock: int, op: Op, cutoff: int)
    requires !op.Admission? && !op.Close? && !op.SweepRows?
    requires (forall p :: p in db.proxies ==> db.proxies[p].sessionId in db.sessions) && SeenInPast(db.sessions, clock)
    requires AllSeen(db.sessions, db.proxies, cutoff)
    ensures AllSeen(SessionsAfter(db, clock, op), ProxiesAfter(db, clock, op), cutoff)
  {
    ExecTimes(db, clock, op);
    SeeingKeepsSeen(db.sessions, SessionsAfter(db, clock, op), db.proxies, cutoff);
  }

  lemma SweepEndFollowsSweepRows(db: Db, clock: int, op: Op)
    ensures var next := Follow(db, clock, op);
            next.Some? && next.value.SweepEnd? ==> op.SweepRows? && next.value.cutoff == op.cutoff
    ensures Ignore(op).Some? ==> !Ignore(op).value.SweepEnd?
  {
  }

  lemma StepKeepsSeen(s: Sys, a: Action, s': Sys, o: Op)
    requires Inv(s) && LeakInv(s) && Next(s, a, s') && Prompt(s, a) && o in s'.ops && o.SweepEnd?
    ensures AllSeen(s'.db.sessions, s'.db.proxies, o.cutoff)
  {
    if a.Run? || a.Fail? { SweepEndFollowsSweepRows(s.db, s.clock, a.op); }
    if a.Run? {
      if o in s.ops {
        RunKeepsSeen(s, a.op, o);
      } else {
        SweepRowsEstablishes(s.db, o.cutoff, a.op.now);
      }
    }
  }

  lemma RunKeepsSeen(s: Sys, op: Op, o: Op)
    requires Inv(s) && LeakInv(s) && Prompt(s, Run(op)) && op in s.ops && o in s.ops && o.SweepEnd?
    ensures AllSeen(SessionsAfter(s.db, s.clock, op), ProxiesAfter(s.db, s.clock, op), o.cutoff)
  {
    assert OpOk(s.db, s.clock, o) && OpOk(s.db, s.clock, op);
    ExecKeepsSeen(s.db, s.clock, op, o.cutoff);
  }

  lemma StepKeepsLeakInv(s: Sys, a: Action, s': Sys)
    requires Inv(s) && LeakInv(s) && Next(s, a, s') && Prompt(s, a)
    ensures LeakInv(s')
  {
    if a.Run? { ExecKeepsNoLeak(s, a.op); }
    forall o | o in s'.ops && o.SweepEnd? ensures AllSeen(s'.db.sessions, s'.db.proxies, o.cutoff) {
      StepKeepsSeen(s, a, s', o);
    }
  }

  /** As long as admissions follow their heartbeat within the session timeout, no interleaving of the
      two-statement sweep with anything else leaves a live tunnel on an ended session. */
  lemma {:induction false} NoLeakedRows(states: seq<Sys>, actions: seq<Action>, k: nat)
    requires IsRun(states, actions) && PromptRun(states, actions) && Init(states[0]) && k < |states|
    ensures LeakInv(states[k])
  {
    if k > 0 {
      NoLeakedRows(states, actions, k - 1);
      Reachable(states, actions, k - 1);
      var a := actions[k - 1];
      StepKeepsLeakInv(states[k - 1], a, states[k]);
    }
  }

  /** A sweep nothing interrupts leaves only tunnels of sessions seen within the timeout. */
  lemma UndisturbedSweep(db: Db, clock: int)
    requires NoLeak(db.sessions, db.proxies)
    ensures var db' := Complete(db, clock, SweepCutoff);
            NoLeak(db'.sessions, db'.proxies) && AllSeen(db'.sessions, db'.proxies, clock - 120)
  {
    var cutoff := clock - SESSION_STALE_AFTER;
    var half := db.(proxies := SweepProxies(db, cutoff, clock));
    SweepUnrolled(db, clock);
    SweepRowsEstablishes(db, cutoff, clock);
    SweepEndClean(half, cutoff, clock);
  }

  /** The session was last seen more than two minutes before the clock and has not ended. */
  predicate Expired(db: Db, sid: int, clock: int) {
    sid in db.sessions && db.sessions[sid].endedAt.None? && db.sessions[sid].lastSeenAt < clock - 120
  }

  /** A sweep nothing interrupts ends, at the clock, exactly the expired sessions, whether or not they have
      tunnels, and exactly their live tunnels; everything else stays. */
  lemma SweepEndsExactly(db: Db, clock: int)
    ensures var db' := Complete(db, clock, SweepCutoff);
            && db'.sessions.Keys == db.sessions.Keys && db'.proxies.Keys == db.proxies.Keys
            && (forall s :: s in db.sessions ==>
                  db'.sessions[s] == if Expired(db, s, clock) then db.sessions[s].(endedAt := Some(clock))
                                     else db.sessions[s])
            && (forall p :: p in db.proxies ==>
                  db'.proxies[p] == if db.proxies[p].endedAt.None? && Expired(db, db.proxies[p].sessionId, clock)
                                    then db.proxies[p].(endedAt := Some(clock)) else db.proxies[p])
            && db' == db.(sessions := db'.sessions, proxies := db'.proxies)
  {
    SweepUnrolled(db, clock);
  }

  // ---------- exactly when a tunnel is left behind ----------

  /** A live tunnel on an ended session. */
  predicate Leaked(db: Db, p: int) {
    && p in db.proxies && db.proxies[p].Live()
    && db.proxies[p].sessionId in db.sessions && db.sessions[db.proxies[p].sessionId].endedAt.Some?
  }

  /** A live row of a session that can be expired, at the cutoff. */
  predicate StaleRow(db: Db, p: int, cutoff: int) {
    && p in db.proxies && db.proxies[p].Live()
    && db.proxies[p].sessionId in db.sessions && Stale(db.sessions[db.proxies[p].sessionId], cutoff)
  }

  predicate Beats(a: Action, sid: int) { a.Run? && a.op.Heartbeat? && a.op.sid == sid }

  predicate Appears(states: seq<Sys>, j: nat, p: int) {
    j + 1 < |states| && p !in states[j].db.proxies && p in states[j + 1].db.proxies
  }

  /** Between a sweep's UPDATE of the rows (step i) and its UPDATE of the sessions (step k), step j opens
      tunnel p for a session last seen before the cutoff, and until step k that session sends no
      heartbeat and nothing ends the tunnel. */
  predicate Race(states: seq<Sys>, actions: seq<Action>, i: nat, j: nat, k: nat, p: int)
    requires IsRun(states, actions)
  {
    && i < j < k < |actions| && Halves(actions[i], actions[k])
    && Appears(states, j, p) && Late(states[j].db, states[j + 1].db.proxies[p].sessionId, actions[k].op.cutoff)
    && Unended(states, actions, j, k, p) && Unbeaten(actions, j, k, states[j + 1].db.proxies[p].sessionId)
  }

  /** The two UPDATEs of one sweep. */
  predicate Halves(first: Action, second: Action) {
    && first.Run? && second.Run? && first.op.SweepRows? && second.op.SweepEnd?
    && first.op.cutoff == second.op.cutoff && first.op.now == second.op.now
  }

  predicate Late(db: Db, sid: int, cutoff: int) {
    sid in db.sessions && db.sessions[sid].lastSeenAt < cutoff
  }

  predicate Unended(states: seq<Sys>, actions: seq<Action>, j: nat, k: nat, p: int)
    requires IsRun(states, actions) && k < |actions|
  {
    forall m {:trigger actions[m]} :: j < m < k ==> !Ends(states[m], actions[m], p)
  }

  predicate Unbeaten(actions: seq<Action>, j: nat, k: nat, sid: int)
    requires k < |actions|
  {
    forall m {:trigger actions[m]} :: j < m < k ==> !Beats(actions[m], sid)
  }

  /** Only a heartbeat moves the time a session was last seen, and it moves it to the present. */
  lemma StepSeen(s: Sys, a: Action, s': Sys, sid: int)
    requires Next(s, a, s') && sid in s.db.sessions
    ensures sid in s'.db.sessions
    ensures s'.db.sessions[sid].lastSeenAt == if Beats(a, sid) then s.clock else s.db.sessions[sid].lastSeenAt
  {
    StepEvolves(s, a, s');
  }

  lemma {:induction false} SeenOverRun(states: seq<Sys>, actions: seq<Action>, i: nat, j: nat, sid: int)
    requires IsRun(states, actions) && Init(states[0]) && i <= j < |states| && sid in states[i].db.sessions
    ensures sid in states[j].db.sessions
    ensures states[i].db.sessions[sid].lastSeenAt <= states[j].db.sessions[sid].lastSeenAt
    decreases j - i
  {
    if i < j {
      SeenOverRun(states, actions, i, j - 1, sid);
      Reachable(states, actions, j - 1);
      StepSeen(states[j - 1], actions[j - 1], states[j], sid);
    }
  }

  lemma {:induction false} UnseenWithoutBeats(states: seq<Sys>, actions: seq<Action>, i: nat, j: nat, sid: int)
    requires IsRun(states, actions) && i <= j < |states| && sid in states[i].db.sessions
    requires forall m {:trigger actions[m]} :: i <= m < j ==> !Beats(actions[m], sid)
    ensures sid in states[j].db.sessions
    ensures states[j].db.sessions[sid].lastSeenAt == states[i].db.sessions[sid].lastSeenAt
    decreases j - i
  {
    if i < j {
      UnseenWithoutBeats(states, actions, i, j - 1, sid);
      StepSeen(states[j - 1], actions[j - 1], states[j], sid);
    }
  }

  lemma AppearsLive(s: Sys, a: Action, s': Sys, p: int, sid: int)
    requires Next(s, a, s') && p !in s.db.proxies && p in s'.db.proxies
    ensures s'.db.proxies[p].Live() && !Beats(a, sid)
  {
  }

  lemma SweepEndLeaks(s: Sys, a: Action, s': Sys, p: int)
    requires Next(s, a, s') && a.Run? && a.op.SweepEnd?
    ensures Leaked(s'.db, p) <==> Leaked(s.db, p) || StaleRow(s.db, p, a.op.cutoff)
  {
  }

  lemma OpenedStaysLive(states: seq<Sys>, actions: seq<Action>, j: nat, k: nat, p: int)
    requires IsRun(states, actions) && Init(states[0]) && j < k < |actions| && Appears(states, j, p)
    requires Unended(states, actions, j, k, p)
    ensures p in states[k].db.proxies && states[k].db.proxies[p] == states[j + 1].db.proxies[p]
    ensures states[k].db.proxies[p].Live()
  {
    AppearsLive(states[j], actions[j], states[j + 1], p, 0);
    LiveUntilEnded(states, actions, j + 1, k, p);
  }

  lemma StaysUnseen(states: seq<Sys>, actions: seq<Action>, j: nat, k: nat, p: int, sid: int)
    requires IsRun(states, actions) && j < k < |actions| && Appears(states, j, p) && sid in states[j].db.sessions
    requires Unbeaten(actions, j, k, sid)
    ensures sid in states[k].db.sessions
    ensures states[k].db.sessions[sid].lastSeenAt == states[j].db.sessions[sid].lastSeenAt
  {
    AppearsLive(states[j], actions[j], states[j + 1], p, sid);
    UnseenWithoutBeats(states, actions, j, k, sid);
  }

  /** A race ends in a leak, whatever else runs. */
  lemma RaceLeaks(states: seq<Sys>, actions: seq<Action>, i: nat, j: nat, k: nat, p: int)
    requires IsRun(states, actions) && Init(states[0]) && Race(states, actions, i, j, k, p)
    ensures Leaked(states[k + 1].db, p)
  {
    OpenedStaysLive(states, actions, j, k, p);
    StaysUnseen(states, actions, j, k, p, states[j + 1].db.proxies[p].sessionId);
    SweepEndLeaks(states[k], actions[k], states[k + 1], p);
  }

  /** The step at which a row appeared. */
  lemma {:induction false} Opening(states: seq<Sys>, actions: seq<Action>, i: nat, k: nat, p: int) returns (j: nat)
    requires IsRun(states, actions) && i <= k < |states|
    requires p !in states[i].db.proxies && p in states[k].db.proxies
    ensures i <= j < k && p !in states[j].db.proxies && p in states[j + 1].db.proxies
    decreases k - i
  {
    if p in states[k - 1].db.proxies { j := Opening(states, actions, i, k - 1, p); } else { j := k - 1; }
  }

  lemma StaleBefore(states: seq<Sys>, actions: seq<Action>, i: nat, k: nat, p: int, cutoff: int)
    requires IsRun(states, actions) && Init(states[0]) && i <= k < |states|
    requires StaleRow(states[k].db, p, cutoff) && p in states[i].db.proxies
    ensures StaleRow(states[i].db, p, cutoff)
  {
    RunEvolves(states, actions, i, k);
    Reachable(states, actions, i);
    SeenOverRun(states, actions, i, k, states[k].db.proxies[p].sessionId);
  }

  lemma SweptRows(s: Sys, a: Action, s': Sys, p: int)
    requires Next(s, a, s') && a.Run? && a.op.SweepRows?
    ensures !StaleRow(s'.db, p, a.op.cutoff)
  {
  }

  lemma NotEnded(states: seq<Sys>, actions: seq<Action>, m: nat, k: nat, p: int)
    requires IsRun(states, actions) && Init(states[0]) && m < k < |states|
    requires p in states[m].db.proxies && p in states[k].db.proxies && states[k].db.proxies[p].Live()
    ensures !Ends(states[m], actions[m], p)
  {
    assert Next(states[m], actions[m], states[m + 1]);
    Reachable(states, actions, m);
    StepEvolves(states[m], actions[m], states[m + 1]);
    RunEvolves(states, actions, m + 1, k);
    EndedExactlyBy(states[m], actions[m], states[m + 1], p);
  }

  /** A heartbeat after a sweep began is later than its cutoff. */
  lemma NotBeaten(states: seq<Sys>, actions: seq<Action>, i: nat, m: nat, k: nat, sid: int)
    requires IsRun(states, actions) && Init(states[0]) && i < m < k < |states|
    requires actions[i].Run? && actions[i].op.SweepRows? && sid in states[m].db.sessions && sid in states[k].db.sessions
    requires states[k].db.sessions[sid].lastSeenAt < actions[i].op.cutoff
    ensures !Beats(actions[m], sid)
  {
    assert Next(states[i], actions[i], states[i + 1]) && Next(states[m], actions[m], states[m + 1]);
    Reachable(states, actions, i);
    RunEvolves(states, actions, i, m);
    StepSeen(states[m], actions[m], states[m + 1], sid);
    SeenOverRun(states, actions, m + 1, k, sid);
    assert OpOk(states[i].db, states[i].clock, actions[i].op);
  }

  /** The step that opens the tunnel of a race is an admission for its session. */
  lemma RaceIsAdmission(states: seq<Sys>, actions: seq<Action>, i: nat, j: nat, k: nat, p: int)
    requires IsRun(states, actions) && Init(states[0]) && Race(states, actions, i, j, k, p)
    ensures Opens(states[j], actions[j], p)
    ensures states[j + 1].db.proxies[p].sessionId == actions[j].op.request.sessionId
  {
    Reachable(states, actions, j);
    OpenedOnlyByAdmission(states[j], actions[j], states[j + 1], p);
  }

  /** A live tunnel of a stale session between the two UPDATEs is there because of a race. */
  lemma StaleRowRaced(states: seq<Sys>, actions: seq<Action>, i: nat, k: nat, p: int) returns (j: nat)
    requires IsRun(states, actions) && Init(states[0]) && i < k < |actions| && Halves(actions[i], actions[k])
    requires StaleRow(states[k].db, p, actions[k].op.cutoff)
    ensures Race(states, actions, i, j, k, p)
  {
    NotYetOpened(states, actions, i, k, p);
    j := Opening(states, actions, i + 1, k, p);
    var sid := states[j + 1].db.proxies[p].sessionId;
    SessionOfRow(states, actions, j, k, p);
    SeenOverRun(states, actions, j, k, sid);
    forall m | j < m < k ensures !Ends(states[m], actions[m], p) && !Beats(actions[m], sid) {
      StaysOpen(states, actions, j + 1, m, p, sid);
      NotEnded(states, actions, m, k, p);
      NotBeaten(states, actions, i, m, k, sid);
    }
  }

  lemma SessionOfRow(states: seq<Sys>, actions: seq<Action>, j: nat, k: nat, p: int)
    requires IsRun(states, actions) && Init(states[0]) && j < k < |states| && Appears(states, j, p)
    ensures var sid := states[j + 1].db.proxies[p].sessionId;
            sid in states[j].db.sessions && sid in states[j + 1].db.sessions
            && p in states[k].db.proxies && states[k].db.proxies[p].sessionId == sid
  {
    Reachable(states, actions, j);
    OpenedOnlyByAdmission(states[j], actions[j], states[j + 1], p);
    StepEvolves(states[j], actions[j], states[j + 1]);
    RunEvolves(states, actions, j + 1, k);
  }

  lemma NotYetOpened(states: seq<Sys>, actions: seq<Action>, i: nat, k: nat, p: int)
    requires IsRun(states, actions) && Init(states[0]) && i < k < |actions| && Halves(actions[i], actions[k])
    requires StaleRow(states[k].db, p, actions[k].op.cutoff)
    ensures p !in states[i + 1].db.proxies
  {
    assert Next(states[i], actions[i], states[i + 1]);
    SweptRows(states[i], actions[i], states[i + 1], p);
    if p in states[i + 1].db.proxies { StaleBefore(states, actions, i + 1, k, p, actions[k].op.cutoff); }
  }

  lemma StaysOpen(states: seq<Sys>, actions: seq<Action>, j: nat, m: nat, p: int, sid: int)
    requires IsRun(states, actions) && j <= m < |states| && p in states[j].db.proxies
    ensures p in states[m].db.proxies
    ensures sid in states[j].db.sessions ==> sid in states[m].db.sessions
  {
    RunEvolves(states, actions, j, m);
  }

  /** Exactly when a sweep leaves a tunnel behind, with anything at all between its two UPDATEs. */
  lemma SweepRaceExactly(states: seq<Sys>, actions: seq<Action>, i: nat, k: nat)
    requires IsRun(states, actions) && Init(states[0]) && i < k < |actions| && Halves(actions[i], actions[k])
    requires NoLeak(states[k].db.sessions, states[k].db.proxies)
    ensures !NoLeak(states[k + 1].db.sessions, states[k + 1].db.proxies)
            <==> exists j: nat, p :: Race(states, actions, i, j, k, p)
  {
    if j: nat, p :| Race(states, actions, i, j, k, p) {
      RaceLeaks(states, actions, i, j, k, p);
      LeakOf(states[k + 1].db, p);
    } else if !NoLeak(states[k + 1].db.sessions, states[k + 1].db.proxies) {
      var p := SomeLeak(states[k + 1].db);
      SweepEndLeaks(states[k], actions[k], states[k + 1], p);
      if Leaked(states[k].db, p) { LeakOf(states[k].db, p); }
      var j := StaleRowRaced(states, actions, i, k, p);
    }
  }

  lemma LeakOf(db: Db, p: int)
    requires Leaked(db, p)
    ensures !NoLeak(db.sessions, db.proxies)
  {
  }

  lemma SomeLeak(db: Db) returns (p: int)
    requires !NoLeak(db.sessions, db.proxies)
    ensures Leaked(db, p)
  {
    p :| p in db.proxies && Leaked(db, p);
  }

  /** Every second UPDATE has its first. */
  lemma {:induction false} SweepBegan(states: seq<Sys>, actions: seq<Action>, k: nat, op: Op) returns (i: nat)
    requires IsRun(states, actions) && Init(states[0]) && k < |states| && op in states[k].ops && op.SweepEnd?
    ensures i < k && actions[i] == Run(SweepRows(op.cutoff, op.now))
  {
    var s, a := states[k - 1], actions[k - 1];
    if op in s.ops { i := SweepBegan(states, actions, k - 1, op); } else {
      SweepEndBegins(s, a, states[k], op);
      i := k - 1;
    }
  }

  lemma SweepEndBegins(s: Sys, a: Action, s': Sys, op: Op)
    requires Next(s, a, s') && op in s'.ops && op !in s.ops && op.SweepEnd?
    ensures a == Run(SweepRows(op.cutoff, op.now))
  {
    if a.Run? || a.Fail? { SweepEndFollowsSweepRows(s.db, s.clock, a.op); }
  }

  /** Over whole runs: no tunnel is ever left on an ended session exactly as long as no race happens. */
  lemma {:induction false} LeaksExactlyByRaces(states: seq<Sys>, actions: seq<Action>, n: nat)
    requires IsRun(states, actions) && Init(states[0]) && n < |states|
    ensures (forall m :: 0 <= m <= n ==> NoLeak(states[m].db.sessions, states[m].db.proxies))
            <==> !exists i: nat, j: nat, k: nat, p :: k < n && Race(states, actions, i, j, k, p)
  {
    if i: nat, j: nat, k: nat, p :| k < n && Race(states, actions, i, j, k, p) {
      RaceLeaks(states, actions, i, j, k, p);
      assert !NoLeak(states[k + 1].db.sessions, states[k + 1].db.proxies);
    } else if n > 0 {
      LeaksExactlyByRaces(states, actions, n - 1);
      LastStepClean(states, actions, n - 1);
    }
  }

  lemma LastStepClean(states: seq<Sys>, actions: seq<Action>, k: nat)
    requires IsRun(states, actions) && Init(states[0]) && k < |actions|
    requires NoLeak(states[k].db.sessions, states[k].db.proxies)
    requires !exists i: nat, j: nat, p :: Race(states, actions, i, j, k, p)
    ensures NoLeak(states[k + 1].db.sessions, states[k + 1].db.proxies)
  {
    var s, a := states[k], actions[k];
    if a.Run? && a.op.SweepEnd? {
      var i := SweepBegan(states, actions, k, a.op);
      SweepRaceExactly(states, actions, i, k);
    } else if a.Run? {
      Reachable(states, actions, k);
      OthersLeakNothing(s.db, s.clock, a.op);
    }
  }

  // ---------- a run in which it happens ----------

  /** A run so far; last is its present state. */
  datatype Play = Play(states: seq<Sys>, actions: seq<Action>, last: Sys)

  predicate Valid(r: Play) {
    && IsRun(r.states, r.actions) && Init(r.states[0]) && r.last == r.states[|r.actions|]
  }

  lemma Extend(r: Play, a: Action, s: Sys) returns (r': Play)
    requires Valid(r) && Next(r.last, a, s)
    ensures Valid(r') && r'.last == s
  {
    r' := Play(r.states + [s], r.actions + [a], s);
  }

  lemma Start(r: Play, op: Op) returns (r': Play)
    requires Valid(r) && Fresh(op)
    ensures Valid(r') && r'.last == r.last.(ops := r.last.ops + {op})
  {
    r' := Extend(r, Begin(op), r.last.(ops := r.last.ops + {op}));
  }

  function Rest(s: Sys, op: Op): set<Op> {
    s.ops - {op} + (if Follow(s.db, s.clock, op).Some? then {Follow(s.db, s.clock, op).value} else {})
  }

  lemma Perform(r: Play, op: Op, db: Db, ops: set<Op>) returns (r': Play)
    requires Valid(r) && op in r.last.ops && db == Exec(r.last.db, r.last.clock, op) && ops == Rest(r.last, op)
    ensures Valid(r') && r'.last == Sys(db, r.last.clock, ops)
  {
    r' := Extend(r, Run(op), Sys(db, r.last.clock, ops));
  }

  const USERS: map<int, User> := map[1 := User(false, 5)]
  const SESSION: Session := Session(1, 1, "", 0, 0, None, false)
  const LOGGED_IN: Db := Db(USERS, map[1 := Token(1, None, 0, Some(0))], map[1 := SESSION], map[], map[], (0, 0))
  const ASK: Ask := Ask("", "a", "http", "site", false, 0)
  const REQUEST: Request := Request(1, "", "a", "http", "site", 0)
  const PENDING: Op := Admission(REQUEST, Some(0))
  const ROW: Proxy := Proxy(1, 1, "", "a", "http", "site", 0, 121, None)

  /** The first user and its token. */
  lemma PlayTokenIssued() returns (r: Play)
    ensures Valid(r) && r.last == Sys(LOGGED_IN.(tokens := map[1 := Token(1, None, 0, None)], sessions := map[]), 0, {})
  {
    var s := Sys(EMPTY, 0, {});
    var named := EMPTY.(users := USERS);
    r := Play([s], [], s);
    r := Start(r, AddUser(5));
    r := Perform(r, AddUser(5), named, {});
    r := Start(r, AddToken(1));
    r := Perform(r, AddToken(1), named.(tokens := map[1 := Token(1, None, 0, None)]), {});
  }

  /** Its login. */
  lemma PlayLogin() returns (r: Play)
    ensures Valid(r) && r.last == Sys(LOGGED_IN, 0, {})
  {
    r := PlayTokenIssued();
    var db := r.last.db;
    r := Start(r, LoginToken(1));
    r := Perform(r, LoginToken(1), db, {LoginCooldown(1, 1)});
    r := Perform(r, LoginCooldown(1, 1), db, {LoginUser(1, 1)});
    r := Perform(r, LoginUser(1, 1), db, {LoginStamp(1, 1)});
    r := Perform(r, LoginStamp(1, 1), LOGGED_IN.(sessions := map[]), {LoginSession(1, 1)});
    r := Perform(r, LoginSession(1, 1), LOGGED_IN, {});
  }

  /** A NewProxy that is held up before its admission. */
  lemma PlayAsk() returns (r: Play)
    ensures Valid(r) && r.last == Sys(LOGGED_IN, 0, {PENDING})
  {
    r := PlayLogin();
    var db, purpose := LOGGED_IN, ForProxy(ASK);
    r := Start(r, CheckSession(1, purpose));
    r := Perform(r, CheckSession(1, purpose), db, {CheckToken(1, 1, 1, purpose)});
    r := Perform(r, CheckToken(1, 1, 1, purpose), db, {CheckUser(1, 1, purpose)});
    r := Perform(r, CheckUser(1, 1, purpose), db, {Heartbeat(1, purpose)});
    assert WellFormed(ASK);
    r := Perform(r, Heartbeat(1, purpose), db, {PENDING});
  }

  /** 121 seconds later a sweep runs its first UPDATE. */
  lemma PlaySweepRows() returns (r: Play)
    ensures Valid(r) && r.last == Sys(LOGGED_IN, 121, {PENDING, SweepEnd(1, 121)})
  {
    r := PlayAsk();
    var db := LOGGED_IN;
    r := Extend(r, Wait(121), Sys(db, 121, {PENDING}));
    r := Start(r, SweepCutoff);
    r := Perform(r, SweepCutoff, db, {PENDING, SweepTime(1)});
    r := Perform(r, SweepTime(1), db, {PENDING, SweepRows(1, 121)});
    r := Perform(r, SweepRows(1, 121), db, {PENDING, SweepEnd(1, 121)});
  }

  /** The admission comes between the two. */
  lemma PlayAdmission() returns (r: Play)
    ensures Valid(r) && r.last == Sys(LOGGED_IN.(proxies := map[1 := ROW]), 121, {SweepEnd(1, 121)})
  {
    r := PlaySweepRows();
    assert LiveOf(LOGGED_IN.proxies, 1) - Holders(LOGGED_IN.proxies, REQUEST) == {};
    assert Decide(LOGGED_IN, REQUEST) == Admitted(0);
    assert AfterAdmit(LOGGED_IN, REQUEST, 121) == map[1 := ROW];
    r := Perform(r, PENDING, LOGGED_IN.(proxies := map[1 := ROW]), {SweepEnd(1, 121)});
  }

  lemma PlayLeak() returns (r: Play)
    ensures Valid(r) && Leaked(r.last.db, 1)
  {
    r := PlayAdmission();
    var db := r.last.db;
    r := Perform(r, SweepEnd(1, 121), db.(sessions := map[1 := SESSION.(endedAt := Some(121))]), {});
  }

  /** So the race is real: a run from empty tables that leaves a tunnel behind. */
  lemma LateAdmissionLeaks() returns (states: seq<Sys>, actions: seq<Action>)
    ensures IsRun(states, actions) && Init(states[0])
    ensures var db := states[|actions|].db; !NoLeak(db.sessions, db.proxies)
    ensures exists i: nat, j: nat, k: nat, p :: k < |actions| && Race(states, actions, i, j, k, p)
  {
    var r := PlayLeak();
    states, actions := r.states, r.actions;
    LeakOf(r.last.db, 1);
    LeaksExactlyByRaces(states, actions, |actions|);
  }
}
