/** The login rate limiter: what one attempt does to its tables of buckets, and what that bounds over
    any history of attempts and successful logins.
    Times are in nanoseconds; 0 is Go's zero time. */
module LoginThrottle {
  import opened Basics

  const SECOND := 1_000_000_000
  const LOCKOUT := 60 * SECOND
  const RETENTION := 300 * SECOND
  const MAX_LOGIN_FAILS := 5
  const MAX_IP_ATTEMPTS := 20
  const MAX_ENTRIES := 1024

  datatype Bucket = Bucket(count: nat, until: nat, lastSeen: nat)

  type Buckets = map<string, Bucket>

  /** Does the table let an attempt for the key through? */
  predicate Admits(buckets: Buckets, key: string, limit: nat, now: nat) {
    if key in buckets then buckets[key].count < limit || now >= buckets[key].until
    else |buckets| < MAX_ENTRIES
  }

  /** The key's bucket once the attempt is counted; a full bucket whose lockout is over starts again. */
  function Counted(buckets: Buckets, key: string, limit: nat, now: nat): Bucket {
    var count := if key in buckets && buckets[key].count < limit then buckets[key].count + 1 else 1;
    var until := if key in buckets && buckets[key].count < limit then buckets[key].until else 0;
    Bucket(count, if count >= limit then now + LOCKOUT else until, now)
  }

  function Allow(buckets: Buckets, key: string, limit: nat, now: nat): Buckets {
    if Admits(buckets, key, limit, now) then buckets[key := Counted(buckets, key, limit, now)] else buckets
  }

  predicate Forgotten(b: Bucket, now: nat) { now >= b.until && now - b.lastSeen > RETENTION }

  function Pruned(buckets: Buckets, now: nat): Buckets {
    map k | k in buckets && !Forgotten(buckets[k], now) :: buckets[k]
  }

  /** loginFailureKey; lower-casing and trimming are the parameter. */
  function FailureKey(normal: string -> string, ip: string, username: string): string {
    ip + ['\0'] + normal(username)
  }

  // ---------- histories ----------

  /** What happens to the tables: an attempt, or a successful login clearing its own key. */
  datatype Event = Attempt(ip: string, key: string, now: nat) | Success(key: string)

  datatype Tables = Tables(fails: Buckets, ipFails: Buckets)

  /** ipCharged: the address table let the attempt through; admitted: both did. */
  datatype Outcome = Outcome(after: Tables, ipCharged: bool, admitted: bool)

  function Step(t: Tables, e: Event): Outcome {
    match e
    case Success(key) => Outcome(t.(fails := t.fails - {key}), false, false)
    case Attempt(ip, key, now) =>
      var fails, ipFails := Pruned(t.fails, now), Pruned(t.ipFails, now);
      if !Admits(ipFails, ip, MAX_IP_ATTEMPTS, now) then Outcome(Tables(fails, ipFails), false, false)
      else
        Outcome(Tables(Allow(fails, key, MAX_LOGIN_FAILS, now), Allow(ipFails, ip, MAX_IP_ATTEMPTS, now)),
                true, Admits(fails, key, MAX_LOGIN_FAILS, now))
  }

  function After(events: seq<Event>): Tables {
    if events == [] then Tables(map[], map[]) else Step(After(events[..|events| - 1]), events[|events| - 1]).after
  }

  /** Attempts carry nondecreasing times. */
  predicate InOrder(events: seq<Event>) {
    forall i, j :: 0 <= i < j < |events| && events[i].Attempt? && events[j].Attempt? ==> events[i].now <= events[j].now
  }

  /** When the address bucket of ip was charged. */
  function Charged(events: seq<Event>, ip: string): seq<nat> {
    if events == [] then []
    else
      var before, e := events[..|events| - 1], events[|events| - 1];
      Charged(before, ip) +
      if e.Attempt? && e.ip == ip && Step(After(before), e).ipCharged then [e.now] else []
  }

  /** When attempts for the key were admitted since its last successful login. */
  function Admitted(events: seq<Event>, key: string): seq<nat> {
    if events == [] then []
    else
      var before, e := events[..|events| - 1], events[|events| - 1];
      if e == Success(key) then []
      else Admitted(before, key) + if e.Attempt? && e.key == key && Step(After(before), e).admitted then [e.now] else []
  }

  // ---------- the bound ----------

  predicate Ascending(times: seq<nat>) { forall i, j :: 0 <= i < j < |times| ==> times[i] <= times[j] }

  /** Any limit + 1 times span the lockout. */
  predicate Spread(times: seq<nat>, limit: nat) {
    forall i, j :: 0 <= i && i + limit <= j < |times| ==> times[j] - times[i] >= LOCKOUT
  }

  /** The bucket counts the tail of the history; what came before is a lockout away. */
  predicate Remembers(buckets: Buckets, key: string, times: seq<nat>, limit: nat, clock: nat) {
    && Ascending(times) && Spread(times, limit)
    && (times != [] ==> times[|times| - 1] <= clock)
    && if key !in buckets then times == [] || times[|times| - 1] + LOCKOUT <= clock
       else
         var b := buckets[key];
         && 1 <= b.count <= limit && b.count <= |times| && b.lastSeen == times[|times| - 1]
         && (b.count == limit ==> b.until == b.lastSeen + LOCKOUT) && (b.count < limit ==> b.until == 0)
         && (b.count < |times| ==> times[|times| - b.count] - times[|times| - b.count - 1] >= LOCKOUT)
  }

  lemma PruneRemembers(buckets: Buckets, key: string, times: seq<nat>, limit: nat, clock: nat, now: nat)
    requires Remembers(buckets, key, times, limit, clock) && clock <= now
    ensures Remembers(Pruned(buckets, now), key, times, limit, now)
  {
  }

  /** One more time keeps the spread if a lockout lies before one of the last limit entries. */
  lemma AppendSpread(times: seq<nat>, now: nat, start: nat, limit: nat)
    requires Ascending(times) && Spread(times, limit) && (times != [] ==> times[|times| - 1] <= now)
    requires |times| - limit < start <= |times|
    requires var all := times + [now]; start > 0 ==> all[start] - all[start - 1] >= LOCKOUT
    ensures Ascending(times + [now]) && Spread(times + [now], limit)
  {
    var all := times + [now];
    forall i | 0 <= i && i + limit <= |times| ensures all[|times|] - all[i] >= LOCKOUT {
      assert all[i] <= all[start - 1];
    }
  }

  lemma AllowRemembers(buckets: Buckets, key: string, times: seq<nat>, limit: nat, now: nat)
    requires Remembers(buckets, key, times, limit, now) && limit > 0
    ensures Remembers(Allow(buckets, key, limit, now), key,
                      times + if Admits(buckets, key, limit, now) then [now] else [], limit, now)
  {
    if Admits(buckets, key, limit, now) {
      var b := Counted(buckets, key, limit, now);
      AppendSpread(times, now, |times| + 1 - b.count, limit);
    } else {
      assert times + [] == times;
    }
  }

  lemma OtherKey(buckets: Buckets, key: string, other: string, times: seq<nat>, limit: nat, bound: nat, now: nat)
    requires Remembers(buckets, key, times, bound, now) && key != other
    ensures Remembers(Allow(buckets, other, limit, now), key, times, bound, now)
  {
  }

  /** The time of the last attempt. */
  function Clock(events: seq<Event>): nat {
    if events == [] then 0
    else if events[|events| - 1].Attempt? then events[|events| - 1].now else Clock(events[..|events| - 1])
  }

  lemma {:induction false} ClockAdvances(events: seq<Event>, now: nat)
    requires forall i :: 0 <= i < |events| && events[i].Attempt? ==> events[i].now <= now
    ensures Clock(events) <= now
  {
    if events != [] && !events[|events| - 1].Attempt? {
      ClockAdvances(events[..|events| - 1], now);
    }
  }

  lemma IpStep(t: Tables, e: Event, ip: string, times: seq<nat>, clock: nat)
    requires e.Attempt? && clock <= e.now && Remembers(t.ipFails, ip, times, MAX_IP_ATTEMPTS, clock)
    ensures Remembers(Step(t, e).after.ipFails, ip,
                      times + if e.ip == ip && Step(t, e).ipCharged then [e.now] else [], MAX_IP_ATTEMPTS, e.now)
  {
    var pruned := Pruned(t.ipFails, e.now);
    PruneRemembers(t.ipFails, ip, times, MAX_IP_ATTEMPTS, clock, e.now);
    assert times + [] == times;
    if e.ip == ip { AllowRemembers(pruned, ip, times, MAX_IP_ATTEMPTS, e.now); }
    else { OtherKey(pruned, ip, e.ip, times, MAX_IP_ATTEMPTS, MAX_IP_ATTEMPTS, e.now); }
  }

  lemma KeyStep(t: Tables, e: Event, key: string, times: seq<nat>, clock: nat)
    requires e.Attempt? && clock <= e.now && Remembers(t.fails, key, times, MAX_LOGIN_FAILS, clock)
    ensures Remembers(Step(t, e).after.fails, key,
                      times + if e.key == key && Step(t, e).admitted then [e.now] else [], MAX_LOGIN_FAILS, e.now)
  {
    var pruned := Pruned(t.fails, e.now);
    PruneRemembers(t.fails, key, times, MAX_LOGIN_FAILS, clock, e.now);
    assert times + [] == times;
    if !Step(t, e).ipCharged {
      assert Step(t, e).after.fails == pruned;
    } else if e.key == key {
      AllowRemembers(pruned, key, times, MAX_LOGIN_FAILS, e.now);
    } else {
      OtherKey(pruned, key, e.key, times, MAX_LOGIN_FAILS, MAX_LOGIN_FAILS, e.now);
    }
  }

  lemma {:induction false} IpRemembered(events: seq<Event>, ip: string)
    requires InOrder(events)
    ensures Remembers(After(events).ipFails, ip, Charged(events, ip), MAX_IP_ATTEMPTS, Clock(events))
  {
    if events != [] {
      var before, e := events[..|events| - 1], events[|events| - 1];
      IpRemembered(before, ip);
      if e.Attempt? {
        ClockAdvances(before, e.now);
        IpStep(After(before), e, ip, Charged(before, ip), Clock(before));
      } else {
        assert Charged(before, ip) + [] == Charged(before, ip);
      }
    }
  }

  lemma {:induction false} KeyRemembered(events: seq<Event>, key: string)
    requires InOrder(events)
    ensures Remembers(After(events).fails, key, Admitted(events, key), MAX_LOGIN_FAILS, Clock(events))
  {
    if events != [] {
      var before, e := events[..|events| - 1], events[|events| - 1];
      KeyRemembered(before, key);
      if e.Attempt? {
        ClockAdvances(before, e.now);
        KeyStep(After(before), e, key, Admitted(before, key), Clock(before));
      } else if e.key != key {
        assert Admitted(before, key) + [] == Admitted(before, key);
      }
    }
  }

  /** Whatever is pruned, reset, cleared or refused in between, any 21 attempts one address is charged
      for span at least a minute. */
  lemma IpWindow(events: seq<Event>, ip: string, i: nat, j: nat)
    requires InOrder(events) && i + 20 <= j < |Charged(events, ip)|
    ensures Charged(events, ip)[i] + 60_000_000_000 <= Charged(events, ip)[j]
  {
    IpRemembered(events, ip);
  }

  /** And any 6 attempts admitted for one address and name, with no successful login between them. */
  lemma LoginWindow(events: seq<Event>, key: string, i: nat, j: nat)
    requires InOrder(events) && i + 5 <= j < |Admitted(events, key)|
    ensures Admitted(events, key)[i] + 60_000_000_000 <= Admitted(events, key)[j]
  {
    KeyRemembered(events, key);
  }

  lemma RefusedBucket(buckets: Buckets, key: string, times: seq<nat>, limit: nat, now: nat)
    requires Remembers(buckets, key, times, limit, now) && !Admits(buckets, key, limit, now)
    ensures if key in buckets then |times| >= limit && |times| > 0 && now < times[|times| - 1] + LOCKOUT
            else |buckets| >= MAX_ENTRIES
  {
  }

  /** The key has had its attempts, the last of them less than a minute ago; or it has no bucket and the table
      has no room for one. */
  predicate SpentOrFull(kept: Buckets, key: string, times: seq<nat>, attempts: nat, now: nat) {
    if key in kept then |times| >= attempts && |times| > 0 && now < times[|times| - 1] + 60_000_000_000
    else |kept| >= 1024
  }

  lemma AddressRefused(t: Tables, ip: string, key: string, times: seq<nat>, clock: nat, now: nat)
    requires Remembers(t.ipFails, ip, times, MAX_IP_ATTEMPTS, clock) && clock <= now
    requires !Step(t, Attempt(ip, key, now)).ipCharged
    ensures SpentOrFull(Pruned(t.ipFails, now), ip, times, 20, now)
  {
    PruneRemembers(t.ipFails, ip, times, MAX_IP_ATTEMPTS, clock, now);
    RefusedBucket(Pruned(t.ipFails, now), ip, times, MAX_IP_ATTEMPTS, now);
  }

  lemma NameRefused(t: Tables, ip: string, key: string, times: seq<nat>, clock: nat, now: nat)
    requires Remembers(t.fails, key, times, MAX_LOGIN_FAILS, clock) && clock <= now
    requires Step(t, Attempt(ip, key, now)).ipCharged && !Step(t, Attempt(ip, key, now)).admitted
    ensures SpentOrFull(Pruned(t.fails, now), key, times, 5, now)
  {
    PruneRemembers(t.fails, key, times, MAX_LOGIN_FAILS, clock, now);
    RefusedBucket(Pruned(t.fails, now), key, times, MAX_LOGIN_FAILS, now);
  }

  /** Nobody is refused early. After any history an address is turned away only if it has spent 20 attempts and
      the last of them is less than a minute old, or if it has no bucket and the table is full. */
  lemma AddressRefusedOnlyIf(events: seq<Event>, ip: string, key: string, now: nat)
    requires InOrder(events) && Clock(events) <= now
    requires !Step(After(events), Attempt(ip, key, now)).ipCharged
    ensures SpentOrFull(Pruned(After(events).ipFails, now), ip, Charged(events, ip), 20, now)
  {
    IpRemembered(events, ip);
    AddressRefused(After(events), ip, key, Charged(events, ip), Clock(events), now);
  }

  /** And an attempt its address is charged for is turned away only if the name has had 5 admitted since its last
      successful login, the last of them less than a minute ago, or if the name has no bucket and the table is full. */
  lemma NameRefusedOnlyIf(events: seq<Event>, ip: string, key: string, now: nat)
    requires InOrder(events) && Clock(events) <= now
    requires var step := Step(After(events), Attempt(ip, key, now)); step.ipCharged && !step.admitted
    ensures SpentOrFull(Pruned(After(events).fails, now), key, Admitted(events, key), 5, now)
  {
    KeyRemembered(events, key);
    NameRefused(After(events), ip, key, Admitted(events, key), Clock(events), now);
  }

  /** What is let through is counted, the address's attempt even when the name is then refused, and what is
      refused is not. An attempt is admitted only if its address is charged. */
  lemma LetThroughIsCounted(t: Tables, ip: string, key: string, now: nat)
    ensures var step := Step(t, Attempt(ip, key, now));
            && (step.admitted ==> step.ipCharged)
            && (step.ipCharged ==> ip in step.after.ipFails && step.after.ipFails[ip].lastSeen == now
                                   && step.after.ipFails[ip].count >= 1)
            && (step.admitted ==> key in step.after.fails && step.after.fails[key].lastSeen == now
                                  && step.after.fails[key].count >= 1)
            && (!step.ipCharged ==> step.after.ipFails == Pruned(t.ipFails, now))
            && (!step.admitted ==> step.after.fails == Pruned(t.fails, now))
  {
  }

  /** Nothing is held for ever: when no attempt is less than five minutes old every bucket is forgotten, so
      that whoever comes next is let through, however full the tables were. */
  lemma QuietTablesEmpty(events: seq<Event>, ip: string, key: string, now: nat)
    requires InOrder(events) && Clock(events) + 300_000_000_000 < now
    ensures Pruned(After(events).ipFails, now) == map[] && Pruned(After(events).fails, now) == map[]
    ensures Step(After(events), Attempt(ip, key, now)).admitted
  {
    forall k | k in After(events).ipFails ensures Forgotten(After(events).ipFails[k], now) {
      IpRemembered(events, k);
    }
    forall k | k in After(events).fails ensures Forgotten(After(events).fails[k], now) {
      KeyRemembered(events, k);
    }
  }

  /** Pruning forgets no bucket that is locked or was used in the last five minutes. */
  lemma PrunedExactly(buckets: Buckets, now: nat, key: string)
    ensures key in Pruned(buckets, now) <==>
            key in buckets && (now < buckets[key].until || now <= buckets[key].lastSeen + 300_000_000_000)
    ensures key in Pruned(buckets, now) ==> Pruned(buckets, now)[key] == buckets[key]
  {
  }

  /** Attempts share a name bucket exactly if they have the same address and the same normalised name. */
  lemma KeysApart(normal: string -> string, ip: string, name: string, ip': string, name': string)
    requires '\0' !in ip && '\0' !in ip'
    ensures FailureKey(normal, ip, name) == FailureKey(normal, ip', name')
            <==> ip == ip' && normal(name) == normal(name')
  {
    var key, key' := FailureKey(normal, ip, name), FailureKey(normal, ip', name');
    if key == key' {
      assert key[|ip|] == '\0' && key'[|ip'|] == '\0';
      assert forall k :: 0 <= k < |ip| ==> key[k] == ip[k] && ip[k] in ip;
      assert forall k :: 0 <= k < |ip'| ==> key'[k] == ip'[k] && ip'[k] in ip';
      assert |ip| == |ip'|;
      assert ip == key[..|ip|] && ip' == key'[..|ip'|];
      assert normal(name) == key[|ip| + 1..] && normal(name') == key'[|ip'| + 1..];
    }
  }

  /** A refusal never outlasts the lockout: a minute after its last attempt an address with a bucket is
      let through again, and one without a bucket whenever the table has room. */
  lemma LockoutEnds(events: seq<Event>, ip: string, now: nat)
    requires InOrder(events) && Clock(events) <= now
    requires forall t :: t in Charged(events, ip) ==> t + 60_000_000_000 <= now
    ensures var buckets := Pruned(After(events).ipFails, now);
            forall key :: Step(After(events), Attempt(ip, key, now)).ipCharged
                          <==> ip in buckets || |buckets| < 1024
  {
    IpRemembered(events, ip);
    var times := Charged(events, ip);
    if ip in After(events).ipFails { assert times[|times| - 1] in times; }
  }

  /** Neither table ever outgrows its cap. */
  lemma {:induction false} TablesBounded(events: seq<Event>)
    ensures |After(events).fails| <= 1024 && |After(events).ipFails| <= 1024
  {
    if events != [] {
      var before, e := events[..|events| - 1], events[|events| - 1];
      TablesBounded(before);
      var t := After(before);
      match e
      case Success(key) => SubsetSize((t.fails - {key}).Keys, t.fails.Keys);
      case Attempt(ip, key, now) =>
        SubsetSize(Pruned(t.fails, now).Keys, t.fails.Keys);
        SubsetSize(Pruned(t.ipFails, now).Keys, t.ipFails.Keys);
        AllowBounded(Pruned(t.fails, now), key, MAX_LOGIN_FAILS, now);
        AllowBounded(Pruned(t.ipFails, now), ip, MAX_IP_ATTEMPTS, now);
    }
  }

  lemma AllowBounded(buckets: Buckets, key: string, limit: nat, now: nat)
    requires |buckets| <= MAX_ENTRIES
    ensures |Allow(buckets, key, limit, now)| <= MAX_ENTRIES
  {
    if Admits(buckets, key, limit, now) {
      var after := Allow(buckets, key, limit, now);
      assert after.Keys == buckets.Keys + {key};
    }
  }
}
