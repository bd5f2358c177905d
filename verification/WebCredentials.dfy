/** Web credentials: who wrote them, and which sessions they still back.
    Reads and writes of the store interleave with the steps of logins and password changes in flight. */
module WebCredentials {
  import opened Basics
  import opened WebServer

  datatype Account = Account(name: string, hash: string, mustChange: bool, version: int, disabled: bool)

  const ADMIN_NAME := "admin"

  /** The users table, and the two settings that are the administrator's credential. */
  datatype Accounts = Accounts(users: map<int, Account>, adminHash: string, adminVersion: int)

  /** bcrypt's comparison of a stored hash and a password. */
  type Verifier = (string, string) -> bool

  // ---------- the store's statements ----------

  function CreateUser(a: Accounts, name: string): Accounts {
    if name == "" || name == ADMIN_NAME || Named(a.users, name) != {} then a
    else a.(users := a.users[NextId(a.users.Keys) := Account(name, "", false, 0, false)])
  }

  function SetUserDisabled(a: Accounts, id: int, disabled: bool): Accounts {
    if id !in a.users then a
    else a.(users := a.users[id := a.users[id].(disabled := disabled, version := a.users[id].version + 1)])
  }

  function SetUserWebPassword(a: Accounts, id: int, hash: string, mustChange: bool): Accounts {
    if id !in a.users then a
    else
      var u := a.users[id];
      a.(users := a.users[id := u.(hash := hash, mustChange := mustChange, version := u.version + 1)])
  }

  function SetAdminWebPassword(a: Accounts, hash: string): Accounts {
    a.(adminHash := hash, adminVersion := a.adminVersion + 1)
  }

  /** The compare-and-swap of a self-service change, for either kind of principal. */
  function SetPasswordIfVersion(a: Accounts, p: Principal, version: int, hash: string): Accounts {
    match p
    case Admin => if a.adminVersion == version then a.(adminHash := hash, adminVersion := version + 1) else a
    case User(id) =>
      if id in a.users && a.users[id].version == version then SetUserWebPassword(a, id, hash, false) else a
  }

  function Named(users: map<int, Account>, name: string): set<int> {
    set id | id in users && users[id].name == name
  }

  function OfPrincipal(a: Accounts, p: Principal): Credential {
    match p
    case Admin =>
      if a.adminHash == "" then NO_CREDENTIAL
      else Credential(a.adminHash, Admin, ADMIN_NAME, a.adminVersion, false, false)
    case User(id) =>
      if id !in a.users then NO_CREDENTIAL
      else var u := a.users[id]; Credential(u.hash, p, u.name, u.version, u.mustChange, u.disabled)
  }

  /** credentialForUsername. Names are unique, so there is at most one user to find. */
  function ForUsername(a: Accounts, username: string): Credential {
    if username == ADMIN_NAME then OfPrincipal(a, Admin)
    else if Named(a.users, username) == {} then NO_CREDENTIAL
    else OfPrincipal(a, User(Max(Named(a.users, username))))
  }

  /** sessionCredentialCurrent. */
  predicate SessionCurrent(a: Accounts, s: WebSession) {
    match s.principal
    case Admin => a.adminHash != "" && s.authVersion == a.adminVersion
    case User(id) =>
      && id in a.users && !a.users[id].disabled && a.users[id].hash != ""
      && a.users[id].version == s.authVersion
  }

  // ---------- operations in flight ----------

  datatype Op =
    // a login: read the credential and check the password, read it again, insert the session
    | LoginRead(username: string, password: string)
    | LoginReread(cred: Credential, password: string)
    | LoginInsert(cred: Credential, password: string)
    // a self-service change: read the credential and check the password, compare and swap
    | ChangeRead(p: Principal, password: string, newHash: string)
    | ChangeWrite(p: Principal, read: Account, newHash: string)
    // a request: take the session out of the table, then check its credential
    | Lookup(key: string)
    | Check(session: WebSession)
    // administration and the command line, one statement each
    | AddAccount(name: string)
    | Disable(id: int, disabled: bool)
    | Reset(id: int, hash: string, mustChange: bool)
    | ResetAdmin(hash: string)

  predicate Fresh(op: Op) {
    !op.LoginReread? && !op.LoginInsert? && !op.ChangeWrite? && !op.Check?
  }

  datatype Web = Web(accounts: Accounts, sessions: Sessions, ops: set<Op>)

  function AccountsAfter(a: Accounts, op: Op): Accounts {
    match op
    case ChangeWrite(p, read, newHash) => SetPasswordIfVersion(a, p, read.version, newHash)
    case AddAccount(name) => CreateUser(a, name)
    case Disable(id, disabled) => SetUserDisabled(a, id, disabled)
    case Reset(id, hash, must) => SetUserWebPassword(a, id, hash, must)
    case ResetAdmin(hash) => SetAdminWebPassword(a, hash)
    case _ => a
  }

  function Follow(w: Web, bcrypt: Verifier, op: Op): Option<Op> {
    match op
    case LoginRead(username, password) =>
      var cred := ForUsername(w.accounts, username);
      if cred.hash != "" && !cred.disabled && bcrypt(cred.hash, password) then Some(LoginReread(cred, password))
      else None
    case LoginReread(cred, password) =>
      if StillCurrent(ForUsername(w.accounts, cred.username), cred) then Some(LoginInsert(cred, password)) else None
    case ChangeRead(p, password, newHash) =>
      var row := Row(w.accounts, p);
      if row.Some? && bcrypt(row.value.hash, password) then Some(ChangeWrite(p, row.value, newHash)) else None
    case Lookup(key) => if key in w.sessions then Some(Check(w.sessions[key])) else None
    case _ => None
  }

  /** Drop is everything that takes sessions away: logout, expiry, eviction, invalidation. */
  datatype Action =
    | Begin(op: Op)
    | Run(op: Op, id: string, csrf: string, now: nat)
    | Abandon(op: Op)
    | Drop(ids: set<string>)

  /** A session step may also remove sessions: the insertion prunes and evicts, the caps may refuse it. */
  predicate SessionsAfter(w: Web, a: Action, sessions: Sessions)
    requires a.Run?
  {
    if a.op.LoginInsert? then
      forall id :: id in sessions ==>
        || (id in w.sessions && sessions[id] == w.sessions[id])
        || (id == a.id && sessions[id] == NewSession(a.op.cred, a.csrf, a.now))
    else sessions == w.sessions
  }

  /** What the server's CreateSession leaves in its table, evictions and refusals included, is such a step. */
  lemma InsertionIsAStep(w: Web, a: Action, kept: Sessions, sessions: Sessions)
    requires a.Run? && a.op.LoginInsert?
    requires forall id :: id in kept ==> id in w.sessions && kept[id] == w.sessions[id]
    requires sessions == kept || Inserted(kept, sessions, a.id, NewSession(a.op.cred, a.csrf, a.now))
    ensures SessionsAfter(w, a, sessions)
  {
  }

  predicate Next(bcrypt: Verifier, w: Web, a: Action, w': Web) {
    match a
    case Begin(op) => Fresh(op) && w' == w.(ops := w.ops + {op})
    case Abandon(op) => w' == w.(ops := w.ops - {op})
    case Drop(ids) => w' == w.(sessions := w.sessions - ids)
    case Run(op, _, _, _) =>
      && op in w.ops
      && w'.accounts == AccountsAfter(w.accounts, op)
      && SessionsAfter(w, a, w'.sessions)
      && w'.ops <= w.ops + (var next := Follow(w, bcrypt, op); if next.Some? then {next.value} else {})
  }

  predicate Init(w: Web) { w == Web(Accounts(map[], "", 0), map[], {}) }

  predicate IsRun(bcrypt: Verifier, states: seq<Web>, actions: seq<Action>) {
    && |states| == |actions| + 1
    && forall i {:trigger actions[i]} :: 0 <= i < |actions| ==> Next(bcrypt, states[i], actions[i], states[i + 1])
  }

  // ---------- versions ----------

  /** A principal's credential as stored: the administrator's, or a user row. */
  function Row(a: Accounts, p: Principal): Option<Account> {
    match p
    case Admin => Some(Account(ADMIN_NAME, a.adminHash, false, a.adminVersion, false))
    case User(id) => if id in a.users then Some(a.users[id]) else None
  }

  /** From before to after, either the row is untouched or its version is higher. */
  predicate Advances(before: Option<Account>, after: Option<Account>) {
    before.Some? ==>
      after.Some? && after.value.name == before.value.name
      && (after == before || after.value.version > before.value.version)
  }

  lemma StepAdvances(bcrypt: Verifier, w: Web, a: Action, w': Web, p: Principal)
    requires Next(bcrypt, w, a, w')
    ensures Advances(Row(w.accounts, p), Row(w'.accounts, p))
  {
  }

  lemma {:induction false} RunAdvances(
    bcrypt: Verifier, states: seq<Web>, actions: seq<Action>, i: nat, j: nat, p: Principal)
    requires IsRun(bcrypt, states, actions) && i <= j < |states|
    ensures Advances(Row(states[i].accounts, p), Row(states[j].accounts, p))
    decreases j - i
  {
    if i < j {
      RunAdvances(bcrypt, states, actions, i, j - 1, p);
      StepAdvances(bcrypt, states[j - 1], actions[j - 1], states[j], p);
    }
  }

  /** The credential was not written between i and j. */
  predicate Untouched(states: seq<Web>, i: nat, j: nat, p: Principal)
    requires i <= j < |states|
  {
    forall m :: i <= m <= j ==> Row(states[m].accounts, p) == Row(states[i].accounts, p)
  }

  /** Equal versions mean that nobody wrote in between. */
  lemma SameVersionUntouched(bcrypt: Verifier, states: seq<Web>, actions: seq<Action>, i: nat, j: nat, p: Principal)
    requires IsRun(bcrypt, states, actions) && i <= j < |states|
    requires Row(states[i].accounts, p).Some? && Row(states[j].accounts, p).Some?
    ensures Untouched(states, i, j, p) <==>
            Row(states[j].accounts, p).value.version == Row(states[i].accounts, p).value.version
  {
    forall m | i <= m <= j
      ensures Advances(Row(states[i].accounts, p), Row(states[m].accounts, p))
      ensures Advances(Row(states[m].accounts, p), Row(states[j].accounts, p))
    {
      RunAdvances(bcrypt, states, actions, i, m, p);
      RunAdvances(bcrypt, states, actions, m, j, p);
    }
  }

  // ---------- where credentials in flight come from ----------

  /** Step m reads the credential of a login and finds that it matches the password. */
  predicate ReadsLogin(bcrypt: Verifier, w: Web, a: Action, cred: Credential, password: string) {
    && a.Run? && a.op.LoginRead? && a.op.password == password
    && cred == ForUsername(w.accounts, a.op.username) && cred.hash != "" && !cred.disabled
    && bcrypt(cred.hash, password)
  }

  /** The step reads the credential of a self-service change and finds that it matches the password. */
  predicate ReadsChange(bcrypt: Verifier, w: Web, a: Action, op: Op, password: string)
    requires op.ChangeWrite?
  {
    && a.Run? && a.op == ChangeRead(op.p, password, op.newHash)
    && Row(w.accounts, op.p) == Some(op.read) && bcrypt(op.read.hash, password)
  }

  /** The step inserts the session of a login. */
  predicate Inserts(a: Action, cred: Credential, password: string, s: WebSession) {
    a.Run? && a.op == LoginInsert(cred, password) && s == NewSession(cred, a.csrf, a.now)
  }

  predicate Checked(
    bcrypt: Verifier, states: seq<Web>, actions: seq<Action>, k: nat, cred: Credential, password: string)
    requires |states| == |actions| + 1 && k < |states|
  {
    exists m :: 0 <= m < k && ReadsLogin(bcrypt, states[m], actions[m], cred, password)
  }

  /** A session was inserted by a login that had read its credential and checked the password before. */
  ghost predicate Backed(bcrypt: Verifier, states: seq<Web>, actions: seq<Action>, k: nat, s: WebSession)
    requires |states| == |actions| + 1 && k < |states|
  {
    exists n, cred: Credential, password: string ::
      0 <= n < k && Inserts(actions[n], cred, password, s) && Checked(bcrypt, states, actions, n, cred, password)
  }

  ghost predicate OpOk(bcrypt: Verifier, states: seq<Web>, actions: seq<Action>, k: nat, op: Op)
    requires |states| == |actions| + 1 && k < |states|
  {
    match op
    case LoginReread(cred, password) => Checked(bcrypt, states, actions, k, cred, password)
    case LoginInsert(cred, password) => Checked(bcrypt, states, actions, k, cred, password)
    case ChangeWrite(_, _, _) =>
      exists m, password :: 0 <= m < k && ReadsChange(bcrypt, states[m], actions[m], op, password)
    case Check(s) => Backed(bcrypt, states, actions, k, s)
    case _ => true
  }

  ghost predicate Inv(bcrypt: Verifier, states: seq<Web>, actions: seq<Action>, k: nat)
    requires |states| == |actions| + 1 && k < |states|
  {
    && (forall id :: id in states[k].sessions ==> Backed(bcrypt, states, actions, k, states[k].sessions[id]))
    && (forall op :: op in states[k].ops ==> OpOk(bcrypt, states, actions, k, op))
  }

  lemma CheckedLater(
    bcrypt: Verifier, states: seq<Web>, actions: seq<Action>, k: nat, cred: Credential, password: string)
    requires |states| == |actions| + 1 && k < |actions| && Checked(bcrypt, states, actions, k, cred, password)
    ensures Checked(bcrypt, states, actions, k + 1, cred, password)
  {
    var m :| 0 <= m < k && ReadsLogin(bcrypt, states[m], actions[m], cred, password);
    assert ReadsLogin(bcrypt, states[m], actions[m], cred, password);
  }

  lemma BackedLater(bcrypt: Verifier, states: seq<Web>, actions: seq<Action>, k: nat, s: WebSession)
    requires |states| == |actions| + 1 && k < |actions| && Backed(bcrypt, states, actions, k, s)
    ensures Backed(bcrypt, states, actions, k + 1, s)
  {
    var n, cred, password :|
      0 <= n < k && Inserts(actions[n], cred, password, s) && Checked(bcrypt, states, actions, n, cred, password);
    assert Inserts(actions[n], cred, password, s);
  }

  lemma OpOkLater(bcrypt: Verifier, states: seq<Web>, actions: seq<Action>, k: nat, op: Op)
    requires |states| == |actions| + 1 && k < |actions| && OpOk(bcrypt, states, actions, k, op)
    ensures OpOk(bcrypt, states, actions, k + 1, op)
  {
    match op
    case LoginReread(cred, password) => CheckedLater(bcrypt, states, actions, k, cred, password);
    case LoginInsert(cred, password) => CheckedLater(bcrypt, states, actions, k, cred, password);
    case ChangeWrite(_, _, _) =>
      var m, password :| 0 <= m < k && ReadsChange(bcrypt, states[m], actions[m], op, password);
      assert ReadsChange(bcrypt, states[m], actions[m], op, password);
    case Check(s) => BackedLater(bcrypt, states, actions, k, s);
    case _ =>
  }

  /** What an operation goes on as is in order after the step that ran it. */
  lemma FollowOk(bcrypt: Verifier, states: seq<Web>, actions: seq<Action>, k: nat)
    requires |states| == |actions| + 1 && k < |actions| && actions[k].Run?
    requires OpOk(bcrypt, states, actions, k, actions[k].op)
    requires forall id :: id in states[k].sessions ==> Backed(bcrypt, states, actions, k, states[k].sessions[id])
    ensures var next := Follow(states[k], bcrypt, actions[k].op);
            next.Some? ==> OpOk(bcrypt, states, actions, k + 1, next.value)
  {
    var next := Follow(states[k], bcrypt, actions[k].op);
    match actions[k].op
    case LoginRead(username, password) =>
      if next.Some? { assert ReadsLogin(bcrypt, states[k], actions[k], next.value.cred, password); }
    case LoginReread(cred, password) => CheckedLater(bcrypt, states, actions, k, cred, password);
    case ChangeRead(p, password, newHash) =>
      if next.Some? { assert ReadsChange(bcrypt, states[k], actions[k], next.value, password); }
    case Lookup(key) => if next.Some? { BackedLater(bcrypt, states, actions, k, states[k].sessions[key]); }
    case _ =>
  }

  lemma SessionsBacked(bcrypt: Verifier, states: seq<Web>, actions: seq<Action>, k: nat, id: string)
    requires IsRun(bcrypt, states, actions) && k < |actions| && Inv(bcrypt, states, actions, k)
    requires id in states[k + 1].sessions
    ensures Backed(bcrypt, states, actions, k + 1, states[k + 1].sessions[id])
  {
    var w, a, s := states[k], actions[k], states[k + 1].sessions[id];
    if id in w.sessions && s == w.sessions[id] {
      BackedLater(bcrypt, states, actions, k, s);
    } else {
      assert Inserts(a, a.op.cred, a.op.password, s);
      assert OpOk(bcrypt, states, actions, k, a.op);
    }
  }

  lemma {:induction false} Reachable(bcrypt: Verifier, states: seq<Web>, actions: seq<Action>, k: nat)
    requires IsRun(bcrypt, states, actions) && Init(states[0]) && k < |states|
    ensures Inv(bcrypt, states, actions, k)
  {
    if k > 0 {
      var w, a, w' := states[k - 1], actions[k - 1], states[k];
      Reachable(bcrypt, states, actions, k - 1);
      forall id | id in w'.sessions ensures Backed(bcrypt, states, actions, k, w'.sessions[id]) {
        SessionsBacked(bcrypt, states, actions, k - 1, id);
      }
      forall op | op in w'.ops ensures OpOk(bcrypt, states, actions, k, op) {
        if op in w.ops { OpOkLater(bcrypt, states, actions, k - 1, op); }
        else if a.Run? { FollowOk(bcrypt, states, actions, k - 1); }
      }
    }
  }

  // ---------- sessions never outlive their credential ----------

  /** What is stored for a session's principal, row by row: the account is enabled, its hash is the one the
      password matched, and the session carries the account's name, version and forced change. */
  predicate RowBacks(a: Accounts, s: WebSession, password: string, bcrypt: Verifier) {
    match s.principal
    case Admin =>
      && a.adminHash != "" && bcrypt(a.adminHash, password)
      && s.username == "admin" && s.authVersion == a.adminVersion && !s.mustChange
    case User(id) =>
      && id in a.users && !a.users[id].disabled && a.users[id].hash != "" && bcrypt(a.users[id].hash, password)
      && s.username == a.users[id].name && s.authVersion == a.users[id].version
      && s.mustChange == a.users[id].mustChange
  }

  /** The login a session comes from: its read and its insertion. */
  lemma Origin(bcrypt: Verifier, states: seq<Web>, actions: seq<Action>, k: nat, s: WebSession)
    returns (i: nat, n: nat, cred: Credential, password: string)
    requires IsRun(bcrypt, states, actions) && Init(states[0]) && k < |states|
    requires Check(s) in states[k].ops || s in states[k].sessions.Values
    ensures i < n < k && ReadsLogin(bcrypt, states[i], actions[i], cred, password)
    ensures Inserts(actions[n], cred, password, s)
  {
    Reachable(bcrypt, states, actions, k);
    assert Backed(bcrypt, states, actions, k, s);
    n, cred, password :|
      0 <= n < k && Inserts(actions[n], cred, password, s) && Checked(bcrypt, states, actions, n, cred, password);
    i :| 0 <= i < n && ReadsLogin(bcrypt, states[i], actions[i], cred, password);
  }

  lemma ReadOfPrincipal(bcrypt: Verifier, w: Web, a: Action, cred: Credential, password: string)
    requires ReadsLogin(bcrypt, w, a, cred, password)
    ensures cred == OfPrincipal(w.accounts, cred.principal) && Row(w.accounts, cred.principal).Some?
    ensures Row(w.accounts, cred.principal).value.version == cred.authVersion
  {
  }

  /** A session accepted at k was inserted, at step n, by a login that read the credential and checked the
      password at step i, and nobody has written that credential since: the hash is still the stored one,
      the account is enabled, the forced change still the same. */
  lemma SessionsNeverOutliveCredential(
    bcrypt: Verifier, states: seq<Web>, actions: seq<Action>, k: nat, s: WebSession)
    returns (i: nat, n: nat, cred: Credential, password: string)
    requires IsRun(bcrypt, states, actions) && Init(states[0]) && k < |states|
    requires Check(s) in states[k].ops || s in states[k].sessions.Values
    requires SessionCurrent(states[k].accounts, s)
    ensures i < n < k && ReadsLogin(bcrypt, states[i], actions[i], cred, password)
    ensures Inserts(actions[n], cred, password, s)
    ensures Untouched(states, i, k, s.principal)
    ensures cred == OfPrincipal(states[i].accounts, s.principal) == OfPrincipal(states[k].accounts, s.principal)
    ensures cred.hash != "" && !cred.disabled && bcrypt(cred.hash, password)
    ensures RowBacks(states[k].accounts, s, password, bcrypt)
  {
    i, n, cred, password := Origin(bcrypt, states, actions, k, s);
    ReadOfPrincipal(bcrypt, states[i], actions[i], cred, password);
    RunAdvances(bcrypt, states, actions, i, k, s.principal);
    SameVersionUntouched(bcrypt, states, actions, i, k, s.principal);
  }

  /** And conversely: a session stays acceptable exactly as long as nobody writes the credential its login read. */
  lemma AcceptedExactly(bcrypt: Verifier, states: seq<Web>, actions: seq<Action>, k: nat, s: WebSession)
    returns (i: nat, n: nat, cred: Credential, password: string)
    requires IsRun(bcrypt, states, actions) && Init(states[0]) && k < |states|
    requires Check(s) in states[k].ops || s in states[k].sessions.Values
    ensures i < n < k && ReadsLogin(bcrypt, states[i], actions[i], cred, password)
    ensures Inserts(actions[n], cred, password, s)
    ensures SessionCurrent(states[k].accounts, s) <==> Untouched(states, i, k, s.principal)
  {
    i, n, cred, password := Origin(bcrypt, states, actions, k, s);
    ReadOfPrincipal(bcrypt, states[i], actions[i], cred, password);
    RunAdvances(bcrypt, states, actions, i, k, s.principal);
    SameVersionUntouched(bcrypt, states, actions, i, k, s.principal);
    ReadBacks(bcrypt, states[i], actions[i], cred, password, s);
  }

  /** At its reading step a login's credential is what is stored. */
  lemma ReadBacks(bcrypt: Verifier, w: Web, a: Action, cred: Credential, password: string, s: WebSession)
    requires ReadsLogin(bcrypt, w, a, cred, password)
    requires s.principal == cred.principal && s.authVersion == cred.authVersion
    requires s.username == cred.username && s.mustChange == cred.mustChange
    ensures RowBacks(w.accounts, s, password, bcrypt) && SessionCurrent(w.accounts, s)
  {
  }

  // ---------- who can log in ----------

  ghost predicate NamesUnique(a: Accounts) {
    forall id, other :: id in a.users && other in a.users && a.users[id].name == a.users[other].name ==> id == other
  }

  predicate NoneNamedAdmin(a: Accounts) {
    forall id :: id in a.users ==> a.users[id].name != "admin" && a.users[id].name != ""
  }

  lemma {:induction false} NamesAlways(bcrypt: Verifier, states: seq<Web>, actions: seq<Action>, k: nat)
    requires IsRun(bcrypt, states, actions) && Init(states[0]) && k < |states|
    ensures NamesUnique(states[k].accounts) && NoneNamedAdmin(states[k].accounts)
  {
    if k > 0 {
      NamesAlways(bcrypt, states, actions, k - 1);
      StepNames(bcrypt, states[k - 1], actions[k - 1], states[k]);
    }
  }

  lemma StepNames(bcrypt: Verifier, w: Web, a: Action, w': Web)
    requires NamesUnique(w.accounts) && NoneNamedAdmin(w.accounts) && Next(bcrypt, w, a, w')
    ensures NamesUnique(w'.accounts) && NoneNamedAdmin(w'.accounts)
  {
    if a.Run? && a.op.AddAccount? {
      assert forall id :: id in w.accounts.users && w.accounts.users[id].name == a.op.name ==>
                            id in Named(w.accounts.users, a.op.name);
    }
  }

  /** A new account needs a name nobody has, not the administrator's; it starts enabled and without a password. */
  lemma AccountAdded(a: Accounts, name: string)
    ensures var free := name != "" && name != "admin" && forall id :: id in a.users ==> a.users[id].name != name;
            var added := CreateUser(a, name);
            if free then
              exists id :: id !in a.users && added == a.(users := a.users[id := Account(name, "", false, 0, false)])
            else added == a
  {
    var id := NextId(a.users.Keys);
    if Named(a.users, name) == {} {
      forall other | other in a.users ensures a.users[other].name != name {
        assert other !in Named(a.users, name);
      }
      assert id !in a.users;
    }
  }

  /** A name finds its own account, every column of it, and nothing else finds it. */
  lemma NameFindsRow(a: Accounts, id: int)
    requires NamesUnique(a) && NoneNamedAdmin(a) && id in a.users
    ensures var u := a.users[id];
            ForUsername(a, u.name) == Credential(u.hash, User(id), u.name, u.version, u.mustChange, u.disabled)
  {
    assert id in Named(a.users, a.users[id].name);
  }

  /** In every run an enabled account's password logs it in: the reading step goes on, and so does the second
      look at the credential if nobody wrote it meanwhile. A disabled account or another password does not. */
  lemma LoginGoesOnExactly(
    bcrypt: Verifier, states: seq<Web>, actions: seq<Action>, k: nat, id: int, password: string)
    requires IsRun(bcrypt, states, actions) && Init(states[0]) && k < |states| && id in states[k].accounts.users
    ensures var u := states[k].accounts.users[id];
            var cred := Credential(u.hash, User(id), u.name, u.version, u.mustChange, u.disabled);
            && Follow(states[k], bcrypt, LoginRead(u.name, password))
               == (if u.hash != "" && !u.disabled && bcrypt(u.hash, password) then Some(LoginReread(cred, password))
                   else None)
            && (u.hash != "" && !u.disabled ==>
                  Follow(states[k], bcrypt, LoginReread(cred, password)) == Some(LoginInsert(cred, password)))
  {
    NamesAlways(bcrypt, states, actions, k);
    NameFindsRow(states[k].accounts, id);
  }

  /** A self-service change goes on exactly with the present password. */
  lemma ChangeGoesOnExactly(w: Web, bcrypt: Verifier, id: int, password: string, newHash: string)
    ensures Follow(w, bcrypt, ChangeRead(User(id), password, newHash)).Some? <==>
            id in w.accounts.users && bcrypt(w.accounts.users[id].hash, password)
    ensures Follow(w, bcrypt, ChangeRead(Admin, password, newHash)).Some? <==> bcrypt(w.accounts.adminHash, password)
    ensures forall p :: var next := Follow(w, bcrypt, ChangeRead(p, password, newHash));
              next.Some? ==> next.value.ChangeWrite? && next.value.p == p && next.value.newHash == newHash
                             && Row(w.accounts, p) == Some(next.value.read)
  {
  }

  // ---------- no lost update ----------

  /** Any write of a credential, and only a write, raises its version. */
  lemma WritesRaiseVersion(bcrypt: Verifier, w: Web, a: Action, w': Web, p: Principal)
    requires Next(bcrypt, w, a, w') && Row(w.accounts, p).Some?
    ensures Row(w'.accounts, p) != Row(w.accounts, p) <==>
            Row(w'.accounts, p).value.version > Row(w.accounts, p).value.version
    ensures Row(w'.accounts, p) != Row(w.accounts, p) ==> a.Run? && Written(w.accounts, a.op, p)
    ensures a.Run? && Written(w.accounts, a.op, p) ==>
              Row(w'.accounts, p).value.version == Row(w.accounts, p).value.version + 1
  {
  }

  /** Does the statement write p's credential? */
  predicate Written(a: Accounts, op: Op, p: Principal) {
    match op
    case ChangeWrite(q, read, _) => q == p && Row(a, p).Some? && Row(a, p).value.version == read.version
    case Disable(id, _) => p == User(id) && id in a.users
    case Reset(id, _, _) => p == User(id) && id in a.users
    case ResetAdmin(_) => p == Admin
    case _ => false
  }

  /** A self-service change, which read the credential and checked the password at step i, takes effect
      exactly when nobody wrote the credential since. */
  lemma ChangeTakesEffectExactly(bcrypt: Verifier, states: seq<Web>, actions: seq<Action>, j: nat, op: Op)
    returns (i: nat, password: string)
    requires IsRun(bcrypt, states, actions) && Init(states[0]) && j < |actions|
    requires actions[j].Run? && actions[j].op == op && op.ChangeWrite?
    ensures i < j && ReadsChange(bcrypt, states[i], actions[i], op, password)
    ensures Row(states[j].accounts, op.p).Some? && Row(states[j + 1].accounts, op.p).Some?
    ensures Row(states[j + 1].accounts, op.p) != Row(states[j].accounts, op.p) <==> Untouched(states, i, j, op.p)
    ensures Untouched(states, i, j, op.p) ==>
      Row(states[j + 1].accounts, op.p).value.hash == op.newHash && !Row(states[j + 1].accounts, op.p).value.mustChange
  {
    Reachable(bcrypt, states, actions, j);
    assert OpOk(bcrypt, states, actions, j, op);
    i, password :| 0 <= i < j && ReadsChange(bcrypt, states[i], actions[i], op, password);
    RunAdvances(bcrypt, states, actions, i, j, op.p);
    SameVersionUntouched(bcrypt, states, actions, i, j, op.p);
    WritesRaiseVersion(bcrypt, states[j], actions[j], states[j + 1], op.p);
    StepAdvances(bcrypt, states[j], actions[j], states[j + 1], op.p);
  }

  /** The hash a statement stores for p, if it stores one. */
  function Stored(a: Accounts, op: Op, p: Principal): Option<string> {
    match op
    case ChangeWrite(_, _, hash) => if Written(a, op, p) then Some(hash) else None
    case Reset(_, hash, _) => if Written(a, op, p) then Some(hash) else None
    case ResetAdmin(hash) => if p == Admin then Some(hash) else None
    case _ => None
  }

  predicate Stores(w: Web, a: Action, p: Principal) { a.Run? && Stored(w.accounts, a.op, p).Some? }

  /** The stored hash is that of the last writer to have committed; before any (last == -1), it is empty. */
  lemma {:induction false} StoredHashIsLastWritten(
    bcrypt: Verifier, states: seq<Web>, actions: seq<Action>, k: nat, p: Principal)
    returns (last: int)
    requires IsRun(bcrypt, states, actions) && Init(states[0]) && k < |states| && Row(states[k].accounts, p).Some?
    ensures -1 <= last < k
    ensures last >= 0 ==> Stores(states[last], actions[last], p)
    ensures forall m :: last < m < k ==> !Stores(states[m], actions[m], p)
    ensures Row(states[k].accounts, p).value.hash
            == if last < 0 then "" else Stored(states[last].accounts, actions[last].op, p).value
  {
    if k == 0 { return -1; }
    var w, a, w' := states[k - 1], actions[k - 1], states[k];
    if Stores(w, a, p) {
      StoresHash(bcrypt, w, a, w', p);
      return k - 1;
    }
    if Row(w.accounts, p).Some? {
      last := StoredHashIsLastWritten(bcrypt, states, actions, k - 1, p);
      StoresHash(bcrypt, w, a, w', p);
    } else {
      forall m | 0 <= m < k ensures !Stores(states[m], actions[m], p) {
        RunAdvances(bcrypt, states, actions, m, k - 1, p);
      }
      return -1;
    }
  }

  lemma StoresHash(bcrypt: Verifier, w: Web, a: Action, w': Web, p: Principal)
    requires Next(bcrypt, w, a, w') && Row(w.accounts, p).Some?
    ensures Row(w'.accounts, p).Some?
    ensures Row(w'.accounts, p).value.hash
            == if Stores(w, a, p) then Stored(w.accounts, a.op, p).value else Row(w.accounts, p).value.hash
  {
  }
}
