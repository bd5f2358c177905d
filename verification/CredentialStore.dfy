/** The store's credential methods: user rows, and the administrator's credential kept as text in the
    settings table. Each method is proved against the statement WebCredentials interleaves. */
module CredentialStore {
  import opened Basics
  import opened Decimal
  import opened WebServer
  import opened WebCredentials

  const PASSWORD_KEY := "admin_password_hash"
  const VERSION_KEY := "admin_web_auth_version"

  class Credentials {
    var users: map<int, Account>
    var settings: map<string, string>

    /** The version setting is absent or decimal, as every method here leaves it. */
    ghost predicate Valid()
      reads this
    {
      VERSION_KEY in settings ==> AllDigits(settings[VERSION_KEY])
    }

    function Setting(key: string, default: string): string
      reads this
    {
      if key in settings then settings[key] else default
    }

    function State(): Accounts
      reads this
      requires Valid()
    {
      Accounts(users, Setting(PASSWORD_KEY, ""), Value(Setting(VERSION_KEY, "0")))
    }

    constructor ()
      ensures Valid() && State() == Accounts(map[], "", 0)
    {
      users, settings := map[], map[];
      new;
      assert Setting(VERSION_KEY, "0") == Format(0);
      ValueFormat(0);
    }

    /** Hash and version read together; None is unusable version text, which no method here writes. */
    method AdminWebCredential() returns (r: Option<(string, int)>)
      ensures Valid() ==> r == Some((State().adminHash, State().adminVersion))
      ensures r.None? <==> Parse(Setting(VERSION_KEY, "0")).None? || Parse(Setting(VERSION_KEY, "0")).value < 0
    {
      var version := Parse(Setting(VERSION_KEY, "0"));
      if version.None? || version.value < 0 { return None; }
      return Some((Setting(PASSWORD_KEY, ""), version.value));
    }

    /** Stores the hash and advances the version in one transaction. */
    method SetAdminWebPassword(hash: string)
      requires Valid()
      modifies `settings
      ensures Valid() && State() == Accounts(old(users), hash, old(State()).adminVersion + 1)
      ensures State() == WebCredentials.SetAdminWebPassword(old(State()), hash)
    {
      var next := if VERSION_KEY in settings then Format(Value(settings[VERSION_KEY]) + 1) else "1";
      NextVersion(Setting(VERSION_KEY, "0"));
      StoreAdmin(hash, next);
    }

    /** Stores the hash only if the version is still the expected one. */
    method SetAdminWebPasswordIfVersion(hash: string, expected: nat) returns (changed: bool)
      requires Valid()
      modifies `settings
      ensures Valid() && State() == SetPasswordIfVersion(old(State()), Admin, expected, hash)
      ensures changed <==> old(State()).adminVersion == expected
    {
      if Value(Setting(VERSION_KEY, "0")) != expected { return false; }
      ValueFormat(expected + 1);
      StoreAdmin(hash, Format(expected + 1));
      return true;
    }

    method StoreAdmin(hash: string, version: string)
      requires AllDigits(version)
      modifies `settings
      ensures Valid() && State() == Accounts(users, hash, Value(version))
    {
      assert PASSWORD_KEY != VERSION_KEY by { assert |PASSWORD_KEY| != |VERSION_KEY|; }
      settings := settings[PASSWORD_KEY := hash][VERSION_KEY := version];
    }

    /** The first version written is 1, later ones count up from what is stored. */
    static lemma NextVersion(text: string)
      requires AllDigits(text)
      ensures Value(Format(Value(text) + 1)) == Value(text) + 1
      ensures Value("0") == 0 && Value("1") == 1
    {
      ValueFormat(Value(text) + 1);
      assert "0" == Format(0) && "1" == Format(1);
      ValueFormat(0);
      ValueFormat(1);
    }

    /** Every account but one is as it was, and that one is the same account in the same standing. */
    static predicate OnlyCredentialOf(before: map<int, Account>, after: map<int, Account>, id: int) {
      && after.Keys == before.Keys
      && (forall u :: u in after && u != id ==> after[u] == before[u])
      && (id in after ==> after[id].name == before[id].name)
    }

    /** A reset writes one account's hash and raises its version, so whatever was based on the old version is out
        of date; the account's name and standing, and every other account, stay. */
    method SetUserWebPassword(id: int, hash: string, mustChange: bool) returns (found: bool)
      requires Valid()
      modifies `users
      ensures OnlyCredentialOf(old(users), users, id) && (found <==> id in old(users))
      ensures found ==> users[id].hash == hash && users[id].mustChange == mustChange
                        && users[id].version == old(users)[id].version + 1
                        && users[id].disabled == old(users)[id].disabled
      ensures !found ==> users == old(users)
      ensures forall s: WebSession :: s.principal == User(id) && SessionCurrent(old(State()), s) ==>
                !SessionCurrent(State(), s)
      ensures Valid() && State() == WebCredentials.SetUserWebPassword(old(State()), id, hash, mustChange)
    {
      if id !in users { return false; }
      var u := users[id];
      users := users[id := u.(hash := hash, mustChange := mustChange, version := u.version + 1)];
      return true;
    }

    /** Takes effect exactly at the expected version, and then no second change based on the same version can.
        Without a forced change it is the self-service change that WebCredentials interleaves. */
    method SetUserWebPasswordIfVersion(id: int, expected: int, hash: string, mustChange: bool) returns (changed: bool)
      requires Valid()
      modifies `users
      ensures OnlyCredentialOf(old(users), users, id)
      ensures changed <==> id in old(users) && old(users)[id].version == expected
      ensures changed ==> users[id].hash == hash && users[id].mustChange == mustChange
                          && users[id].version > expected
                          && users[id].version == old(users)[id].version + 1
                          && users[id].disabled == old(users)[id].disabled
      ensures !changed ==> users == old(users)
      ensures changed ==> forall s: WebSession :: s.principal == User(id) && SessionCurrent(old(State()), s) ==>
                            !SessionCurrent(State(), s)
      ensures Valid()
      ensures State() == if changed then WebCredentials.SetUserWebPassword(old(State()), id, hash, mustChange)
                         else old(State())
      ensures !mustChange ==> State() == SetPasswordIfVersion(old(State()), User(id), expected, hash)
    {
      if id !in users || users[id].version != expected { return false; }
      var u := users[id];
      users := users[id := u.(hash := hash, mustChange := mustChange, version := u.version + 1)];
      return true;
    }

    /** Disabling and enabling leave the password alone but raise the version, so that no session from before
        is accepted after. */
    method SetUserDisabled(id: int, disabled: bool)
      requires Valid()
      modifies `users
      ensures OnlyCredentialOf(old(users), users, id)
      ensures id in users ==> users[id].disabled == disabled && users[id].version == old(users)[id].version + 1
                              && users[id].hash == old(users)[id].hash
                              && users[id].mustChange == old(users)[id].mustChange
      ensures forall s: WebSession :: s.principal == User(id) && SessionCurrent(old(State()), s) ==>
                !SessionCurrent(State(), s)
      ensures Valid() && State() == WebCredentials.SetUserDisabled(old(State()), id, disabled)
    {
      if id in users {
        users := users[id := users[id].(disabled := disabled, version := users[id].version + 1)];
      }
    }
  }
}
