/** The session state of lib/AuthContext.tsx: the provider's `user` and `loading` fields, the
    restore on mount, and the mock `login`/`logout` over the local store. Store faults are the
    `openOk`/`requestOk` inputs of the store operations; the clock is the `now` parameter. */
module Auth {
  import opened Wrappers
  import opened Types
  import opened Storage

  class AuthProvider {
    var user: Option<UserSession>
    var loading: bool
    const store: LocalStore

    ghost predicate Valid()
      reads this, store
    {
      store.Valid()
    }

    /** Mount: no user yet, and the restore is pending. */
    constructor (s: LocalStore)
      requires s.Valid()
      ensures Valid() && store == s
      ensures user == None && loading
    {
      store := s;
      user := None;
      loading := true;
    }

    /** `loadSession`: adopts the stored session only when one is found and marked logged in;
        whatever happens, `loading` ends false. (The store's `getSession` already turns every
        failure into null, so the catch branch is never taken.) */
    method LoadSession(openOk: bool, requestOk: bool)
      requires Valid()
      modifies this, store
      ensures Valid()
      ensures !loading
      ensures store.connected == (old(store.connected) || openOk)
      ensures var s := old(store.Sessions());
        user == if store.connected && requestOk && SESSION_KEY in s && s[SESSION_KEY].loggedIn
                then Some(s[SESSION_KEY]) else old(user)
      ensures store.Sessions() == old(store.Sessions()) && store.Messages() == old(store.Messages())
    {
      var session := store.GetSession(openOk, requestOk);
      if session.Some? && session.value.loggedIn {
        user := session;
      }
      loading := false;
    }

    /** `login`: the mock check accepts any non-empty email and password. The session record
        is written first; `user` becomes the record with the typed email only once the write
        succeeded. */
    method Login(email: string, password: string, now: int, openOk: bool, requestOk: bool)
      returns (ok: bool)
      requires Valid()
      modifies this, store
      ensures Valid() && loading == old(loading)
      ensures email == "" || password == "" ==>
        !ok && user == old(user) && store.disk == old(store.disk) && store.connected == old(store.connected)
      ensures email != "" && password != "" ==>
        store.connected == (old(store.connected) || openOk) && (ok <==> store.connected && requestOk)
      ensures ok ==> user == Some(UserSession(email, true, now))
      ensures ok ==> store.Sessions() == map[SESSION_KEY := UserSession(SESSION_KEY, true, now)]
      ensures !ok ==> user == old(user) && store.Sessions() == old(store.Sessions())
      ensures store.Messages() == old(store.Messages())
    {
      if email == "" || password == "" {
        return false;
      }
      var session := UserSession(email, true, now);
      var r := store.SetSession(session, openOk, requestOk);
      if r.Pass? {
        user := Some(session);
        ok := true;
      } else {
        ok := false;
      }
    }

    /** `logout`: `user` is cleared only after the stored session is deleted; on a store error
        the user stays logged in. */
    method Logout(openOk: bool, requestOk: bool)
      requires Valid()
      modifies this, store
      ensures Valid() && loading == old(loading)
      ensures store.connected == (old(store.connected) || openOk)
      ensures store.connected && requestOk ==> user == None && store.Sessions() == map[]
      ensures !(store.connected && requestOk) ==> user == old(user) && store.Sessions() == old(store.Sessions())
      ensures store.Messages() == old(store.Messages())
    {
      var r := store.ClearSession(openOk, requestOk);
      if r.Pass? {
        user := None;
      }
    }
  }

  /** Logging in and then reloading the page: in memory the user carries the typed email, but
      the restored user is the stored record, whose email is the fixed session key. */
  method LoginThenReload(d: Disk, email: string, password: string, now: int)
    returns (ok: bool, typed: Option<UserSession>, restored: Option<UserSession>)
    requires WellFormed(d)
    ensures ok <==> email != "" && password != ""
    ensures ok ==> typed == Some(UserSession(email, true, now))
    ensures ok ==> restored == Some(UserSession(SESSION_KEY, true, now))
    ensures !ok ==> typed == None
  {
    var s := new LocalStore(d);
    var a := new AuthProvider(s);
    ok := a.Login(email, password, now, true, true);
    typed := a.user;
    var s2 := new LocalStore(s.disk);
    var b := new AuthProvider(s2);
    b.LoadSession(true, true);
    restored := b.user;
  }

  /** Two logins in a row keep one stored session, the later one. */
  method LoginTwiceThenReload(d: Disk, e1: string, e2: string, password: string, t1: int, t2: int)
    returns (restored: Option<UserSession>)
    requires WellFormed(d)
    requires e1 != "" && e2 != "" && password != ""
    ensures restored == Some(UserSession(SESSION_KEY, true, t2))
  {
    var s := new LocalStore(d);
    var a := new AuthProvider(s);
    var ok1 := a.Login(e1, password, t1, true, true);
    var ok2 := a.Login(e2, password, t2, true, true);
    var s2 := new LocalStore(s.disk);
    var b := new AuthProvider(s2);
    b.LoadSession(true, true);
    restored := b.user;
  }

  /** Logging out and then reloading the page restores no user. */
  method LogoutThenReload(d: Disk, email: string, password: string, now: int)
    returns (afterLogout: Option<UserSession>, restored: Option<UserSession>)
    requires WellFormed(d)
    requires email != "" && password != ""
    ensures afterLogout == None && restored == None
  {
    var s := new LocalStore(d);
    var a := new AuthProvider(s);
    var ok := a.Login(email, password, now, true, true);
    a.Logout(true, true);
    afterLogout := a.user;
    var s2 := new LocalStore(s.disk);
    var b := new AuthProvider(s2);
    b.LoadSession(true, true);
    restored := b.user;
  }

  /** A restore that cannot reach the store leaves the user logged out, yet still ends the
      loading phase. */
  method RestoreWithoutStore(d: Disk) returns (user: Option<UserSession>, loading: bool)
    requires WellFormed(d)
    ensures user == None && !loading
  {
    var s := new LocalStore(d);
    var a := new AuthProvider(s);
    a.LoadSession(false, true);
    user, loading := a.user, a.loading;
  }
}
