/** The page that holds the session: the signed-in user, kept in the
    browser's storage under the key 'user', and the choice of screen by
    role. */
module IndexPage {
  import opened Common

  /** The user object the login page hands over and the page stores. */
  datatype SessionUser = SessionUser(id: int, login: string, role: string, fullName: string)

  /** The storage key the session lives under. */
  const UserKey := "user"

  datatype Screen = LoginScreen | AdminScreen | ManagerScreen | WorkerScreen

  /** Without a user, the login page; 'admin' and 'manager' get their
      panels; every other role, unknown ones included, the worker panel. */
  function Route(user: Option<SessionUser>): (s: Screen)
    ensures s == LoginScreen <==> user.None?
    ensures s == AdminScreen <==> user.Some? && user.value.role == "admin"
    ensures s == ManagerScreen <==> user.Some? && user.value.role == "manager"
    ensures s == WorkerScreen <==> user.Some? && user.value.role != "admin" && user.value.role != "manager"
  {
    if user.None? then LoginScreen
    else if user.value.role == "admin" then AdminScreen
    else if user.value.role == "manager" then ManagerScreen
    else WorkerScreen
  }

  class Session {
    var user: Option<SessionUser>
    /** The browser's storage, by key; a stored user reads back as the user
        that was written. */
    var storage: map<string, SessionUser>

    /** A fresh page over whatever the browser already holds. */
    constructor(storage: map<string, SessionUser>)
      ensures user.None? && this.storage == storage
    {
      user := None;
      this.storage := storage;
    }

    /** The mount effect: a saved user is restored; without one the page
        stays signed out. */
    method Mount()
      modifies this
      ensures UserKey in storage ==> user == Some(storage[UserKey])
      ensures UserKey !in storage ==> user == old(user)
      ensures storage == old(storage)
    {
      if UserKey in storage {
        user := Some(storage[UserKey]);
      }
    }

    /** `handleLogin`: the user becomes current and is saved; no other key
        changes. */
    method Login(u: SessionUser)
      modifies this
      ensures user == Some(u)
      ensures storage == old(storage)[UserKey := u]
    {
      user := Some(u);
      storage := storage[UserKey := u];
    }

    /** `handleLogout`: the user is cleared and the saved copy removed; no
        other key changes. */
    method Logout()
      modifies this
      ensures user.None?
      ensures storage == old(storage) - {UserKey}
    {
      user := None;
      storage := storage - {UserKey};
    }
  }

  /** A reload after signing in lands on the same user's screen. */
  method ReloadAfterLogin(s: Session, u: SessionUser) returns (reloaded: Session)
    modifies s
    ensures reloaded.user == Some(u) && Route(reloaded.user) == Route(Some(u))
  {
    s.Login(u);
    reloaded := new Session(s.storage);
    reloaded.Mount();
  }

  /** A reload after signing out lands on the login page. */
  method ReloadAfterLogout(s: Session) returns (reloaded: Session)
    modifies s
    ensures reloaded.user.None? && Route(reloaded.user) == LoginScreen
  {
    s.Logout();
    reloaded := new Session(s.storage);
    reloaded.Mount();
  }
}
