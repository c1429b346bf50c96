/** The authentication handler. It only reads the `users` table, so it is a
    function of that table and the request. */
module Auth {
  import opened Common
  import opened Users

  /** The JSON body of a login POST; `None` is an absent key. */
  datatype Credentials = Credentials(login: Option<string>, password: Option<string>)

  /** The user object the handler returns: no password. */
  datatype Identity = Identity(id: int, login: Option<string>, role: Option<string>, fullName: Option<string>)

  /** POST answers `{success, user}`; GET answers the bare user object. */
  datatype Payload = SignedIn(user: Identity) | Profile(user: Identity)

  function IdentityOf(u: User): (i: Identity)
    ensures i.id == u.id && i.login == u.login && i.role == u.role && i.fullName == u.fullName
  {
    Identity(u.id, u.login, u.role, u.fullName)
  }

  /** `WHERE login = %s AND password = %s`, an absent key read as ''.
      A NULL column equals nothing. */
  predicate Matches(u: User, c: Credentials)
  {
    u.login == Some(GetOr(c.login, "")) && u.password == Some(GetOr(c.password, ""))
  }

  /** POST: 200 with the matching user exactly when some row has the given
      login and password, 401 otherwise. */
  function SignIn(users: seq<User>, c: Credentials): (r: Response<Payload>)
    ensures r.statusCode == 200 <==> exists u :: u in users && Matches(u, c)
    ensures r.statusCode == 200 ==>
      r.body.Data? && exists u :: u in users && Matches(u, c) && r.body.value == SignedIn(IdentityOf(u))
    ensures r.statusCode != 200 ==> r == Response(401, Error(BadCredentials))
  {
    match FindFirst(users, (u: User) => Matches(u, c))
    case Some(u) => Response(200, Data(SignedIn(IdentityOf(u))))
    case None => Response(401, Error(BadCredentials))
  }

  /** GET: 200 with the user whose id is the `user_id` parameter, 404 when
      the parameter is missing or empty or no row has that id. */
  function Lookup(users: seq<User>, userId: Option<int>): (r: Response<Payload>)
    ensures r.statusCode == 200 <==> userId.Some? && exists u :: u in users && u.id == userId.value
    ensures r.statusCode == 200 ==>
      exists u :: u in users && u.id == userId.value && r.body == Data(Profile(IdentityOf(u)))
    ensures r.statusCode != 200 ==> r == Response(404, Error(UserNotFound))
  {
    if userId.None? then Response(404, Error(UserNotFound))
    else
      match FindFirst(users, (u: User) => u.id == userId.value)
      case Some(u) => Response(200, Data(Profile(IdentityOf(u))))
      case None => Response(404, Error(UserNotFound))
  }

  /** The whole handler: preflight, POST, GET, and 405 for any other verb. */
  function Handle(users: seq<User>, m: Method, c: Credentials, userId: Option<int>): (r: Response<Payload>)
    ensures m == Options ==> r == Preflight()
    ensures m == Post ==> r == SignIn(users, c)
    ensures m == Get ==> r == Lookup(users, userId)
    ensures m !in {Options, Post, Get} ==> r == NotSupported()
  {
    match m
    case Options => Preflight()
    case Post => SignIn(users, c)
    case Get => Lookup(users, userId)
    case _ => NotSupported()
  }
}
