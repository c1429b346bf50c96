/** Rows of the `users` table and the pure parts of the users handler: the
    password-free GET listing and the delete. The handler itself is
    `Backend.Database.HandleUsers`. */
module Users {
  import opened Common

  /** A row of `users`. The password is stored as plain text. */
  datatype User = User(
    id: int,
    login: Option<string>,
    password: Option<string>,
    role: Option<string>,
    fullName: Option<string>,
    createdAt: nat)

  /** The JSON body of a POST or DELETE; `None` is an absent key. */
  datatype UserBody = UserBody(
    id: Option<int>,
    login: Option<string>,
    password: Option<string>,
    role: Option<string>,
    fullName: Option<string>)

  /** A user as GET lists it: there is no password column to carry. */
  datatype UserInfo = UserInfo(
    id: int,
    login: Option<string>,
    role: Option<string>,
    fullName: Option<string>,
    createdAt: nat)

  function InfoOf(u: User): (v: UserInfo)
    ensures v.id == u.id && v.login == u.login && v.role == u.role
    ensures v.fullName == u.fullName && v.createdAt == u.createdAt
  {
    UserInfo(u.id, u.login, u.role, u.fullName, u.createdAt)
  }

  /** POST: one new row with the four supplied columns. */
  function NewUser(body: UserBody, id: int, createdAt: nat): (u: User)
    ensures u.id == id && u.createdAt == createdAt
    ensures u.login == body.login && u.password == body.password
    ensures u.role == body.role && u.fullName == body.fullName
  {
    User(id, body.login, body.password, body.role, body.fullName, createdAt)
  }

  /** GET: every user, newest first, without the password. */
  function Listing(rows: seq<User>): (r: seq<UserInfo>)
    ensures |r| == |rows|
    ensures forall i :: 0 <= i < |rows| ==> r[i] == InfoOf(rows[|rows| - 1 - i])
  {
    var newest := Reverse(rows);
    seq(|rows|, i requires 0 <= i < |rows| => InfoOf(newest[i]))
  }

  /** `DELETE FROM users WHERE id`: the rows with that id go, the others stay
      in order; an absent id matches no row and the table is unchanged. */
  function Without(rows: seq<User>, id: Option<int>): (r: seq<User>)
    ensures forall u :: u in r <==> u in rows && Some(u.id) != id
    ensures IsSubsequence(r, rows)
    ensures id.None? ==> r == rows
  {
    FilterIsSubsequence(rows, (u: User) => Some(u.id) != id);
    if id.None? then FilterAll(rows, (u: User) => Some(u.id) != id); FilterBy(rows, (u: User) => Some(u.id) != id)
    else FilterBy(rows, (u: User) => Some(u.id) != id)
  }
}
