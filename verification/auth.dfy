/** The demo admin login: a fixed credential check and a browser-stored
    session that expires two hours after login (src/lib/auth.ts). Browser
    storage is a map from key to stored entry, time is an integer clock in
    milliseconds. */
module Auth {
  import opened Prelude

  datatype Role = AdminRole | UserRole

  datatype User = User(id: string, username: string, name: string, role: Role)

  const AdminUser: User := User("1", "admin", "Admin User", AdminRole)
  const AdminPassword: string := "admin123"

  /** The storage key of the session. */
  const AuthKey: string := "auth_user"

  /** Two hours in milliseconds. */
  const SessionLength: int := 2 * 60 * 60 * 1000

  /** What `JSON.parse` makes of a stored session string. */
  datatype Entry =
    | Blank                                                // an empty string: falsy, never parsed
    | Malformed                                            // `JSON.parse` or the destructuring throws
    | Session(user: Option<User>, expiresAt: Option<int>)  // `expiresAt` None: not a valid date

  type Storage = map<string, Entry>

  /** Where the code runs: on the server (`window` undefined) every storage
      operation is skipped. */
  datatype Side = Server | Browser

  /** Only the admin username with the admin password logs in. */
  function AuthenticateUser(username: string, password: string): (r: Option<User>)
    ensures r.Some? <==> username == AdminUser.username && password == AdminPassword
    ensures r.Some? ==> r.value == AdminUser
  {
    if username == AdminUser.username && password == AdminPassword then Some(AdminUser) else None
  }

  /** Stores `user` with an expiry two hours after `now`; nothing on the server. */
  function SetAuthUser(side: Side, storage: Storage, user: User, now: int): (r: Storage)
    ensures side == Server ==> r == storage
    ensures side == Browser ==> AuthKey in r && r[AuthKey] == Session(Some(user), Some(now + SessionLength))
    ensures forall k :: k != AuthKey ==> (k in r <==> k in storage)
    ensures forall k :: k != AuthKey && k in r ==> r[k] == storage[k]
  {
    if side == Server then storage else storage[AuthKey := Session(Some(user), Some(now + SessionLength))]
  }

  /** The user of the current session, and the storage afterwards: no entry
      or a malformed one gives no user and leaves storage alone; an expired
      one is removed. */
  function GetAuthUser(side: Side, storage: Storage, now: int): (r: (Option<User>, Storage))
    ensures side == Server || AuthKey !in storage ==> r == (None, storage)
    ensures side == Browser && AuthKey in storage && storage[AuthKey] in {Blank, Malformed} ==> r == (None, storage)
    ensures side == Browser && AuthKey in storage && storage[AuthKey].Session? ==>
      var e := storage[AuthKey];
      if e.expiresAt.Some? && e.expiresAt.value < now then r == (None, storage - {AuthKey})
      else r == (e.user, storage)
  {
    if side == Server || AuthKey !in storage then (None, storage)
    else match storage[AuthKey]
      case Blank => (None, storage)
      case Malformed => (None, storage)
      case Session(user, expiresAt) =>
        if expiresAt.Some? && expiresAt.value < now then (None, storage - {AuthKey})
        else (user, storage)
  }

  /** Removes the session; nothing on the server. */
  function Logout(side: Side, storage: Storage): (r: Storage)
    ensures side == Browser ==> AuthKey !in r && forall k :: k in r <==> k in storage && k != AuthKey
    ensures side == Server ==> r == storage
  {
    if side == Server then storage else storage - {AuthKey}
  }

  /** Whether the current session's user is an admin; reading the session
      may remove an expired entry. */
  function IsAdmin(side: Side, storage: Storage, now: int): (r: (bool, Storage))
    ensures r.0 <==> GetAuthUser(side, storage, now).0.Some? && GetAuthUser(side, storage, now).0.value.role == AdminRole
    ensures r.1 == GetAuthUser(side, storage, now).1
  {
    var (user, storage') := GetAuthUser(side, storage, now);
    (user.Some? && user.value.role == AdminRole, storage')
  }

  /** A login is honoured until two hours later, inclusive, and refused
      (and cleared) from then on. */
  lemma SessionLifetime(storage: Storage, user: User, loginAt: int, now: int)
    ensures var s := SetAuthUser(Browser, storage, user, loginAt);
      if now <= loginAt + SessionLength then GetAuthUser(Browser, s, now) == (Some(user), s)
      else GetAuthUser(Browser, s, now).0 == None && AuthKey !in GetAuthUser(Browser, s, now).1
  {
  }

  /** After a logout no user is returned, whatever was stored before. */
  lemma LogoutEndsSession(side: Side, storage: Storage, now: int)
    ensures GetAuthUser(side, Logout(side, storage), now).0 == None
  {
  }

  /** Logging in as admin and checking within two hours says admin. */
  lemma AdminLoginIsAdmin(storage: Storage, loginAt: int, now: int)
    requires loginAt <= now <= loginAt + SessionLength
    ensures AuthenticateUser("admin", "admin123") == Some(AdminUser)
    ensures IsAdmin(Browser, SetAuthUser(Browser, storage, AdminUser, loginAt), now).0
  {
  }

  /** A stored session whose date does not parse never expires. */
  lemma InvalidDateNeverExpires(storage: Storage, user: User, now: int)
    requires AuthKey in storage && storage[AuthKey] == Session(Some(user), None)
    ensures GetAuthUser(Browser, storage, now) == (Some(user), storage)
  {
  }
}
