/** The account store: the durable list of registered users, the signed-in
    user, and the two storage slots ("user" in durable storage and in
    session storage) that sign-in writes. Registration rejects a taken email
    before a taken username; sign-in looks the email up and nothing else. */
module Accounts {
  import opened Wrappers
  import opened Seqs
  import opened Clock

  datatype SocialLinks = SocialLinks(
    twitter: Option<string>,
    linkedin: Option<string>,
    github: Option<string>)

  datatype User = User(
    id: string,
    username: string,
    email: string,
    fullName: string,
    bio: Option<string>,
    avatar: Option<string>,
    website: Option<string>,
    socialLinks: Option<SocialLinks>,
    createdAt: Timestamp)

  datatype RegisterData = RegisterData(
    fullName: string,
    username: string,
    email: string,
    password: string)

  /** The errors `register` and `login` throw. */
  datatype AuthError = EmailExists | UsernameTaken | InvalidCredentials {
    function Message(): string {
      match this
      case EmailExists => "Email already exists"
      case UsernameTaken => "Username already taken"
      case InvalidCredentials => "Invalid email or password"
    }
  }

  /** The argument of `updateUser`, a `Partial<User>`: each field supplied
      or absent. */
  datatype UserPatch = UserPatch(
    id: Option<string>,
    username: Option<string>,
    email: Option<string>,
    fullName: Option<string>,
    bio: Option<string>,
    avatar: Option<string>,
    website: Option<string>,
    socialLinks: Option<SocialLinks>,
    createdAt: Option<Timestamp>)

  /** `{ ...user, ...data }`: the supplied fields win. */
  function Merged(u: User, p: UserPatch): User {
    User(
      p.id.GetOr(u.id),
      p.username.GetOr(u.username),
      p.email.GetOr(u.email),
      p.fullName.GetOr(u.fullName),
      if p.bio.Some? then p.bio else u.bio,
      if p.avatar.Some? then p.avatar else u.avatar,
      if p.website.Some? then p.website else u.website,
      if p.socialLinks.Some? then p.socialLinks else u.socialLinks,
      p.createdAt.GetOr(u.createdAt))
  }

  /** The record `register` stores: the given names and email, a fresh id,
      the clock, no password and no optional profile field. */
  function NewUser(data: RegisterData, id: string, now: Timestamp): User {
    User(id, data.username, data.email, data.fullName, None, None, None, None, now)
  }

  function HasEmail(email: string): User -> bool {
    (u: User) => u.email == email
  }

  function HasUsername(username: string): User -> bool {
    (u: User) => u.username == username
  }

  function HasId(id: string): User -> bool {
    (u: User) => u.id == id
  }

  /** The checks `register` makes before storing anything: a taken email is
      reported first, then a taken username. */
  function RegistrationCheck(users: seq<User>, data: RegisterData): (r: Option<AuthError>)
    ensures r == Some(EmailExists) <==> exists i :: 0 <= i < |users| && users[i].email == data.email
    ensures r == Some(UsernameTaken) <==>
              (forall i :: 0 <= i < |users| ==> users[i].email != data.email)
              && exists i :: 0 <= i < |users| && users[i].username == data.username
    ensures r == None <==>
              forall i :: 0 <= i < |users| ==>
                users[i].email != data.email && users[i].username != data.username
  {
    if Any(users, HasEmail(data.email)) then Some(EmailExists)
    else if Any(users, HasUsername(data.username)) then Some(UsernameTaken)
    else None
  }

  /** `users.find(u => u.email === email)`: the first user with the email. */
  function UserWithEmail(users: seq<User>, email: string): (r: Option<User>)
    ensures r.None? <==> forall i :: 0 <= i < |users| ==> users[i].email != email
    ensures r.Some? ==> exists i :: 0 <= i < |users| && users[i] == r.value && r.value.email == email
                                    && forall j :: 0 <= j < i ==> users[j].email != email
  {
    First(users, HasEmail(email))
  }

  /** No two users share an email, and no two share a username. */
  ghost predicate Unique(users: seq<User>) {
    forall i, j :: 0 <= i < j < |users| ==>
      users[i].email != users[j].email && users[i].username != users[j].username
  }

  /** A registration that passes the checks keeps emails and usernames
      unique. */
  lemma RegisterKeepsUnique(users: seq<User>, data: RegisterData, id: string, now: Timestamp)
    requires Unique(users)
    requires RegistrationCheck(users, data).None?
    ensures Unique(users + [NewUser(data, id, now)])
  {
    var r := users + [NewUser(data, id, now)];
    forall i, j | 0 <= i < j < |r|
      ensures r[i].email != r[j].email && r[i].username != r[j].username
    {
      assert r[i] == users[i];
    }
  }

  /** With unique emails, the user `login` finds is the only one with that
      email. */
  lemma UniqueEmailFindsTheUser(users: seq<User>, k: nat)
    requires Unique(users) && k < |users|
    ensures UserWithEmail(users, users[k].email) == Some(users[k])
  {
    var r := UserWithEmail(users, users[k].email);
    var i :| 0 <= i < |users| && users[i] == r.value && r.value.email == users[k].email
             && forall j :: 0 <= j < i ==> users[j].email != users[k].email;
    assert !(i < k) && !(k < i);
  }

  /** The account store object. `users` is the "users" entry of durable
      storage, which every operation reads afresh; `user` is the signed-in
      user; `durable` and `session` are the "user" entries of durable and
      session storage. */
  class AuthStore {
    var users: seq<User>
    var user: Option<User>
    ghost var durable: Option<User>
    ghost var session: Option<User>

    /** Mounting: only the durable "user" entry is read back, so a session
        sign-in does not survive a reload. */
    constructor (storedUsers: seq<User>, storedUser: Option<User>, storedSession: Option<User>)
      ensures users == storedUsers && user == storedUser
      ensures durable == storedUser && session == storedSession
    {
      users := storedUsers;
      user := storedUser;
      durable := storedUser;
      session := storedSession;
    }

    predicate IsAuthenticated()
      reads this
    {
      user.Some?
    }

    /** `register(data)`, with `id` and `now` standing for `user_${Date.now()}`
        and the clock. */
    method Register(data: RegisterData, id: string, now: Timestamp) returns (r: Result<User, AuthError>)
      modifies this
      ensures r.Failure? <==> RegistrationCheck(old(users), data).Some?
      ensures r.Failure? ==> r.error == RegistrationCheck(old(users), data).value && unchanged(this)
      ensures r.Success? ==>
                && r.value == NewUser(data, id, now)
                && users == old(users) + [r.value]
                && user == Some(r.value) && durable == Some(r.value)
                && session == old(session)
    {
      var check := RegistrationCheck(users, data);
      if check.Some? {
        return Failure(check.value);
      }
      var u := NewUser(data, id, now);
      users := users + [u];
      user := Some(u);
      durable := Some(u);
      r := Success(u);
    }

    /** `login(email, password, rememberMe)`: the password is never looked
        at. */
    method Login(email: string, password: string, rememberMe: bool) returns (r: Result<User, AuthError>)
      modifies this
      ensures r.Success? <==> UserWithEmail(old(users), email).Some?
      ensures r.Failure? ==> r.error == InvalidCredentials && unchanged(this)
      ensures r.Success? ==>
                && r.value == UserWithEmail(old(users), email).value
                && users == old(users) && user == Some(r.value)
                && (rememberMe ==> durable == Some(r.value) && session == old(session))
                && (!rememberMe ==> session == Some(r.value) && durable == old(durable))
    {
      var found := UserWithEmail(users, email);
      if found.None? {
        return Failure(InvalidCredentials);
      }
      user := found;
      if rememberMe {
        durable := found;
      } else {
        session := found;
      }
      r := Success(found.value);
    }

    /** `logout()`: the final state does not depend on the state before, so
        signing out twice is signing out once. */
    method Logout()
      modifies this
      ensures user.None? && durable.None? && session.None?
      ensures users == old(users)
    {
      user := None;
      durable := None;
      session := None;
    }

    /** `updateUser(p)`: merges the patch into the signed-in user and writes
        the result over the first stored user with the signed-in user's
        (old) id. */
    method UpdateUser(p: UserPatch)
      modifies this
      ensures old(user).None? ==> unchanged(this)
      ensures old(user).Some? ==>
                && user == Some(Merged(old(user).value, p))
                && durable == user && session == old(session)
                && match FindIndex(old(users), HasId(old(user).value.id))
                   case None => users == old(users)
                   case Some(k) => users == old(users)[k := user.value]
    {
      if user.None? {
        return;
      }
      var updated := Merged(user.value, p);
      var index := FindIndex(users, HasId(user.value.id));
      user := Some(updated);
      durable := user;
      if index.Some? {
        users := users[index.value := updated];
      }
    }
  }
}
