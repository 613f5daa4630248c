/**
 * The user list behind `/auth/signup` and `/auth/login`: a flat list with a
 * duplicate-email check on insert and a lookup by email on login. Password
 * hashing and comparison are parameters standing for the hashing library;
 * the list starts from whatever the users file held.
 */
module Users {
  import opened Results
  import opened Search

  /** A stored account; `password` holds the hash, never the plain password. */
  datatype User = User(id: int, name: Option<string>, email: Option<string>, password: string)

  /** What a successful login returns about the account: no password field. */
  datatype Profile = Profile(id: int, name: Option<string>, email: Option<string>)

  /** The failures the handlers report (all with HTTP status 200 and `success: false`). */
  datatype AuthError = EmailExists | InvalidEmail | IncorrectPassword
  {
    function Message(): string
    {
      match this
      case EmailExists => "Email already exists!"
      case InvalidEmail => "Invalid email!"
      case IncorrectPassword => "Incorrect password!"
    }
  }

  const SignupMessage: string := "Account created successfully!"

  /** The `find` test both handlers use: strict equality of the email fields. */
  function HasEmail(email: Option<string>): User -> bool
  {
    (u: User) => u.email == email
  }

  ghost predicate Registered(users: seq<User>, email: Option<string>)
  {
    exists k :: 0 <= k < |users| && users[k].email == email
  }

  ghost predicate EmailsUnique(users: seq<User>)
  {
    forall i, j :: 0 <= i < j < |users| ==> users[i].email != users[j].email
  }

  function ProfileOf(u: User): Profile
  {
    Profile(u.id, u.name, u.email)
  }

  /**
   * The answer to a login: unknown email, wrong password for the first user
   * with that email, or that user's profile.
   */
  function LoginResult(users: seq<User>, email: Option<string>, password: string,
                       matches: (string, string) -> bool): (r: Result<Profile, AuthError>)
    ensures r == Err(InvalidEmail) <==> !Registered(users, email)
    ensures r.Ok? ==> r.value.email == email
    ensures forall k :: 0 <= k < |users| && users[k].email == email
                          && (forall j :: 0 <= j < k ==> users[j].email != email) ==>
              && (r.Ok? <==> matches(password, users[k].password))
              && (r.Ok? ==> r.value == ProfileOf(users[k]))
              && (r.Err? ==> r.error == IncorrectPassword)
  {
    var i := FindIndex(users, HasEmail(email));
    if i == -1 then Err(InvalidEmail)
    else if !matches(password, users[i].password) then Err(IncorrectPassword)
    else Ok(ProfileOf(users[i]))
  }

  /** A signup that passes the duplicate check keeps emails unique. */
  lemma AppendKeepsEmailsUnique(users: seq<User>, u: User)
    requires EmailsUnique(users) && !Registered(users, u.email)
    ensures EmailsUnique(users + [u])
  {
  }

  /** Right after signing up, logging in with the same email and password returns the new account. */
  lemma LoginAfterSignup(users: seq<User>, id: int, name: Option<string>, email: Option<string>,
                                            password: string, hash: string -> string, matches: (string, string) -> bool)
    requires !Registered(users, email)
    requires matches(password, hash(password))
    ensures LoginResult(users + [User(id, name, email, hash(password))], email, password, matches)
         == Ok(Profile(id, name, email))
  {
    var u := User(id, name, email, hash(password));
    FindIndexAppend(users, u, HasEmail(email));
  }

  /** A signup never changes the outcome of a login with any other email. */
  lemma SignupLeavesOtherLogins(users: seq<User>, u: User, email: Option<string>,
                                                   password: string, matches: (string, string) -> bool)
    requires email != u.email
    ensures LoginResult(users + [u], email, password, matches) == LoginResult(users, email, password, matches)
  {
    FindIndexAppend(users, u, HasEmail(email));
    assert forall k :: 0 <= k < |users| ==> (users + [u])[k] == users[k];
  }

  class UserStore {
    var users: seq<User>

    /** The list as loaded from the users file, which may hold anything. */
    constructor (loaded: seq<User>)
      ensures users == loaded
    {
      users := loaded;
    }

    /** The `find` by email both handlers run. */
    method IndexOfEmail(email: Option<string>) returns (index: int)
      ensures -1 <= index < |users|
      ensures index >= 0 ==> users[index].email == email && forall k :: 0 <= k < index ==> users[k].email != email
      ensures index == -1 <==> !Registered(users, email)
      ensures index == FindIndex(users, HasEmail(email))
    {
      index := Scan(users, HasEmail(email));
    }

    /**
     * The first half of the signup handler: the duplicate check, after which
     * the handler waits for the password hash before it goes on.
     */
    method EmailTaken(email: Option<string>) returns (taken: bool)
      ensures taken <==> Registered(users, email)
    {
      var index := IndexOfEmail(email);
      taken := index >= 0;
    }

    /** The second half of the signup handler: the `push` once the hash has arrived. */
    method Append(u: User)
      modifies this
      ensures users == old(users) + [u]
    {
      users := users + [u];
    }

    /**
     * POST /auth/signup with nothing else run between its check and its push:
     * a taken email is refused and the list is unchanged; otherwise exactly one
     * record carrying the hash of the password is appended. Run this way,
     * email uniqueness is preserved.
     */
    method Signup(name: Option<string>, email: Option<string>, password: string, id: int,
                  hash: string -> string) returns (r: Result<string, AuthError>)
      modifies this
      ensures Registered(old(users), email) ==> r == Err(EmailExists) && users == old(users)
      ensures !Registered(old(users), email) ==>
                r == Ok(SignupMessage) && users == old(users) + [User(id, name, email, hash(password))]
      ensures old(EmailsUnique(users)) ==> EmailsUnique(users)
    {
      var taken := EmailTaken(email);
      if taken {
        return Err(EmailExists);
      }
      var u := User(id, name, email, hash(password));
      ghost var before := users;
      Append(u);
      if EmailsUnique(before) {
        AppendKeepsEmailsUnique(before, u);
      }
      r := Ok(SignupMessage);
    }

    /**
     * POST /auth/login: unknown email, then wrong password, are refused;
     * otherwise the profile of the first user with that email. Reads the list only.
     */
    method Login(email: Option<string>, password: string, matches: (string, string) -> bool)
      returns (r: Result<Profile, AuthError>)
      ensures r == LoginResult(users, email, password, matches)
    {
      var index := IndexOfEmail(email);
      if index == -1 {
        return Err(InvalidEmail);
      }
      var user := users[index];
      if !matches(password, user.password) {
        return Err(IncorrectPassword);
      }
      r := Ok(ProfileOf(user));
    }
  }

  /**
   * Two signups for the same email whose handlers overlap, as they do when
   * both pass the duplicate check before either has finished hashing: both
   * succeed, and the list ends up holding the email twice.
   */
  method OverlappingSignups(store: UserStore, email: Option<string>, name1: Option<string>, name2: Option<string>,
                            id1: int, id2: int, password1: string, password2: string, hash: string -> string)
    returns (r1: Result<string, AuthError>, r2: Result<string, AuthError>)
    requires !Registered(store.users, email)
    modifies store
    ensures r1 == Ok(SignupMessage) && r2 == Ok(SignupMessage)
    ensures store.users == old(store.users) + [User(id1, name1, email, hash(password1)), User(id2, name2, email, hash(password2))]
    ensures !EmailsUnique(store.users)
  {
    var taken1 := store.EmailTaken(email);
    var taken2 := store.EmailTaken(email);
    assert !taken1 && !taken2;
    store.Append(User(id1, name1, email, hash(password1)));
    r1 := Ok(SignupMessage);
    store.Append(User(id2, name2, email, hash(password2)));
    r2 := Ok(SignupMessage);
    var n := |store.users|;
    assert store.users[n - 2].email == store.users[n - 1].email;
  }
}
