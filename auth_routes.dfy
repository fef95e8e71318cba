/** The account routes of server/routes/auth.js: the register validators and
    the user table they guard, the login check whose failures all look the
    same, and GET /user. Tokens are represented by the user id they carry;
    signing, expiry, password hashing and the rate limiter are not modelled. */
module AuthRoutes {
  import opened Common

  /** A stored user. The password is whatever the user model stores. */
  datatype User = User(id: UserId, name: string, email: string, password: string)

  /** The user object the routes put in a response: no password field. */
  datatype PublicUser = PublicUser(id: UserId, name: string, email: string)

  function Public(u: User): PublicUser {
    PublicUser(u.id, u.name, u.email)
  }

  /** User.findOne({ email }): the first user with exactly that email. */
  function FindByEmail(users: seq<User>, email: string): (r: Option<User>)
    ensures r.Some? <==> exists i :: 0 <= i < |users| && users[i].email == email
    ensures r.Some? ==> r.value in users && r.value.email == email
  {
    if users == [] then None
    else if users[0].email == email then Some(users[0])
    else FindByEmail(users[1..], email)
  }

  /** User.findById(id): the first user with that id. */
  function FindById(users: seq<User>, id: UserId): (r: Option<User>)
    ensures r.Some? <==> exists i :: 0 <= i < |users| && users[i].id == id
    ensures r.Some? ==> r.value in users && r.value.id == id
  {
    if users == [] then None
    else if users[0].id == id then Some(users[0])
    else FindById(users[1..], id)
  }

  // ---- The email pattern ^[^\s@]+@[^\s@]+\.[^\s@]+$ ----

  /** The character class [^\s@]. */
  predicate InClass(c: char) {
    c != '@' && !IsJsWhitespace(c)
  }

  /** [^\s@]+ matching the whole of s. */
  predicate IsRun(s: string) {
    s != [] && forall k :: 0 <= k < |s| ==> InClass(s[k])
  }

  /** The pattern matches s with its '@' at `at` and its '\.' at `dot`. The
      pattern is anchored at both ends and has no multiline flag. */
  ghost predicate MatchesAt(s: string, at: int, dot: int) {
    && 0 <= at < dot < |s|
    && s[at] == '@' && s[dot] == '.'
    && IsRun(s[..at]) && IsRun(s[at + 1..dot]) && IsRun(s[dot + 1..])
  }

  ghost predicate RegexMatches(s: string) {
    exists at, dot :: MatchesAt(s, at, dot)
  }

  /** The position of the first c in s, or |s| when there is none. */
  function IndexOf(s: string, c: char): (i: nat)
    ensures i <= |s|
    ensures i < |s| ==> s[i] == c
    ensures forall k :: 0 <= k < i ==> s[k] != c
  {
    if s == [] then 0
    else if s[0] == c then 0
    else 1 + IndexOf(s[1..], c)
  }

  /** The email test stated by its parts: no white space anywhere, exactly one
      '@', a non-empty local part before it, and after it a domain holding a
      '.' with text on both sides. */
  predicate IsValidEmail(s: string) {
    var at := IndexOf(s, '@');
    && (forall k | 0 <= k < |s| :: !IsJsWhitespace(s[k]))
    && 0 < at < |s|
    && (forall k | at < k < |s| :: s[k] != '@')
    && (exists dot | at + 1 < dot < |s| - 1 :: s[dot] == '.')
  }

  /** The stated parts are exactly what the regular expression accepts. */
  lemma {:induction false} EmailMatchesRegex(s: string)
    ensures IsValidEmail(s) <==> RegexMatches(s)
  {
    var at := IndexOf(s, '@');
    if IsValidEmail(s) {
      var dot :| at + 1 < dot < |s| - 1 && s[dot] == '.';
      assert forall k :: 0 <= k < at ==> s[..at][k] == s[k];
      assert MatchesAt(s, at, dot);
    }
    if RegexMatches(s) {
      var a, d :| MatchesAt(s, a, d);
      assert forall k :: 0 <= k < a ==> s[..a][k] == s[k];
      assert forall k :: a < k < d ==> s[k] == s[a + 1..d][k - a - 1];
      assert forall k :: d < k < |s| ==> s[k] == s[d + 1..][k - d - 1];
      assert at == a;
      assert forall k | 0 <= k < |s| :: !IsJsWhitespace(s[k]) by {
        forall k | 0 <= k < |s| ensures !IsJsWhitespace(s[k]) {
          if k < a { assert InClass(s[..a][k]); }
          else if a < k < d { assert InClass(s[a + 1..d][k - a - 1]); }
          else if d < k { assert InClass(s[d + 1..][k - d - 1]); }
        }
      }
      assert forall k | at < k < |s| :: s[k] != '@' by {
        forall k | at < k < |s| ensures s[k] != '@' {
          if k < d { assert InClass(s[a + 1..d][k - a - 1]); }
          else if d < k { assert InClass(s[d + 1..][k - d - 1]); }
        }
      }
      assert at + 1 < d < |s| - 1 && s[d] == '.';
    }
  }

  // ---- The register validators, in the order the route applies them ----

  /** `!name || name.trim().length === 0` rejects: a name is accepted exactly
      when it is present and holds a character other than white space. */
  function NameAccepted(name: Option<string>): (ok: bool)
    ensures ok <==> name.Some? && exists k :: 0 <= k < |name.value| && !IsJsWhitespace(name.value[k])
  {
    name.Some? && name.value != [] && Trim(name.value) != []
  }

  /** `!email || !emailRegex.test(email)` rejects. */
  function EmailAccepted(email: Option<string>): (ok: bool)
    ensures ok <==> email.Some? && RegexMatches(email.value)
  {
    if email.None? then false
    else
      EmailMatchesRegex(email.value);
      email.value != [] && IsValidEmail(email.value)
  }

  /** `!password || password.length < 6` rejects; length counts UTF-16 code
      units. Any password of six or more characters passes, none of fewer than
      three does. */
  function PasswordAccepted(password: Option<string>): (ok: bool)
    ensures ok <==> password.Some? && Utf16Length(password.value) >= 6
    ensures password.Some? && |password.value| >= 6 ==> ok
    ensures ok ==> |password.value| >= 3
  {
    password.Some? && password.value != [] && Utf16Length(password.value) >= 6
  }

  datatype RegisterReply =
    | Registered(tokenSubject: UserId, user: PublicUser)
    | Rejected(status: int, msg: string)

  /** Distinct ids and distinct emails. */
  predicate UniqueUsers(users: seq<User>) {
    forall i, j :: 0 <= i < j < |users| ==> users[i].id != users[j].id && users[i].email != users[j].email
  }

  class UserTable {
    var users: seq<User>

    ghost predicate Valid()
      reads this
    {
      UniqueUsers(users)
    }

    constructor ()
      ensures Valid() && users == []
    {
      users := [];
    }

    /** POST /register: the name, email and password checks, then the
        duplicate-email check, each answering 400 with its own message and
        leaving the table alone; otherwise one user is appended and the reply
        carries a token for the new id and the user without the password. The
        new id is a fresh ObjectId. */
    method Register(name: Option<string>, email: Option<string>, password: Option<string>,
                    newId: UserId) returns (reply: RegisterReply)
      requires Valid()
      requires forall i :: 0 <= i < |users| ==> users[i].id != newId
      modifies this
      ensures Valid()
      ensures reply.Rejected? ==> users == old(users)
      ensures !NameAccepted(name) ==> reply == Rejected(400, "Name is required.")
      ensures NameAccepted(name) && !EmailAccepted(email) ==>
        reply == Rejected(400, "Please include a valid email.")
      ensures NameAccepted(name) && EmailAccepted(email) && !PasswordAccepted(password) ==>
        reply == Rejected(400, "Password must be at least 6 characters.")
      ensures NameAccepted(name) && EmailAccepted(email) && PasswordAccepted(password)
              && FindByEmail(old(users), email.value).Some? ==>
        reply == Rejected(400, "Invalid input or user already registered.")
      ensures reply.Registered? <==>
        NameAccepted(name) && EmailAccepted(email) && PasswordAccepted(password)
        && FindByEmail(old(users), email.value).None?
      ensures reply.Registered? ==>
        && users == old(users) + [User(newId, name.value, email.value, password.value)]
        && reply == Registered(newId, PublicUser(newId, name.value, email.value))
    {
      if !NameAccepted(name) {
        return Rejected(400, "Name is required.");
      }
      if !EmailAccepted(email) {
        return Rejected(400, "Please include a valid email.");
      }
      if !PasswordAccepted(password) {
        return Rejected(400, "Password must be at least 6 characters.");
      }
      if FindByEmail(users, email.value).Some? {
        return Rejected(400, "Invalid input or user already registered.");
      }
      var u := User(newId, name.value, email.value, password.value);
      users := users + [u];
      reply := Registered(newId, Public(u));
    }
  }

  // ---- Login and the current user ----

  datatype LoginReply =
    | LoggedIn(tokenSubject: UserId, user: PublicUser)
    | LoginRejected(status: int, msg: string)

  /** `!x || typeof x !== 'string'` rejects: a non-empty string. */
  predicate IsFilledString(f: Field) {
    f.Str? && f.text != []
  }

  /** POST /login. The password comparison of the user model is the
      parameter `passwordMatches`. Every way of failing gives the same reply. */
  function Login(users: seq<User>, email: Field, password: Field,
                 passwordMatches: (User, string) -> bool): (r: LoginReply)
    ensures r.LoggedIn? <==>
      && IsFilledString(email) && IsFilledString(password)
      && FindByEmail(users, email.text).Some?
      && passwordMatches(FindByEmail(users, email.text).value, password.text)
    ensures r.LoggedIn? ==>
      exists i :: 0 <= i < |users| && users[i].email == email.text
                  && r == LoggedIn(users[i].id, PublicUser(users[i].id, users[i].name, users[i].email))
    ensures r.LoggedIn? ==>
      r == LoggedIn(FindByEmail(users, email.text).value.id, Public(FindByEmail(users, email.text).value))
    ensures r.LoginRejected? ==> r == LoginRejected(400, "Invalid credentials")
  {
    if !IsFilledString(email) || !IsFilledString(password) then
      LoginRejected(400, "Invalid credentials")
    else
      var found := FindByEmail(users, email.text);
      if found.None? then LoginRejected(400, "Invalid credentials")
      else if !passwordMatches(found.value, password.text) then LoginRejected(400, "Invalid credentials")
      else LoggedIn(found.value.id, Public(found.value))
  }

  /** GET /user: the principal's user with the password left out, or null
      (None) when no user has that id. */
  function CurrentUser(users: seq<User>, principal: Principal): (r: Option<PublicUser>)
    ensures r.Some? <==> exists i :: 0 <= i < |users| && users[i].id == principal.id
    ensures r.Some? ==>
      exists i :: 0 <= i < |users| && users[i].id == principal.id
                  && r.value == PublicUser(users[i].id, users[i].name, users[i].email)
    ensures r.Some? ==> r.value == Public(FindById(users, principal.id).value)
  {
    var found := FindById(users, principal.id);
    if found.None? then None else Some(Public(found.value))
  }

  /** With unique emails, looking a user's email up finds that very user, so
      a login carries the token of the one account with that email. */
  lemma {:induction false} FindByEmailUnique(users: seq<User>, i: nat)
    requires UniqueUsers(users) && i < |users|
    ensures FindByEmail(users, users[i].email) == Some(users[i])
  {
    if i > 0 {
      assert users[0].email != users[i].email;
      assert UniqueUsers(users[1..]) && users[1..][i - 1] == users[i];
      FindByEmailUnique(users[1..], i - 1);
    }
  }

  /** With unique ids, looking a user's id up finds that very user. */
  lemma {:induction false} FindByIdUnique(users: seq<User>, i: nat)
    requires UniqueUsers(users) && i < |users|
    ensures FindById(users, users[i].id) == Some(users[i])
  {
    if i > 0 {
      assert users[0].id != users[i].id;
      assert UniqueUsers(users[1..]) && users[1..][i - 1] == users[i];
      FindByIdUnique(users[1..], i - 1);
    }
  }

  /** Appending a user whose email no one has yet makes that user the one
      found by its email. */
  lemma {:induction false} FindNewEmail(users: seq<User>, u: User)
    requires FindByEmail(users, u.email).None?
    ensures FindByEmail(users + [u], u.email) == Some(u)
  {
    if users != [] {
      assert (users + [u])[1..] == users[1..] + [u];
      FindNewEmail(users[1..], u);
    } else {
      assert users + [u] == [u];
    }
  }

  /** After a successful registration, logging in with the same email and a
      password the user model accepts yields a token for the new user. */
  lemma LoginAfterRegister(users: seq<User>, name: string, email: string, password: string,
                           newId: UserId, passwordMatches: (User, string) -> bool)
    requires FindByEmail(users, email).None?
    requires email != [] && password != []
    requires passwordMatches(User(newId, name, email, password), password)
    ensures Login(users + [User(newId, name, email, password)], Str(email), Str(password), passwordMatches)
            == LoggedIn(newId, PublicUser(newId, name, email))
  {
    FindNewEmail(users, User(newId, name, email, password));
  }
}
