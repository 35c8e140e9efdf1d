/**
 * The pure part of assets/js/auth.js: the stored user record, the email check of
 * `validateEmail` and the credential lookup of `handleLogin`.
 */
module Auth {

  import opened Wrappers

  /**
   * A registered account as kept in the `footcap_users` list. `password` holds the
   * encoded password (the output of `btoa`), never the clear text.
   */
  datatype User = User(id: string, name: string, email: string, password: string, createdAt: string)

  /** The characters JavaScript's `\s` class matches. */
  predicate IsWhitespace(c: char)
  {
    var n := c as int;
    (9 <= n <= 13) || n == 0x20 || n == 0xA0 || n == 0x1680 || (0x2000 <= n <= 0x200A)
    || n == 0x2028 || n == 0x2029 || n == 0x202F || n == 0x205F || n == 0x3000 || n == 0xFEFF
  }

  /** A character of the class `[^\s@]`. */
  predicate Plain(c: char)
  {
    !IsWhitespace(c) && c != '@'
  }

  /** Every character of `s` is in `[^\s@]`. */
  predicate AllPlain(s: string)
  {
    forall i :: 0 <= i < |s| ==> Plain(s[i])
  }

  /** The index of the first occurrence of `c` in `s`; `ValidateEmail` uses it to split at the `@`. */
  function FirstIndexOf(s: string, c: char): (r: Option<nat>)
    ensures r.Some? ==> r.value < |s| && s[r.value] == c && forall j :: 0 <= j < r.value ==> s[j] != c
    ensures r.None? ==> forall j :: 0 <= j < |s| ==> s[j] != c
  {
    if |s| == 0 then None
    else if s[0] == c then Some(0)
    else match FirstIndexOf(s[1..], c)
      case None => None
      case Some(i) => Some(i + 1)
  }

  /**
   * `validateEmail`: the test of `/^[^\s@]+@[^\s@]+\.[^\s@]+$/`, decided by locating
   * the `@` and checking the local part and the domain separately.
   */
  predicate ValidateEmail(email: string)
    ensures ValidateEmail(email) ==> 5 <= |email| && email[0] != '@' && '@' in email
  {
    match FirstIndexOf(email, '@')
    case None => false
    case Some(at) =>
      var domain := email[at + 1..];
      0 < at && AllPlain(email[..at]) && AllPlain(domain)
      && 2 <= |domain| && '.' in domain[1..|domain| - 1]
  }

  /** Every string of the shape `A@B.C` with `A`, `B`, `C` non-empty runs of `[^\s@]` is accepted. */
  lemma EmailAccepted(a: string, b: string, c: string)
    requires |a| > 0 && |b| > 0 && |c| > 0
    requires AllPlain(a) && AllPlain(b) && AllPlain(c)
    ensures ValidateEmail(a + "@" + b + "." + c)
  {
    var email := a + "@" + b + "." + c;
    var domain := b + "." + c;
    assert forall j :: 0 <= j < |a| ==> email[j] == a[j];
    assert email[|a|] == '@';
    assert FirstIndexOf(email, '@') == Some(|a|);
    assert email[..|a|] == a;
    assert email[|a| + 1..] == domain;
    assert AllPlain(domain) by {
      forall j | 0 <= j < |domain|
        ensures Plain(domain[j])
      {
        if j < |b| { assert domain[j] == b[j]; }
        else if j > |b| { assert domain[j] == c[j - |b| - 1]; }
      }
    }
    assert domain[1..|domain| - 1][|b| - 1] == '.';
  }

  /** Conversely, every accepted string has the shape `A@B.C` of the pattern. */
  lemma EmailShape(email: string) returns (a: string, b: string, c: string)
    requires ValidateEmail(email)
    ensures email == a + "@" + b + "." + c
    ensures |a| > 0 && |b| > 0 && |c| > 0
    ensures AllPlain(a) && AllPlain(b) && AllPlain(c)
  {
    var at := FirstIndexOf(email, '@').value;
    var domain := email[at + 1..];
    var inner := domain[1..|domain| - 1];
    var k :| 0 <= k < |inner| && inner[k] == '.';
    var dot := k + 1;
    assert inner[k] == domain[dot];
    a, b, c := email[..at], domain[..dot], domain[dot + 1..];
    assert AllPlain(domain);
    assert AllPlain(b) by {
      forall j | 0 <= j < |b| ensures Plain(b[j]) { assert b[j] == domain[j]; }
    }
    assert AllPlain(c) by {
      forall j | 0 <= j < |c| ensures Plain(c[j]) { assert c[j] == domain[dot + 1 + j]; }
    }
    assert domain == b + "." + c;
    assert email == a + "@" + domain;
  }

  /** An accepted address holds exactly one `@` and no whitespace. */
  lemma {:induction false} EmailHasOneAt(email: string)
    requires ValidateEmail(email)
    ensures forall i :: 0 <= i < |email| ==> !IsWhitespace(email[i])
    ensures exists at :: 0 < at < |email| && email[at] == '@'
              && forall j :: 0 <= j < |email| && email[j] == '@' ==> j == at
  {
    var at := FirstIndexOf(email, '@').value;
    var domain := email[at + 1..];
    forall j | 0 <= j < |email| && j != at
      ensures Plain(email[j])
    {
      if j < at { assert email[j] == email[..at][j]; }
      else { assert email[j] == domain[j - at - 1]; }
    }
  }

  /** A stored user answers to the credentials: same email and same encoded password. */
  predicate Matches(u: User, email: string, encoded: Option<string>)
  {
    u.email == email && encoded == Some(u.password)
  }

  /** What the `users.find(...)` of `handleLogin` comes back with. */
  datatype Lookup = Found(user: User) | NotFound | EncodingFailed

  /**
   * The `find` of `handleLogin`: the first user whose email and encoded password both
   * match. The password is encoded lazily, only for a user whose email matches, so
   * an encoding that throws (`encoded == None`) is reached only when the email is
   * registered.
   */
  function FindCredentials(users: seq<User>, email: string, encoded: Option<string>): (r: Lookup)
    ensures r.Found? ==> exists i :: 0 <= i < |users| && users[i] == r.user && Matches(r.user, email, encoded)
                          && forall j :: 0 <= j < i ==> !Matches(users[j], email, encoded)
    ensures r.NotFound? ==> forall j :: 0 <= j < |users| ==> !Matches(users[j], email, encoded)
    ensures r.EncodingFailed? <==> encoded.None? && exists j :: 0 <= j < |users| && users[j].email == email
  {
    if |users| == 0 then NotFound
    else if users[0].email == email && encoded.None? then EncodingFailed
    else if Matches(users[0], email, encoded) then Found(users[0])
    else
      var r := FindCredentials(users[1..], email, encoded);
      assert forall j :: 0 <= j < |users[1..]| ==> users[1..][j] == users[j + 1];
      r
  }

  /**
   * With a password `btoa` can encode, the lookup never throws: a login fails the
   * same way whether the email is unknown or the password is wrong.
   */
  lemma EncodableLoginHidesCause(users: seq<User>, email: string, encoded: Option<string>)
    requires encoded.Some?
    ensures (FindCredentials(users, email, encoded) == NotFound) <==>
              (forall j :: 0 <= j < |users| ==> !Matches(users[j], email, encoded))
    ensures !FindCredentials(users, email, encoded).EncodingFailed?
  {
  }

  /**
   * As written, a password `btoa` cannot encode tells registered emails apart: the
   * lookup throws for a registered email and answers not-found for any other.
   */
  lemma EncodingFailureRevealsEmail(users: seq<User>, email: string)
    ensures FindCredentials(users, email, None) == if EmailFree(users, email) then NotFound else EncodingFailed
  {
  }

  /** The same unencodable password against a registered and an unregistered email. */
  lemma LoginLeakExample()
    ensures var u := User("1", "A", "a@x.com", "c2VjcmV0MQ==", "t");
            && FindCredentials([u], "a@x.com", None) == EncodingFailed
            && FindCredentials([u], "b@x.com", None) == NotFound
  {
  }

  /**
   * The login lookup as intended: the first user matching both credentials, or
   * nothing. A password that cannot be encoded matches nobody, so it gets the same
   * answer as a wrong email or a wrong password.
   */
  function Authenticate(users: seq<User>, email: string, encoded: Option<string>): (r: Option<User>)
    ensures r.Some? <==> exists j :: 0 <= j < |users| && Matches(users[j], email, encoded)
    ensures r.Some? ==> exists i :: 0 <= i < |users| && users[i] == r.value && Matches(r.value, email, encoded)
                          && forall j :: 0 <= j < i ==> !Matches(users[j], email, encoded)
    ensures encoded.None? ==> r.None?
  {
    match FindCredentials(users, email, encoded)
    case Found(u) => Some(u)
    case _ => None
  }

  /** Where the written lookup finds a user, the intended one finds the same user. */
  lemma AuthenticateAgreesOnSuccess(users: seq<User>, email: string, encoded: Option<string>)
    ensures FindCredentials(users, email, encoded).Found? ==>
              Authenticate(users, email, encoded) == Some(FindCredentials(users, email, encoded).user)
    ensures encoded.Some? ==>
              Authenticate(users, email, encoded) == (if FindCredentials(users, email, encoded).Found?
                                                      then Some(FindCredentials(users, email, encoded).user) else None)
  {
  }

  /** True when no stored user has this email (the negation of `users.some(...)` in `handleSignup`). */
  predicate EmailFree(users: seq<User>, email: string)
  {
    forall j :: 0 <= j < |users| ==> users[j].email != email
  }

  /**
   * A user appended by a signup, whose email no earlier user had, is what a login with
   * the same email and the same encoded password finds.
   */
  lemma {:induction false} LoginFindsSignedUpUser(users: seq<User>, u: User)
    requires EmailFree(users, u.email)
    ensures FindCredentials(users + [u], u.email, Some(u.password)) == Found(u)
  {
    if |users| == 0 {
      assert users + [u] == [u];
    } else {
      assert (users + [u])[1..] == users[1..] + [u];
      LoginFindsSignedUpUser(users[1..], u);
    }
  }

  /** Emails of the user list are pairwise distinct. */
  predicate UniqueEmails(users: seq<User>)
  {
    forall i, j :: 0 <= i < j < |users| ==> users[i].email != users[j].email
  }

  /** Appending a user whose email is free keeps the emails pairwise distinct. */
  lemma SignupKeepsEmailsUnique(users: seq<User>, u: User)
    requires UniqueEmails(users) && EmailFree(users, u.email)
    ensures UniqueEmails(users + [u])
  {
  }
}
