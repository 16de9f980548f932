/** The account rules of the API: registration with a normalised email and
    a required display name, credential checking, the public view of a user
    and the session cookie. Password hashing, hash comparison and token
    signing are library calls and enter the model as parameters. */
module AuthService {
  import opened Common
  import opened Text
  import opened Store

  /** What the API may show of a user: never the password hash. */
  datatype PublicUser = PublicUser(id: Id, email: string, displayName: string)

  /** `toPublic`. */
  function ToPublic(u: User): PublicUser {
    PublicUser(u.id, u.email, u.displayName)
  }

  /** The public form of a user does not depend on the password hash, so the
      hash never reaches a response. */
  lemma PublicIgnoresHash(u: User, h: string)
    ensures ToPublic(u.(passwordHash := h)) == ToPublic(u)
    ensures ToPublic(u).id == u.id && ToPublic(u).email == u.email && ToPublic(u).displayName == u.displayName
  {
  }

  /** The form in which emails are stored and looked up: trimmed, then
      lower-cased. */
  function Normalize(email: string): (n: string)
    ensures IsTrimmed(n)
    ensures forall i :: 0 <= i < |n| ==> !('A' <= n[i] <= 'Z')
    ensures n == "" <==> AllSpaces(email)
  {
    var t := Trim(email);
    if t != [] then
      LowerKeepsSpace(t[0]);
      LowerKeepsSpace(t[|t| - 1]);
      ToLower(t)
    else
      ToLower(t)
  }

  /** `!displayName?.trim()`: no display name, or only white space. */
  predicate NameMissing(displayName: Option<string>) {
    displayName.None? || Trim(displayName.value) == ""
  }

  /** Why `register` refuses, checked in this order, or `None` when it
      accepts. */
  function Refusal(users: seq<User>, email: string, displayName: Option<string>): (e: Option<HttpError>)
    ensures e.None? <==> !NameMissing(displayName) && forall i :: 0 <= i < |users| ==> users[i].email != Normalize(email)
    ensures NameMissing(displayName) ==> e == Some(BadRequest("displayName required"))
    ensures !NameMissing(displayName) && e.Some? ==> e == Some(BadRequest("Email already registered"))
  {
    if NameMissing(displayName) then Some(BadRequest("displayName required"))
    else if FindEmail(users, Normalize(email)).Some? then Some(BadRequest("Email already registered"))
    else None
  }

  /** The row `register` creates: normalised email, trimmed name. */
  function NewUser(email: string, displayName: string, passwordHash: string, newId: Id, now: int): User {
    User(newId, Normalize(email), passwordHash, Trim(displayName), now)
  }

  /** `validate` on a given user table: the user with the normalised email
      whose hash the password matches (`compare` stands for
      `bcrypt.compare`). An unknown email and a wrong password fail alike. */
  function Authenticate(users: seq<User>, email: string, password: string,
                        compare: (string, string) -> bool): (r: Result<User>)
    ensures r.Ok? <==> exists i :: 0 <= i < |users| && users[i].email == Normalize(email) && compare(password, users[i].passwordHash)
                                   && forall j :: 0 <= j < i ==> users[j].email != Normalize(email)
    ensures r.Ok? ==> r.value in users && r.value.email == Normalize(email)
    ensures r.Err? ==> r.error == Unauthorized("Invalid credentials")
  {
    match FindEmail(users, Normalize(email))
    case None => Err(Unauthorized("Invalid credentials"))
    case Some(u) =>
      FindEmailFirst(users, Normalize(email));
      if compare(password, u.passwordHash) then Ok(u) else Err(Unauthorized("Invalid credentials"))
  }

  /** The row `findUnique` returns is the first row with that email. */
  lemma {:induction false} FindEmailFirst(users: seq<User>, email: string)
    requires FindEmail(users, email).Some?
    ensures exists i :: 0 <= i < |users| && users[i] == FindEmail(users, email).value
                        && forall j :: 0 <= j < i ==> users[j].email != email
  {
    if users[0].email != email {
      FindEmailFirst(users[1..], email);
      var i :| 0 <= i < |users[1..]| && users[1..][i] == FindEmail(users[1..], email).value
               && forall j :: 0 <= j < i ==> users[1..][j].email != email;
      assert users[i + 1] == FindEmail(users, email).value;
      forall j | 0 <= j < i + 1 ensures users[j].email != email {
        if j > 0 {
          assert users[j] == users[1..][j - 1];
        }
      }
    } else {
      assert users[0] == FindEmail(users, email).value;
    }
  }

  /** A row appended behind every row of another email is the one found. */
  lemma {:induction false} FindEmailAppended(users: seq<User>, u: User)
    requires forall i :: 0 <= i < |users| ==> users[i].email != u.email
    ensures FindEmail(users + [u], u.email) == Some(u)
  {
    if users == [] {
      assert users + [u] == [u];
    } else {
      assert (users + [u])[1..] == users[1..] + [u];
      FindEmailAppended(users[1..], u);
    }
  }

  /** The claims of the access token: `sub` is the user id. */
  datatype Claims = Claims(sub: Id, email: string, displayName: string)

  /** What `signAccessCookie` returns. */
  datatype AccessCookie = AccessCookie(cookieName: string, cookie: string, token: string)

  const CookieName: string := "access_token"

  /** The `Set-Cookie` value carrying `token`. */
  function CookieText(token: string, isProd: bool): string {
    CookieName + "=" + token + "; HttpOnly" + "; Path=/" + "; SameSite=Lax" + "; Max-Age=7200"
    + (if isProd then "; Secure" else "")
  }

  /** `signAccessCookie`: the token `sign` makes of the user's claims, in an
      HTTP-only cookie that lives two hours, marked `Secure` in production. */
  function SignAccessCookie(user: PublicUser, sign: Claims -> string, isProd: bool): (c: AccessCookie)
    ensures c.cookieName == "access_token"
    ensures c.token == sign(Claims(user.id, user.email, user.displayName))
    ensures ';' !in c.token ==> ParseSetCookie(c.cookie) == SetCookie("access_token", c.token, CookieAttributes(isProd))
  {
    var token := sign(Claims(user.id, user.email, user.displayName));
    if ';' !in token then
      CookieReadBack(token, isProd);
      AccessCookie(CookieName, CookieText(token, isProd), token)
    else
      AccessCookie(CookieName, CookieText(token, isProd), token)
  }

  /** A `Set-Cookie` value as a browser reads it: the name and value before
      the first `;`, split at the first `=`, then the trimmed attributes. */
  datatype SetCookie = SetCookie(name: string, value: string, attributes: seq<string>)

  function ParseSetCookie(header: string): SetCookie {
    var parts := Split(header, ';');
    var pair := parts[0];
    var i := IndexOf(pair, '=');
    SetCookie(pair[..i], if i < |pair| then pair[i + 1..] else "", TrimEach(parts[1..]))
  }

  /** The attributes of the session cookie. */
  function CookieAttributes(isProd: bool): seq<string> {
    ["HttpOnly", "Path=/", "SameSite=Lax", "Max-Age=7200"] + (if isProd then ["Secure"] else [])
  }

  /** The cookie reads back as `access_token` carrying the signed token with
      the intended attributes, so `Secure` is set exactly in production. A
      signed token never holds `;`. */
  lemma CookieRoundTrip(user: PublicUser, sign: Claims -> string, isProd: bool)
    requires ';' !in sign(Claims(user.id, user.email, user.displayName))
    ensures SignAccessCookie(user, sign, isProd).cookieName == "access_token"
    ensures SignAccessCookie(user, sign, isProd).token == sign(Claims(user.id, user.email, user.displayName))
    ensures ParseSetCookie(SignAccessCookie(user, sign, isProd).cookie)
            == SetCookie("access_token", SignAccessCookie(user, sign, isProd).token, CookieAttributes(isProd))
    ensures "Secure" in ParseSetCookie(SignAccessCookie(user, sign, isProd).cookie).attributes <==> isProd
  {
    var token := sign(Claims(user.id, user.email, user.displayName));
    CookieReadBack(token, isProd);
  }

  lemma CookieReadBack(token: string, isProd: bool)
    requires ';' !in token
    ensures ParseSetCookie(CookieText(token, isProd)) == SetCookie("access_token", token, CookieAttributes(isProd))
  {
    CookieSplit(token, isProd);
    AttributesTrimmed(isProd);
    PairSplit(token);
  }

  /** The name-value pair splits at the `=` behind the name. */
  lemma PairSplit(token: string)
    ensures IndexOf(CookieName + "=" + token, '=') == |CookieName|
    ensures (CookieName + "=" + token)[..|CookieName|] == "access_token"
    ensures (CookieName + "=" + token)[|CookieName| + 1..] == token
  {
    assert '=' !in CookieName;
    IndexOfFirst(CookieName, token, '=');
    assert CookieName + "=" + token == CookieName + ['='] + token;
  }

  lemma AttributesTrimmed(isProd: bool)
    ensures TrimEach(PrefixEach(" ", CookieAttributes(isProd))) == CookieAttributes(isProd)
  {
    var attrs := CookieAttributes(isProd);
    AttributesClean(isProd);
    assert AllSpaces(" ");
    forall i | 0 <= i < |attrs| ensures Trim(" " + attrs[i]) == attrs[i] {
      TrimAfterSpaces(" ", attrs[i]);
    }
  }

  lemma AttributesClean(isProd: bool)
    ensures forall i :: 0 <= i < |CookieAttributes(isProd)| ==> IsTrimmed(CookieAttributes(isProd)[i])
  {
  }

  /** Splitting the cookie at `;` gives the name-value pair and the
      attributes, each with the space in front. */
  lemma CookieSplit(token: string, isProd: bool)
    requires ';' !in token
    ensures Split(CookieText(token, isProd), ';') == [CookieName + "=" + token] + PrefixEach(" ", CookieAttributes(isProd))
  {
    var attrs := CookieAttributes(isProd);
    var xs := [token] + attrs;
    CookieJoin(token, isProd);
    assert [';'] + " " == "; ";
    SplitJoin(CookieName + "=", xs, ';', " ");
    assert xs[1..] == attrs;
  }

  /** The cookie string is the name and `=` in front of the token and the
      attributes joined by `"; "`. */
  lemma CookieJoin(token: string, isProd: bool)
    ensures CookieText(token, isProd) == CookieName + "=" + Join([token] + CookieAttributes(isProd), "; ")
  {
    var secure := if isProd then "; Secure" else "";
    var attrs := CookieAttributes(isProd);
    var p := CookieName + "=";
    var rest := "; HttpOnly" + ("; Path=/" + ("; SameSite=Lax" + ("; Max-Age=7200" + secure)));
    CookieTextNested(token, isProd);
    AttributesJoin(isProd);
    assert ([token] + attrs)[1..] == attrs;
    calc {
      p + (token + rest);
      p + (token + ("; " + Join(attrs, "; ")));
      p + (token + "; " + Join(attrs, "; "));
      p + Join([token] + attrs, "; ");
    }
  }

  /** The cookie text regrouped: name and `=`, then the token with the
      attribute text behind it. */
  lemma CookieTextNested(token: string, isProd: bool)
    ensures CookieText(token, isProd)
            == CookieName + "=" + (token + ("; HttpOnly" + ("; Path=/" + ("; SameSite=Lax" + ("; Max-Age=7200"
               + (if isProd then "; Secure" else ""))))))
  {
    Regroup(CookieName + "=", token, "; HttpOnly", "; Path=/", "; SameSite=Lax", "; Max-Age=7200",
            if isProd then "; Secure" else "");
  }

  /** Concatenation regrouped to the right. */
  lemma Regroup(p: string, t: string, a: string, b: string, c: string, d: string, e: string)
    ensures p + t + a + b + c + d + e == p + (t + (a + (b + (c + (d + e)))))
  {
  }

  /** The attributes joined by `"; "`, behind a first `"; "`, are the text
      the cookie carries after its token. */
  lemma AttributesJoin(isProd: bool)
    ensures "; HttpOnly" + ("; Path=/" + ("; SameSite=Lax" + ("; Max-Age=7200" + (if isProd then "; Secure" else ""))))
            == "; " + Join(CookieAttributes(isProd), "; ")
  {
    var secure := if isProd then "; Secure" else "";
    var rest := if isProd then ["Secure"] else [];
    SecureJoin(isProd);
    JoinAttributes("HttpOnly", "Path=/", "SameSite=Lax", "Max-Age=7200", rest, secure, "; ");
    assert CookieAttributes(isProd) == ["HttpOnly", "Path=/", "SameSite=Lax", "Max-Age=7200"] + rest;
    SeparatedTexts();
  }

  lemma SeparatedTexts()
    ensures "; HttpOnly" == "; " + "HttpOnly"
    ensures "; Path=/" == "; " + "Path=/"
    ensures "; SameSite=Lax" == "; " + "SameSite=Lax"
    ensures "; Max-Age=7200" == "; " + "Max-Age=7200"
  {
  }

  lemma SecureJoin(isProd: bool)
    ensures Join(["Max-Age=7200"] + (if isProd then ["Secure"] else []), "; ")
            == "Max-Age=7200" + (if isProd then "; Secure" else "")
  {
    if isProd {
      JoinCons("Max-Age=7200", ["Secure"], "; ");
      assert "; Secure" == "; " + "Secure";
    } else {
      assert ["Max-Age=7200"] + [] == ["Max-Age=7200"];
    }
  }

  /** Four strings and a tail joined by `sep`, behind a first `sep`. */
  lemma JoinAttributes(a: string, b: string, c: string, d: string, rest: seq<string>, e: string, sep: string)
    requires Join([d] + rest, sep) == d + e
    ensures sep + Join([a, b, c, d] + rest, sep) == (sep + a) + ((sep + b) + ((sep + c) + ((sep + d) + e)))
  {
    var l2 := [c, d] + rest;
    var l1 := [b, c, d] + rest;
    assert sep + Join([d] + rest, sep) == (sep + d) + e;
    assert l2 == [c] + ([d] + rest);
    JoinCons(c, [d] + rest, sep);
    JoinRegroup(sep, c, Join([d] + rest, sep));
    assert l1 == [b] + l2;
    JoinCons(b, l2, sep);
    JoinRegroup(sep, b, Join(l2, sep));
    assert [a, b, c, d] + rest == [a] + l1;
    JoinCons(a, l1, sep);
    JoinRegroup(sep, a, Join(l1, sep));
  }

  lemma JoinRegroup(sep: string, x: string, y: string)
    ensures sep + (x + sep + y) == (sep + x) + (sep + y)
  {
  }


  lemma JoinCons(x: string, xs: seq<string>, sep: string)
    requires xs != []
    ensures Join([x] + xs, sep) == x + sep + Join(xs, sep)
  {
    assert ([x] + xs)[1..] == xs;
  }

  class AuthService {
    const db: Db

    constructor(db: Db)
      ensures this.db == db
    {
      this.db := db;
    }

    /** `register`: refused with the reason `Refusal` gives and nothing
        stored, or the new user (its hash computed by the caller from the
        password, its id fresh) appended and shown publicly. */
    method Register(email: string, displayName: Option<string>, passwordHash: string, newId: Id, now: int)
      returns (r: Result<PublicUser>)
      requires db.Valid()
      requires forall i :: 0 <= i < |db.users| ==> db.users[i].id != newId
      modifies db
      ensures db.Valid()
      ensures db.recipes == old(db.recipes) && db.favorites == old(db.favorites)
      ensures Refusal(old(db.users), email, displayName).Some? ==>
        r == Err(Refusal(old(db.users), email, displayName).value) && db.users == old(db.users)
      ensures Refusal(old(db.users), email, displayName).None? ==>
        && db.users == old(db.users) + [NewUser(email, displayName.value, passwordHash, newId, now)]
        && r == Ok(ToPublic(NewUser(email, displayName.value, passwordHash, newId, now)))
    {
      var refusal := Refusal(db.users, email, displayName);
      if refusal.Some? {
        return Err(refusal.value);
      }
      var u := NewUser(email, displayName.value, passwordHash, newId, now);
      RegisterKeepsUnique(db.users, email, displayName, passwordHash, newId, now);
      db.users := db.users + [u];
      r := Ok(ToPublic(u));
    }

    /** `validate` against the current user table. */
    function Validate(email: string, password: string, compare: (string, string) -> bool): (r: Result<User>)
      reads db
      ensures r.Ok? ==> r.value in db.users && r.value.email == Normalize(email)
      ensures r.Err? ==> r.error == Unauthorized("Invalid credentials")
    {
      Authenticate(db.users, email, password, compare)
    }
  }

  /** Registering keeps ids and emails unique. */
  lemma RegisterKeepsUnique(users: seq<User>, email: string, displayName: Option<string>,
                            passwordHash: string, newId: Id, now: int)
    requires UniqueUsers(users)
    requires forall i :: 0 <= i < |users| ==> users[i].id != newId
    requires Refusal(users, email, displayName).None?
    ensures UniqueUsers(users + [NewUser(email, displayName.value, passwordHash, newId, now)])
  {
  }

  /** Lower-casing keeps a character's white-space status. */
  lemma LowerKeepsSpace(c: char)
    ensures IsSpace(LowerChar(c)) <==> IsSpace(c)
  {
  }

  /** Normalising a normalised email changes nothing, so a stored email
      finds its own row. */
  lemma NormalizeIdempotent(email: string)
    ensures Normalize(Normalize(email)) == Normalize(email)
  {
    var l := Normalize(email);
    assert ToLower(l) == l;
  }

  /** After a registration, signing in with the same password and any
      spelling of the email that normalises alike yields the new user. */
  lemma RegisterThenValidate(users: seq<User>, email: string, login: string, displayName: Option<string>,
                             password: string, passwordHash: string, newId: Id, now: int,
                             compare: (string, string) -> bool)
    requires Refusal(users, email, displayName).None?
    requires Normalize(login) == Normalize(email)
    requires compare(password, passwordHash)
    ensures Authenticate(users + [NewUser(email, displayName.value, passwordHash, newId, now)], login, password, compare)
            == Ok(NewUser(email, displayName.value, passwordHash, newId, now))
  {
    FindEmailAppended(users, NewUser(email, displayName.value, passwordHash, newId, now));
  }

  /** The stored email signs in as written. */
  lemma StoredEmailSignsIn(users: seq<User>, email: string, displayName: Option<string>,
                           password: string, passwordHash: string, newId: Id, now: int,
                           compare: (string, string) -> bool)
    requires Refusal(users, email, displayName).None?
    requires compare(password, passwordHash)
    ensures Authenticate(users + [NewUser(email, displayName.value, passwordHash, newId, now)], Normalize(email), password, compare).Ok?
  {
    NormalizeIdempotent(email);
    RegisterThenValidate(users, email, Normalize(email), displayName, password, passwordHash, newId, now, compare);
  }

  /** A second registration with an email that normalises alike is refused. */
  lemma DuplicateRefused(users: seq<User>, email: string, again: string, displayName: Option<string>,
                         otherName: Option<string>, passwordHash: string, newId: Id, now: int)
    requires Refusal(users, email, displayName).None?
    requires Normalize(again) == Normalize(email) && !NameMissing(otherName)
    ensures Refusal(users + [NewUser(email, displayName.value, passwordHash, newId, now)], again, otherName)
            == Some(BadRequest("Email already registered"))
  {
    FindEmailAppended(users, NewUser(email, displayName.value, passwordHash, newId, now));
  }
}
