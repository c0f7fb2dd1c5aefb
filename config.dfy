/**
 * The request-facing checks of the server's front end: the list of allowed
 * cross-origin callers read from the environment, the origin check applied
 * to each request, the signup field validation and the identity a socket
 * connection receives from its handshake data.
 */
module ServerConfig {
  import opened Wrappers

  // ---------------------------------------------------------------------
  // Characters
  // ---------------------------------------------------------------------

  /** JavaScript white space (ECMAScript WhiteSpace and LineTerminator): the
      characters `String.prototype.trim` removes and a regex `\s` matches. */
  predicate IsSpace(c: char) {
    c == '\t' || c == '\n' || c == '\U{000B}' || c == '\U{000C}' || c == '\r' || c == ' '
    || c == '\U{00A0}' || c == '\U{1680}' || ('\U{2000}' <= c <= '\U{200A}')
    || c == '\U{2028}' || c == '\U{2029}' || c == '\U{202F}' || c == '\U{205F}'
    || c == '\U{3000}' || c == '\U{FEFF}'
  }

  /** Line terminators: the characters a regex `.` does not match. */
  predicate IsLineTerminator(c: char) {
    c == '\n' || c == '\r' || c == '\U{2028}' || c == '\U{2029}'
  }

  predicate IsLower(c: char) { 'a' <= c <= 'z' }
  predicate IsUpper(c: char) { 'A' <= c <= 'Z' }
  predicate IsLetter(c: char) { IsLower(c) || IsUpper(c) }
  /** A regex `\d`: ASCII digits only. */
  predicate IsDigit(c: char) { '0' <= c <= '9' }
  predicate IsSpecial(c: char) {
    c == '@' || c == '$' || c == '!' || c == '%' || c == '*' || c == '?' || c == '&'
  }

  /** JavaScript truthiness of a possibly absent string: present and non-empty. */
  predicate Truthy(v: Option<string>) { v.Some? && v.value != "" }

  // ---------------------------------------------------------------------
  // String.prototype.split and String.prototype.trim
  // ---------------------------------------------------------------------

  /** `s.split(sep)` for a one-character separator: the pieces between
      separators, empty pieces included. */
  function Split(s: string, sep: char): (parts: seq<string>)
    ensures |parts| >= 1
    ensures forall p :: p in parts ==> sep !in p
    decreases |s|
  {
    if |s| == 0 then [""]
    else
      var rest := Split(s[1..], sep);
      if s[0] == sep then [""] + rest
      else [[s[0]] + rest[0]] + rest[1..]
  }

  /** The inverse of Split: the pieces glued back with the separator. */
  function Join(parts: seq<string>, sep: char): string
    requires |parts| >= 1
  {
    if |parts| == 1 then parts[0] else parts[0] + [sep] + Join(parts[1..], sep)
  }

  /** Splitting loses nothing: the pieces put back together give the input. */
  lemma {:induction false} SplitJoin(s: string, sep: char)
    ensures Join(Split(s, sep), sep) == s
    decreases |s|
  {
    if |s| > 0 {
      var rest := Split(s[1..], sep);
      SplitJoin(s[1..], sep);
      if s[0] == sep {
        assert ([""] + rest)[1..] == rest;
        assert s == [sep] + s[1..];
      } else {
        var parts := [[s[0]] + rest[0]] + rest[1..];
        assert parts[1..] == rest[1..];
        if |rest| == 1 {
          assert s == [s[0]] + rest[0];
        } else {
          assert Join(rest, sep) == rest[0] + [sep] + Join(rest[1..], sep);
          assert s == [s[0]] + s[1..];
        }
      }
    }
  }

  /** White space removed from the front. */
  function TrimStart(s: string): (r: string)
    ensures |r| <= |s| && r == s[|s| - |r|..]
    ensures r == [] || !IsSpace(r[0])
    ensures forall k :: 0 <= k < |s| - |r| ==> IsSpace(s[k])
  {
    if |s| > 0 && IsSpace(s[0]) then TrimStart(s[1..]) else s
  }

  /** White space removed from the back. */
  function TrimEnd(s: string): (r: string)
    ensures |r| <= |s| && r == s[..|r|]
    ensures r == [] || !IsSpace(r[|r| - 1])
    ensures forall k :: |r| <= k < |s| ==> IsSpace(s[k])
  {
    if |s| > 0 && IsSpace(s[|s| - 1]) then TrimEnd(s[..|s| - 1]) else s
  }

  /** `s.trim()`. */
  function Trim(s: string): (r: string)
    ensures r == [] || (!IsSpace(r[0]) && !IsSpace(r[|r| - 1]))
  {
    TrimEnd(TrimStart(s))
  }

  /** A string that neither begins nor ends with white space is its own trim. */
  lemma TrimFixed(s: string)
    requires s == [] || (!IsSpace(s[0]) && !IsSpace(s[|s| - 1]))
    ensures Trim(s) == s
  {
    assert TrimStart(s) == s;
  }

  /** Trimming twice is trimming once. */
  lemma TrimIdempotent(s: string)
    ensures Trim(Trim(s)) == Trim(s)
  {
    TrimFixed(Trim(s));
  }

  /** Trim adds no character: whatever is absent from the input is absent
      from the result. */
  lemma TrimSubset(s: string, c: char)
    requires c !in s
    ensures c !in Trim(s)
  {
    var t := TrimStart(s);
    assert c !in t;
  }

  // ---------------------------------------------------------------------
  // Allowed origins (server/index_new.js:27-42)
  // ---------------------------------------------------------------------

  /** The origins used when the environment names none. */
  const LocalFrontend := "http://localhost:3001"
  const HostedFrontend := "http://195.35.2.209:3001"
  const HostedServer := "http://195.35.2.209:3002"
  const VercelFrontend := "https://mig-frontend.vercel.app"
  const DefaultOrigins: seq<string> := [LocalFrontend, HostedFrontend, HostedServer, VercelFrontend]

  /** `ALLOWED_ORIGINS || FRONTEND_URL || PRODUCTION_FRONTEND_URL`: the first
      variable that is set to a non-empty value, if any. */
  function OriginsSetting(allowedOrigins: Option<string>, frontendUrl: Option<string>,
                          productionUrl: Option<string>): (env: Option<string>)
    ensures env.Some? <==> Truthy(allowedOrigins) || Truthy(frontendUrl) || Truthy(productionUrl)
    ensures env.Some? ==> env.value != ""
    ensures Truthy(allowedOrigins) ==> env == allowedOrigins
    ensures !Truthy(allowedOrigins) && Truthy(frontendUrl) ==> env == frontendUrl
    ensures !Truthy(allowedOrigins) && !Truthy(frontendUrl) && Truthy(productionUrl) ==> env == productionUrl
  {
    if Truthy(allowedOrigins) then allowedOrigins
    else if Truthy(frontendUrl) then frontendUrl
    else if Truthy(productionUrl) then productionUrl
    else None
  }

  /** `parts.map(s => s.trim())`. */
  function TrimAll(parts: seq<string>): (r: seq<string>)
    ensures |r| == |parts|
    ensures forall i :: 0 <= i < |parts| ==> r[i] == Trim(parts[i])
  {
    if parts == [] then [] else [Trim(parts[0])] + TrimAll(parts[1..])
  }

  /** `parts.filter(Boolean)`: the non-empty strings. */
  function DropEmpty(parts: seq<string>): (r: seq<string>)
    ensures |r| <= |parts|
    ensures forall p :: p in r <==> p in parts && p != ""
  {
    if parts == [] then []
    else (if parts[0] == "" then [] else [parts[0]]) + DropEmpty(parts[1..])
  }

  /** `env.split(',').map(s => s.trim()).filter(Boolean)`. */
  function SplitOrigins(env: string): seq<string>
  {
    DropEmpty(TrimAll(Split(env, ',')))
  }

  /** Every listed origin is a non-empty, trimmed, comma-free piece of the
      variable, and every piece of the variable that is not blank is listed. */
  lemma SplitOriginsPieces(env: string)
    ensures forall o :: o in SplitOrigins(env) ==> CleanOrigin(o)
    ensures forall p :: p in Split(env, ',') && Trim(p) != "" ==> Trim(p) in SplitOrigins(env)
  {
    var parts := Split(env, ',');
    var trimmed := TrimAll(parts);
    forall o | o in SplitOrigins(env)
      ensures CleanOrigin(o)
    {
      var i :| 0 <= i < |trimmed| && trimmed[i] == o;
      TrimSubset(parts[i], ',');
    }
    forall p | p in parts && Trim(p) != ""
      ensures Trim(p) in SplitOrigins(env)
    {
      var i :| 0 <= i < |parts| && parts[i] == p;
      assert trimmed[i] == Trim(p);
    }
  }

  /** What every entry of the parsed origin list is: non-empty, with no
      white space at either end and no comma. */
  predicate CleanOrigin(o: string) {
    o != "" && !IsSpace(o[0]) && !IsSpace(o[|o| - 1]) && ',' !in o
  }

  /** The defaults are themselves clean origins. */
  lemma DefaultOriginsClean()
    ensures forall o :: o in DefaultOrigins ==> CleanOrigin(o)
  {
  }

  /** parseCorsOrigins: the defaults when no variable is set or the chosen
      one holds nothing but commas and white space, its pieces otherwise. */
  function ParseCorsOrigins(allowedOrigins: Option<string>, frontendUrl: Option<string>,
                            productionUrl: Option<string>): (r: seq<string>)
    ensures |r| > 0
    ensures forall o :: o in r ==> CleanOrigin(o)
    ensures OriginsSetting(allowedOrigins, frontendUrl, productionUrl).None? ==> r == DefaultOrigins
    ensures OriginsSetting(allowedOrigins, frontendUrl, productionUrl).Some? ==>
      var pieces := SplitOrigins(OriginsSetting(allowedOrigins, frontendUrl, productionUrl).value);
      (pieces != [] ==> r == pieces) && (pieces == [] ==> r == DefaultOrigins)
  {
    DefaultOriginsClean();
    match OriginsSetting(allowedOrigins, frontendUrl, productionUrl)
    case None => DefaultOrigins
    case Some(env) =>
      SplitOriginsPieces(env);
      var arr := SplitOrigins(env);
      if |arr| > 0 then arr else DefaultOrigins
  }

  /** A set ALLOWED_ORIGINS decides the list alone: the other two variables
      are then never read. */
  lemma AllowedOriginsFirst(allowedOrigins: Option<string>, f1: Option<string>, p1: Option<string>,
                            f2: Option<string>, p2: Option<string>)
    requires Truthy(allowedOrigins)
    ensures ParseCorsOrigins(allowedOrigins, f1, p1) == ParseCorsOrigins(allowedOrigins, f2, p2)
  {
  }

  /** `s.replace(/\/$/, '')`: one trailing slash removed, if there is one. */
  function StripSlash(s: string): (r: string)
    ensures r == s || r + "/" == s
  {
    if |s| > 0 && s[|s| - 1] == '/' then s[..|s| - 1] else s
  }

  /** StripSlash undoes appending a slash and leaves a string without one alone. */
  lemma StripSlashInverse(s: string)
    ensures StripSlash(s + "/") == s
    ensures (s == [] || s[|s| - 1] != '/') ==> StripSlash(s) == s
  {
    assert (s + "/")[..|s|] == s;
  }

  /** The normalised list the origin check compares against
      (server/index_new.js:42). */
  function AllowedOrigins(allowedOrigins: Option<string>, frontendUrl: Option<string>,
                          productionUrl: Option<string>): (r: seq<string>)
    ensures |r| == |ParseCorsOrigins(allowedOrigins, frontendUrl, productionUrl)|
    ensures forall i :: 0 <= i < |r| ==>
      r[i] == StripSlash(ParseCorsOrigins(allowedOrigins, frontendUrl, productionUrl)[i])
  {
    var parsed := ParseCorsOrigins(allowedOrigins, frontendUrl, productionUrl);
    seq(|parsed|, i requires 0 <= i < |parsed| => StripSlash(parsed[i]))
  }

  // ---------------------------------------------------------------------
  // The origin check (server/index_new.js:46-51, 74-80)
  // ---------------------------------------------------------------------

  /** A request carrying no origin (absent or empty) is let through; any
      other is let through exactly when its slash-stripped form is listed. */
  predicate OriginAllowed(origin: Option<string>, allowed: seq<string>) {
    !Truthy(origin) || StripSlash(origin.value) in allowed
  }

  /** Every configured origin passes the origin check, both as configured and, when
      it does not already end in a slash, with one trailing slash added. */
  lemma ConfiguredOriginsPass(allowedOrigins: Option<string>, frontendUrl: Option<string>,
                              productionUrl: Option<string>, o: string)
    requires o in ParseCorsOrigins(allowedOrigins, frontendUrl, productionUrl)
    ensures OriginAllowed(Some(o), AllowedOrigins(allowedOrigins, frontendUrl, productionUrl))
    ensures o[|o| - 1] != '/' ==>
      OriginAllowed(Some(o + "/"), AllowedOrigins(allowedOrigins, frontendUrl, productionUrl))
  {
    var parsed := ParseCorsOrigins(allowedOrigins, frontendUrl, productionUrl);
    var allowed := AllowedOrigins(allowedOrigins, frontendUrl, productionUrl);
    var i :| 0 <= i < |parsed| && parsed[i] == o;
    assert allowed[i] == StripSlash(o);
    StripSlashInverse(o);
  }

  /** A non-empty origin is refused exactly when no listed origin equals its
      slash-stripped form. */
  lemma OriginRefused(o: string, allowed: seq<string>)
    requires o != ""
    ensures !OriginAllowed(Some(o), allowed) <==>
      forall i :: 0 <= i < |allowed| ==> allowed[i] != StripSlash(o)
  {
  }

  /** One trailing slash on the request makes no difference. */
  lemma OriginSlashInsensitive(o: string, allowed: seq<string>)
    requires o != "" && o[|o| - 1] != '/'
    ensures OriginAllowed(Some(o + "/"), allowed) == OriginAllowed(Some(o), allowed)
  {
    StripSlashInverse(o);
  }

  // ---------------------------------------------------------------------
  // Signup validation (server/index_new.js:94-114)
  // ---------------------------------------------------------------------

  /** `[^\s@]+` matching s[lo..hi]. */
  ghost predicate EmailRun(s: string, lo: int, hi: int) {
    0 <= lo < hi <= |s| && forall j :: lo <= j < hi ==> !IsSpace(s[j]) && s[j] != '@'
  }

  /** The whole of s matches `^[^\s@]+@[^\s@]+\.[^\s@]+$`, read off the
      pattern: some '@' at i and some '.' at k split s into three runs. */
  ghost predicate EmailPattern(s: string) {
    exists i, k :: 0 < i < k < |s| && s[i] == '@' && s[k] == '.'
      && EmailRun(s, 0, i) && EmailRun(s, i + 1, k) && EmailRun(s, k + 1, |s|)
  }

  /** The email check: no white space anywhere, exactly one '@', not first,
      and a '.' after it that is neither next to the '@' nor last. */
  predicate ValidEmail(s: string) {
    (forall j | 0 <= j < |s| :: !IsSpace(s[j]))
    && exists i | 0 < i < |s| ::
         s[i] == '@'
         && (forall j | 0 <= j < |s| && j != i :: s[j] != '@')
         && exists k | i + 1 < k < |s| - 1 :: s[k] == '.'
  }

  /** The direct check accepts exactly the strings the pattern matches. */
  lemma ValidEmailMatches(s: string)
    ensures ValidEmail(s) <==> EmailPattern(s)
  {
    if ValidEmail(s) {
      var i :| 0 < i < |s| && s[i] == '@'
        && (forall j | 0 <= j < |s| && j != i :: s[j] != '@')
        && exists k | i + 1 < k < |s| - 1 :: s[k] == '.';
      var k :| i + 1 < k < |s| - 1 && s[k] == '.';
      assert EmailRun(s, 0, i) && EmailRun(s, i + 1, k) && EmailRun(s, k + 1, |s|);
    }
    if EmailPattern(s) {
      var i, k :| 0 < i < k < |s| && s[i] == '@' && s[k] == '.'
        && EmailRun(s, 0, i) && EmailRun(s, i + 1, k) && EmailRun(s, k + 1, |s|);
      forall j | 0 <= j < |s| ensures !IsSpace(s[j]) && (j != i ==> s[j] != '@') {
        if j < i {
        } else if j == i {
        } else if j < k {
        } else if j == k {
        } else {
        }
      }
    }
  }

  /** `^[a-zA-Z][a-zA-Z0-9]{5,19}$`. */
  predicate ValidUsername(s: string) {
    6 <= |s| <= 20 && IsLetter(s[0])
    && forall j | 1 <= j < |s| :: IsLetter(s[j]) || IsDigit(s[j])
  }

  /** The four character classes the password's look-aheads ask for. */
  datatype CharClass = Lowercase | Uppercase | Numeral | Symbol

  predicate InClass(c: char, k: CharClass) {
    match k
    case Lowercase => IsLower(c)
    case Uppercase => IsUpper(c)
    case Numeral => IsDigit(c)
    case Symbol => IsSpecial(c)
  }

  /** `[A-Za-z\d@$!%*?&]`. */
  predicate PasswordChar(c: char) { IsLetter(c) || IsDigit(c) || IsSpecial(c) }

  /** `(?=.*[class])` at the start of s: a character of the class occurs with
      no line terminator before it (`.` does not match one). */
  ghost predicate LookAhead(s: string, k: CharClass) {
    exists j :: 0 <= j < |s| && InClass(s[j], k)
      && forall m :: 0 <= m < j ==> !IsLineTerminator(s[m])
  }

  /** The whole of s matches
      `^(?=.*[a-z])(?=.*[A-Z])(?=.*\d)(?=.*[@$!%*?&])[A-Za-z\d@$!%*?&]{8,}$`. */
  ghost predicate PasswordPattern(s: string) {
    LookAhead(s, Lowercase) && LookAhead(s, Uppercase) && LookAhead(s, Numeral) && LookAhead(s, Symbol)
    && |s| >= 8 && forall j :: 0 <= j < |s| ==> PasswordChar(s[j])
  }

  predicate Contains(s: string, k: CharClass) {
    exists j | 0 <= j < |s| :: InClass(s[j], k)
  }

  /** The password check: at least eight characters, all letters, digits or
      `@$!%*?&`, with a lowercase letter, an uppercase letter, a digit and one
      of the special characters among them. */
  predicate ValidPassword(s: string) {
    |s| >= 8 && (forall j | 0 <= j < |s| :: PasswordChar(s[j]))
    && Contains(s, Lowercase) && Contains(s, Uppercase)
    && Contains(s, Numeral) && Contains(s, Symbol)
  }

  /** Where every character is a password character, the `.`'s refusal of
      line terminators never matters: each look-ahead is plain containment. */
  lemma LookAheadContains(s: string, k: CharClass)
    requires forall j :: 0 <= j < |s| ==> PasswordChar(s[j])
    ensures LookAhead(s, k) <==> Contains(s, k)
  {
    if Contains(s, k) {
      var j :| 0 <= j < |s| && InClass(s[j], k);
      assert forall m :: 0 <= m < j ==> PasswordChar(s[m]);
      assert forall m :: 0 <= m < j ==> !IsLineTerminator(s[m]);
    }
  }

  /** The direct check accepts exactly the strings the pattern matches. */
  lemma ValidPasswordMatches(s: string)
    ensures ValidPassword(s) <==> PasswordPattern(s)
  {
    if forall j :: 0 <= j < |s| ==> PasswordChar(s[j]) {
      LookAheadContains(s, Lowercase);
      LookAheadContains(s, Uppercase);
      LookAheadContains(s, Numeral);
      LookAheadContains(s, Symbol);
    }
  }

  /** The four rejections of the signup route, checked before any database access. */
  datatype SignupError =
    | MissingFields    // 'Email, username, and password are required'
    | InvalidEmail     // 'Invalid email format'
    | InvalidUsername  // 'Username must be 6-20 characters, ...'
    | InvalidPassword  // 'Password must be at least 8 characters ...'

  /** The signup route's input checks, in the route's order: the first failing
      check names the error; None lets the request on to the database. */
  function CheckSignup(email: Option<string>, username: Option<string>,
                       password: Option<string>): (r: Option<SignupError>)
    ensures r == Some(MissingFields) <==> !(Truthy(email) && Truthy(username) && Truthy(password))
    ensures r == Some(InvalidEmail) <==>
      Truthy(email) && Truthy(username) && Truthy(password) && !EmailPattern(email.value)
    ensures r == Some(InvalidUsername) <==>
      Truthy(email) && Truthy(username) && Truthy(password)
      && EmailPattern(email.value) && !ValidUsername(username.value)
    ensures r == Some(InvalidPassword) <==>
      Truthy(email) && Truthy(username) && Truthy(password)
      && EmailPattern(email.value) && ValidUsername(username.value)
      && !PasswordPattern(password.value)
    ensures r == None <==>
      Truthy(email) && Truthy(username) && Truthy(password)
      && EmailPattern(email.value) && ValidUsername(username.value)
      && PasswordPattern(password.value)
  {
    if !Truthy(email) || !Truthy(username) || !Truthy(password) then Some(MissingFields)
    else
      ValidEmailMatches(email.value);
      ValidPasswordMatches(password.value);
      if !ValidEmail(email.value) then Some(InvalidEmail)
      else if !ValidUsername(username.value) then Some(InvalidUsername)
      else if !ValidPassword(password.value) then Some(InvalidPassword)
      else None
  }

  // ---------------------------------------------------------------------
  // Connection identity (server/index_new.js:311-324)
  // ---------------------------------------------------------------------

  /** The `user` object of a socket handshake. */
  datatype AuthUser = AuthUser(username: Option<string>, id: Option<string>)

  /** The handshake's `auth` data. */
  datatype Handshake = Handshake(isGuest: bool, user: Option<AuthUser>)

  /** What a connection plays under. */
  datatype Identity = Identity(playerName: string, userId: Option<string>, isGuest: bool)

  function DigitChar(d: nat): (c: char)
    requires d < 10
    ensures IsDigit(c)
  {
    ('0' as int + d) as char
  }

  predicate AllDigits(s: string) {
    forall j | 0 <= j < |s| :: IsDigit(s[j])
  }

  /** The value of a string of decimal digits. */
  function DigitsValue(s: string): nat
    requires AllDigits(s)
  {
    if s == [] then 0 else DigitsValue(s[..|s| - 1]) * 10 + (s[|s| - 1] as int - '0' as int)
  }

  /** A number's decimal form, as a template literal prints it. */
  function Decimal(n: nat): (s: string)
    ensures |s| >= 1 && AllDigits(s)
    ensures n > 0 ==> s[0] != '0'
    decreases n
  {
    if n < 10 then [DigitChar(n)] else Decimal(n / 10) + [DigitChar(n % 10)]
  }

  /** Decimal writes the number it is given: reading the digits back gives n. */
  lemma {:induction false} DecimalValue(n: nat)
    ensures DigitsValue(Decimal(n)) == n
    decreases n
  {
    if n >= 10 {
      DecimalValue(n / 10);
      var s := Decimal(n);
      assert s[..|s| - 1] == Decimal(n / 10);
    }
  }

  /** Numbers from 1000 to 9999 print as exactly four digits. */
  lemma FourDigits(n: nat)
    requires 1000 <= n <= 9999
    ensures |Decimal(n)| == 4
  {
    assert |Decimal(n / 1000)| == 1;
    assert |Decimal(n / 100)| == 2;
    assert |Decimal(n / 10)| == 3;
  }

  /** The identity of a new connection. `draw` stands for
      `Math.floor(Math.random() * 9000)`, so the name suffix is draw + 1000.
      A guest flag wins over any user data; a user with a non-empty username
      plays under it with the user's id; anyone else is an anonymous Player. */
  function Identify(auth: Handshake, draw: nat): (who: Identity)
    requires draw < 9000
    ensures who.isGuest == auth.isGuest
    ensures who.userId.Some? ==>
      !auth.isGuest && auth.user.Some? && Truthy(auth.user.value.username)
      && who.userId == auth.user.value.id
    ensures auth.isGuest ==>
      |who.playerName| == 9 && who.playerName[..5] == "Guest" && AllDigits(who.playerName[5..])
      && DigitsValue(who.playerName[5..]) == draw + 1000
    ensures !auth.isGuest && auth.user.Some? && Truthy(auth.user.value.username) ==>
      who.playerName == auth.user.value.username.value && who.userId == auth.user.value.id
    ensures !auth.isGuest && !(auth.user.Some? && Truthy(auth.user.value.username)) ==>
      |who.playerName| == 10 && who.playerName[..6] == "Player" && AllDigits(who.playerName[6..])
      && DigitsValue(who.playerName[6..]) == draw + 1000 && who.userId.None?
  {
    var suffix := Decimal(draw + 1000);
    FourDigits(draw + 1000);
    DecimalValue(draw + 1000);
    if auth.isGuest then
      assert ("Guest" + suffix)[5..] == suffix;
      Identity("Guest" + suffix, None, true)
    else if auth.user.Some? && Truthy(auth.user.value.username) then
      Identity(auth.user.value.username.value, auth.user.value.id, false)
    else
      assert ("Player" + suffix)[6..] == suffix;
      Identity("Player" + suffix, None, false)
  }

  /** Guest precedence: a guest's identity does not depend on the user data
      the handshake also carries. */
  lemma GuestIgnoresUser(auth: Handshake, user: Option<AuthUser>, draw: nat)
    requires auth.isGuest && draw < 9000
    ensures Identify(auth, draw) == Identify(auth.(user := user), draw)
  {
  }
}
