/**
 The session cookie of the gateway (services/gateway/src/routes/session.rs): set
 after a login, sent back by the browser among other cookies (section 4.2.1 of
 RFC 6265), and found again in the Cookie header.
 */
module Cookies {
  import opened Basics
  import opened Base64Url
  import opened Text

  const SESSION_COOKIE := "__Host-sid"
  const ATTRIBUTES := " HttpOnly; Secure" + "; SameSite=Lax" + "; Path=/; Max-Age=604800"

  datatype AppError = Unauthorized

  /** What `to_str` of a header value accepts. */
  predicate Visible(c: char) {
    ' ' <= c <= '~' || c == '\t'
  }

  // ----- the header -----

  /** The first pair whose text starts with the cookie's name decides. */
  function Scan(pairs: seq<string>): Result<string, AppError> {
    if pairs == [] then Err(Unauthorized)
    else
      var pair := Trim(pairs[0]);
      if SESSION_COOKIE <= pair then
        var value := pair[|SESSION_COOKIE|..];
        if "=" <= value then Ok(value[1..]) else Err(Unauthorized)
      else Scan(pairs[1..])
  }

  /** The token a Cookie header carries. */
  function SessionToken(header: Option<string>): Result<string, AppError> {
    if header.None? || !(forall c | c in header.value :: Visible(c)) then Err(Unauthorized)
    else Scan(Split(header.value, ';'))
  }

  /** `extract_session_cookie`. */
  method ExtractSessionCookie(header: Option<string>) returns (r: Result<string, AppError>)
    ensures r == SessionToken(header)
  {
    if header.None? || !(forall c | c in header.value :: Visible(c)) {
      return Err(Unauthorized);
    }
    var pairs := Split(header.value, ';');
    for i := 0 to |pairs|
      invariant Scan(pairs) == Scan(pairs[i..])
    {
      var pair := Trim(pairs[i]);
      if SESSION_COOKIE <= pair {
        var value := pair[|SESSION_COOKIE|..];
        if !("=" <= value) {
          return Err(Unauthorized);
        }
        return Ok(value[1..]);
      }
    }
    return Err(Unauthorized);
  }

  /** The pair is the session cookie with this token. */
  predicate Carries(pair: string, token: string) {
    pair == SESSION_COOKIE + "=" + token
  }

  predicate StartsLikeOurs(pair: string) {
    SESSION_COOKIE <= pair
  }

  /** Cookies joined as a browser sends them. */
  function Join(cookies: seq<string>): string {
    if cookies == [] then ""
    else if |cookies| == 1 then cookies[0]
    else cookies[0] + "; " + Join(cookies[1..])
  }

  /** A header with any other character, a line break for one, gives no token. */
  lemma OthersRefused(header: string)
    ensures SessionToken(Some(header)).Ok? ==> forall c | c in header :: ' ' <= c <= '~' || c == '\t'
  {
  }

  /** A cookie a browser may send: printable or tab, without semicolon, and no white space at its ends. */
  predicate Proper(cookie: string) {
    && (forall c | c in cookie :: (' ' <= c <= '~' || c == '\t') && c != ';')
    && (cookie != "" ==> !WhiteSpace(cookie[0]) && !WhiteSpace(cookie[|cookie| - 1]))
  }

  /** `Scan` on pairs that need no trimming. */
  function Pick(cookies: seq<string>): Result<string, AppError> {
    if cookies == [] then Err(Unauthorized)
    else if StartsLikeOurs(cookies[0]) then
      if "=" <= cookies[0][|SESSION_COOKIE|..] then Ok(cookies[0][|SESSION_COOKIE| + 1..]) else Err(Unauthorized)
    else Pick(cookies[1..])
  }

  lemma TrimLead(lead: string, cookie: string)
    requires (lead == "" || lead == " ") && Proper(cookie)
    ensures Trim(lead + cookie) == cookie
  {
    var s := lead + cookie;
    if lead == " " {
      assert s[1..] == cookie && WhiteSpace(s[0]);
    } else {
      assert s == cookie;
    }
    assert TrimStart(cookie) == cookie;
    assert TrimStart(s) == cookie;
  }

  /** The pairs of a header: each but the first keeps the blank in front of it. */
  function Pairs(lead: string, cookies: seq<string>): seq<string>
    decreases |cookies|
  {
    if cookies == [] then [] else [lead + cookies[0]] + Pairs(" ", cookies[1..])
  }

  lemma {:induction false} SplitJoined(lead: string, cookies: seq<string>)
    requires cookies != [] && (lead == "" || lead == " ")
    requires forall i | 0 <= i < |cookies| :: ';' !in cookies[i]
    ensures Split(lead + Join(cookies), ';') == Pairs(lead, cookies)
    decreases |cookies|
  {
    if |cookies| == 1 {
      SplitNone(lead + cookies[0], ';');
    } else {
      var rest := " " + Join(cookies[1..]);
      assert lead + Join(cookies) == (lead + cookies[0]) + [';'] + rest;
      SplitFirst(lead + cookies[0], rest, ';');
      SplitJoined(" ", cookies[1..]);
    }
  }

  lemma {:induction false} ScanPairs(lead: string, cookies: seq<string>)
    requires lead == "" || lead == " "
    requires forall i | 0 <= i < |cookies| :: Proper(cookies[i])
    ensures Scan(Pairs(lead, cookies)) == Pick(cookies)
    decreases |cookies|
  {
    if cookies == [] {
    } else {
      TrimLead(lead, cookies[0]);
      ScanPairs(" ", cookies[1..]);
      assert Pairs(lead, cookies)[1..] == Pairs(" ", cookies[1..]);
    }
  }

  lemma ScanJoined(cookies: seq<string>)
    requires forall i | 0 <= i < |cookies| :: Proper(cookies[i])
    ensures Scan(Split(Join(cookies), ';')) == Pick(cookies)
  {
    if cookies == [] {
      assert [""][1..] == [];
    } else {
      SplitJoined("", cookies);
      assert "" + Join(cookies) == Join(cookies);
      ScanPairs("", cookies);
    }
  }

  lemma {:induction false} JoinVisible(cookies: seq<string>)
    requires forall i | 0 <= i < |cookies| :: Proper(cookies[i])
    ensures forall c | c in Join(cookies) :: Visible(c)
  {
    if cookies == [] {
    } else if |cookies| == 1 {
      assert Proper(cookies[0]);
    } else {
      assert Proper(cookies[0]);
      JoinVisible(cookies[1..]);
    }
  }

  lemma {:induction false} PickExactly(cookies: seq<string>, token: string)
    ensures Pick(cookies) == Ok(token)
            <==> exists i | 0 <= i < |cookies| ::
                   Carries(cookies[i], token) && forall j | 0 <= j < i :: !StartsLikeOurs(cookies[j])
  {
    if cookies == [] {
    } else {
      var tail := cookies[1..];
      if StartsLikeOurs(cookies[0]) {
        assert cookies[0] == SESSION_COOKIE + cookies[0][|SESSION_COOKIE|..];
        if Pick(cookies) == Ok(token) {
          assert Carries(cookies[0], token);
        }
        if Carries(cookies[0], token) {
          assert cookies[0][|SESSION_COOKIE|..] == "=" + token;
        }
      } else {
        PickExactly(tail, token);
        if Pick(tail) == Ok(token) {
          var i :| 0 <= i < |tail| && Carries(tail[i], token) && forall j | 0 <= j < i :: !StartsLikeOurs(tail[j]);
          assert Carries(cookies[i + 1], token);
          forall j | 0 <= j < i + 1 ensures !StartsLikeOurs(cookies[j]) {
            assert j > 0 ==> cookies[j] == tail[j - 1];
          }
        }
        if i :| 0 <= i < |cookies| && Carries(cookies[i], token)
                && forall j | 0 <= j < i :: !StartsLikeOurs(cookies[j])
        {
          assert i > 0 by {
            assert Carries(cookies[i], token) ==> StartsLikeOurs(cookies[i]);
          }
          assert Carries(tail[i - 1], token);
          forall j | 0 <= j < i - 1 ensures !StartsLikeOurs(tail[j]) {
            assert tail[j] == cookies[j + 1];
          }
        }
      }
    }
  }

  /**
   Among any cookies a browser sends, the token is found exactly when a cookie
   `__Host-sid=token` is there and no cookie before it starts with `__Host-sid`,
   whatever comes after it.
   */
  lemma CookieFoundExactlyWhen(cookies: seq<string>, token: string)
    requires forall i | 0 <= i < |cookies| :: Proper(cookies[i])
    ensures SessionToken(Some(Join(cookies))) == Ok(token)
            <==> exists i | 0 <= i < |cookies| ::
                   Carries(cookies[i], token) && forall j | 0 <= j < i :: !StartsLikeOurs(cookies[j])
  {
    JoinVisible(cookies);
    ScanJoined(cookies);
    PickExactly(cookies, token);
  }

  /** The session cookie is found behind any cookies that do not start like it, and in front of any. */
  lemma CookieAmongOthers(before: seq<string>, cookie: string, after: seq<string>, token: string)
    requires forall i | 0 <= i < |before| :: Proper(before[i]) && !StartsLikeOurs(before[i])
    requires forall i | 0 <= i < |after| :: Proper(after[i])
    requires Proper(cookie) && Carries(cookie, token)
    ensures SessionToken(Some(Join(before + [cookie] + after))) == Ok(token)
  {
    var cookies, k := before + [cookie] + after, |before|;
    assert cookies[k] == cookie && forall j | 0 <= j < k :: cookies[j] == before[j];
    ProperTogether(before, cookie, after);
    CookieFoundExactlyWhen(cookies, token);
  }

  lemma ProperTogether(before: seq<string>, cookie: string, after: seq<string>)
    requires (forall i | 0 <= i < |before| :: Proper(before[i])) && Proper(cookie) &&
             forall i | 0 <= i < |after| :: Proper(after[i])
    ensures forall i | 0 <= i < |before + [cookie] + after| :: Proper((before + [cookie] + after)[i])
  {
  }

  /** A cookie of another name that only starts with `__Host-sid` hides the session cookie behind it. */
  lemma LongerNameHides(token: string)
    requires Proper(SESSION_COOKIE + "=" + token)
    ensures Proper("__Host-sidecar=1")
    ensures SessionToken(Some(Join(["__Host-sidecar=1", SESSION_COOKIE + "=" + token]))) == Err(Unauthorized)
  {
    var other := "__Host-sidecar=1";
    var cookies := [other, SESSION_COOKIE + "=" + token];
    assert other[0] == '_' && other[|other| - 1] == '1';
    JoinVisible(cookies);
    ScanJoined(cookies);
    assert other == SESSION_COOKIE + "ecar=1";
    assert other[|SESSION_COOKIE|..] == "ecar=1" && StartsLikeOurs(cookies[0]);
    assert "ecar=1"[0] == 'e' && "="[0] == '=';
    assert Pick(cookies) == Err(Unauthorized);
  }

  // ----- the cookie that is set -----

  function SetSessionCookie(token: string): string {
    SESSION_COOKIE + "=" + token + ";" + ATTRIBUTES
  }

  /** What a browser keeps of a Set-Cookie value: the text up to the first semicolon. */
  function CookiePair(setCookie: string): string {
    Split(setCookie, ';')[0]
  }

  /** Text with no white space and no semicolon in it. */
  predicate Clean(s: string) {
    forall c | c in s :: Visible(c) && !WhiteSpace(c) && c != ';'
  }

  lemma CleanIsProper(s: string)
    requires Clean(s)
    ensures Proper(s)
  {
    if s != "" {
      assert s[0] in s && s[|s| - 1] in s;
    }
  }

  lemma EncodedIsClean(raw: Bytes)
    ensures Clean(Encode(raw))
  {
    EncodedInAlphabet(raw);
    forall c | c in Encode(raw) ensures Visible(c) && !WhiteSpace(c) && c != ';' {
      assert InAlphabet(c);
    }
  }

  lemma FirstPart(part: string, rest: string)
    requires Clean(part)
    ensures CookiePair(part + ";" + rest) == part
  {
    SplitFirst(part, rest, ';');
  }

  lemma NameIsClean()
    ensures Clean(SESSION_COOKIE + "=")
  {
  }

  /** The cookie of an encoded token, as the browser keeps it, is proper and carries the token. */
  lemma CookieOfToken(raw: Bytes)
    ensures var pair := CookiePair(SetSessionCookie(Encode(raw))); Carries(pair, Encode(raw)) && Proper(pair)
  {
    NameIsClean();
    EncodedIsClean(raw);
    var pair := SESSION_COOKIE + "=" + Encode(raw);
    assert Clean(pair);
    FirstPart(pair, ATTRIBUTES);
    CleanIsProper(pair);
  }

  // ----- the attributes -----

  /** What stands behind the first semicolon, each without the blanks around it. */
  function Attributes(setCookie: string): seq<string> {
    TrimAll(Split(setCookie, ';')[1..])
  }

  function TrimAll(parts: seq<string>): seq<string> {
    if parts == [] then [] else [Trim(parts[0])] + TrimAll(parts[1..])
  }

  lemma {:induction false} TrimmedPairs(lead: string, cookies: seq<string>)
    requires (lead == "" || lead == " ") && forall i | 0 <= i < |cookies| :: Proper(cookies[i])
    ensures TrimAll(Pairs(lead, cookies)) == cookies
    decreases |cookies|
  {
    if cookies == [] {
    } else {
      TrimLead(lead, cookies[0]);
      TrimmedPairs(" ", cookies[1..]);
    }
  }

  lemma {:induction false} JoinFive(a: string, b: string, c: string, d: string, e: string)
    ensures Join([a, b, c, d, e]) == a + "; " + b + "; " + c + "; " + d + "; " + e
  {
    var all := [a, b, c, d, e];
    assert all[1..] == [b, c, d, e] && [b, c, d, e][1..] == [c, d, e] && [c, d, e][1..] == [d, e] && [d, e][1..] == [e];
    assert Join([d, e]) == d + "; " + e;
    assert Join([c, d, e]) == c + "; " + (d + "; " + e);
    assert Join([b, c, d, e]) == b + "; " + (c + "; " + (d + "; " + e));
    assert Join(all) == a + "; " + (b + "; " + (c + "; " + (d + "; " + e)));
  }

  lemma ListedAttributes()
    ensures " " + "HttpOnly" + "; " + "Secure" == " HttpOnly; Secure"
    ensures "; " + "SameSite=Lax" == "; SameSite=Lax"
    ensures "; " + "Path=/" + "; " + "Max-Age=604800" == "; Path=/; Max-Age=604800"
  {
  }

  lemma Regrouped(lead: string, a: string, b: string, c: string, d: string, e: string, p: string, q: string, r: string)
    requires lead + a + "; " + b == p && "; " + c == q && "; " + d + "; " + e == r
    ensures lead + (a + "; " + b + "; " + c + "; " + d + "; " + e) == p + q + r
  {
  }

  lemma ProperAttributes()
    ensures Proper("HttpOnly") && Proper("Secure") && Proper("SameSite=Lax") && Proper("Path=/")
            && Proper("Max-Age=604800")
  {
  }

  /**
   What the session cookie is set with: a cookie of a name with the prefix `__Host-`
   must be Secure, with the path `/` and without a domain; scripts do not see it, and
   it lives as long as the session, 604800 seconds.
   */
  lemma CookieAttributes(raw: Bytes)
    ensures Attributes(SetSessionCookie(Encode(raw)))
         == ["HttpOnly", "Secure", "SameSite=Lax", "Path=/", "Max-Age=604800"]
  {
    NameIsClean();
    EncodedIsClean(raw);
    var pair := SESSION_COOKIE + "=" + Encode(raw);
    assert Clean(pair);
    JoinFive("HttpOnly", "Secure", "SameSite=Lax", "Path=/", "Max-Age=604800");
    ListedAttributes();
    Regrouped(" ", "HttpOnly", "Secure", "SameSite=Lax", "Path=/", "Max-Age=604800",
              " HttpOnly; Secure", "; SameSite=Lax", "; Path=/; Max-Age=604800");
    ProperAttributes();
    AttributesBehind(pair, ATTRIBUTES, ["HttpOnly", "Secure", "SameSite=Lax", "Path=/", "Max-Age=604800"]);
  }

  lemma AttributesBehind(pair: string, rest: string, all: seq<string>)
    requires ';' !in pair && all != [] && rest == " " + Join(all)
    requires forall i | 0 <= i < |all| :: Proper(all[i])
    ensures Attributes(pair + ";" + rest) == all
  {
    SplitFirst(pair, rest, ';');
    SplitJoined(" ", all);
    TrimmedPairs(" ", all);
    assert pair + ";" + rest == pair + [';'] + rest;
    assert ([pair] + Split(rest, ';'))[1..] == Split(rest, ';');
  }
}
