/** The login step of the Untis client (`get_session_into_cookies` in
    src/untis/authorization_untis_client.rs): the credential check, the
    error member of the JSON answer, and the scan of the `Set-Cookie`
    headers for the three session cookies, which are stored only when all
    three were found.

    The one-time password, the HTTP request and the JSON decoding are
    outside the model: their outcomes are parameters. The response's header
    map is given as a sequence in the order it is iterated. */
module Authorization {
  import opened Wrappers
  import opened Errors
  import opened Text

  // ----------------------------------------------------------------------
  // One Set-Cookie value

  /** A cookie's name and value as the client reads them. */
  datatype CookiePair = CookiePair(name: string, value: string)

  /** `val.split(';').next()`: the text before the first `;`. */
  function FirstPart(val: string): (r: string)
    ensures |r| <= |val| && r == val[..|r|] && ';' !in r
    ensures |r| < |val| ==> val[|r|] == ';'
  {
    val[..IndexOf(val, ';')]
  }

  /** `splitn(2, '=')`: the text before the first `=` and the rest after
      it; without an `=` the whole text and an empty rest. */
  function SplitAtEquals(part: string): (string, string) {
    var i := IndexOf(part, '=');
    if i < |part| then (part[..i], part[i + 1..]) else (part, "")
  }

  /** Name and value of one `Set-Cookie` header value, both trimmed. */
  function ParseCookie(val: string): CookiePair {
    var (k, v) := SplitAtEquals(FirstPart(val));
    CookiePair(Trim(k), Trim(v))
  }

  /** With an `=`, the part is the name, the `=` and the rest; the name
      holds no `=` while the rest may. */
  lemma SplitAtEqualsJoins(part: string)
    requires '=' in part
    ensures var (k, v) := SplitAtEquals(part);
      part == k + "=" + v && '=' !in k
  {
    var i := IndexOf(part, '=');
    assert part == part[..i] + "=" + part[i + 1..];
  }

  /** Without an `=` the value is empty and the name is the trimmed part. */
  lemma NoEqualsGivesEmptyValue(val: string)
    requires '=' !in FirstPart(val)
    ensures ParseCookie(val) == CookiePair(Trim(FirstPart(val)), "")
  {
    IndexOfWhole(FirstPart(val), '=');
    assert SplitAtEquals(FirstPart(val)) == (FirstPart(val), "");
    TrimNoop("");
  }

  /** Attributes after the first `;` never change the pair. */
  lemma AttributesIgnored(part: string, attributes: string)
    requires ';' !in part
    ensures ParseCookie(part + ";" + attributes) == ParseCookie(part)
  {
    var val := part + ";" + attributes;
    assert val == part + (";" + attributes);
    IndexOfPrefix(part, ";" + attributes, ';');
    assert val[..|part|] == part;
    IndexOfWhole(part, ';');
    SameFirstPart(val, part);
  }

  lemma SameFirstPart(a: string, b: string)
    requires FirstPart(a) == FirstPart(b)
    ensures ParseCookie(a) == ParseCookie(b)
  {
  }

  lemma {:induction false} IndexOfPrefix(a: string, b: string, c: char)
    requires c !in a && b != [] && b[0] == c
    ensures IndexOf(a + b, c) == |a|
    decreases |a|
  {
    if a != [] {
      assert (a + b)[1..] == a[1..] + b;
      IndexOfPrefix(a[1..], b, c);
    }
  }

  lemma {:induction false} IndexOfWhole(a: string, c: char)
    requires c !in a
    ensures IndexOf(a, c) == |a|
    decreases |a|
  {
    if a != [] {
      IndexOfWhole(a[1..], c);
    }
  }

  // ----------------------------------------------------------------------
  // The headers

  /** One entry of the response's header map: a name and its values. */
  datatype Header = Header(name: string, values: seq<string>)

  /** `k.to_lowercase() == "set-cookie"`. */
  predicate IsSetCookie(name: string) {
    ToLower(name) == "set-cookie"
  }

  /** The pairs of a list of `Set-Cookie` values, in order. */
  function PairsOf(values: seq<string>): seq<CookiePair> {
    if values == [] then [] else PairsOf(values[..|values| - 1]) + [ParseCookie(values[|values| - 1])]
  }

  lemma PairsOfSnoc(values: seq<string>, k: nat)
    requires k < |values|
    ensures PairsOf(values[..k + 1]) == PairsOf(values[..k]) + [ParseCookie(values[k])]
  {
    assert values[..k + 1][..k] == values[..k];
  }

  /** The pairs the scan visits: those of the `Set-Cookie` headers, in
      header order and then value order. */
  function CookiePairs(headers: seq<Header>): seq<CookiePair> {
    if headers == [] then []
    else
      var last := headers[|headers| - 1];
      CookiePairs(headers[..|headers| - 1]) + (if IsSetCookie(last.name) then PairsOf(last.values) else [])
  }

  lemma CookiePairsSnoc(headers: seq<Header>, i: nat)
    requires i < |headers|
    ensures CookiePairs(headers[..i + 1])
      == CookiePairs(headers[..i]) + (if IsSetCookie(headers[i].name) then PairsOf(headers[i].values) else [])
  {
    assert headers[..i + 1][..i] == headers[..i];
  }

  /** A header of another name contributes nothing. */
  lemma OtherHeadersIgnored(headers: seq<Header>, h: Header)
    requires !IsSetCookie(h.name)
    ensures CookiePairs(headers + [h]) == CookiePairs(headers)
  {
    assert (headers + [h])[..|headers|] == headers;
  }

  /** Only the lower-cased name counts: a name is scanned exactly when it
      has ten characters that lower-case to `set-cookie` one by one, so
      `Set-Cookie` and `SET-COOKIE` are scanned alike. */
  lemma SetCookieNames(name: string)
    ensures IsSetCookie(name) <==> |name| == 10 && forall i :: 0 <= i < 10 ==> LowerChar(name[i]) == "set-cookie"[i]
  {
    if |name| == 10 && forall i :: 0 <= i < 10 ==> LowerChar(name[i]) == "set-cookie"[i] {
      assert forall i :: 0 <= i < 10 ==> ToLower(name)[i] == "set-cookie"[i];
    }
  }

  // ----------------------------------------------------------------------
  // The three locals the scan overwrites

  datatype Session = Session(jsessionid: Option<string>, tenantId: Option<string>, schoolName: Option<string>)

  /** The `match key` arm for one pair: the three names are compared
      case-sensitively and a match overwrites the earlier value. */
  function Record(s: Session, p: CookiePair): Session {
    if p.name == "JSESSIONID" then s.(jsessionid := Some(p.value))
    else if p.name == "Tenant-Id" then s.(tenantId := Some(p.value))
    else if p.name == "schoolname" then s.(schoolName := Some(p.value))
    else s
  }

  function ScanFrom(s: Session, pairs: seq<CookiePair>): Session {
    if pairs == [] then s else Record(ScanFrom(s, pairs[..|pairs| - 1]), pairs[|pairs| - 1])
  }

  function Scan(pairs: seq<CookiePair>): Session {
    ScanFrom(Session(None, None, None), pairs)
  }

  lemma ScanFromSnoc(s: Session, pairs: seq<CookiePair>, p: CookiePair)
    ensures ScanFrom(s, pairs + [p]) == Record(ScanFrom(s, pairs), p)
  {
    assert (pairs + [p])[..|pairs|] == pairs;
  }

  lemma {:induction false} ScanFromAppend(s: Session, a: seq<CookiePair>, b: seq<CookiePair>)
    ensures ScanFrom(s, a + b) == ScanFrom(ScanFrom(s, a), b)
    decreases |b|
  {
    if b == [] {
      assert a + b == a;
    } else {
      var init, last := b[..|b| - 1], b[|b| - 1];
      assert b == init + [last];
      assert a + b == (a + init) + [last];
      ScanFromSnoc(s, a + init, last);
      ScanFromSnoc(ScanFrom(s, a), init, last);
      ScanFromAppend(s, a, init);
    }
  }

  /** The value of the last pair named `name`, if any. */
  function LastValue(pairs: seq<CookiePair>, name: string): Option<string> {
    if pairs == [] then None
    else if pairs[|pairs| - 1].name == name then Some(pairs[|pairs| - 1].value)
    else LastValue(pairs[..|pairs| - 1], name)
  }

  /** `LastValue` is `None` exactly when no pair has the name. */
  lemma {:induction false} LastValueNone(pairs: seq<CookiePair>, name: string)
    ensures LastValue(pairs, name).None? <==> forall i :: 0 <= i < |pairs| ==> pairs[i].name != name
  {
    if pairs != [] {
      var n := |pairs| - 1;
      LastValueNone(pairs[..n], name);
      assert forall i :: 0 <= i < n ==> pairs[i] == pairs[..n][i];
    }
  }

  /** Otherwise it is the value of a pair with that name after which no
      pair has that name: a later occurrence overwrites an earlier one. */
  lemma {:induction false} LastValueSome(pairs: seq<CookiePair>, name: string)
    requires LastValue(pairs, name).Some?
    ensures exists i :: 0 <= i < |pairs| && pairs[i] == CookiePair(name, LastValue(pairs, name).value) && LastAt(pairs, name, i)
  {
    var n := |pairs| - 1;
    if pairs[n].name == name {
      assert pairs[n] == CookiePair(name, LastValue(pairs, name).value);
      assert LastAt(pairs, name, n);
    } else {
      var init := pairs[..n];
      LastValueSome(init, name);
      var i :| 0 <= i < |init| && init[i] == CookiePair(name, LastValue(init, name).value) && LastAt(init, name, i);
      assert pairs[i] == init[i];
      assert forall j :: i < j < n ==> pairs[j] == init[j];
      assert LastAt(pairs, name, i);
    }
  }

  /** No pair after position `i` has the name. */
  predicate LastAt(pairs: seq<CookiePair>, name: string, i: nat) {
    forall j :: i < j < |pairs| ==> pairs[j].name != name
  }

  /** The scan keeps, for each of the three names, the last value seen. */
  lemma {:induction false} ScanKeepsLast(pairs: seq<CookiePair>)
    ensures Scan(pairs) == Session(LastValue(pairs, "JSESSIONID"), LastValue(pairs, "Tenant-Id"), LastValue(pairs, "schoolname"))
  {
    if pairs != [] {
      var init := pairs[..|pairs| - 1];
      ScanKeepsLast(init);
      assert Scan(pairs) == Record(Scan(init), pairs[|pairs| - 1]);
    }
  }

  /** The inner loop over the values of one `Set-Cookie` header: each value
      is parsed and recorded on top of the three locals as they stood. */
  method ScanValues(values: seq<string>, jsessionid0: Option<string>, tenantId0: Option<string>, schoolName0: Option<string>)
    returns (jsessionid: Option<string>, tenantId: Option<string>, schoolName: Option<string>)
    ensures Session(jsessionid, tenantId, schoolName) == ScanFrom(Session(jsessionid0, tenantId0, schoolName0), PairsOf(values))
  {
    ghost var before := Session(jsessionid0, tenantId0, schoolName0);
    jsessionid, tenantId, schoolName := jsessionid0, tenantId0, schoolName0;
    for k := 0 to |values|
      invariant Session(jsessionid, tenantId, schoolName) == ScanFrom(before, PairsOf(values[..k]))
    {
      var p := ParseCookie(values[k]);
      PairsOfSnoc(values, k);
      ScanFromSnoc(before, PairsOf(values[..k]), p);
      if p.name == "JSESSIONID" {
        jsessionid := Some(p.value);
      } else if p.name == "Tenant-Id" {
        tenantId := Some(p.value);
      } else if p.name == "schoolname" {
        schoolName := Some(p.value);
      }
    }
    assert values[..|values|] == values;
  }

  /** The loops over the headers and their values. */
  method ExtractSession(headers: seq<Header>) returns (jsessionid: Option<string>, tenantId: Option<string>, schoolName: Option<string>)
    ensures Session(jsessionid, tenantId, schoolName) == Scan(CookiePairs(headers))
  {
    jsessionid, tenantId, schoolName := None, None, None;
    for i := 0 to |headers|
      invariant Session(jsessionid, tenantId, schoolName) == Scan(CookiePairs(headers[..i]))
    {
      var h := headers[i];
      CookiePairsSnoc(headers, i);
      ghost var done := CookiePairs(headers[..i]);
      if IsSetCookie(h.name) {
        jsessionid, tenantId, schoolName := ScanValues(h.values, jsessionid, tenantId, schoolName);
        ScanFromAppend(Session(None, None, None), done, PairsOf(h.values));
      } else {
        assert done + [] == done;
      }
    }
    assert headers[..|headers|] == headers;
  }

  // ----------------------------------------------------------------------
  // The whole call

  /** The JSON answer: its `error` member, if any, with `code` and
      `message` when they are a number and a string. */
  datatype JsonError = JsonError(code: Option<int>, message: Option<string>)

  /** The response: the decoded body (or the decoder's message) and the headers. */
  datatype LoginResponse = LoginResponse(body: Result<Option<JsonError>, string>, headers: seq<Header>)

  /** `Cookies` as `PersistenceManager::save_cookies` stores them. */
  datatype Cookies = Cookies(jsessionid: string, tenantId: string, schoolNameBase32: string)

  /** The stored session cookies. */
  class CookieStore {
    var cookies: Option<Cookies>

    constructor(cookies: Option<Cookies>)
      ensures this.cookies == cookies
    {
      this.cookies := cookies;
    }
  }

  /** `format!("API Error {}: {}", code, message)` with the defaults. */
  function ApiErrorText(e: JsonError): string {
    "API Error " + IntToString(e.code.GetOr(0)) + ": " + e.message.GetOr("Unknown error")
  }

  predicate CredentialsMissing(school: string, user: string, secret: string) {
    school == [] || user == [] || secret == []
  }

  /** The result of a login and the cookies it stores (`None`: none stored). */
  datatype LoginOutcome = LoginOutcome(result: Result<(), ApiError>, stored: Option<Cookies>)

  /** What `get_session_into_cookies` returns and stores, given the outcome
      of decoding the secret, of the request, and of writing the cookies. */
  function Login(school: string, user: string, secret: string, secretError: Option<string>,
                 response: Result<LoginResponse, string>, writeFailure: Option<string>): LoginOutcome
  {
    if CredentialsMissing(school, user, secret) then LoginOutcome(Err(Authentication("Credentials not set. ")), None)
    else if secretError.Some? then LoginOutcome(Err(Authentication(secretError.value)), None)
    else if response.Err? then LoginOutcome(Err(Network(response.error)), None)
    else if response.value.body.Err? then LoginOutcome(Err(Parsing(response.value.body.error)), None)
    else if response.value.body.value.Some? then LoginOutcome(Err(Authentication(ApiErrorText(response.value.body.value.value))), None)
    else
      var s := Scan(CookiePairs(response.value.headers));
      if s.jsessionid.Some? && s.tenantId.Some? && s.schoolName.Some? then
        if writeFailure.Some? then LoginOutcome(Err(Miscellaneous(writeFailure.value)), None)
        else LoginOutcome(Ok(()), Some(Cookies(s.jsessionid.value, s.tenantId.value, s.schoolName.value)))
      else LoginOutcome(Ok(()), None)
  }

  /** `get_session_into_cookies`. */
  method GetSessionIntoCookies(store: CookieStore, school: string, user: string, secret: string,
                               secretError: Option<string>, response: Result<LoginResponse, string>,
                               writeFailure: Option<string>) returns (r: Result<(), ApiError>)
    modifies store
    ensures var o := Login(school, user, secret, secretError, response, writeFailure);
      r == o.result && store.cookies == (if o.stored.Some? then o.stored else old(store.cookies))
  {
    if school == [] || user == [] || secret == [] {
      return Err(Authentication("Credentials not set. "));
    }
    if secretError.Some? {
      return Err(Authentication(secretError.value));
    }
    if response.Err? {
      return Err(Network(response.error));
    }
    var answer := response.value;
    if answer.body.Err? {
      return Err(Parsing(answer.body.error));
    }
    if answer.body.value.Some? {
      var e := answer.body.value.value;
      return Err(Authentication(ApiErrorText(e)));
    }
    var jsessionid, tenantId, schoolName := ExtractSession(answer.headers);
    if jsessionid.Some? && tenantId.Some? && schoolName.Some? {
      if writeFailure.Some? {
        return Err(Miscellaneous(writeFailure.value));
      }
      store.cookies := Some(Cookies(jsessionid.value, tenantId.value, schoolName.value));
    }
    return Ok(());
  }

  // ----------------------------------------------------------------------
  // What the login promises

  /** Empty credentials are refused before anything else and store nothing. */
  lemma MissingCredentialsRefused(school: string, user: string, secret: string, secretError: Option<string>,
                                  response: Result<LoginResponse, string>, writeFailure: Option<string>)
    requires school == [] || user == [] || secret == []
    ensures Login(school, user, secret, secretError, response, writeFailure)
      == LoginOutcome(Err(Authentication("Credentials not set. ")), None)
  {
  }

  /** An `error` member in the answer is reported as an authentication
      error with its code and message, 0 and "Unknown error" by default. */
  lemma ApiErrorReported(school: string, user: string, secret: string, headers: seq<Header>,
                         code: Option<int>, message: Option<string>, writeFailure: Option<string>)
    requires !CredentialsMissing(school, user, secret)
    ensures var r := Ok(LoginResponse(Ok(Some(JsonError(code, message))), headers));
      Login(school, user, secret, None, r, writeFailure)
        == LoginOutcome(Err(Authentication("API Error " + IntToString(code.GetOr(0)) + ": " + message.GetOr("Unknown error"))), None)
  {
  }

  /** A login that passes the checks succeeds; it stores cookies exactly
      when all three names were found, and then the last value of each. */
  lemma StoredOnlyWhenComplete(school: string, user: string, secret: string, headers: seq<Header>)
    requires !CredentialsMissing(school, user, secret)
    ensures var pairs := CookiePairs(headers);
      var o := Login(school, user, secret, None, Ok(LoginResponse(Ok(None), headers)), None);
      && o.result == Ok(())
      && (o.stored.Some? <==> LastValue(pairs, "JSESSIONID").Some? && LastValue(pairs, "Tenant-Id").Some? && LastValue(pairs, "schoolname").Some?)
      && (o.stored.Some? ==> o.stored.value == Cookies(LastValue(pairs, "JSESSIONID").value, LastValue(pairs, "Tenant-Id").value, LastValue(pairs, "schoolname").value))
  {
    ScanKeepsLast(CookiePairs(headers));
  }
}
