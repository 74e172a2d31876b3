/**
  The desktop HTTP collaborator (`SimpleHttpService`): what it computes before
  any network traffic. The constructors fix the base URL, the default headers
  and the timeouts; every request is sent to the base URL followed by the URL
  template, with the default headers and the path variables as given.

  The `Authorization` header uses the Basic scheme of section 2 of RFC 7617:
  `Basic ` followed by the base64 encoding (section 4 of RFC 4648) of the
  UTF-8 bytes of `user-id ":" password`.
 */
module SimpleHttp {
  import opened JavaLang
  import opened Base64
  import Http

  // ---------------------------------------------------------------------------
  // UTF-8 (`String.getBytes()` under a UTF-8 default charset)

  /** The UTF-8 encoding of one Unicode scalar value. */
  function Utf8Char(c: char): (b: seq<Byte>)
    ensures 1 <= |b| <= 4
  {
    var v := c as int;
    if v < 0x80 then [v]
    else if v < 0x800 then [0xC0 + v / 64, 0x80 + v % 64]
    else if v < 0x10000 then [0xE0 + v / 4096, 0x80 + (v / 64) % 64, 0x80 + v % 64]
    else [0xF0 + v / 262144, 0x80 + (v / 4096) % 64, 0x80 + (v / 64) % 64, 0x80 + v % 64]
  }

  /** The UTF-8 encoding of a string. */
  function Utf8(s: string): seq<Byte>
  {
    if s == [] then [] else Utf8Char(s[0]) + Utf8(s[1..])
  }

  predicate IsContinuation(b: Byte)
  {
    0x80 <= b < 0xC0
  }

  predicate IsScalar(v: int)
  {
    0 <= v < 0xD800 || 0xE000 <= v < 0x11_0000
  }

  /** The first character of a UTF-8 byte sequence and the number of bytes it
      takes; None for a malformed, overlong or surrogate sequence. */
  function DecodeFirst(b: seq<Byte>): (r: Option<(char, nat)>)
    requires |b| > 0
    ensures r.Some? ==> 1 <= r.value.1 <= |b|
  {
    var b0: int := b[0];
    var b1: int := if |b| > 1 then b[1] else 0;
    var b2: int := if |b| > 2 then b[2] else 0;
    var b3: int := if |b| > 3 then b[3] else 0;
    if b0 < 0x80 then Some((b0 as char, 1))
    else if b0 < 0xC0 then None
    else if b0 < 0xE0 then
      if |b| < 2 || !IsContinuation(b[1]) then None
      else
        var v: int := (b0 - 0xC0) * 64 + (b1 - 0x80);
        if v < 0x80 then None else Some((v as char, 2))
    else if b0 < 0xF0 then
      if |b| < 3 || !IsContinuation(b[1]) || !IsContinuation(b[2]) then None
      else
        var v: int := (b0 - 0xE0) * 4096 + (b1 - 0x80) * 64 + (b2 - 0x80);
        if v < 0x800 || !IsScalar(v) then None else Some((v as char, 3))
    else if b0 < 0xF8 then
      if |b| < 4 || !IsContinuation(b[1]) || !IsContinuation(b[2]) || !IsContinuation(b[3]) then None
      else
        var v: int := (b0 - 0xF0) * 262144 + (b1 - 0x80) * 4096 + (b2 - 0x80) * 64 + (b3 - 0x80);
        if v < 0x10000 || !IsScalar(v) then None else Some((v as char, 4))
    else None
  }

  /** A UTF-8 decoder. */
  function Utf8Decode(b: seq<Byte>): Option<string>
    decreases |b|
  {
    if b == [] then Some("")
    else match DecodeFirst(b)
      case None => None
      case Some((c, n)) =>
        match Utf8Decode(b[n..])
        case None => None
        case Some(s) => Some([c] + s)
  }

  lemma Split3(v: int)
    requires 0 <= v
    ensures (v / 4096) * 4096 + ((v / 64) % 64) * 64 + v % 64 == v
  {
    var q := v / 64;
    assert q / 64 == v / 4096;
  }

  lemma Split4(v: int)
    requires 0 <= v
    ensures (v / 262144) * 262144 + ((v / 4096) % 64) * 4096 + ((v / 64) % 64) * 64 + v % 64 == v
  {
    Split3(v);
    var q := v / 4096;
    assert q / 64 == v / 262144;
  }

  /** The decoder reads back exactly one encoded character. */
  lemma DecodeFirstUtf8Char(c: char, rest: seq<Byte>)
    ensures DecodeFirst(Utf8Char(c) + rest) == Some((c, |Utf8Char(c)|))
  {
    var v := c as int;
    var b := Utf8Char(c) + rest;
    if v < 0x80 {
    } else if v < 0x800 {
      assert b[0] == 0xC0 + v / 64 && b[1] == 0x80 + v % 64;
    } else if v < 0x10000 {
      Split3(v);
      assert b[0] == 0xE0 + v / 4096 && b[1] == 0x80 + (v / 64) % 64 && b[2] == 0x80 + v % 64;
    } else {
      Split4(v);
      assert b[0] == 0xF0 + v / 262144 && b[1] == 0x80 + (v / 4096) % 64;
      assert b[2] == 0x80 + (v / 64) % 64 && b[3] == 0x80 + v % 64;
    }
  }

  /** UTF-8 loses nothing: decoding an encoding gives the string back. */
  lemma {:induction false} Utf8RoundTrip(s: string)
    ensures Utf8Decode(Utf8(s)) == Some(s)
  {
    if s != [] {
      var head, tail := Utf8Char(s[0]), Utf8(s[1..]);
      DecodeFirstUtf8Char(s[0], tail);
      assert (head + tail)[|head|..] == tail;
      Utf8RoundTrip(s[1..]);
      assert [s[0]] + s[1..] == s;
    }
  }

  // ---------------------------------------------------------------------------
  // The Basic scheme of RFC 7617

  const BASIC_PREFIX: string := "Basic "

  /** `String.format("%s:%s", username, password)`: a null argument prints as `null`. */
  function Credentials(username: JString, password: JString): string
  {
    FormatString(username) + ":" + FormatString(password)
  }

  /** `getBasicAuthHeaderValue`: the scheme name, a space, and the base64 of the
      UTF-8 bytes of the credentials; the encoded part decodes to those bytes. */
  function BasicAuthHeaderValue(username: JString, password: JString): (value: string)
    ensures |value| >= |BASIC_PREFIX| && value[..|BASIC_PREFIX|] == BASIC_PREFIX
    ensures Decode(value[|BASIC_PREFIX|..]) == Some(Utf8(Credentials(username, password)))
  {
    var bytes := Utf8(Credentials(username, password));
    DecodeEncode(bytes);
    var value := BASIC_PREFIX + Encode(bytes);
    assert value[|BASIC_PREFIX|..] == Encode(bytes);
    value
  }

  /** The user-id and password of a string `user-id ":" password`, split at the
      first colon (a user-id may not contain one). */
  function SplitAtColon(s: string): Option<(string, string)>
  {
    if s == [] then None
    else if s[0] == ':' then Some(([], s[1..]))
    else match SplitAtColon(s[1..])
      case None => None
      case Some((user, password)) => Some(([s[0]] + user, password))
  }

  lemma {:induction false} SplitAtColonJoin(user: string, password: string)
    requires ':' !in user
    ensures SplitAtColon(user + ":" + password) == Some((user, password))
  {
    var s := user + ":" + password;
    if user == [] {
      assert s == [':'] + password;
    } else {
      assert s[1..] == user[1..] + ":" + password;
      SplitAtColonJoin(user[1..], password);
      assert [user[0]] + user[1..] == user;
    }
  }

  /** What a server does with the header: strip the scheme, decode base64 and
      UTF-8, and split at the first colon. */
  function ParseBasicAuthorization(value: string): Option<(string, string)>
  {
    if |value| < |BASIC_PREFIX| || value[..|BASIC_PREFIX|] != BASIC_PREFIX then None
    else match Decode(value[|BASIC_PREFIX|..])
      case None => None
      case Some(bytes) =>
        match Utf8Decode(bytes)
        case None => None
        case Some(credentials) => SplitAtColon(credentials)
  }

  /** The header carries the credentials: a server following RFC 7617 reads back
      the user-id and the password exactly (as printed by `%s`), whenever the
      user-id has no colon. */
  lemma BasicAuthRoundTrip(username: JString, password: JString)
    requires ':' !in FormatString(username)
    ensures ParseBasicAuthorization(BasicAuthHeaderValue(username, password))
         == Some((FormatString(username), FormatString(password)))
  {
    Utf8RoundTrip(Credentials(username, password));
    SplitAtColonJoin(FormatString(username), FormatString(password));
  }

  // ---------------------------------------------------------------------------
  // Default headers

  /** One header line: a name and its values. */
  datatype Header = Header(name: string, values: seq<string>)

  /** `HttpHeaders`, in insertion order. */
  type Headers = seq<Header>

  function HeaderNames(h: Headers): set<string>
  {
    set i | 0 <= i < |h| :: h[i].name
  }

  /** The values of the first header of that name. */
  function Lookup(h: Headers, name: string): Option<seq<string>>
  {
    if h == [] then None
    else if h[0].name == name then Some(h[0].values)
    else Lookup(h[1..], name)
  }

  /** `HttpHeaders.set(name, value)`: the header now has exactly that one value;
      no other header changes. */
  function SetHeader(h: Headers, name: string, value: string): (r: Headers)
    ensures Lookup(r, name) == Some([value])
    ensures forall other :: other != name ==> Lookup(r, other) == Lookup(h, other)
    ensures HeaderNames(r) == HeaderNames(h) + {name}
  {
    if h == [] then [Header(name, [value])]
    else if h[0].name == name then
      var r := [Header(name, [value])] + h[1..];
      assert HeaderNames(r) == HeaderNames(h) by {
        assert forall i | 0 <= i < |h| :: r[i].name == h[i].name;
      }
      r
    else
      var tail := SetHeader(h[1..], name, value);
      HeaderNamesCons(h[0], tail);
      HeaderNamesCons(h[0], h[1..]);
      assert h == [h[0]] + h[1..];
      [h[0]] + tail
  }

  lemma HeaderNamesCons(x: Header, t: Headers)
    ensures HeaderNames([x] + t) == {x.name} + HeaderNames(t)
  {
    var r := [x] + t;
    assert r[0] == x;
    forall n | n in HeaderNames(t) ensures n in HeaderNames(r) {
      var i :| 0 <= i < |t| && t[i].name == n;
      assert r[i + 1] == t[i];
    }
    forall n | n in HeaderNames(r) ensures n in {x.name} + HeaderNames(t) {
      var i :| 0 <= i < |r| && r[i].name == n;
      if i > 0 {
        assert r[i] == t[i - 1];
      }
    }
  }

  const ACCEPT_ENCODING: string := "Accept-Encoding"
  const AUTHORIZATION: string := "Authorization"
  const ACCEPT: string := "Accept"
  const APPLICATION_JSON: string := "application/json"

  /** `createHttpHeaders`: gzip encoding, Basic credentials, and JSON as the
      only accepted media type, and nothing else. */
  function CreateHttpHeaders(username: JString, password: JString): (h: Headers)
    ensures HeaderNames(h) == {ACCEPT_ENCODING, AUTHORIZATION, ACCEPT}
    ensures Lookup(h, ACCEPT_ENCODING) == Some(["gzip"])
    ensures Lookup(h, AUTHORIZATION) == Some([BasicAuthHeaderValue(username, password)])
    ensures Lookup(h, ACCEPT) == Some([APPLICATION_JSON])
  {
    var h0: Headers := [];
    var h1 := SetHeader(h0, ACCEPT_ENCODING, "gzip");
    var h2 := SetHeader(h1, AUTHORIZATION, BasicAuthHeaderValue(username, password));
    SetHeader(h2, ACCEPT, APPLICATION_JSON)
  }

  // ---------------------------------------------------------------------------
  // Construction and request targets

  const REQUEST_TIMEOUT: int := 5000

  /** The base URL the host/port constructor passes on: `String.format("%s:si",
      hostName, port)`. The pattern has one conversion, so the port is dropped
      and the literal text `:si` follows the host name. */
  function HostBaseUrl(hostName: JString, port: Int32): string
  {
    FormatString(hostName) + ":si"
  }

  /** The host/port constructor ignores the port. */
  lemma HostBaseUrlIgnoresPort(hostName: JString, port: Int32, otherPort: Int32)
    ensures HostBaseUrl(hostName, port) == HostBaseUrl(hostName, otherPort)
    ensures HostBaseUrl(hostName, port) == FormatString(hostName) + ":si"
  {
  }

  /** What reaches the REST template for one request. */
  datatype Exchange = Exchange(
    url: string,
    verb: Http.Verb,
    body: Nullable<Http.Payload>,
    headers: Headers,
    uriVariables: seq<JString>)

  class SimpleHttpService {
    const baseUrl: JString
    const httpHeaders: Headers
    /** The read and connect timeouts given to the request factory, in milliseconds. */
    const readTimeout: int
    const connectTimeout: int
    var requestTimeout: int

    /** `SimpleHttpService(baseUrl, username, password)`. */
    constructor (baseUrl: JString, username: JString, password: JString)
      ensures this.baseUrl == baseUrl
      ensures httpHeaders == CreateHttpHeaders(username, password)
      ensures requestTimeout == readTimeout == connectTimeout == REQUEST_TIMEOUT
    {
      this.baseUrl := baseUrl;
      httpHeaders := CreateHttpHeaders(username, password);
      requestTimeout := REQUEST_TIMEOUT;
      readTimeout := REQUEST_TIMEOUT;
      connectTimeout := REQUEST_TIMEOUT;
    }

    /** `SimpleHttpService(hostName, port, username, password)`. */
    constructor WithHost(hostName: JString, port: Int32, username: JString, password: JString)
      ensures baseUrl == Ref(HostBaseUrl(hostName, port))
      ensures httpHeaders == CreateHttpHeaders(username, password)
      ensures requestTimeout == readTimeout == connectTimeout == REQUEST_TIMEOUT
    {
      baseUrl := Ref(HostBaseUrl(hostName, port));
      httpHeaders := CreateHttpHeaders(username, password);
      requestTimeout := REQUEST_TIMEOUT;
      readTimeout := REQUEST_TIMEOUT;
      connectTimeout := REQUEST_TIMEOUT;
    }

    /** The exchange for one request of any verb: the target is the base URL
        (printed `null` when absent) followed by the template; the verb, body
        and path variables pass through unchanged, with the default headers. */
    function ExchangeFor(req: Http.Request): (e: Exchange)
      ensures e.url == FormatString(baseUrl) + req.url
      ensures e.verb == req.verb && e.body == req.body
      ensures e.headers == httpHeaders && e.uriVariables == req.uriVariables
    {
      Exchange(FormatString(baseUrl) + req.url, req.verb, req.body, httpHeaders, req.uriVariables)
    }
  }

  /** Whatever request is sent through a service built from a base URL and
      credentials, it carries the three default headers, Basic credentials
      among them, and targets the base URL followed by the request's template. */
  method ExchangeThroughNewService(baseUrl: JString, username: JString, password: JString, req: Http.Request)
    returns (e: Exchange)
    ensures Lookup(e.headers, AUTHORIZATION) == Some([BasicAuthHeaderValue(username, password)])
    ensures Lookup(e.headers, ACCEPT_ENCODING) == Some(["gzip"])
    ensures Lookup(e.headers, ACCEPT) == Some([APPLICATION_JSON])
    ensures HeaderNames(e.headers) == {ACCEPT_ENCODING, AUTHORIZATION, ACCEPT}
    ensures e.url == FormatString(baseUrl) + req.url
    ensures e.verb == req.verb && e.body == req.body && e.uriVariables == req.uriVariables
  {
    var service := new SimpleHttpService(baseUrl, username, password);
    e := service.ExchangeFor(req);
    assert e.url == FormatString(baseUrl) + req.url;
  }
}
