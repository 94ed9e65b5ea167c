/** The gate's decision on a viewer's cookie: the order of its checks, the cookie scan, and
    what acceptance in strict mode says about the server's revocation list. */
module ViewerAuth {

  import opened Common
  import opened RevocationMirror
  import opened Text

  // ---------------------------------------------------------------- the cookie scan

  function Split(s: string, sep: char): (parts: seq<string>)
    ensures |parts| > 0
  {
    if |s| == 0 then [""]
    else
      var rest := Split(s[1..], sep);
      if s[0] == sep then [""] + rest else [[s[0]] + rest[0]] + rest[1..]
  }

  function SplitOnce(s: string, sep: char): Option<(string, string)> {
    if |s| == 0 then None
    else if s[0] == sep then Some(("", s[1..]))
    else
      match SplitOnce(s[1..], sep)
      case None => None
      case Some((a, b)) => Some(([s[0]] + a, b))
  }

  /** The value of one `name=value` part, if the part has the name. */
  function ValueOf(part: string, name: string): Option<string> {
    match SplitOnce(Trim(part), '=')
    case None => None
    case Some((k, v)) => if Trim(k) == name then Some(Trim(v)) else None
  }

  /** The first part with the name decides. */
  function FirstNamed(parts: seq<string>, name: string): Option<string> {
    if |parts| == 0 then None
    else if ValueOf(parts[0], name).Some? then ValueOf(parts[0], name)
    else FirstNamed(parts[1..], name)
  }

  method ExtractCookie(raw: string, name: string) returns (value: Option<string>)
    ensures value == FirstNamed(Split(raw, ';'), name)
  {
    var parts := Split(raw, ';');
    for i := 0 to |parts|
      invariant FirstNamed(parts, name) == FirstNamed(parts[i..], name)
    {
      var kv := SplitOnce(Trim(parts[i]), '=');
      assert parts[i..][1..] == parts[i + 1..];
      if kv.Some? && Trim(kv.value.0) == name {
        return Some(Trim(kv.value.1));
      }
    }
    value := None;
  }

  datatype Cookie = Cookie(name: string, value: string)

  function Pair(c: Cookie): string {
    c.name + ['='] + c.value
  }

  /** A `Cookie` header as user agents send it. */
  function Render(cookies: seq<Cookie>): string {
    if |cookies| == 0 then ""
    else if |cookies| == 1 then Pair(cookies[0])
    else Pair(cookies[0]) + [';'] + (" " + Render(cookies[1..]))
  }

  function Lookup(cookies: seq<Cookie>, name: string): Option<string> {
    if |cookies| == 0 then None
    else if cookies[0].name == name then Some(cookies[0].value)
    else Lookup(cookies[1..], name)
  }

  /** Nothing that the header's own syntax would take for a separator or padding. */
  predicate Clean(c: Cookie) {
    && ';' !in c.name && '=' !in c.name && ';' !in c.value
    && Unpadded(c.name) && Unpadded(c.value)
  }

  lemma {:induction false} SplitHead(head: string, rest: string, sep: char)
    requires sep !in head
    ensures Split(head + [sep] + rest, sep) == [head] + Split(rest, sep)
  {
    var s := head + [sep] + rest;
    if |head| == 0 {
      assert s[1..] == rest;
    } else {
      SplitHead(head[1..], rest, sep);
      assert s[1..] == head[1..] + [sep] + rest;
      assert [head[0]] + head[1..] == head;
    }
  }

  lemma {:induction false} SplitSingle(s: string, sep: char)
    requires sep !in s
    ensures Split(s, sep) == [s]
  {
    if |s| > 0 {
      SplitSingle(s[1..], sep);
      assert [s[0]] + s[1..] == s;
    }
  }

  lemma {:induction false} SplitOnceAt(head: string, rest: string, sep: char)
    requires sep !in head
    ensures SplitOnce(head + [sep] + rest, sep) == Some((head, rest))
  {
    var s := head + [sep] + rest;
    if |head| == 0 {
      assert s[1..] == rest;
    } else {
      SplitOnceAt(head[1..], rest, sep);
      assert s[1..] == head[1..] + [sep] + rest;
      assert [head[0]] + head[1..] == head;
    }
  }

  lemma TrimLead(lead: string, s: string)
    requires |s| > 0 && Unpadded(s) && (lead == "" || lead == " ")
    ensures Trim(lead + s) == s
  {
    if lead == " " {
      assert (lead + s)[0] == ' ' && (lead + s)[1..] == s;
      assert TrimStart(lead + s) == TrimStart(s);
    } else {
      assert lead + s == s;
    }
    TrimUnpadded(s);
  }

  lemma PairIsUnpadded(c: Cookie)
    requires Clean(c)
    ensures |Pair(c)| > 0 && Unpadded(Pair(c)) && ';' !in Pair(c)
  {
    var pair := Pair(c);
    assert pair[0] == if |c.name| > 0 then c.name[0] else '=';
    assert pair[|pair| - 1] == if |c.value| > 0 then c.value[|c.value| - 1] else '=';
  }

  /** A clean cookie's part, with or without the blank that follows a separator. */
  lemma PartOfCookie(c: Cookie, lead: string, name: string)
    requires Clean(c) && (lead == "" || lead == " ")
    ensures ';' !in lead + Pair(c)
    ensures ValueOf(lead + Pair(c), name) == if c.name == name then Some(c.value) else None
  {
    PairIsUnpadded(c);
    TrimLead(lead, Pair(c));
    SplitOnceAt(c.name, c.value, '=');
    TrimUnpadded(c.name);
    TrimUnpadded(c.value);
  }

  lemma NoPartNoCookie(lead: string, name: string)
    requires lead == "" || lead == " "
    ensures ValueOf(lead, name) == None
  {
    if lead == " " {
      assert TrimStart(lead) == TrimStart(lead[1..]);
    }
  }

  lemma FirstNamedOfRest(part: string, rest: seq<string>, name: string)
    ensures FirstNamed([part] + rest, name) ==
              if ValueOf(part, name).Some? then ValueOf(part, name) else FirstNamed(rest, name)
  {
    assert ([part] + rest)[1..] == rest;
  }

  lemma LoneCookie(c: Cookie, lead: string, name: string)
    requires Clean(c) && (lead == "" || lead == " ")
    ensures FirstNamed(Split(lead + Pair(c), ';'), name) == if c.name == name then Some(c.value) else None
  {
    PartOfCookie(c, lead, name);
    SplitSingle(lead + Pair(c), ';');
    FirstNamedOfRest(lead + Pair(c), [], name);
  }

  lemma CookieThenRest(c: Cookie, lead: string, rest: string, name: string)
    requires Clean(c) && (lead == "" || lead == " ")
    ensures FirstNamed(Split(lead + Pair(c) + [';'] + rest, ';'), name)
              == if c.name == name then Some(c.value) else FirstNamed(Split(rest, ';'), name)
  {
    PartOfCookie(c, lead, name);
    SplitHead(lead + Pair(c), rest, ';');
    FirstNamedOfRest(lead + Pair(c), Split(rest, ';'), name);
  }

  lemma RenderSplits(cookies: seq<Cookie>, lead: string, blank: string)
    requires |cookies| > 1 && blank == " "
    ensures lead + Render(cookies) == lead + Pair(cookies[0]) + [';'] + (blank + Render(cookies[1..]))
  {
    var rest := Render(cookies[1..]);
    assert Render(cookies) == Pair(cookies[0]) + [';'] + (blank + rest);
    Associates(lead, Pair(cookies[0]), [';'], blank + rest);
  }

  lemma Associates(a: string, b: string, c: string, d: string)
    ensures a + (b + c + d) == a + b + c + d
  {
  }

  lemma EmptyHeader(lead: string, name: string)
    requires lead == "" || lead == " "
    ensures FirstNamed(Split(lead, ';'), name) == None
  {
    SplitSingle(lead, ';');
    NoPartNoCookie(lead, name);
    FirstNamedOfRest(lead, [], name);
  }

  /** The scan undoes the rendering: it finds the first cookie of the name, whatever the
      other cookies are. */
  lemma {:induction false} ScanFindsFirst(cookies: seq<Cookie>, lead: string, name: string)
    requires forall c :: c in cookies ==> Clean(c)
    requires lead == "" || lead == " "
    ensures FirstNamed(Split(lead + Render(cookies), ';'), name) == Lookup(cookies, name)
    decreases |cookies|
  {
    if |cookies| == 0 {
      assert lead + Render(cookies) == lead;
      EmptyHeader(lead, name);
    } else if |cookies| == 1 {
      LoneCookie(cookies[0], lead, name);
    } else {
      var blank: string :| blank == " ";
      ScanFindsFirst(cookies[1..], blank, name);
      RenderSplits(cookies, lead, blank);
      CookieThenRest(cookies[0], lead, blank + Render(cookies[1..]), name);
    }
  }

  // ---------------------------------------------------------------- the decision

  const COOKIE_NAME := "dun_share_session"
  const COOKIE_AUDIENCE := "viewer-cookie"

  datatype Header = Absent | Unreadable | Text(value: string)
  datatype Request = Request(cookie: Header, forwardedHost: Header, host: Header)

  datatype Algorithm = EdDSA | OtherAlgorithm
  datatype TokenHeader = TokenHeader(alg: Algorithm, kid: Option<string>)
  datatype Claims = Claims(aud: string, jti: Jti, host: string)

  /** The library's side: reading a token's header, the key ids held, decoding with a key's
      id (signature, expiry and audience included), and lower-casing. */
  datatype Library = Library(
    header: string -> Option<TokenHeader>,
    keys: set<string>,
    decode: (string, string) -> Option<Claims>,
    lower: string -> string)

  datatype AuthError =
    | MissingCookie | MissingHost | CookieAbsent | BadHeader | UnsupportedAlg | MissingKid
    | UnknownKid | DecodeFailed | AudienceMismatch | HostMismatch | Revoked | RevocationStale

  datatype Verdict = Accepted(claims: Claims) | Refused(error: AuthError)

  function RequestHost(r: Request, lib: Library): Option<string> {
    match if r.forwardedHost.Absent? then r.host else r.forwardedHost
    case Text(s) => Some(lib.lower(Split(s, ':')[0]))
    case _ => None
  }

  /** Signature and claims, before the revocation list is asked. */
  function Verify(token: string, host: string, lib: Library): Verdict {
    match lib.header(token)
    case None => Refused(BadHeader)
    case Some(h) =>
      if h.alg != EdDSA then Refused(UnsupportedAlg)
      else if h.kid == None then Refused(MissingKid)
      else if h.kid.value !in lib.keys then Refused(UnknownKid)
      else
        match lib.decode(token, h.kid.value)
        case None => Refused(DecodeFailed)
        case Some(claims) =>
          if claims.aud != COOKIE_AUDIENCE then Refused(AudienceMismatch)
          else if lib.lower(claims.host) != host then Refused(HostMismatch)
          else Accepted(claims)
  }

  /** `m` is the mirror at the freshness check, `m'` the mirror when the list is asked. */
  function Authorize(r: Request, lib: Library, strict: bool, c: Config, m: Mirror, now: nat, m': Mirror): Verdict {
    if strict && !Fresh(c, m, now) then Refused(RevocationStale)
    else if !r.cookie.Text? then Refused(MissingCookie)
    else
      match FirstNamed(Split(r.cookie.value, ';'), COOKIE_NAME)
      case None => Refused(CookieAbsent)
      case Some(token) =>
        match RequestHost(r, lib)
        case None => Refused(MissingHost)
        case Some(host) =>
          var verdict := Verify(token, host, lib);
          if verdict.Accepted? && verdict.claims.jti in m'.revoked then Refused(Revoked) else verdict
  }

  /** Fail closed: a stale mirror refuses every request, with the same answer. */
  lemma StrictStaleRefusesAll(r: Request, lib: Library, c: Config, m: Mirror, now: nat, m': Mirror)
    requires c.pollingEnabled
    ensures (forall s :: m.lastSuccess == Some(s) ==> now > s + c.maxStaleness) <==>
            Authorize(r, lib, true, c, m, now, m') == Refused(RevocationStale)
  {
    assert m.lastSuccess.Some? ==> m.lastSuccess == Some(m.lastSuccess.value);
  }

  // ---------------------------------------------------------------- who is accepted

  /** In strict mode, the polling is off or a success is recent enough; otherwise nothing. */
  ghost predicate FreshEnough(strict: bool, c: Config, m: Mirror, now: nat) {
    strict && c.pollingEnabled ==> exists at :: m.lastSuccess == Some(at) && now <= at + c.maxStaleness
  }

  /** The forwarded host if there is one, and the host otherwise, when it is readable. */
  ghost predicate HostText(r: Request, text: string) {
    r.forwardedHost == Text(text) || (r.forwardedHost.Absent? && r.host == Text(text))
  }

  /** The text up to its first colon, or all of it. */
  ghost predicate BeforeColon(text: string, name: string) {
    ':' !in name && (text == name || exists port :: text == name + [':'] + port)
  }

  ghost predicate HostIs(r: Request, lib: Library, host: string) {
    exists text, name :: HostText(r, text) && BeforeColon(text, name) && lib.lower(name) == host
  }

  /** The token names a key that is held, and that key vouches for the claims. */
  ghost predicate Vouched(token: string, claims: Claims, lib: Library) {
    exists kid :: kid in lib.keys && lib.header(token) == Some(TokenHeader(EdDSA, Some(kid)))
                  && lib.decode(token, kid) == Some(claims)
  }

  lemma {:induction false} SplitStart(text: string, sep: char)
    ensures sep !in Split(text, sep)[0]
    ensures text == Split(text, sep)[0] || exists rest :: text == Split(text, sep)[0] + [sep] + rest
  {
    if |text| > 0 && text[0] != sep {
      SplitStart(text[1..], sep);
      var first := Split(text[1..], sep)[0];
      if text[1..] != first {
        var rest :| text[1..] == first + [sep] + rest;
        assert text == ([text[0]] + first) + [sep] + rest;
      }
    } else if |text| > 0 {
      assert text == Split(text, sep)[0] + [sep] + text[1..];
    }
  }

  lemma BeforeColonIsFirst(text: string, name: string)
    ensures BeforeColon(text, name) <==> name == Split(text, ':')[0]
  {
    var colon: char :| colon == ':';
    SplitStart(text, colon);
    if BeforeColon(text, name) {
      if text == name {
        SplitSingle(name, colon);
      } else {
        var port :| text == name + [':'] + port;
        SplitHead(name, port, colon);
      }
    }
  }

  lemma HostIsRequestHost(r: Request, lib: Library, host: string)
    ensures HostIs(r, lib, host) <==> RequestHost(r, lib) == Some(host)
  {
    forall text, name
      ensures BeforeColon(text, name) <==> name == Split(text, ':')[0]
    {
      BeforeColonIsFirst(text, name);
    }
    match if r.forwardedHost.Absent? then r.host else r.forwardedHost {
      case Text(text) =>
        assert HostText(r, text) && BeforeColon(text, Split(text, ':')[0]);
        assert forall other :: HostText(r, other) ==> other == text;
      case _ =>
        assert forall other :: !HostText(r, other);
    }
  }

  lemma VerifiedIff(token: string, host: string, lib: Library, claims: Claims)
    ensures Verify(token, host, lib) == Accepted(claims) <==>
              Vouched(token, claims, lib) && claims.aud == "viewer-cookie" && lib.lower(claims.host) == host
  {
    if Verify(token, host, lib) == Accepted(claims) {
      assert lib.header(token).value.kid.value in lib.keys;
    }
  }

  lemma FreshEnoughIff(strict: bool, c: Config, m: Mirror, now: nat)
    ensures FreshEnough(strict, c, m, now) <==> !strict || Fresh(c, m, now)
  {
    assert m.lastSuccess.Some? ==> m.lastSuccess == Some(m.lastSuccess.value);
  }

  /** The first session cookie of a rendered header. */
  lemma TokenOfCookies(cookies: seq<Cookie>)
    requires forall k :: k in cookies ==> Clean(k)
    ensures FirstNamed(Split(Render(cookies), ';'), COOKIE_NAME) == Lookup(cookies, "dun_share_session")
  {
    var lead: string :| lead == "";
    ScanFindsFirst(cookies, lead, COOKIE_NAME);
    assert lead + Render(cookies) == Render(cookies);
  }

  /** Exactly who is accepted, over every header a user agent can send: the mirror is fresh
      enough if that is asked for, the first session cookie is a token vouched for with these
      claims by the key it names, its audience and its host are the gate's, and its id is not in
      the mirror. */
  lemma AcceptedIff(cookies: seq<Cookie>, r: Request, lib: Library, strict: bool, c: Config, m: Mirror, now: nat,
                    m': Mirror, claims: Claims)
    requires (forall k :: k in cookies ==> Clean(k)) && r.cookie == Text(Render(cookies))
    ensures Authorize(r, lib, strict, c, m, now, m') == Accepted(claims) <==>
              && FreshEnough(strict, c, m, now)
              && Lookup(cookies, "dun_share_session").Some?
              && Vouched(Lookup(cookies, "dun_share_session").value, claims, lib)
              && claims.aud == "viewer-cookie" && HostIs(r, lib, lib.lower(claims.host))
              && claims.jti !in m'.revoked
  {
    FreshEnoughIff(strict, c, m, now);
    TokenOfCookies(cookies);
    HostIsRequestHost(r, lib, lib.lower(claims.host));
    var token := Lookup(cookies, COOKIE_NAME);
    var host := RequestHost(r, lib);
    if token.Some? && host.Some? {
      VerifiedIff(token.value, host.value, lib, claims);
    }
  }

  // ---------------------------------------------------------------- which error the others get

  /** What the gate has: the library, the mode, and the mirror at the freshness check and when
      the list is asked. */
  datatype Gate = Gate(lib: Library, strict: bool, config: Config, mirror: Mirror, now: nat, later: Mirror)

  ghost predicate HasToken(r: Request, token: string) {
    r.cookie.Text? && FirstNamed(Split(r.cookie.value, ';'), "dun_share_session") == Some(token)
  }

  ghost predicate NamesKey(r: Request, lib: Library, token: string, kid: string) {
    HasToken(r, token) && exists alg :: lib.header(token) == Some(TokenHeader(alg, Some(kid)))
  }

  ghost predicate Decodes(r: Request, lib: Library, claims: Claims) {
    exists token, kid :: NamesKey(r, lib, token, kid) && lib.decode(token, kid) == Some(claims)
  }

  /** What a request must show for each error not to be its answer. */
  ghost predicate Passes(e: AuthError, r: Request, g: Gate) {
    match e
    case RevocationStale => FreshEnough(g.strict, g.config, g.mirror, g.now)
    case MissingCookie => r.cookie.Text?
    case CookieAbsent => exists token :: HasToken(r, token)
    case MissingHost => exists host :: HostIs(r, g.lib, host)
    case BadHeader => exists token :: HasToken(r, token) && g.lib.header(token).Some?
    case UnsupportedAlg =>
      exists token, kid :: HasToken(r, token) && g.lib.header(token) == Some(TokenHeader(EdDSA, kid))
    case MissingKid => exists token, kid :: NamesKey(r, g.lib, token, kid)
    case UnknownKid => exists token, kid :: NamesKey(r, g.lib, token, kid) && kid in g.lib.keys
    case DecodeFailed => exists claims :: Decodes(r, g.lib, claims)
    case AudienceMismatch => exists claims :: Decodes(r, g.lib, claims) && claims.aud == "viewer-cookie"
    case HostMismatch => exists claims :: Decodes(r, g.lib, claims) && HostIs(r, g.lib, g.lib.lower(claims.host))
    case Revoked => exists claims :: Decodes(r, g.lib, claims) && claims.jti !in g.later.revoked
  }

  /** The order of the checks. */
  function Place(e: AuthError): nat {
    match e
    case RevocationStale => 0
    case MissingCookie => 1
    case CookieAbsent => 2
    case MissingHost => 3
    case BadHeader => 4
    case UnsupportedAlg => 5
    case MissingKid => 6
    case UnknownKid => 7
    case DecodeFailed => 8
    case AudienceMismatch => 9
    case HostMismatch => 10
    case Revoked => 11
  }

  /** The request passes every check before this place. */
  ghost predicate PassesBefore(place: nat, r: Request, g: Gate) {
    forall e: AuthError :: Place(e) < place ==> Passes(e, r, g)
  }

  /** It passes every check up to this error's, and not that one. */
  ghost predicate FailsFirst(e: AuthError, r: Request, g: Gate) {
    PassesBefore(Place(e), r, g) && !Passes(e, r, g)
  }

  /** With a key named: the key set, the decoding and the claims. */
  lemma KeyVerdict(token: string, kid: string, host: string, r: Request, g: Gate)
    requires PassesBefore(6, r, g) && HasToken(r, token) && HostIs(r, g.lib, host)
    requires g.lib.header(token) == Some(TokenHeader(EdDSA, Some(kid)))
    ensures var verdict := Verify(token, host, g.lib);
            && (verdict.Refused? ==> FailsFirst(verdict.error, r, g))
            && (verdict.Accepted? ==> PassesBefore(11, r, g) && Decodes(r, g.lib, verdict.claims)
                                      && forall claims :: Decodes(r, g.lib, claims) ==> claims == verdict.claims)
  {
    HostIsRequestHost(r, g.lib, host);
    assert forall other, k :: NamesKey(r, g.lib, other, k) ==> other == token && k == kid;
    assert NamesKey(r, g.lib, token, kid);
    assert Passes(MissingKid, r, g);
    if kid in g.lib.keys {
      assert Passes(UnknownKid, r, g);
      match g.lib.decode(token, kid) {
        case None =>
          assert forall claims :: !Decodes(r, g.lib, claims);
        case Some(claims) =>
          assert Decodes(r, g.lib, claims);
          assert forall other :: Decodes(r, g.lib, other) ==> other == claims;
          assert Passes(DecodeFailed, r, g);
          HostIsRequestHost(r, g.lib, g.lib.lower(claims.host));
      }
    }
  }

  lemma TokenVerdict(token: string, host: string, r: Request, g: Gate)
    requires PassesBefore(4, r, g) && HasToken(r, token) && HostIs(r, g.lib, host)
    ensures var verdict := Verify(token, host, g.lib);
            && (verdict.Refused? ==> FailsFirst(verdict.error, r, g))
            && (verdict.Accepted? ==> PassesBefore(11, r, g) && Decodes(r, g.lib, verdict.claims)
                                      && forall claims :: Decodes(r, g.lib, claims) ==> claims == verdict.claims)
  {
    assert forall other :: HasToken(r, other) ==> other == token;
    match g.lib.header(token) {
      case None =>
      case Some(h) =>
        assert Passes(BadHeader, r, g);
        if h.alg == EdDSA {
          assert h == TokenHeader(EdDSA, h.kid);
          assert Passes(UnsupportedAlg, r, g);
          match h.kid {
            case None =>
              assert forall other, kid :: !NamesKey(r, g.lib, other, kid);
            case Some(kid) => KeyVerdict(token, kid, host, r, g);
          }
        }
    }
  }

  function AuthorizeBy(r: Request, g: Gate): Verdict {
    Authorize(r, g.lib, g.strict, g.config, g.mirror, g.now, g.later)
  }

  lemma VerdictIsFirstFailure(r: Request, g: Gate)
    ensures var verdict := AuthorizeBy(r, g);
            && (verdict.Refused? ==> FailsFirst(verdict.error, r, g))
            && (verdict.Accepted? ==> PassesBefore(12, r, g))
  {
    FreshEnoughIff(g.strict, g.config, g.mirror, g.now);
    if FreshEnough(g.strict, g.config, g.mirror, g.now) && r.cookie.Text? {
      match FirstNamed(Split(r.cookie.value, ';'), COOKIE_NAME) {
        case None =>
        case Some(token) =>
          assert HasToken(r, token);
          forall host
            ensures HostIs(r, g.lib, host) <==> RequestHost(r, g.lib) == Some(host)
          {
            HostIsRequestHost(r, g.lib, host);
          }
          match RequestHost(r, g.lib) {
            case None =>
            case Some(host) =>
              assert Passes(CookieAbsent, r, g) && Passes(MissingHost, r, g);
              TokenVerdict(token, host, r, g);
          }
      }
    }
  }

  /** Which error a refused request gets, for every request and every library: the first of
      the checks, in this order, that it does not pass. */
  lemma RefusedIff(r: Request, g: Gate, e: AuthError)
    ensures AuthorizeBy(r, g) == Refused(e) <==> FailsFirst(e, r, g)
  {
    VerdictIsFirstFailure(r, g);
    if FailsFirst(e, r, g) {
      var verdict := AuthorizeBy(r, g);
      if verdict.Refused? {
        assert Passes(e, r, g) || Place(e) <= Place(verdict.error);
        assert Place(verdict.error) <= Place(e);
      }
    }
  }

  /** End to end, for every run of lists, 304 answers and failures: a token accepted in strict
      mode after a freshness check at `now` was not revoked at the server at some instant no
      earlier than `now - max_staleness - request timeout`. */
  lemma StrictAcceptanceIsRecent(sv: Server, c: Config, t0: nat, polls: seq<Poll>, lag: nat, checked: nat, now: nat,
                                 r: Request, lib: Library) returns (s: nat)
    requires TagsIdentify(sv) && Timely(c, Start(t0), polls, lag) && AllTruthful(sv, c, Start(t0), polls)
    requires c.pollingEnabled && checked <= |polls|
    requires Authorize(r, lib, true, c, After(c, Start(t0), polls[..checked]), now,
                       After(c, Start(t0), polls)).Accepted?
    ensures now <= s + c.maxStaleness + REQUEST_TIMEOUT + lag
    ensures Authorize(r, lib, true, c, After(c, Start(t0), polls[..checked]), now,
                      After(c, Start(t0), polls)).claims.jti
            !in sv.revoked(s)
  {
    s := FreshMirrorIsRecent(sv, c, t0, polls, lag, checked, now);
  }
}
