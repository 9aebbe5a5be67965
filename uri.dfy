/** A small, total model of the URI parsing behind the seed-broker check:
    `scheme "://" host [":" digits] path`.  Malformed text yields `None`
    instead of an exception, so the broker predicate is total. */
module Uris {
  import opened Values

  datatype Uri = Uri(scheme: string, host: string, port: Option<nat>, path: string)

  /** Schemes a seed broker may use. */
  const AllowedSchemes: set<string> := {"kafka", "kafka+ssl"}

  const Separator := "://"

  predicate IsAlpha(c: char) { 'a' <= c <= 'z' || 'A' <= c <= 'Z' }

  predicate IsDigit(c: char) { '0' <= c <= '9' }

  predicate IsSchemeChar(c: char) { IsAlpha(c) || IsDigit(c) || c == '+' || c == '-' || c == '.' }

  predicate IsHostChar(c: char) { IsAlpha(c) || IsDigit(c) || c == '-' || c == '.' || c == '_' }

  /** Path characters: unreserved characters, sub-delimiters, ':', '@' and
      '/'. Percent-encoding is not supported, so '%' is not among them. */
  predicate IsPathChar(c: char) { IsHostChar(c) || c in "/:@~!$&'()*+,;=" }

  predicate NotSlash(c: char) { c != '/' }

  predicate AllDigits(s: string) { forall i :: 0 <= i < |s| ==> IsDigit(s[i]) }

  /** A URI the parser can produce: a scheme starting with a letter, a
      non-empty host, and a path that is empty or starts with '/'. */
  predicate WellFormed(u: Uri) {
    && |u.scheme| > 0 && IsAlpha(u.scheme[0])
    && (forall i :: 0 <= i < |u.scheme| ==> IsSchemeChar(u.scheme[i]))
    && |u.host| > 0
    && (forall i :: 0 <= i < |u.host| ==> IsHostChar(u.host[i]))
    && (u.path == "" || u.path[0] == '/')
    && (forall i :: 0 <= i < |u.path| ==> IsPathChar(u.path[i]))
  }

  /** Length of the longest prefix of `s` whose characters all satisfy `p`. */
  function PrefixLength(p: char -> bool, s: string): (n: nat)
    ensures n <= |s|
    ensures forall i :: 0 <= i < n ==> p(s[i])
    ensures n < |s| ==> !p(s[n])
  {
    if s == [] || !p(s[0]) then 0
    else
      var m := PrefixLength(p, s[1..]);
      assert forall i :: 1 <= i < 1 + m ==> s[i] == s[1..][i - 1];
      1 + m
  }

  function DigitValue(c: char): (d: nat)
    requires IsDigit(c)
    ensures d < 10
  {
    c as int - '0' as int
  }

  function DigitChar(d: nat): (c: char)
    requires d < 10
    ensures IsDigit(c) && DigitValue(c) == d
  {
    ('0' as int + d) as char
  }

  /** The number a string of decimal digits denotes. */
  function DigitsValue(ds: string): nat
    requires AllDigits(ds)
  {
    if ds == [] then 0 else 10 * DigitsValue(ds[..|ds| - 1]) + DigitValue(ds[|ds| - 1])
  }

  /** The shortest decimal spelling of `n`. */
  function Digits(n: nat): (ds: string)
    ensures |ds| > 0 && AllDigits(ds)
  {
    if n < 10 then [DigitChar(n)] else Digits(n / 10) + [DigitChar(n % 10)]
  }

  lemma {:induction false} DigitsRoundTrip(n: nat)
    ensures DigitsValue(Digits(n)) == n
  {
    if n >= 10 {
      var ds := Digits(n);
      assert ds[..|ds| - 1] == Digits(n / 10);
      DigitsRoundTrip(n / 10);
    }
  }

  /** Host and optional port of an authority `host [":" digits]`.  An empty
      port (`host:`) counts as no port. */
  function ParseAuthority(a: string): (r: Option<(string, Option<nat>)>)
    ensures r.Some? ==> |r.value.0| > 0 && forall i :: 0 <= i < |r.value.0| ==> IsHostChar(r.value.0[i])
  {
    var h := PrefixLength(IsHostChar, a);
    var tail := a[h..];
    if h == 0 then None
    else if tail == "" then Some((a[..h], None))
    else if tail[0] != ':' || !AllDigits(tail[1..]) then None
    else if |tail| == 1 then Some((a[..h], None))
    else Some((a[..h], Some(DigitsValue(tail[1..]))))
  }

  /** Parses `s`, or yields `None` when it is not of the URI shape above. */
  function ParseUri(s: string): (r: Option<Uri>)
    ensures r.Some? ==> WellFormed(r.value)
  {
    var n := PrefixLength(IsSchemeChar, s);
    if n == 0 || !IsAlpha(s[0]) || !(Separator <= s[n..]) then None
    else
      var rest := s[n + |Separator|..];
      var a := PrefixLength(NotSlash, rest);
      var path := rest[a..];
      if !(forall i :: 0 <= i < |path| ==> IsPathChar(path[i])) then None
      else
        match ParseAuthority(rest[..a])
        case None => None
        case Some((host, port)) => Some(Uri(s[..n], host, port, path))
  }

  function PortText(port: Option<nat>): string {
    match port
    case None => ""
    case Some(p) => ":" + Digits(p)
  }

  /** The text of a URI; `ParseUri` inverts it on well-formed URIs. */
  function Render(u: Uri): string {
    u.scheme + Separator + u.host + PortText(u.port) + u.path
  }

  /** A seed broker: a URI with an allowed scheme, a host and an explicit port.
      Total: junk text is simply not a broker. */
  predicate IsBroker(s: string) {
    match ParseUri(s)
    case None => false
    case Some(u) => u.scheme in AllowedSchemes && u.port.Some?
  }

  /** `t` is a spelling of the port part of an authority: nothing or a bare
      ':' for no port, otherwise ':' and decimal digits (leading zeros
      allowed) denoting the port. */
  predicate PortSpelling(t: string, port: Option<nat>) {
    match port
    case None => t == "" || t == ":"
    case Some(p) => |t| > 1 && t[0] == ':' && AllDigits(t[1..]) && DigitsValue(t[1..]) == p
  }

  /** A URI's text with `t` as the spelling of its port. */
  function Spelled(u: Uri, t: string): string {
    u.scheme + Separator + u.host + t + u.path
  }

  /** `Render` uses the shortest spelling of the port. */
  lemma PortTextSpells(port: Option<nat>)
    ensures PortSpelling(PortText(port), port)
  {
    if port.Some? {
      assert PortText(port)[1..] == Digits(port.value);
      DigitsRoundTrip(port.value);
    }
  }

  /** The longest `p`-prefix of `a + b` is `a` when `a` is all `p` and `b`
      does not continue it. */
  lemma PrefixLengthOfConcat(p: char -> bool, a: string, b: string)
    requires forall i :: 0 <= i < |a| ==> p(a[i])
    requires b == [] || !p(b[0])
    ensures PrefixLength(p, a + b) == |a|
  {
    assert forall i :: 0 <= i < |a| ==> (a + b)[i] == a[i];
    assert b != [] ==> (a + b)[|a|] == b[0];
  }

  /** A host followed by a port spelling parses back to that host and
      port. */
  lemma SpelledAuthorityParses(host: string, port: Option<nat>, t: string)
    requires |host| > 0 && forall i :: 0 <= i < |host| ==> IsHostChar(host[i])
    requires PortSpelling(t, port)
    ensures ParseAuthority(host + t) == Some((host, port))
  {
    var a := host + t;
    PrefixLengthOfConcat(IsHostChar, host, t);
    assert a[..|host|] == host;
    assert a[|host|..] == t;
  }

  /** What `ParseAuthority` accepts is a host followed by a port
      spelling. */
  lemma ParseAuthorityText(a: string)
    requires ParseAuthority(a).Some?
    ensures var host := ParseAuthority(a).value.0;
            && |host| <= |a| && a[..|host|] == host
            && PortSpelling(a[|host|..], ParseAuthority(a).value.1)
  {
  }

  lemma AuthorityHasNoSlash(host: string, port: Option<nat>, t: string)
    requires forall i :: 0 <= i < |host| ==> IsHostChar(host[i])
    requires PortSpelling(t, port)
    ensures forall i :: 0 <= i < |host + t| ==> NotSlash((host + t)[i])
  {
    var auth := host + t;
    forall i | 0 <= i < |auth| ensures NotSlash(auth[i]) {
      if i > |host| {
        assert auth[i] == t[1..][i - |host| - 1];
      } else if i < |host| {
        assert auth[i] == host[i];
      }
    }
  }

  /** In `scheme "://" rest`, the scheme is the longest run of scheme
      characters and the separator follows it. */
  lemma SchemeThenSeparator(scheme: string, rest: string)
    requires forall i :: 0 <= i < |scheme| ==> IsSchemeChar(scheme[i])
    ensures var s := scheme + (Separator + rest);
            && PrefixLength(IsSchemeChar, s) == |scheme|
            && s[..|scheme|] == scheme
            && Separator <= s[|scheme|..]
            && s[|scheme| + |Separator|..] == rest
  {
    var s := scheme + (Separator + rest);
    PrefixLengthOfConcat(IsSchemeChar, scheme, Separator + rest);
    assert s[..|scheme|] == scheme;
    assert s[|scheme|..] == Separator + rest;
    assert (Separator + rest)[|Separator|..] == rest;
  }

  /** The authority of a spelled URI runs up to the path's first '/'. */
  lemma SpelledAuthority(u: Uri, t: string)
    requires forall i :: 0 <= i < |u.host| ==> IsHostChar(u.host[i])
    requires u.path == "" || u.path[0] == '/'
    requires PortSpelling(t, u.port)
    ensures var auth := u.host + t;
            var rest := auth + u.path;
            && PrefixLength(NotSlash, rest) == |auth|
            && rest[..|auth|] == auth
            && rest[|auth|..] == u.path
  {
    var auth := u.host + t;
    AuthorityHasNoSlash(u.host, u.port, t);
    PrefixLengthOfConcat(NotSlash, auth, u.path);
    assert (auth + u.path)[..|auth|] == auth;
    assert (auth + u.path)[|auth|..] == u.path;
  }

  /** `ParseUri` read off step by step: once the scheme length, the
      authority length and the authority's parse are known, so is the
      result. */
  lemma ParseUriSteps(s: string, n: nat, rest: string, a: nat, host: string, port: Option<nat>)
    requires 0 < n <= |s| && IsAlpha(s[0]) && PrefixLength(IsSchemeChar, s) == n
    requires Separator <= s[n..] && s[n + |Separator|..] == rest
    requires a <= |rest| && PrefixLength(NotSlash, rest) == a
    requires forall i :: 0 <= i < |rest| - a ==> IsPathChar(rest[a..][i])
    requires ParseAuthority(rest[..a]) == Some((host, port))
    ensures ParseUri(s) == Some(Uri(s[..n], host, port, rest[a..]))
  {
  }

  /** A spelled URI is its scheme, the separator, and the rest. */
  lemma SpelledSplit(u: Uri, t: string)
    ensures Spelled(u, t) == u.scheme + (Separator + (u.host + t + u.path))
  {
  }

  /** Every spelling of a well-formed URI parses back to it. */
  lemma ParseSpelled(u: Uri, t: string)
    requires WellFormed(u) && PortSpelling(t, u.port)
    ensures ParseUri(Spelled(u, t)) == Some(u)
  {
    var rest := u.host + t + u.path;
    var s := Spelled(u, t);
    SpelledSplit(u, t);
    SchemeThenSeparator(u.scheme, rest);
    SpelledAuthority(u, t);
    SpelledAuthorityParses(u.host, u.port, t);
    ParseUriSteps(s, |u.scheme|, rest, |u.host + t|, u.host, u.port);
  }

  /** Where the parser cut the text of a URI it returned: the scheme ends
      at `n`, the authority is the first `a` characters of `rest`. */
  lemma ParsedPieces(s: string) returns (n: nat, rest: string, a: nat)
    requires ParseUri(s).Some?
    ensures n + |Separator| <= |s| && s[n..n + |Separator|] == Separator
    ensures rest == s[n + |Separator|..] && a <= |rest|
    ensures ParseAuthority(rest[..a]) == Some((ParseUri(s).value.host, ParseUri(s).value.port))
    ensures ParseUri(s).value.scheme == s[..n] && ParseUri(s).value.path == rest[a..]
  {
    n := PrefixLength(IsSchemeChar, s);
    rest := s[n + |Separator|..];
    a := PrefixLength(NotSlash, rest);
  }

  /** Text cut into scheme, separator, an authority that parses, and path
      is a spelling of the URI made of the parsed pieces. */
  lemma SpelledFromPieces(s: string, n: nat, rest: string, a: nat, u: Uri)
    requires n + |Separator| <= |s| && s[n..n + |Separator|] == Separator
    requires rest == s[n + |Separator|..] && a <= |rest|
    requires ParseAuthority(rest[..a]) == Some((u.host, u.port))
    requires u.scheme == s[..n] && u.path == rest[a..]
    ensures |u.host| <= a
    ensures PortSpelling(rest[..a][|u.host|..], u.port) && s == Spelled(u, rest[..a][|u.host|..])
  {
    var auth := rest[..a];
    ParseAuthorityText(auth);
    var t := auth[|u.host|..];
    assert auth == u.host + t;
    Reassembled(s, n, rest, a, u, t);
  }

  /** Text cut into scheme, separator, host, port spelling and path is their
      concatenation. */
  lemma Reassembled(s: string, n: nat, rest: string, a: nat, u: Uri, t: string)
    requires n + |Separator| <= |s| && s[n..n + |Separator|] == Separator
    requires rest == s[n + |Separator|..] && a <= |rest|
    requires rest[..a] == u.host + t && u.scheme == s[..n] && u.path == rest[a..]
    ensures s == Spelled(u, t)
  {
    assert rest == rest[..a] + rest[a..];
    assert s == s[..n] + s[n..n + |Separator|] + rest;
  }

  /** Whatever `ParseUri` returns is spelled out by its input: text of any
      other shape yields `None`. */
  lemma ParseUriText(s: string)
    requires ParseUri(s).Some?
    ensures exists t :: PortSpelling(t, ParseUri(s).value.port) && s == Spelled(ParseUri(s).value, t)
  {
    var u := ParseUri(s).value;
    var n, rest, a := ParsedPieces(s);
    SpelledFromPieces(s, n, rest, a, u);
    var t := rest[..a][|u.host|..];
    assert PortSpelling(t, u.port) && s == Spelled(u, t);
  }

  /** `ParseUri` accepts exactly the spellings of well-formed URIs. */
  lemma ParseUriExactly(s: string, u: Uri)
    ensures ParseUri(s) == Some(u) <==>
              WellFormed(u) && exists t :: PortSpelling(t, u.port) && s == Spelled(u, t)
  {
    if ParseUri(s) == Some(u) {
      ParseUriText(s);
    }
    if WellFormed(u) && exists t :: PortSpelling(t, u.port) && s == Spelled(u, t) {
      var t :| PortSpelling(t, u.port) && s == Spelled(u, t);
      ParseSpelled(u, t);
    }
  }

  /** Parsing inverts rendering. */
  lemma ParseRender(u: Uri)
    requires WellFormed(u)
    ensures ParseUri(Render(u)) == Some(u)
  {
    PortTextSpells(u.port);
    assert Render(u) == Spelled(u, PortText(u.port));
    ParseSpelled(u, PortText(u.port));
  }

  /** On well-formed URIs the broker check accepts exactly the allowed
      schemes with an explicit port. */
  lemma BrokerIffSchemeAndPort(u: Uri)
    requires WellFormed(u)
    ensures IsBroker(Render(u)) <==> u.scheme in AllowedSchemes && u.port.Some?
  {
    ParseRender(u);
  }

  /** No spelling of a well-formed URI contains '%'. */
  lemma NoPercentInSpelling(u: Uri, t: string)
    requires WellFormed(u) && PortSpelling(t, u.port)
    ensures '%' !in Spelled(u, t)
  {
  }

  /** Text with a '%' anywhere, such as a bare '%' in the path, is never a
      broker. */
  lemma PercentIsNotBroker(s: string)
    requires '%' in s
    ensures !IsBroker(s)
  {
    if ParseUri(s).Some? {
      ParseUriText(s);
      var t :| PortSpelling(t, ParseUri(s).value.port) && s == Spelled(ParseUri(s).value, t);
      NoPercentInSpelling(ParseUri(s).value, t);
    }
  }

  /** Text that does not begin with a scheme letter is never a broker. */
  lemma NoSchemeIsNotBroker(s: string)
    requires s == [] || !IsAlpha(s[0])
    ensures !IsBroker(s)
  {
  }
}
