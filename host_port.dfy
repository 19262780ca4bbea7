/**
 * `parse_host_port_from_url`: the match of `^https?://([^/:]+)(?::(\d+))?`
 * against a server URL, with 6443 as the port when none is written.
 */
module HostPort {

  import opened Text

  const DefaultPort: nat := 6443
  const Http := "http://"
  const Https := "https://"

  predicate IsDigit(c: char) {
    '0' <= c <= '9'
  }

  /** The class `[^/:]`. */
  predicate IsHostChar(c: char) {
    c != '/' && c != ':'
  }

  /** Length of the longest prefix of `s` in `[^/:]*` (the greedy host group). */
  function HostSpan(s: string): (n: nat)
    ensures n <= |s|
    ensures forall i | 0 <= i < n :: IsHostChar(s[i])
    ensures n < |s| ==> !IsHostChar(s[n])
  {
    if s == [] || !IsHostChar(s[0]) then 0 else 1 + HostSpan(s[1..])
  }

  /** Length of the longest prefix of `s` in `\d*` (the greedy port group). */
  function DigitSpan(s: string): (n: nat)
    ensures n <= |s|
    ensures forall i | 0 <= i < n :: IsDigit(s[i])
    ensures n < |s| ==> !IsDigit(s[n])
  {
    if s == [] || !IsDigit(s[0]) then 0 else 1 + DigitSpan(s[1..])
  }

  predicate AllDigits(d: string) {
    forall i | 0 <= i < |d| :: IsDigit(d[i])
  }

  /** Python's `int(d)` on a string of decimal digits. */
  function DecimalValue(d: string): nat
    requires AllDigits(d)
  {
    if d == [] then 0 else 10 * DecimalValue(d[..|d| - 1]) + (d[|d| - 1] as int - '0' as int)
  }

  /** Length of the `https?://` prefix of `url`, 0 when `url` has neither. */
  function SchemeLength(url: string): (k: nat)
    ensures k == 0 || k == 7 || k == 8
    ensures k == 8 <==> IsPrefix(Https, url)
    ensures k == 7 <==> IsPrefix(Http, url)
  {
    if IsPrefix(Https, url) then
      assert url[4] == url[..8][4] == 's';
      8
    else if IsPrefix(Http, url) then 7
    else 0
  }

  /**
   * The (host, port) pair of a server URL. The host is the longest run of
   * characters other than `/` and `:` right after the scheme; the port is the
   * decimal number after a `:` that follows the host, else 6443. A URL that
   * does not match (no scheme, or an empty host) gives `("", 6443)`.
   */
  function ParseHostPort(url: string): (r: (string, nat))
    ensures SchemeLength(url) == 0 ==> r == ("", DefaultPort)
    ensures forall i | 0 <= i < |r.0| :: IsHostChar(r.0[i])
    ensures r.0 == "" ==> r.1 == DefaultPort
    ensures r.0 != "" ==> IsPrefix(Http + r.0, url) || IsPrefix(Https + r.0, url)
    ensures r.0 != "" ==> var n := SchemeLength(url) + |r.0|; n == |url| || !IsHostChar(url[n])
    ensures r.1 != DefaultPort ==> var n := SchemeLength(url) + |r.0|; n < |url| && url[n] == ':'
  {
    var k := SchemeLength(url);
    if k == 0 then ("", DefaultPort)
    else
      var r := ParseAuthority(url[k..]);
      assert r.0 != "" ==> url[..k + |r.0|] == url[..k] + r.0;
      r
  }

  /** The groups after the scheme: `([^/:]+)(?::(\d+))?`, or `("", 6443)` on no match. */
  function ParseAuthority(rest: string): (r: (string, nat))
    ensures IsPrefix(r.0, rest)
    ensures forall i | 0 <= i < |r.0| :: IsHostChar(r.0[i])
    ensures r.0 == "" ==> r.1 == DefaultPort
    ensures r.0 != "" ==> |r.0| == |rest| || !IsHostChar(rest[|r.0|])
    ensures r.1 != DefaultPort ==> |r.0| < |rest| && rest[|r.0|] == ':'
  {
    var h := HostSpan(rest);
    if h == 0 then ("", DefaultPort) else (rest[..h], PortAfterHost(rest[h..]))
  }

  /** The optional `(?::(\d+))?` group: the port written after the host, else 6443. */
  function PortAfterHost(after: string): (port: nat)
    ensures port != DefaultPort ==> after != [] && after[0] == ':'
  {
    if after != [] && after[0] == ':' && DigitSpan(after[1..]) > 0 then
      DecimalValue(after[1..][..DigitSpan(after[1..])])
    else DefaultPort
  }

  function DigitChar(n: nat): char
    requires n < 10
  {
    ('0' as int + n) as char
  }

  /** The decimal rendering of `n` (Python's `str(n)`). */
  function ToDecimal(n: nat): (d: string)
    ensures d != [] && AllDigits(d)
    ensures DecimalValue(d) == n
  {
    if n < 10 then [DigitChar(n)]
    else
      var d := ToDecimal(n / 10) + [DigitChar(n % 10)];
      assert d[..|d| - 1] == ToDecimal(n / 10);
      d
  }

  lemma {:induction false} HostSpanOf(h: string, tail: string)
    requires forall i | 0 <= i < |h| :: IsHostChar(h[i])
    requires tail == [] || !IsHostChar(tail[0])
    ensures HostSpan(h + tail) == |h|
  {
    if h != [] {
      assert (h + tail)[1..] == h[1..] + tail;
      HostSpanOf(h[1..], tail);
    }
  }

  lemma {:induction false} DigitSpanOf(d: string, tail: string)
    requires AllDigits(d)
    requires tail == [] || !IsDigit(tail[0])
    ensures DigitSpan(d + tail) == |d|
  {
    if d != [] {
      assert (d + tail)[1..] == d[1..] + tail;
      DigitSpanOf(d[1..], tail);
    }
  }

  lemma SchemeOf(scheme: string, rest: string)
    requires scheme == Http || scheme == Https
    ensures SchemeLength(scheme + rest) == |scheme|
    ensures (scheme + rest)[|scheme|..] == rest
  {
    var url := scheme + rest;
    assert url[..|scheme|] == scheme;
    if scheme == Http { assert url[4] == ':'; }
  }

  lemma AuthorityOf(host: string, after: string)
    requires host != [] && forall i | 0 <= i < |host| :: IsHostChar(host[i])
    requires after == [] || !IsHostChar(after[0])
    ensures ParseAuthority(host + after) == (host, PortAfterHost(after))
  {
    HostSpanOf(host, after);
    assert (host + after)[..|host|] == host;
    assert (host + after)[|host|..] == after;
  }

  lemma PortOf(digits: string, path: string)
    requires digits != [] && AllDigits(digits)
    requires path == [] || !IsDigit(path[0])
    ensures PortAfterHost(":" + digits + path) == DecimalValue(digits)
  {
    var after := ":" + digits + path;
    assert after[1..] == digits + path;
    DigitSpanOf(digits, path);
    assert (digits + path)[..|digits|] == digits;
  }

  /** A URL written with an explicit port parses back to its host and that port. */
  lemma ParsesExplicitPort(scheme: string, host: string, port: nat, path: string)
    requires scheme == Http || scheme == Https
    requires host != [] && forall i | 0 <= i < |host| :: IsHostChar(host[i])
    requires path == [] || !IsDigit(path[0])
    ensures ParseHostPort(scheme + host + ":" + ToDecimal(port) + path) == (host, port)
  {
    ParsesWrittenPort(scheme, host, ToDecimal(port), path);
  }

  /**
   * A URL with any digit string after the host's `:` (`:0443` included)
   * parses to the host and the number `int()` reads from those digits.
   */
  lemma ParsesWrittenPort(scheme: string, host: string, digits: string, path: string)
    requires scheme == Http || scheme == Https
    requires host != [] && forall i | 0 <= i < |host| :: IsHostChar(host[i])
    requires digits != [] && AllDigits(digits)
    requires path == [] || !IsDigit(path[0])
    ensures ParseHostPort(scheme + host + ":" + digits + path) == (host, DecimalValue(digits))
  {
    var after := ":" + digits + path;
    assert scheme + host + ":" + digits + path == scheme + (host + after);
    SchemeOf(scheme, host + after);
    AuthorityOf(host, after);
    PortOf(digits, path);
  }

  /** A URL without a port (end of text, a path, or a `:` not followed by digits) gets 6443. */
  lemma ParsesDefaultPort(scheme: string, host: string, path: string)
    requires scheme == Http || scheme == Https
    requires host != [] && forall i | 0 <= i < |host| :: IsHostChar(host[i])
    requires path == [] || path[0] == '/' || (path[0] == ':' && (|path| == 1 || !IsDigit(path[1])))
    ensures ParseHostPort(scheme + host + path) == (host, DefaultPort)
  {
    assert scheme + host + path == scheme + (host + path);
    SchemeOf(scheme, host + path);
    AuthorityOf(host, path);
    if path != [] && path[0] == ':' && |path| > 1 {
      assert path[1..][0] == path[1];
    }
  }
}
