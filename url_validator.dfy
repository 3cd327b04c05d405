/** UrlValidator.java: the ordered chain of checks a long URL must pass
    before it is shortened, in its Boolean form (`isValid`) and its message
    form (`getValidationError`). The pattern
    `^(https?://)([\w.-]+)(:[0-9]{1,5})?(/.*)?$` (case-insensitive) is
    matched by `ParseHost`, which is proved to agree with the declarative
    reading of the pattern, `MatchesUrlPattern`. */
module UrlValidation {
  import opened Common

  const MaxUrlLength: nat := 2048

  const EmptyMessage: string := "URL cannot be empty"
  const LengthMessage: string := "URL exceeds maximum length of 2048 characters"
  const FormatMessage: string := "Invalid URL format. Must start with http:// or https://"
  const LoopbackMessage: string := "Localhost and loopback addresses are not allowed"
  const PrivateIpMessage: string := "Private IP addresses are not allowed"
  const ProtocolMessage: string := "Only HTTP and HTTPS protocols are allowed"

  const BlockedDomains: seq<string> := ["localhost", "127.0.0.1", "0.0.0.0", "::1"]

  // ---------------------------------------------------------------------
  // The pattern, read declaratively

  /** `\w` without UNICODE_CHARACTER_CLASS: ASCII letters, digits and `_`. */
  predicate IsWordChar(c: char) {
    ('a' <= c <= 'z') || ('A' <= c <= 'Z') || ('0' <= c <= '9') || c == '_'
  }

  /** `[\w.-]` */
  predicate IsHostChar(c: char) {
    IsWordChar(c) || c == '.' || c == '-'
  }

  predicate IsDigitChar(c: char) {
    '0' <= c <= '9'
  }

  /** The characters `.` does not match without DOTALL. */
  predicate IsLineTerminator(c: char) {
    c == '\n' || c == '\r' || c == '\U{0085}' || c == '\U{2028}' || c == '\U{2029}'
  }

  /** `(https?://)`, compared case-insensitively. */
  predicate IsScheme(p: string) {
    ToLowerAscii(p) == "http://" || ToLowerAscii(p) == "https://"
  }

  /** `([\w.-]+)` */
  predicate IsHost(h: string) {
    |h| > 0 && forall i :: 0 <= i < |h| ==> IsHostChar(h[i])
  }

  /** `(:[0-9]{1,5})?` */
  predicate IsPort(p: string) {
    p == [] || (2 <= |p| <= 6 && p[0] == ':' && forall i :: 1 <= i < |p| ==> IsDigitChar(p[i]))
  }

  /** `(/.*)?` */
  predicate IsPath(q: string) {
    q == [] || (q[0] == '/' && forall i :: 1 <= i < |q| ==> !IsLineTerminator(q[i]))
  }

  /** The whole URL splits as scheme, host, optional port, optional path,
      and `host` is the second group. */
  ghost predicate MatchesUrlPattern(url: string, host: string) {
    exists i, j, k ::
      0 <= i <= j <= k <= |url| && IsScheme(url[..i]) && url[i..j] == host
      && IsHost(url[i..j]) && IsPort(url[j..k]) && IsPath(url[k..])
  }

  // ---------------------------------------------------------------------
  // The matcher

  /** Length of the scheme the URL starts with, or 0. */
  function SchemeLength(url: string): (n: nat)
    ensures n == 0 || n == 7 || n == 8
    ensures n > 0 ==> n <= |url| && IsScheme(url[..n])
  {
    if |url| >= 8 && ToLowerAscii(url[..8]) == "https://" then 8
    else if |url| >= 7 && ToLowerAscii(url[..7]) == "http://" then 7
    else 0
  }

  /** End of the longest run of characters satisfying `IsHostChar` from `i`. */
  function HostEnd(url: string, i: nat): (j: nat)
    requires i <= |url|
    ensures i <= j <= |url|
    ensures forall m :: i <= m < j ==> IsHostChar(url[m])
    ensures j < |url| ==> !IsHostChar(url[j])
    decreases |url| - i
  {
    if i == |url| || !IsHostChar(url[i]) then i else HostEnd(url, i + 1)
  }

  /** End of the longest run of ASCII digits from `i`. */
  function DigitsEnd(url: string, i: nat): (j: nat)
    requires i <= |url|
    ensures i <= j <= |url|
    ensures forall m :: i <= m < j ==> IsDigitChar(url[m])
    ensures j < |url| ==> !IsDigitChar(url[j])
    decreases |url| - i
  {
    if i == |url| || !IsDigitChar(url[i]) then i else DigitsEnd(url, i + 1)
  }

  /** End of the optional port group starting at `j`; `j` itself when there
      is no port, `None` when a `:` is not followed by one to five digits. */
  function PortEnd(url: string, j: nat): (k: Option<nat>)
    requires j <= |url|
    ensures k.Some? ==> j <= k.value <= |url| && IsPort(url[j..k.value])
  {
    if j < |url| && url[j] == ':' then
      var d := DigitsEnd(url, j + 1);
      if j + 1 < d <= j + 6 then Some(d) else None
    else Some(j)
  }

  /** Matches the pattern and returns the host group. */
  function ParseHost(url: string): (h: Option<string>)
  {
    var i := SchemeLength(url);
    if i == 0 then None
    else
      var j := HostEnd(url, i);
      if j == i then None
      else match PortEnd(url, j)
        case None => None
        case Some(k) => if IsPath(url[k..]) then Some(url[i..j]) else None
  }

  // ---------------------------------------------------------------------
  // Matcher and pattern agree

  lemma SchemeDetermined(url: string, i: nat)
    requires i <= |url| && IsScheme(url[..i])
    ensures SchemeLength(url) == i
  {
    assert |ToLowerAscii(url[..i])| == i;
    if i == 7 {
      assert url[..7] == url[..i];
      if |url| >= 8 {
        assert ToLowerAscii(url[..8])[4] == LowerChar(url[4]) == ToLowerAscii(url[..7])[4] == ':';
      }
    } else {
      assert url[..8] == url[..i];
    }
  }

  lemma HostEndDetermined(url: string, i: nat, j: nat)
    requires i <= j <= |url|
    requires forall m :: i <= m < j ==> IsHostChar(url[m])
    requires j == |url| || !IsHostChar(url[j])
    ensures HostEnd(url, i) == j
    decreases j - i
  {
    if i < j { HostEndDetermined(url, i + 1, j); }
  }

  lemma DigitsEndDetermined(url: string, i: nat, j: nat)
    requires i <= j <= |url|
    requires forall m :: i <= m < j ==> IsDigitChar(url[m])
    requires j == |url| || !IsDigitChar(url[j])
    ensures DigitsEnd(url, i) == j
    decreases j - i
  {
    if i < j { DigitsEndDetermined(url, i + 1, j); }
  }

  lemma ParseHostSound(url: string)
    requires ParseHost(url).Some?
    ensures MatchesUrlPattern(url, ParseHost(url).value)
  {
    var i := SchemeLength(url);
    var j := HostEnd(url, i);
    var k := PortEnd(url, j).value;
    assert IsHost(url[i..j]);
    assert 0 <= i <= j <= k <= |url| && IsScheme(url[..i]) && url[i..j] == ParseHost(url).value
      && IsHost(url[i..j]) && IsPort(url[j..k]) && IsPath(url[k..]);
  }

  /** Given one decomposition of the URL, the host group ends at the first
      character that is not a host character. */
  lemma HostGroupMaximal(url: string, i: nat, j: nat, k: nat)
    requires 0 <= i <= j <= k <= |url| && IsHost(url[i..j]) && IsPort(url[j..k]) && IsPath(url[k..])
    ensures HostEnd(url, i) == j
  {
    assert forall m :: i <= m < j ==> IsHostChar(url[m]) by {
      forall m | i <= m < j ensures IsHostChar(url[m]) { assert url[i..j][m - i] == url[m]; }
    }
    if j < |url| {
      if j < k {
        assert url[j..k][0] == url[j];
      } else {
        assert url[k..][0] == url[j];
      }
    }
    HostEndDetermined(url, i, j);
  }

  /** Given one decomposition of the URL, the port group is the one the
      matcher finds. */
  lemma PortGroupDetermined(url: string, j: nat, k: nat)
    requires 0 <= j <= k <= |url| && IsPort(url[j..k]) && IsPath(url[k..])
    ensures PortEnd(url, j) == Some(k)
  {
    if j < k {
      assert url[j..k][0] == url[j] == ':';
      assert forall m :: j + 1 <= m < k ==> IsDigitChar(url[m]) by {
        forall m | j + 1 <= m < k ensures IsDigitChar(url[m]) { assert url[j..k][m - j] == url[m]; }
      }
      if k < |url| { assert url[k..][0] == url[k] == '/'; }
      DigitsEndDetermined(url, j + 1, k);
    } else if j < |url| {
      assert url[k..][0] == url[j] == '/';
    }
  }

  lemma ParseHostComplete(url: string, host: string)
    requires MatchesUrlPattern(url, host)
    ensures ParseHost(url) == Some(host)
  {
    var i, j, k :| 0 <= i <= j <= k <= |url| && IsScheme(url[..i]) && url[i..j] == host
      && IsHost(url[i..j]) && IsPort(url[j..k]) && IsPath(url[k..]);
    SchemeDetermined(url, i);
    HostGroupMaximal(url, i, j, k);
    PortGroupDetermined(url, j, k);
  }

  /** The matcher finds the host group exactly when the pattern matches
      with that host: the pattern's decomposition is unique. */
  lemma ParseHostMatchesPattern(url: string, host: string)
    ensures ParseHost(url) == Some(host) <==> MatchesUrlPattern(url, host)
  {
    if ParseHost(url) == Some(host) {
      ParseHostSound(url);
    }
    if MatchesUrlPattern(url, host) {
      ParseHostComplete(url, host);
    }
  }

  // ---------------------------------------------------------------------
  // The checks

  /** `url == null || url.trim().isEmpty()` */
  predicate IsMissingOrBlank(url: Option<string>) {
    url.None? || IsBlank(url.value)
  }

  /** One of PRIVATE_IP_PATTERNS, matched against the whole host:
      `^10\..*`, `^172\.(1[6-9]|2[0-9]|3[0-1])\..*` and `^192\.168\..*`. */
  predicate MatchesPrivatePattern(host: string, p: nat) {
    if p == 0 then StartsWith(host, "10.")
    else if p == 1 then
      |host| >= 7 && host[..4] == "172." && host[6] == '.'
      && ((host[4] == '1' && '6' <= host[5] <= '9')
          || (host[4] == '2' && '0' <= host[5] <= '9')
          || (host[4] == '3' && '0' <= host[5] <= '1'))
    else p == 2 && StartsWith(host, "192.168.")
  }

  const PrivatePatternCount: nat := 3

  /** The loop over PRIVATE_IP_PATTERNS: does any of them match? */
  predicate IsPrivateHost(host: string) {
    exists p :: 0 <= p < PrivatePatternCount && MatchesPrivatePattern(host, p)
  }

  /** `parsedUrl.getProtocol().toLowerCase()`, with the host and protocol
      `java.net.URL` reports taken to be the pattern's groups. */
  function Protocol(url: string): string {
    var n := SchemeLength(url);
    if n == 0 then [] else ToLowerAscii(url[..n - 3])
  }

  /** `getValidationError`: the message of the first failing check, or
      `None` (Java's `null`) when the URL is acceptable. */
  function ValidationError(url: Option<string>): (r: Option<string>)
    ensures r.None? ==> url.Some? && 0 < |url.value| && Utf16Length(url.value) <= MaxUrlLength
  {
    if IsMissingOrBlank(url) then Some(EmptyMessage)
    else if Utf16Length(url.value) > MaxUrlLength then Some(LengthMessage)
    else match ParseHost(url.value)
      case None => Some(FormatMessage)
      case Some(h) =>
        var host := ToLowerAscii(h);
        if host in BlockedDomains then Some(LoopbackMessage)
        else if IsPrivateHost(host) then Some(PrivateIpMessage)
        else if Protocol(url.value) != "http" && Protocol(url.value) != "https" then Some(ProtocolMessage)
        else None
  }

  /** The chain in order: each message is returned exactly when every
      earlier check passes and its own fails, and the protocol check,
      which the pattern makes redundant, never fires. */
  lemma ValidationErrorCases(url: Option<string>)
    ensures ValidationError(url) == Some(EmptyMessage) <==> IsMissingOrBlank(url)
    ensures ValidationError(url) == Some(LengthMessage) <==> !IsMissingOrBlank(url) && Utf16Length(url.value) > MaxUrlLength
    ensures ValidationError(url) == Some(FormatMessage) <==>
      !IsMissingOrBlank(url) && Utf16Length(url.value) <= MaxUrlLength && ParseHost(url.value).None?
    ensures ValidationError(url) == Some(LoopbackMessage) <==>
      !IsMissingOrBlank(url) && Utf16Length(url.value) <= MaxUrlLength && ParseHost(url.value).Some?
      && ToLowerAscii(ParseHost(url.value).value) in BlockedDomains
    ensures ValidationError(url) == Some(PrivateIpMessage) <==>
      !IsMissingOrBlank(url) && Utf16Length(url.value) <= MaxUrlLength && ParseHost(url.value).Some?
      && ToLowerAscii(ParseHost(url.value).value) !in BlockedDomains
      && IsPrivateHost(ToLowerAscii(ParseHost(url.value).value))
    ensures ValidationError(url) != Some(ProtocolMessage)
    ensures ValidationError(url) == None <==>
      !IsMissingOrBlank(url) && Utf16Length(url.value) <= MaxUrlLength && ParseHost(url.value).Some?
      && ToLowerAscii(ParseHost(url.value).value) !in BlockedDomains
      && !IsPrivateHost(ToLowerAscii(ParseHost(url.value).value))
  {
    if !IsMissingOrBlank(url) && Utf16Length(url.value) <= MaxUrlLength && ParseHost(url.value).Some? {
      ProtocolAlwaysHttp(url.value);
    }
  }

  /** `isValid`: the same checks, answering true or false. */
  function IsValid(url: Option<string>): (ok: bool)
    ensures ok <==> ValidationError(url).None?
  {
    if url.None? || IsBlank(url.value) then false
    else if Utf16Length(url.value) > MaxUrlLength then false
    else match ParseHost(url.value)
      case None => false
      case Some(h) =>
        var host := ToLowerAscii(h);
        if host in BlockedDomains then false
        else if exists p :: 0 <= p < PrivatePatternCount && MatchesPrivatePattern(host, p) then false
        else Protocol(url.value) == "http" || Protocol(url.value) == "https"
  }

  // ---------------------------------------------------------------------
  // Facts about the chain

  /** Whatever the pattern accepts has protocol http or https, so the
      protocol check never fires after a match. */
  lemma ProtocolAlwaysHttp(url: string)
    requires ParseHost(url).Some?
    ensures Protocol(url) == "http" || Protocol(url) == "https"
  {
    var n := SchemeLength(url);
    var low := ToLowerAscii(url[..n]);
    assert ToLowerAscii(url[..n - 3]) == low[..n - 3];
  }

  /** The `::1` entry of BLOCKED_DOMAINS can never be the host: `:` is not
      a host character. */
  lemma LoopbackIpv6Unreachable(url: string)
    requires ParseHost(url).Some?
    ensures ToLowerAscii(ParseHost(url).value) != "::1"
  {
    var h := ParseHost(url).value;
    assert IsHostChar(h[0]);
    assert ToLowerAscii(h)[0] == LowerChar(h[0]) != ':';
    assert "::1"[0] == ':';
  }

  /** An accepted URL is short enough, starts with an http or https
      scheme and names a host outside the blocked and private ranges. */
  lemma AcceptedUrlShape(url: string)
    requires IsValid(Some(url))
    ensures 0 < |url| && Utf16Length(url) <= MaxUrlLength
    ensures StartsWith(ToLowerAscii(url), "http://") || StartsWith(ToLowerAscii(url), "https://")
    ensures exists host :: (MatchesUrlPattern(url, host)
      && ToLowerAscii(host) !in BlockedDomains && !IsPrivateHost(ToLowerAscii(host)))
  {
    var host := ParseHost(url).value;
    ParseHostMatchesPattern(url, host);
    SchemePrefix(url);
  }

  /** A URL the pattern accepts starts with its scheme, in any case. */
  lemma SchemePrefix(url: string)
    requires ParseHost(url).Some?
    ensures StartsWith(ToLowerAscii(url), "http://") || StartsWith(ToLowerAscii(url), "https://")
  {
    var n := SchemeLength(url);
    assert ToLowerAscii(url)[..n] == ToLowerAscii(url[..n]);
  }

  /** Worked examples of the chain. */
  lemma RejectsPrivateRange()
    ensures ValidationError(Some("http://172.20.1.1")) == Some(PrivateIpMessage)
  {
    var url := "http://172.20.1.1";
    assert !IsBlankChar(url[0]);
    Utf16LengthBounds(url);
    PrivateRangeHost();
    PrivateRangeHostIsPrivate();
  }

  lemma PrivateRangeHostIsPrivate()
    ensures ToLowerAscii("172.20.1.1") == "172.20.1.1"
    ensures "172.20.1.1" !in BlockedDomains && IsPrivateHost("172.20.1.1")
  {
    assert MatchesPrivatePattern("172.20.1.1", 1);
  }

  lemma PrivateRangeHost()
    ensures ParseHost("http://172.20.1.1") == Some("172.20.1.1")
  {
    var url := "http://172.20.1.1";
    assert ToLowerAscii(url[..8])[4] == ':';
    assert ToLowerAscii(url[..7]) == "http://";
    assert SchemeLength(url) == 7;
    assert HostEnd(url, 7) == 17 by { HostEndDetermined(url, 7, 17); }
    assert PortEnd(url, 17) == Some(17);
    assert IsPath(url[17..]);
    assert url[7..17] == "172.20.1.1";
  }

  lemma RejectsOtherScheme()
    ensures ValidationError(Some("ftp://example.com")) == Some(FormatMessage)
  {
    var url := "ftp://example.com";
    assert !IsBlankChar(url[0]);
    Utf16LengthBounds(url);
    OtherSchemeHost();
  }

  lemma OtherSchemeHost()
    ensures ParseHost("ftp://example.com").None?
  {
    var url := "ftp://example.com";
    assert ToLowerAscii(url[..8])[0] == 'f';
    assert ToLowerAscii(url[..7])[0] == 'f';
  }

  lemma RejectsBlank()
    ensures ValidationError(Some("   ")) == Some(EmptyMessage)
  {
  }
}
