/** RedirectService.java: resolving a short code to its original URL,
    cache first, and recording the click. The Redis cache is a map from key
    to value and expiry instant; the request is its headers and remote
    address. The click is tracked in line, with any error it raises
    dropped, as the asynchronous call does. */
module RedirectServices {
  import opened Common
  import opened UrlEntity
  import opened Repositories
  import AnalyticsServices
  import UrlServices

  /** The parts of the servlet request the service reads; a missing header
      is `None`. */
  datatype Request = Request(
    xForwardedFor: Option<string>,
    xRealIp: Option<string>,
    remoteAddr: Option<string>,
    userAgent: Option<string>,
    referer: Option<string>)

  /** A Redis value and the instant it expires. */
  datatype CacheEntry = CacheEntry(value: string, expiresAt: int)

  const CachePrefix: string := "url:"
  /** One hour, in milliseconds. */
  const CacheTtl: int := 3600000

  const ShortUrlNotFoundMessage: string := "Short URL not found"
  const ShortUrlExpiredMessage: string := "Short URL has expired"
  /** What element 0 of an empty array raises on a current JVM. */
  const EmptySplitMessage: string := "Index 0 out of bounds for length 0"

  // ---------------------------------------------------------------- client IP

  /** A header value worth using: present, non-empty and not `unknown` in
      any (ASCII) case. */
  predicate Usable(h: Option<string>) {
    h.Some? && h.value != [] && !EqualsIgnoreCase("unknown", h.value)
  }

  /** The address source in order of preference: X-Forwarded-For, then
      X-Real-IP, then the connection's remote address. */
  function ChosenIp(req: Request): (ip: Option<string>)
    ensures Usable(req.xForwardedFor) ==> ip == req.xForwardedFor
    ensures !Usable(req.xForwardedFor) && Usable(req.xRealIp) ==> ip == req.xRealIp
    ensures !Usable(req.xForwardedFor) && !Usable(req.xRealIp) ==> ip == req.remoteAddr
  {
    if Usable(req.xForwardedFor) then req.xForwardedFor
    else if Usable(req.xRealIp) then req.xRealIp
    else req.remoteAddr
  }

  /** The text before the first comma, or all of `s` when it has none. */
  function FirstSegment(s: string): (r: string)
    ensures ',' !in r
    ensures |r| <= |s| && r == s[..|r|]
    ensures |r| < |s| ==> s[|r|] == ','
    ensures ',' !in s ==> r == s
  {
    if s == [] || s[0] == ',' then []
    else [s[0]] + FirstSegment(s[1..])
  }

  /** Every comma-separated piece of `s`, empty ones included. */
  function Segments(s: string): (ps: seq<string>)
    ensures |ps| >= 1 && ps[0] == FirstSegment(s)
    decreases |s|
  {
    var f := FirstSegment(s);
    if |f| == |s| then [s] else [f] + Segments(s[|f| + 1..])
  }

  /** The pieces with the empty ones at the end removed. */
  function DropTrailingEmpty(ps: seq<string>): (r: seq<string>)
    ensures |r| <= |ps| && r == ps[..|r|]
    ensures forall i :: |r| <= i < |ps| ==> ps[i] == []
    ensures r != [] ==> r[|r| - 1] != []
  {
    if ps != [] && ps[|ps| - 1] == [] then DropTrailingEmpty(ps[..|ps| - 1]) else ps
  }

  /** Java's `split(",")`: a string without a comma is its own only piece;
      otherwise the pieces between commas, trailing empty ones dropped. */
  function JavaSplitComma(s: string): seq<string> {
    if ',' !in s then [s] else DropTrailingEmpty(Segments(s))
  }

  /** `getClientIp` as written: a chosen value made of commas only splits
      into no pieces at all, and taking piece 0 throws. */
  function ClientIpAsWritten(req: Request): Result<Option<string>, UrlServices.ServiceError> {
    var ip := ChosenIp(req);
    if ip.Some? && ',' in ip.value then
      var parts := JavaSplitComma(ip.value);
      if parts == [] then Err(UrlServices.Runtime(EmptySplitMessage)) else Ok(Some(Trim(parts[0])))
    else Ok(ip)
  }

  /** The client address: the chosen value cut at its first comma and
      trimmed. Never fails. */
  function ClientIp(req: Request): (ip: Option<string>)
    ensures ip.Some? ==> ',' !in ip.value
    ensures ip.None? <==> ChosenIp(req).None?
  {
    var chosen := ChosenIp(req);
    if chosen.Some? && ',' in chosen.value then
      var r := Trim(FirstSegment(chosen.value));
      assert forall i :: 0 <= i < |r| ==> r[i] in FirstSegment(chosen.value);
      Some(r)
    else chosen
  }

  predicate CommasOnly(s: string) {
    forall i :: 0 <= i < |s| ==> s[i] == ','
  }

  predicate AllEmpty(ps: seq<string>) {
    forall i :: 0 <= i < |ps| ==> ps[i] == []
  }

  /** Splitting `f + "," + rest` where `f` has no comma. */
  lemma CommasOnlyCons(f: string, rest: string)
    requires ',' !in f
    ensures CommasOnly(f + [','] + rest) <==> f == [] && CommasOnly(rest)
  {
    var s := f + [','] + rest;
    assert f != [] ==> s[0] == f[0] && f[0] in f;
    if f == [] && CommasOnly(rest) {
      forall i | 0 <= i < |s| ensures s[i] == ',' {
        if i > 0 {
          assert s[i] == rest[i - 1];
        }
      }
    }
    if CommasOnly(s) {
      forall i | 0 <= i < |rest| ensures rest[i] == ',' {
        assert rest[i] == s[|f| + 1 + i];
      }
    }
  }

  lemma AllEmptyCons(f: string, ps: seq<string>)
    ensures AllEmpty([f] + ps) <==> f == [] && AllEmpty(ps)
  {
    if AllEmpty([f] + ps) {
      assert ([f] + ps)[0] == f;
      forall i | 0 <= i < |ps| ensures ps[i] == [] {
        assert ps[i] == ([f] + ps)[i + 1];
      }
    }
  }

  /** A string made of commas only has only empty pieces, and only such a
      string does. */
  lemma {:induction false} SegmentsAllEmpty(s: string)
    ensures AllEmpty(Segments(s)) <==> CommasOnly(s)
    decreases |s|
  {
    var f := FirstSegment(s);
    if |f| == |s| {
      assert Segments(s) == [s];
      if s != [] {
        assert s[0] != ',';
      }
    } else {
      var rest := s[|f| + 1..];
      SegmentsAllEmpty(rest);
      assert Segments(s) == [f] + Segments(rest);
      assert s == f + [','] + rest;
      CommasOnlyCons(f, rest);
      AllEmptyCons(f, Segments(rest));
    }
  }

  /** Java's split of a string with a comma is empty exactly when the string
      is commas only, and otherwise starts with the text before the first
      comma. */
  lemma SplitEmptyIffCommasOnly(s: string)
    requires ',' in s
    ensures JavaSplitComma(s) == [] <==> forall i :: 0 <= i < |s| ==> s[i] == ','
    ensures JavaSplitComma(s) != [] ==> JavaSplitComma(s)[0] == FirstSegment(s)
  {
    var ps := Segments(s);
    var r := DropTrailingEmpty(ps);
    SegmentsAllEmpty(s);
    if r == [] {
      assert forall i :: 0 <= i < |ps| ==> ps[i] == [];
    } else {
      assert r[0] == ps[0];
    }
  }

  /** The first piece of the split is the text before the first comma, so
      the two definitions agree except on a value made of commas only,
      where the code as written throws. */
  lemma ClientIpAsWrittenFailsOnCommasOnly(req: Request)
    ensures ClientIpAsWritten(req).Err? <==>
      ChosenIp(req).Some? && ',' in ChosenIp(req).value
      && forall i :: 0 <= i < |ChosenIp(req).value| ==> ChosenIp(req).value[i] == ','
    ensures ClientIpAsWritten(req).Ok? ==> ClientIpAsWritten(req).value == ClientIp(req)
  {
    var chosen := ChosenIp(req);
    if chosen.Some? && ',' in chosen.value {
      SplitEmptyIffCommasOnly(chosen.value);
    }
  }

  /** A request whose X-Forwarded-For header is a lone comma: the code as
      written throws instead of answering with an address. */
  lemma CommaOnlyForwardedForThrows()
    ensures ClientIpAsWritten(Request(Some(","), None, Some("203.0.113.7"), None, None)).Err?
    ensures ClientIp(Request(Some(","), None, Some("203.0.113.7"), None, None)) == Some("")
  {
    var req := Request(Some(","), None, Some("203.0.113.7"), None, None);
    assert ToLowerAscii(",") != ToLowerAscii("unknown");
    assert ChosenIp(req) == Some(",");
    assert ',' in ",";
    ClientIpAsWrittenFailsOnCommasOnly(req);
    assert FirstSegment(",") == [];
  }

  /** The address is the chosen source's value, unchanged when it holds no
      comma, and otherwise its first comma-separated piece without
      surrounding blanks; a proxy chain `client, proxy1, proxy2` yields
      `client`. */
  lemma ClientIpIsFirstHop(req: Request)
    ensures ChosenIp(req).Some? && ',' !in ChosenIp(req).value ==> ClientIp(req) == ChosenIp(req)
    ensures ChosenIp(req).Some? && ',' in ChosenIp(req).value ==>
      && ClientIp(req).Some?
      && (ClientIp(req).value != [] ==> !IsBlankChar(ClientIp(req).value[0]) && !IsBlankChar(ClientIp(req).value[|ClientIp(req).value| - 1]))
      && exists k :: 0 <= k <= |ChosenIp(req).value| && ClientIp(req).value == Trim(ChosenIp(req).value[..k])
           && (k < |ChosenIp(req).value| ==> ChosenIp(req).value[k] == ',')
           && ',' !in ChosenIp(req).value[..k]
  {
    var chosen := ChosenIp(req);
    if chosen.Some? && ',' in chosen.value {
      var f := FirstSegment(chosen.value);
      assert ClientIp(req).value == Trim(chosen.value[..|f|]);
    }
  }

  // ---------------------------------------------------------------- cache

  function CacheKey(shortCode: string): string {
    CachePrefix + shortCode
  }

  /** Distinct codes never share a cache entry. */
  lemma CacheKeyInjective(a: string, b: string)
    ensures CacheKey(a) == CacheKey(b) <==> a == b
  {
    if CacheKey(a) == CacheKey(b) {
      assert a == CacheKey(a)[|CachePrefix|..];
      assert b == CacheKey(b)[|CachePrefix|..];
    }
  }

  /** A Redis `get`: the value of a key that has not yet expired. A failed
      read is caught and counts as a miss. */
  function CacheRead(cache: map<string, CacheEntry>, key: string, now: int, readFails: bool): (v: Option<string>)
    ensures v.Some? <==> !readFails && key in cache && now <= cache[key].expiresAt
    ensures v.Some? ==> v.value == cache[key].value
  {
    if !readFails && key in cache && now <= cache[key].expiresAt then Some(cache[key].value) else None
  }

  /** What `getOriginalUrl` answers: a cached value as it is, otherwise
      the stored URL, unless there is none or it has expired. */
  function Resolution(cache: map<string, CacheEntry>, urls: map<string, UrlDoc>, shortCode: string,
                      now: int, readFails: bool): Result<string, UrlServices.ServiceError>
  {
    var hit := CacheRead(cache, CacheKey(shortCode), now, readFails);
    if hit.Some? then Ok(hit.value)
    else if shortCode !in urls then Err(UrlServices.NotFound(ShortUrlNotFoundMessage))
    else if ExpiredAt(urls[shortCode].expiresAt, now) then Err(UrlServices.NotFound(ShortUrlExpiredMessage))
    else Ok(urls[shortCode].originalUrl)
  }

  /** The cache once `getOriginalUrl` is done: written (for one hour) only
      after a miss that found a live URL, and only when the write works. */
  function CacheAfter(cache: map<string, CacheEntry>, urls: map<string, UrlDoc>, shortCode: string,
                      now: int, readFails: bool, writeFails: bool): (c: map<string, CacheEntry>)
    ensures c.Keys <= cache.Keys + {CacheKey(shortCode)}
    ensures forall k :: k in cache && k != CacheKey(shortCode) ==> k in c && c[k] == cache[k]
  {
    if CacheRead(cache, CacheKey(shortCode), now, readFails).None?
       && Resolution(cache, urls, shortCode, now, readFails).Ok? && !writeFails
    then cache[CacheKey(shortCode) := CacheEntry(urls[shortCode].originalUrl, now + CacheTtl)]
    else cache
  }

  /** The cases of a resolution: a hit answers without consulting the store
      at all; a miss answers from the store, with the two not-found
      messages; a failed read is a miss. */
  lemma ResolutionCases(cache: map<string, CacheEntry>, urls: map<string, UrlDoc>, shortCode: string,
                        now: int, readFails: bool)
    ensures CacheRead(cache, CacheKey(shortCode), now, readFails).Some? ==>
      forall other :: Resolution(cache, other, shortCode, now, readFails)
                      == Ok(cache[CacheKey(shortCode)].value)
    ensures CacheRead(cache, CacheKey(shortCode), now, readFails).None? ==>
      && (Resolution(cache, urls, shortCode, now, readFails).Ok? <==>
            shortCode in urls && !ExpiredAt(urls[shortCode].expiresAt, now))
      && (Resolution(cache, urls, shortCode, now, readFails).Ok? ==>
            Resolution(cache, urls, shortCode, now, readFails).value == urls[shortCode].originalUrl)
      && (shortCode !in urls ==>
            Resolution(cache, urls, shortCode, now, readFails) == Err(UrlServices.NotFound(ShortUrlNotFoundMessage)))
      && (shortCode in urls && ExpiredAt(urls[shortCode].expiresAt, now) ==>
            Resolution(cache, urls, shortCode, now, readFails) == Err(UrlServices.NotFound(ShortUrlExpiredMessage)))
    ensures Resolution(cache, urls, shortCode, now, true) == Resolution(map[], urls, shortCode, now, false)
  {
  }

  /** After a miss warms the cache, every read in the following hour
      answers the same URL, even if the store has since dropped it or it
      has expired there: the cache is never invalidated. */
  lemma WarmCacheAnswersForAnHour(cache: map<string, CacheEntry>, urls: map<string, UrlDoc>, shortCode: string,
                                  now: int, readFails: bool, later: int, laterUrls: map<string, UrlDoc>)
    requires CacheRead(cache, CacheKey(shortCode), now, readFails).None?
    requires Resolution(cache, urls, shortCode, now, readFails).Ok?
    requires now <= later <= now + CacheTtl
    ensures Resolution(CacheAfter(cache, urls, shortCode, now, readFails, false), laterUrls, shortCode, later, false)
            == Resolution(cache, urls, shortCode, now, readFails)
  {
    var c := CacheAfter(cache, urls, shortCode, now, readFails, false);
    assert c[CacheKey(shortCode)] == CacheEntry(urls[shortCode].originalUrl, now + CacheTtl);
  }

  /** A click is recorded exactly for a request that resolved and whose
      code is still stored (tracking an unknown code fails, unseen). */
  predicate ClickTracked(r: Result<string, UrlServices.ServiceError>, urls: map<string, UrlDoc>, shortCode: string) {
    r.Ok? && shortCode in urls
  }

  class RedirectService {
    const db: Database
    const analytics: AnalyticsServices.AnalyticsService
    var cache: map<string, CacheEntry>

    /** The service and the click tracker share one store. */
    ghost predicate Valid()
      reads this, db, analytics
    {
      analytics.db == db && db.Valid()
    }

    constructor (db: Database, analytics: AnalyticsServices.AnalyticsService, cache: map<string, CacheEntry>)
      requires analytics.db == db
      ensures this.db == db && this.analytics == analytics && this.cache == cache
    {
      this.db := db;
      this.analytics := analytics;
      this.cache := cache;
    }

    /** `getClientIp`: each fallback replaces an unusable value, then a
        list is cut at its first comma. */
    method GetClientIp(req: Request) returns (ip: Option<string>)
      ensures ip == ClientIp(req)
    {
      ip := req.xForwardedFor;
      if !Usable(ip) {
        ip := req.xRealIp;
      }
      if !Usable(ip) {
        ip := req.remoteAddr;
      }
      if ip.Some? && ',' in ip.value {
        ip := Some(Trim(FirstSegment(ip.value)));
      }
    }

    /** `getOriginalUrl`: `readFails` and `writeFails` say whether the
        Redis calls throw; `now` is the clock. */
    method GetOriginalUrl(shortCode: string, req: Request, now: int, readFails: bool, writeFails: bool)
      returns (r: Result<string, UrlServices.ServiceError>)
      requires Valid()
      modifies this, db
      ensures Valid()
      ensures r == Resolution(old(cache), old(db.urls), shortCode, now, readFails)
      ensures cache == CacheAfter(old(cache), old(db.urls), shortCode, now, readFails, writeFails)
      ensures ClickTracked(r, old(db.urls), shortCode) ==>
        && db.urls == old(db.urls)[shortCode := old(db.urls)[shortCode].(clicks := old(db.urls)[shortCode].clicks + 1)]
        && db.clicks == old(db.clicks) + [ClickRecord(shortCode, now, ClientIp(req), req.userAgent, req.referer)]
      ensures !ClickTracked(r, old(db.urls), shortCode) ==> db.urls == old(db.urls) && db.clicks == old(db.clicks)
      ensures db.users == old(db.users)
    {
      var ipAddress := GetClientIp(req);
      var key := CacheKey(shortCode);
      var originalUrl := CacheRead(cache, key, now, readFails);
      if originalUrl.Some? {
        var _ := analytics.TrackClick(shortCode, ipAddress, req.userAgent, req.referer, now);
        return Ok(originalUrl.value);
      }
      r := ResolveMiss(shortCode, req, ipAddress, now, readFails, writeFails);
    }

    /** The rest of `getOriginalUrl` after a cache miss: the store's URL,
        unless there is none or it has expired, written to the cache for an
        hour and its click tracked. */
    method ResolveMiss(shortCode: string, req: Request, ipAddress: Option<string>, now: int,
                       readFails: bool, writeFails: bool)
      returns (r: Result<string, UrlServices.ServiceError>)
      requires Valid()
      requires CacheRead(cache, CacheKey(shortCode), now, readFails).None?
      requires ipAddress == ClientIp(req)
      modifies this, db
      ensures Valid()
      ensures r == Resolution(old(cache), old(db.urls), shortCode, now, readFails)
      ensures cache == CacheAfter(old(cache), old(db.urls), shortCode, now, readFails, writeFails)
      ensures ClickTracked(r, old(db.urls), shortCode) ==>
        && db.urls == old(db.urls)[shortCode := old(db.urls)[shortCode].(clicks := old(db.urls)[shortCode].clicks + 1)]
        && db.clicks == old(db.clicks) + [ClickRecord(shortCode, now, ClientIp(req), req.userAgent, req.referer)]
      ensures !ClickTracked(r, old(db.urls), shortCode) ==> db.urls == old(db.urls) && db.clicks == old(db.clicks)
      ensures db.users == old(db.users)
    {
      if shortCode !in db.urls {
        return Err(UrlServices.NotFound(ShortUrlNotFoundMessage));
      }
      var url := new Url.Load(db.urls[shortCode]);
      if url.IsExpired(now) {
        return Err(UrlServices.NotFound(ShortUrlExpiredMessage));
      }
      if !writeFails {
        cache := cache[CacheKey(shortCode) := CacheEntry(url.originalUrl, now + CacheTtl)];
      }
      var _ := analytics.TrackClick(shortCode, ipAddress, req.userAgent, req.referer, now);
      r := Ok(url.originalUrl);
    }
  }
}
