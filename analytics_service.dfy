/** AnalyticsService.java: recording clicks and reporting them to the owner
    of a short URL. The creation time the store stamps on a click record is
    the parameter `now`. */
module AnalyticsServices {
  import opened Common
  import opened UrlEntity
  import opened Repositories
  import Sorting
  import UrlServices

  /** AnalyticsResponse.ClickDetail */
  datatype ClickDetail = ClickDetail(
    timestamp: int,
    ipAddress: Option<string>,
    userAgent: Option<string>,
    referer: Option<string>)

  /** AnalyticsResponse */
  datatype AnalyticsResponse = AnalyticsResponse(
    shortCode: string,
    originalUrl: string,
    totalClicks: nat,
    createdAt: int,
    expiresAt: Option<int>,
    recentClicks: seq<ClickDetail>)

  /** `getAllAnalytics` shows the last 10 clicks of each URL ... */
  const OverviewClickLimit: nat := 10
  /** ... and `getAnalytics` the last 100 of one. */
  const DetailClickLimit: nat := 100

  const ViewPermissionMessage: string := "You don't have permission to view analytics for this URL"

  function Detail(c: ClickRecord): ClickDetail {
    ClickDetail(c.timestamp, c.ipAddress, c.userAgent, c.referer)
  }

  function Details(cs: seq<ClickRecord>): (ds: seq<ClickDetail>)
    ensures |ds| == |cs|
    ensures forall i :: 0 <= i < |cs| ==> ds[i] == Detail(cs[i])
  {
    if cs == [] then [] else [Detail(cs[0])] + Details(cs[1..])
  }

  /** The response both report operations build for one URL: the stored
      counter as the total, and the first `limit` of its clicks, newest
      first. */
  function AnalyticsOf(d: UrlDoc, log: seq<ClickRecord>, limit: nat): AnalyticsResponse {
    AnalyticsResponse(d.shortCode, d.originalUrl, d.clicks, d.createdAt, d.expiresAt,
      Details(Take(NewestFirst(log, d.shortCode), limit)))
  }

  /** A report lists at most `limit` clicks, all of them on its own URL and
      newest first, and it lists the `limit` newest (or every click, when
      there are fewer). Its total is the stored counter, whatever the
      number of records. */
  lemma RecentClicksAreNewest(d: UrlDoc, log: seq<ClickRecord>, limit: nat)
    ensures var r := AnalyticsOf(d, log, limit);
      && r.shortCode == d.shortCode && r.totalClicks == d.clicks
      && |r.recentClicks| == (if |ClicksOf(log, d.shortCode)| <= limit then |ClicksOf(log, d.shortCode)| else limit)
      && (forall i, j :: 0 <= i < j < |r.recentClicks| ==> r.recentClicks[i].timestamp >= r.recentClicks[j].timestamp)
      && (forall i :: 0 <= i < |r.recentClicks| ==>
            r.recentClicks[i] == Detail(NewestFirst(log, d.shortCode)[i])
            && NewestFirst(log, d.shortCode)[i].shortCode == d.shortCode)
      && (forall c :: c in ClicksOf(log, d.shortCode) && |r.recentClicks| < limit ==> Detail(c) in r.recentClicks)
  {
    ShownAreNewest(NewestFirst(log, d.shortCode), limit);
    ShownAreAll(d, log, limit);
  }

  /** The shown clicks are the first `limit` of a newest-first list, in
      its order. */
  lemma ShownAreNewest(sorted: seq<ClickRecord>, limit: nat)
    requires forall i, j :: 0 <= i < j < |sorted| ==> sorted[i].timestamp >= sorted[j].timestamp
    ensures var shown := Details(Take(sorted, limit));
      && |shown| == (if |sorted| <= limit then |sorted| else limit)
      && (forall i, j :: 0 <= i < j < |shown| ==> shown[i].timestamp >= shown[j].timestamp)
      && (forall i :: 0 <= i < |shown| ==> shown[i] == Detail(sorted[i]))
  {
    var shown := Details(Take(sorted, limit));
    forall i | 0 <= i < |shown| ensures shown[i] == Detail(sorted[i]) {
    }
  }

  /** A report shorter than the limit lists every click on its URL. */
  lemma ShownAreAll(d: UrlDoc, log: seq<ClickRecord>, limit: nat)
    ensures var r := AnalyticsOf(d, log, limit);
      forall c :: c in ClicksOf(log, d.shortCode) && |r.recentClicks| < limit ==> Detail(c) in r.recentClicks
  {
    var sorted := NewestFirst(log, d.shortCode);
    var shown := Details(Take(sorted, limit));
    assert AnalyticsOf(d, log, limit).recentClicks == shown;
    forall c | c in ClicksOf(log, d.shortCode) && |shown| < limit
      ensures Detail(c) in shown
    {
      assert c in multiset(sorted);
      ShortListShowsAll(sorted, limit, c);
    }
  }

  /** A list shorter than the limit is shown whole. */
  lemma ShortListShowsAll(sorted: seq<ClickRecord>, limit: nat, c: ClickRecord)
    requires c in sorted && |sorted| < limit
    ensures Detail(c) in Details(Take(sorted, limit))
  {
    var k :| 0 <= k < |sorted| && sorted[k] == c;
    assert Details(Take(sorted, limit))[k] == Detail(c);
  }

  /** A tracked click is one more record for its code, the newest when
      the clock does not run backwards. */
  lemma TrackedClickIsListed(log: seq<ClickRecord>, c: ClickRecord)
    ensures ClicksOf(log + [c], c.shortCode) == ClicksOf(log, c.shortCode) + [c]
    ensures forall code :: code != c.shortCode ==> ClicksOf(log + [c], code) == ClicksOf(log, code)
  {
    assert (log + [c])[..|log|] == log;
  }

  function NegatedCreatedAt(r: AnalyticsResponse): int {
    -r.createdAt
  }

  /** The overview's order: the most recently created URL first. */
  function NewestCreatedFirst(reports: seq<AnalyticsResponse>): (r: seq<AnalyticsResponse>)
    ensures multiset(r) == multiset(reports) && |r| == |reports|
    ensures forall i, j :: 0 <= i < j < |r| ==> r[i].createdAt >= r[j].createdAt
  {
    var r := Sorting.SortBy(reports, NegatedCreatedAt);
    assert forall i, j :: 0 <= i < j < |r| ==> NegatedCreatedAt(r[i]) <= NegatedCreatedAt(r[j]);
    r
  }

  /** The codes of the URLs a list of reports describes. */
  function ReportedCodes(reports: seq<AnalyticsResponse>): set<string> {
    set r | r in reports :: r.shortCode
  }

  /** Each report is the overview of the stored URL it names. */
  predicate ReportsStored(reports: seq<AnalyticsResponse>, urls: map<string, UrlDoc>, log: seq<ClickRecord>, limit: nat) {
    forall r | r in reports :: r.shortCode in urls && r == AnalyticsOf(urls[r.shortCode], log, limit)
  }

  /** Adding the report on one more stored URL adds its code. */
  lemma ReportsSnoc(reports: seq<AnalyticsResponse>, urls: map<string, UrlDoc>, log: seq<ClickRecord>,
                    limit: nat, code: string)
    requires ReportsStored(reports, urls, log, limit)
    requires code in urls && urls[code].shortCode == code
    ensures ReportedCodes(reports + [AnalyticsOf(urls[code], log, limit)]) == ReportedCodes(reports) + {code}
    ensures ReportsStored(reports + [AnalyticsOf(urls[code], log, limit)], urls, log, limit)
  {
    var report := AnalyticsOf(urls[code], log, limit);
    var next := reports + [report];
    assert forall x :: x in next <==> x in reports || x == report;
  }

  /** One step of the overview loop: the report on one more owned code
      keeps the loop's bookkeeping. */
  lemma ReportStep(reports: seq<AnalyticsResponse>, remaining: set<string>, owned: set<string>,
                   urls: map<string, UrlDoc>, log: seq<ClickRecord>, code: string)
    requires remaining <= owned && ReportedCodes(reports) == owned - remaining
    requires |reports| + |remaining| == |owned|
    requires ReportsStored(reports, urls, log, OverviewClickLimit)
    requires code in remaining && code in urls && urls[code].shortCode == code
    ensures var next := reports + [AnalyticsOf(urls[code], log, OverviewClickLimit)];
      && ReportedCodes(next) == owned - (remaining - {code})
      && |next| + |remaining - {code}| == |owned|
      && ReportsStored(next, urls, log, OverviewClickLimit)
  {
    ReportsSnoc(reports, urls, log, OverviewClickLimit, code);
    assert |remaining - {code}| == |remaining| - 1;
  }

  /** Reordering reports keeps what they describe. */
  lemma ReportsReordered(a: seq<AnalyticsResponse>, b: seq<AnalyticsResponse>, urls: map<string, UrlDoc>,
                         log: seq<ClickRecord>, limit: nat)
    requires multiset(a) == multiset(b)
    ensures ReportedCodes(a) == ReportedCodes(b)
    ensures ReportsStored(a, urls, log, limit) <==> ReportsStored(b, urls, log, limit)
  {
    forall r ensures r in a <==> r in b {
      assert r in a <==> r in multiset(a);
      assert r in b <==> r in multiset(b);
    }
  }

  class AnalyticsService {
    const db: Database

    constructor (db: Database)
      ensures this.db == db
    {
      this.db := db;
    }

    /** `trackClick`: bump the URL's counter and save one click record. An
        unknown code throws and changes nothing. */
    method TrackClick(shortCode: string, ipAddress: Option<string>, userAgent: Option<string>,
                      referer: Option<string>, now: int) returns (err: Option<UrlServices.ServiceError>)
      requires db.Valid()
      modifies db
      ensures db.Valid()
      ensures err.Some? <==> shortCode !in old(db.urls)
      ensures err.Some? ==>
        && err.value == UrlServices.NotFound(UrlServices.UrlNotFoundMessage)
        && db.urls == old(db.urls) && db.clicks == old(db.clicks)
      ensures err.None? ==>
        && db.urls == old(db.urls)[shortCode := old(db.urls)[shortCode].(clicks := old(db.urls)[shortCode].clicks + 1)]
        && db.clicks == old(db.clicks) + [ClickRecord(shortCode, now, ipAddress, userAgent, referer)]
      ensures db.users == old(db.users)
    {
      if shortCode !in db.urls {
        return Some(UrlServices.NotFound(UrlServices.UrlNotFoundMessage));
      }
      var url := new Url.Load(db.urls[shortCode]);
      url.IncrementClicks();
      var _ := db.SaveUrl(url, url.id.value, now);
      db.AppendClick(ClickRecord(shortCode, now, ipAddress, userAgent, referer));
      err := None;
    }

    /** `getAllAnalytics`: an overview of every URL the user owns, the most
        recently created first. */
    method GetAllAnalytics(userEmail: string) returns (r: Result<seq<AnalyticsResponse>, UrlServices.ServiceError>)
      requires db.Valid()
      ensures r.Err? <==> userEmail !in db.users
      ensures r.Err? ==> r.error == UrlServices.NotFound(UrlServices.UserNotFoundMessage)
      ensures r.Ok? ==>
        && ReportedCodes(r.value) == UrlServices.OwnedCodes(db.urls, db.users[userEmail])
        && |r.value| == |UrlServices.OwnedCodes(db.urls, db.users[userEmail])|
        && ReportsStored(r.value, db.urls, db.clicks, OverviewClickLimit)
        && forall i, j :: 0 <= i < j < |r.value| ==> r.value[i].createdAt >= r.value[j].createdAt
    {
      if userEmail !in db.users {
        return Err(UrlServices.NotFound(UrlServices.UserNotFoundMessage));
      }
      var urls, log := db.urls, db.clicks;
      var owned := UrlServices.OwnedCodes(urls, db.users[userEmail]);
      var remaining := owned;
      var reports: seq<AnalyticsResponse> := [];
      while remaining != {}
        invariant remaining <= owned
        invariant ReportedCodes(reports) == owned - remaining
        invariant |reports| + |remaining| == |owned|
        invariant ReportsStored(reports, urls, log, OverviewClickLimit)
        decreases |remaining|
      {
        var code :| code in remaining;
        ReportStep(reports, remaining, owned, urls, log, code);
        reports := reports + [AnalyticsOf(urls[code], log, OverviewClickLimit)];
        remaining := remaining - {code};
      }
      var sorted := NewestCreatedFirst(reports);
      ReportsReordered(reports, sorted, urls, log, OverviewClickLimit);
      r := Ok(sorted);
    }

    /** `getAnalytics`: the report on one URL, for its owner only. */
    method GetAnalytics(shortCode: string, userEmail: string) returns (r: Result<AnalyticsResponse, UrlServices.ServiceError>)
      ensures shortCode !in db.urls ==> r == Err(UrlServices.NotFound(UrlServices.UrlNotFoundMessage))
      ensures shortCode in db.urls && userEmail !in db.users ==>
        r == Err(UrlServices.NotFound(UrlServices.UserNotFoundMessage))
      ensures shortCode in db.urls && userEmail in db.users && db.urls[shortCode].userId != db.users[userEmail] ==>
        r == Err(UrlServices.IllegalArgument(ViewPermissionMessage))
      ensures r.Ok? <==> shortCode in db.urls && userEmail in db.users && db.urls[shortCode].userId == db.users[userEmail]
      ensures r.Ok? ==> r.value == AnalyticsOf(db.urls[shortCode], db.clicks, DetailClickLimit)
    {
      if shortCode !in db.urls {
        return Err(UrlServices.NotFound(UrlServices.UrlNotFoundMessage));
      }
      var url := db.urls[shortCode];
      if userEmail !in db.users {
        return Err(UrlServices.NotFound(UrlServices.UserNotFoundMessage));
      }
      if url.userId != db.users[userEmail] {
        return Err(UrlServices.IllegalArgument(ViewPermissionMessage));
      }
      r := Ok(AnalyticsOf(url, db.clicks, DetailClickLimit));
    }
  }
}
