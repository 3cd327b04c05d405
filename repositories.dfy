/** The Mongo repositories the services share (UrlRepository,
    AnalyticsRepository and the user lookup), as one in-memory store:
    documents by their unique short code, click records in the order they
    were saved, and user ids by e-mail. */
module Repositories {
  import opened Common
  import opened UrlEntity
  import Sorting

  /** An Analytics document: one click on one short code. */
  datatype ClickRecord = ClickRecord(
    shortCode: string,
    timestamp: int,
    ipAddress: Option<string>,
    userAgent: Option<string>,
    referer: Option<string>)

  /** The records for one short code, in the order they were saved. */
  function ClicksOf(log: seq<ClickRecord>, code: string): (r: seq<ClickRecord>)
    ensures |r| <= |log|
    ensures forall i :: 0 <= i < |r| ==> r[i].shortCode == code
    ensures multiset(r) <= multiset(log)
  {
    if log == [] then []
    else
      assert log == log[..|log| - 1] + [log[|log| - 1]];
      var rest := ClicksOf(log[..|log| - 1], code);
      if log[|log| - 1].shortCode == code then rest + [log[|log| - 1]] else rest
  }

  /** Nothing of the code is left out: each record occurs in the result as
      often as in the log when it has the code, and never otherwise. */
  lemma {:induction false} ClicksOfComplete(log: seq<ClickRecord>, code: string, c: ClickRecord)
    ensures multiset(ClicksOf(log, code))[c] == if c.shortCode == code then multiset(log)[c] else 0
  {
    if log != [] {
      var init, last := log[..|log| - 1], log[|log| - 1];
      assert log == init + [last];
      ClicksOfComplete(init, code, c);
    }
  }

  function NegatedTimestamp(c: ClickRecord): int {
    -c.timestamp
  }

  /** `findByShortCodeOrderByTimestampDesc`: newest first; the order among
      equal timestamps is left open. */
  function NewestFirst(log: seq<ClickRecord>, code: string): (r: seq<ClickRecord>)
    ensures multiset(r) == multiset(ClicksOf(log, code))
    ensures |r| == |ClicksOf(log, code)|
    ensures forall i :: 0 <= i < |r| ==> r[i].shortCode == code
    ensures forall i, j :: 0 <= i < j < |r| ==> r[i].timestamp >= r[j].timestamp
  {
    var clicks := ClicksOf(log, code);
    var r := Sorting.SortBy(clicks, NegatedTimestamp);
    assert forall i, j :: 0 <= i < j < |r| ==> NegatedTimestamp(r[i]) <= NegatedTimestamp(r[j]);
    ReorderKeepsCode(clicks, r, code);
    r
  }

  /** Reordering records of one code gives records of that code. */
  lemma ReorderKeepsCode(clicks: seq<ClickRecord>, r: seq<ClickRecord>, code: string)
    requires multiset(r) == multiset(clicks)
    requires forall i :: 0 <= i < |clicks| ==> clicks[i].shortCode == code
    ensures forall i :: 0 <= i < |r| ==> r[i].shortCode == code
  {
    forall i | 0 <= i < |r| ensures r[i].shortCode == code {
      assert r[i] in multiset(clicks);
      var k :| 0 <= k < |clicks| && clicks[k] == r[i];
    }
  }

  class Database {
    var urls: map<string, UrlDoc>
    var clicks: seq<ClickRecord>
    var users: map<string, string>

    /** Every document is filed under its own short code. */
    ghost predicate Valid()
      reads this
    {
      forall code :: code in urls ==> urls[code].shortCode == code
    }

    constructor (users: map<string, string>)
      ensures Valid() && urls == map[] && clicks == [] && this.users == users
    {
      urls := map[];
      clicks := [];
      this.users := users;
    }

    /** `urlRepository.save(url)`: inserts a new document (the store gives
        it `newId` and the creation time `now` and writes both back to the
        object) or replaces the stored one. The unique index on the short
        code is the caller's to respect: a new document never reuses a
        code, an update never moves to one. */
    method SaveUrl(u: Url, newId: string, now: int) returns (d: UrlDoc)
      requires Valid()
      requires u.id.None? ==> u.shortCode !in urls
      requires u.id.Some? ==> u.shortCode in urls && urls[u.shortCode].id == u.id.value
      modifies this, u
      ensures Valid()
      ensures d == old(u.DocWith(newId, now))
      ensures urls == old(urls)[d.shortCode := d]
      ensures u.id == Some(d.id) && u.createdAt == Some(d.createdAt) && u.Doc() == d
      ensures clicks == old(clicks) && users == old(users)
    {
      d := u.DocWith(newId, now);
      urls := urls[d.shortCode := d];
      u.id := Some(d.id);
      u.createdAt := Some(d.createdAt);
    }

    /** `analyticsRepository.save(analytics)` for a new record. */
    method AppendClick(c: ClickRecord)
      modifies this
      ensures clicks == old(clicks) + [c]
      ensures urls == old(urls) && users == old(users)
    {
      clicks := clicks + [c];
    }

    /** `urlRepository.delete(url)` */
    method DeleteUrl(code: string)
      requires Valid()
      modifies this
      ensures Valid()
      ensures urls == old(urls) - {code}
      ensures clicks == old(clicks) && users == old(users)
    {
      urls := urls - {code};
    }
  }
}
