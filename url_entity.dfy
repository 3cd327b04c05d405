/** Url.java: the short-URL entity. Times are milliseconds on one clock,
    which the caller supplies (`LocalDateTime.now()` is not modelled). */
module UrlEntity {
  import opened Common

  /** A Url document as the store holds it once saved: the store has given
      it an id and a creation time. */
  datatype UrlDoc = UrlDoc(
    id: string,
    originalUrl: string,
    shortCode: string,
    userId: string,
    clicks: nat,
    expiresAt: Option<int>,
    createdAt: int)

  /** Strictly after: a URL is still live at the very instant it expires. */
  predicate ExpiredAt(expiresAt: Option<int>, now: int) {
    expiresAt.Some? && now > expiresAt.value
  }

  /** An entity object: built empty by `new Url()` or loaded from a stored
      document; its setters are plain field assignments. */
  class Url {
    var id: Option<string>
    var originalUrl: string
    var shortCode: string
    var userId: string
    var clicks: nat
    var expiresAt: Option<int>
    var createdAt: Option<int>

    /** `new Url()`: no id, no expiry, no creation time, and `clicks = 0`. */
    constructor ()
      ensures id == None && expiresAt == None && createdAt == None
      ensures clicks == 0
    {
      id := None;
      originalUrl := "";
      shortCode := "";
      userId := "";
      clicks := 0;
      expiresAt := None;
      createdAt := None;
    }

    /** An entity read back from the store. */
    constructor Load(d: UrlDoc)
      ensures id == Some(d.id) && createdAt == Some(d.createdAt) && Doc() == d
    {
      id := Some(d.id);
      originalUrl := d.originalUrl;
      shortCode := d.shortCode;
      userId := d.userId;
      clicks := d.clicks;
      expiresAt := d.expiresAt;
      createdAt := Some(d.createdAt);
    }

    /** The document this object would be stored as, with the store's id
        and clock used where the object has none yet. */
    function DocWith(newId: string, now: int): (d: UrlDoc)
      reads this
      ensures d.id == (if id.Some? then id.value else newId)
      ensures d.createdAt == (if createdAt.Some? then createdAt.value else now)
      ensures d.shortCode == shortCode && d.clicks == clicks && d.expiresAt == expiresAt
    {
      UrlDoc(
        if id.Some? then id.value else newId,
        originalUrl, shortCode, userId, clicks, expiresAt,
        if createdAt.Some? then createdAt.value else now)
    }

    function Doc(): UrlDoc
      reads this
      requires id.Some? && createdAt.Some?
    {
      DocWith(id.value, createdAt.value)
    }

    /** `incrementClicks`: one more click, nothing else changes. */
    method IncrementClicks()
      modifies this
      ensures clicks == old(clicks) + 1
      ensures id == old(id) && originalUrl == old(originalUrl) && shortCode == old(shortCode)
      ensures userId == old(userId) && expiresAt == old(expiresAt) && createdAt == old(createdAt)
    {
      clicks := clicks + 1;
    }

    /** `isExpired`, at the instant `now`. */
    predicate IsExpired(now: int)
      reads this
    {
      ExpiredAt(expiresAt, now)
    }
  }

  /** A URL without an expiry never expires; one with an expiry is live up
      to and including that instant and expired at every later one. */
  lemma ExpiryIsStrict(expiresAt: Option<int>, now: int)
    ensures expiresAt.None? ==> !ExpiredAt(expiresAt, now)
    ensures expiresAt.Some? ==> (ExpiredAt(expiresAt, now) <==> now > expiresAt.value)
    ensures expiresAt.Some? ==> !ExpiredAt(expiresAt, expiresAt.value)
  {
  }
}
