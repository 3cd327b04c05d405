/** What the React client touches outside its own component state:
    `localStorage`, `window.location`, the clipboard, the toast queue and
    the requests it sends. The pages and the session store share one
    `Browser` object. */
module Web {
  import opened Common

  datatype ToastKind = Success | Failure

  /** One `showToast(message, kind)` call. */
  datatype Toast = Toast(message: string, kind: ToastKind)

  /** A request the client sends through the API gateway. */
  datatype ApiCall =
    | ShortenCall(url: string, expiryHours: Option<int>)
    | UserUrlsCall(page: int, size: int)
    | DeleteCall(shortCode: string)
    | AllAnalyticsCall

  /** A rejected request: the HTTP status when a response arrived, and the
      `message` field of its body when it has one. */
  datatype HttpError = HttpError(status: Option<int>, message: Option<string>)

  /** `error.response?.data?.message || fallback`. */
  function ErrorText(e: HttpError, fallback: string): (t: string)
    ensures e.message.Some? && e.message.value != [] ==> t == e.message.value
    ensures e.message.None? || e.message.value == [] ==> t == fallback
  {
    if e.message.Some? && e.message.value != [] then e.message.value else fallback
  }

  /** `${window.location.origin}/${shortCode}`: the link the client shows
      and copies for a short code. */
  function ShortLink(origin: string, shortCode: string): (link: string)
    ensures |link| == |origin| + 1 + |shortCode|
    ensures StartsWith(link, origin + "/") && EndsWith(link, shortCode)
  {
    origin + "/" + shortCode
  }

  /** On one origin, distinct codes give distinct links. */
  lemma ShortLinkInjective(origin: string, a: string, b: string)
    ensures ShortLink(origin, a) == ShortLink(origin, b) <==> a == b
  {
    if ShortLink(origin, a) == ShortLink(origin, b) {
      assert a == ShortLink(origin, a)[|origin| + 1..];
      assert b == ShortLink(origin, b)[|origin| + 1..];
    }
  }

  class Browser {
    /** `localStorage`, key to value. */
    var storage: map<string, string>
    /** `window.location.href` */
    var location: string
    var clipboard: string
    var toasts: seq<Toast>
    var requests: seq<ApiCall>
    /** `window.location.origin` */
    const origin: string

    constructor (origin: string, storage: map<string, string>, location: string)
      ensures this.origin == origin && this.storage == storage && this.location == location
      ensures clipboard == "" && toasts == [] && requests == []
    {
      this.origin := origin;
      this.storage := storage;
      this.location := location;
      clipboard := "";
      toasts := [];
      requests := [];
    }

    /** `localStorage.getItem(key)` */
    function GetItem(key: string): (v: Option<string>)
      reads this
      ensures v.Some? <==> key in storage
      ensures v.Some? ==> v.value == storage[key]
    {
      if key in storage then Some(storage[key]) else None
    }

    /** `localStorage.setItem(key, value)` */
    method SetItem(key: string, value: string)
      modifies this
      ensures storage == old(storage)[key := value]
      ensures location == old(location) && clipboard == old(clipboard)
      ensures toasts == old(toasts) && requests == old(requests)
    {
      storage := storage[key := value];
    }

    /** `localStorage.removeItem(key)`; an absent key is no error. */
    method RemoveItem(key: string)
      modifies this
      ensures storage == old(storage) - {key}
      ensures location == old(location) && clipboard == old(clipboard)
      ensures toasts == old(toasts) && requests == old(requests)
    {
      storage := storage - {key};
    }

    method ShowToast(message: string, kind: ToastKind)
      modifies this
      ensures toasts == old(toasts) + [Toast(message, kind)]
      ensures storage == old(storage) && location == old(location)
      ensures clipboard == old(clipboard) && requests == old(requests)
    {
      toasts := toasts + [Toast(message, kind)];
    }

    method Send(call: ApiCall)
      modifies this
      ensures requests == old(requests) + [call]
      ensures storage == old(storage) && location == old(location)
      ensures clipboard == old(clipboard) && toasts == old(toasts)
    {
      requests := requests + [call];
    }

    method Navigate(href: string)
      modifies this
      ensures location == href
      ensures storage == old(storage) && clipboard == old(clipboard)
      ensures toasts == old(toasts) && requests == old(requests)
    {
      location := href;
    }

    method WriteClipboard(text: string)
      modifies this
      ensures clipboard == text
      ensures storage == old(storage) && location == old(location)
      ensures toasts == old(toasts) && requests == old(requests)
    {
      clipboard := text;
    }
  }
}
