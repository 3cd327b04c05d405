/** api.ts: the gateway every page goes through. Its two interceptors act
    on the shared browser state; `createShortUrl` turns a chosen expiry
    instant into whole hours. `new Date(text).getTime()` is the parameter
    `parseDate`, `None` standing for an unparseable text (`NaN`); the clock
    is the parameter `now`, in milliseconds. */
module ApiClient {
  import opened Common
  import opened Web
  import Session

  /** The base every request goes to when `VITE_API_BASE_URL` is unset. */
  const DefaultApiBaseUrl: string := "http://localhost:8080/api"

  const MillisPerHour: int := 3600000

  const LoginPath: string := "/login"

  /** `VITE_API_BASE_URL || default`: an unset or empty setting falls back. */
  function ApiBaseUrl(configured: Option<string>): (base: string)
    ensures configured.Some? && configured.value != [] ==> base == configured.value
    ensures configured.None? || configured.value == [] ==> base == DefaultApiBaseUrl
  {
    if configured.Some? && configured.value != [] then configured.value else DefaultApiBaseUrl
  }

  /** An outgoing request's headers, which the request interceptor edits in
      place. */
  class RequestConfig {
    var headers: map<string, string>

    constructor (headers: map<string, string>)
      ensures this.headers == headers
    {
      this.headers := headers;
    }
  }

  /** The request interceptor: a stored, non-empty token becomes a bearer
      `Authorization` header; otherwise the headers stay as they are. */
  method AuthorizeRequest(browser: Browser, config: RequestConfig)
    modifies config
    ensures Session.SignedIn(browser.GetItem(Session.TokenKey)) ==>
      config.headers == old(config.headers)["Authorization" := "Bearer " + browser.storage[Session.TokenKey]]
    ensures !Session.SignedIn(browser.GetItem(Session.TokenKey)) ==> config.headers == old(config.headers)
  {
    var token := browser.GetItem(Session.TokenKey);
    if token.Some? && token.value != [] {
      config.headers := config.headers["Authorization" := "Bearer " + token.value];
    }
  }

  /** The response interceptor's error path: a 401 signs the browser out
      (both keys removed) and sends it to the login page; every error is
      rejected again, unchanged. */
  method HandleResponseError(browser: Browser, e: HttpError) returns (rejected: HttpError)
    modifies browser
    ensures rejected == e
    ensures e.status == Some(401) ==>
      browser.storage == Session.LoggedOut(old(browser.storage)) && browser.location == LoginPath
    ensures e.status != Some(401) ==>
      browser.storage == old(browser.storage) && browser.location == old(browser.location)
    ensures browser.toasts == old(browser.toasts) && browser.requests == old(browser.requests)
    ensures browser.clipboard == old(browser.clipboard)
  {
    if e.status == Some(401) {
      browser.RemoveItem(Session.TokenKey);
      browser.RemoveItem(Session.UserKey);
      browser.Navigate(LoginPath);
    }
    rejected := e;
  }

  /** `Math.max(1, Math.ceil(diffMs / 3600000))` on whole milliseconds:
      the hours needed to reach the chosen instant, and never less than
      one. */
  function HoursUntil(diffMs: int): (h: int)
    ensures h >= 1
    ensures h == 1 <==> diffMs <= MillisPerHour
    ensures diffMs <= h * MillisPerHour
    ensures h > 1 ==> (h - 1) * MillisPerHour < diffMs
  {
    var q := (diffMs + MillisPerHour - 1) / MillisPerHour;
    if q < 1 then 1 else q
  }

  /** Any expiry already past, or within the hour, asks for one hour; two and
      a half hours ahead asks for three; a whole number of hours asks
      for exactly that. */
  lemma HoursUntilExamples()
    ensures HoursUntil(-5 * MillisPerHour) == 1
    ensures HoursUntil(0) == 1
    ensures HoursUntil(MillisPerHour) == 1
    ensures HoursUntil(150 * 60 * 1000) == 3
    ensures HoursUntil(48 * MillisPerHour) == 48
  {
  }

  /** The hours sent are the least positive whole number of hours that
      reaches the chosen instant. */
  lemma HoursUntilIsLeast(diffMs: int, h: int)
    requires h >= 1 && diffMs <= h * MillisPerHour
    ensures HoursUntil(diffMs) <= h
  {
  }

  /** `expiryHours` in the shorten request: absent when no expiry was
      chosen or the chosen text is not a date (`NaN || null` is `null`). */
  function ExpiryHours(expiryDate: Option<string>, parseDate: string -> Option<int>, now: int): (h: Option<int>)
    ensures expiryDate.None? || expiryDate.value == [] ==> h.None?
    ensures h.Some? ==> h.value >= 1
    ensures h.Some? <==> expiryDate.Some? && expiryDate.value != [] && parseDate(expiryDate.value).Some?
    ensures h.Some? ==> h.value == HoursUntil(parseDate(expiryDate.value).value - now)
  {
    if expiryDate.Some? && expiryDate.value != [] then
      match parseDate(expiryDate.value)
      case None => None
      case Some(t) => Some(HoursUntil(t - now))
    else None
  }

  /** `createShortUrl`: the request it sends. */
  function ShortenRequest(longUrl: string, expiryDate: Option<string>, parseDate: string -> Option<int>, now: int): ApiCall {
    ShortenCall(longUrl, ExpiryHours(expiryDate, parseDate, now))
  }
}
