/** DashboardPage.tsx: the form that creates a short URL. WHATWG
    `new URL(text)` is the parameter `parsesAsUrl`; the awaited request is
    the parameter `outcome`, the short code on success. */
module DashboardPages {
  import opened Common
  import opened Web
  import ApiClient
  import Session

  const EmptyUrlMessage: string := "Please enter a URL"
  const InvalidUrlMessage: string := "Please enter a valid URL"
  const CreatedMessage: string := "Short URL created successfully!"
  const CreateFailedMessage: string := "Failed to create short URL"
  const CopiedMessage: string := "Copied to clipboard!"
  const CopyFailedMessage: string := "Failed to copy"

  /** `expiryDate || undefined`: an empty field sends no expiry. */
  function ExpiryArgument(expiryDate: string): (a: Option<string>)
    ensures a.None? <==> expiryDate == []
    ensures a.Some? ==> a.value == expiryDate
  {
    if expiryDate == [] then None else Some(expiryDate)
  }

  class DashboardPage {
    const browser: Browser
    var longUrl: string
    var expiryDate: string
    var shortUrl: string
    var isLoading: bool
    var error: string
    /** Whether the copy button shows its "Copied!" state. */
    var copied: bool

    constructor (browser: Browser)
      ensures this.browser == browser
      ensures longUrl == "" && expiryDate == "" && shortUrl == "" && !isLoading && error == "" && !copied
    {
      this.browser := browser;
      longUrl := "";
      expiryDate := "";
      shortUrl := "";
      isLoading := false;
      error := "";
      copied := false;
    }

    /** `handleSubmit`: the inline error is cleared first; an empty or
        unparseable URL sets it and sends nothing; otherwise one shorten
        request goes out, and its success shows the new link and empties
        the form while its failure only shows a toast. */
    method HandleSubmit(parsesAsUrl: string -> bool, parseDate: string -> Option<int>, now: int,
                        outcome: Result<string, HttpError>)
      modifies this, browser
      ensures old(longUrl) == [] ==>
        error == EmptyUrlMessage && browser.requests == old(browser.requests)
      ensures old(longUrl) != [] && !parsesAsUrl(old(longUrl)) ==>
        error == InvalidUrlMessage && browser.requests == old(browser.requests)
      ensures old(longUrl) == [] || !parsesAsUrl(old(longUrl)) ==>
        && longUrl == old(longUrl) && expiryDate == old(expiryDate) && shortUrl == old(shortUrl)
        && browser.toasts == old(browser.toasts) && isLoading == old(isLoading)
        && browser.storage == old(browser.storage) && browser.location == old(browser.location)
      ensures old(longUrl) != [] && parsesAsUrl(old(longUrl)) ==>
        && error == []
        && browser.requests == old(browser.requests)
             + [ApiClient.ShortenRequest(old(longUrl), ExpiryArgument(old(expiryDate)), parseDate, now)]
        && !isLoading
      ensures old(longUrl) != [] && parsesAsUrl(old(longUrl)) && outcome.Ok? ==>
        && shortUrl == ShortLink(browser.origin, outcome.value)
        && longUrl == [] && expiryDate == []
        && browser.toasts == old(browser.toasts) + [Toast(CreatedMessage, Success)]
        && browser.storage == old(browser.storage) && browser.location == old(browser.location)
      ensures old(longUrl) != [] && parsesAsUrl(old(longUrl)) && outcome.Err? ==>
        && shortUrl == old(shortUrl) && longUrl == old(longUrl) && expiryDate == old(expiryDate)
        && browser.toasts == old(browser.toasts) + [Toast(ErrorText(outcome.error, CreateFailedMessage), Failure)]
        && (outcome.error.status == Some(401) ==>
              browser.storage == Session.LoggedOut(old(browser.storage)) && browser.location == ApiClient.LoginPath)
        && (outcome.error.status != Some(401) ==>
              browser.storage == old(browser.storage) && browser.location == old(browser.location))
      ensures copied == old(copied) && browser.clipboard == old(browser.clipboard)
    {
      error := "";
      if longUrl == [] {
        error := EmptyUrlMessage;
        return;
      }
      if !parsesAsUrl(longUrl) {
        error := InvalidUrlMessage;
        return;
      }
      isLoading := true;
      browser.Send(ApiClient.ShortenRequest(longUrl, ExpiryArgument(expiryDate), parseDate, now));
      match outcome {
        case Ok(shortCode) =>
          shortUrl := ShortLink(browser.origin, shortCode);
          browser.ShowToast(CreatedMessage, Success);
          longUrl := "";
          expiryDate := "";
        case Err(e) =>
          var rejected := ApiClient.HandleResponseError(browser, e);
          browser.ShowToast(ErrorText(rejected, CreateFailedMessage), Failure);
      }
      isLoading := false;
    }

    /** `handleCopy`: the shown short link goes to the clipboard when the
        clipboard accepts it, and the button switches to its copied state.
        The timer that switches it back is `CopiedTimerFires`. */
    method HandleCopy(clipboardWorks: bool)
      modifies this, browser
      ensures clipboardWorks ==>
        && browser.clipboard == shortUrl && copied
        && browser.toasts == old(browser.toasts) + [Toast(CopiedMessage, Success)]
      ensures !clipboardWorks ==>
        && browser.clipboard == old(browser.clipboard) && copied == old(copied)
        && browser.toasts == old(browser.toasts) + [Toast(CopyFailedMessage, Failure)]
      ensures shortUrl == old(shortUrl) && longUrl == old(longUrl) && expiryDate == old(expiryDate)
      ensures error == old(error) && isLoading == old(isLoading)
      ensures browser.storage == old(browser.storage) && browser.requests == old(browser.requests)
      ensures browser.location == old(browser.location)
    {
      if clipboardWorks {
        browser.WriteClipboard(shortUrl);
        copied := true;
        browser.ShowToast(CopiedMessage, Success);
      } else {
        browser.ShowToast(CopyFailedMessage, Failure);
      }
    }

    /** The two-second timer started by a successful copy. */
    method CopiedTimerFires()
      modifies this
      ensures !copied
      ensures shortUrl == old(shortUrl) && longUrl == old(longUrl) && expiryDate == old(expiryDate)
      ensures error == old(error) && isLoading == old(isLoading)
    {
      copied := false;
    }

    /** "Create Another": back to an empty form. */
    method CreateAnother()
      modifies this
      ensures shortUrl == [] && longUrl == [] && expiryDate == []
      ensures error == old(error) && isLoading == old(isLoading) && copied == old(copied)
    {
      shortUrl := "";
      longUrl := "";
      expiryDate := "";
    }
  }
}
