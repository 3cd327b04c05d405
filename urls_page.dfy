/** UrlsPage.tsx: the paged list of the user's short URLs. Each awaited
    request is a parameter holding its outcome; every request error passes
    through the gateway's response interceptor before the page sees it.
    The last response to arrive wins: nothing orders overlapping fetches. */
module UrlsPages {
  import opened Common
  import opened Web
  import ApiClient
  import Session

  /** types/index.ts: UrlData */
  datatype UrlData = UrlData(
    id: string,
    shortCode: string,
    originalUrl: string,
    createdAt: string,
    expiresAt: Option<string>,
    clicks: int)

  /** The part of a `PaginatedResponse` the page reads. */
  datatype PageResponse = PageResponse(content: seq<UrlData>, totalPages: int)

  const PageSize: int := 10

  const FetchFailedMessage: string := "Failed to fetch URLs"
  const CopiedMessage: string := "Copied to clipboard!"
  const CopyFailedMessage: string := "Failed to copy"
  const DeletedMessage: string := "URL deleted successfully"
  const DeleteFailedMessage: string := "Failed to delete URL"

  /** "Previous": one page back, never below the first. */
  function PreviousPage(page: int): (p: int)
    ensures p >= 0
    ensures page >= 1 ==> p == page - 1
    ensures page <= 0 ==> p == 0
  {
    if page - 1 < 0 then 0 else page - 1
  }

  /** "Next": one page on, never past the last. */
  function NextPage(page: int, totalPages: int): (p: int)
    ensures p <= totalPages - 1
    ensures page + 1 <= totalPages - 1 ==> p == page + 1
    ensures page + 1 > totalPages - 1 ==> p == totalPages - 1
  {
    if totalPages - 1 < page + 1 then totalPages - 1 else page + 1
  }

  /** Paging from a page in range stays in range, and moves by at most
      one. */
  lemma PagingStaysInRange(page: int, totalPages: int)
    requires 0 <= page < totalPages
    ensures 0 <= PreviousPage(page) < totalPages && page - 1 <= PreviousPage(page) <= page
    ensures 0 <= NextPage(page, totalPages) < totalPages && page <= NextPage(page, totalPages) <= page + 1
  {
  }

  /** The buttons are shown only when there is more than one page. */
  predicate ShowsPagination(totalPages: int) {
    totalPages > 1
  }

  class UrlsPage {
    const browser: Browser
    var urls: seq<UrlData>
    var isLoading: bool
    var page: int
    var totalPages: int

    /** The first render: no URLs, loading, page 0 of 0. */
    constructor (browser: Browser)
      ensures this.browser == browser
      ensures urls == [] && isLoading && page == 0 && totalPages == 0
    {
      this.browser := browser;
      urls := [];
      isLoading := true;
      page := 0;
      totalPages := 0;
    }

    /** The state a finished fetch leaves, against the state before it:
        a response replaces the list and the page count wholesale; a
        failure keeps both and adds a toast, and a 401 also signs the
        browser out and moves it to the login page. Loading has ended. */
    predicate ShowsFetch(response: Result<PageResponse, HttpError>, urls0: seq<UrlData>, totalPages0: int,
                         toasts0: seq<Toast>, storage0: map<string, string>, location0: string)
      reads this, browser
    {
      && !isLoading
      && match response
        case Ok(r) =>
          && urls == r.content && totalPages == r.totalPages
          && browser.toasts == toasts0 && browser.storage == storage0 && browser.location == location0
        case Err(e) =>
          && urls == urls0 && totalPages == totalPages0
          && browser.toasts == toasts0 + [Toast(ErrorText(e, FetchFailedMessage), Failure)]
          && (e.status == Some(401) ==>
                browser.storage == Session.LoggedOut(storage0) && browser.location == ApiClient.LoginPath)
          && (e.status != Some(401) ==> browser.storage == storage0 && browser.location == location0)
    }

    /** `fetchUrls`: asks for the current page and shows the outcome. */
    method FetchUrls(response: Result<PageResponse, HttpError>)
      modifies this, browser
      ensures browser.requests == old(browser.requests) + [UserUrlsCall(old(page), PageSize)]
      ensures ShowsFetch(response, old(urls), old(totalPages), old(browser.toasts), old(browser.storage), old(browser.location))
      ensures page == old(page) && browser.clipboard == old(browser.clipboard)
    {
      isLoading := true;
      browser.Send(UserUrlsCall(page, PageSize));
      match response {
        case Ok(r) =>
          urls := r.content;
          totalPages := r.totalPages;
        case Err(e) =>
          var rejected := ApiClient.HandleResponseError(browser, e);
          browser.ShowToast(ErrorText(rejected, FetchFailedMessage), Failure);
      }
      isLoading := false;
    }

    /** "Previous"; a page that changes is fetched again (the effect on
        `page`). */
    method Previous(response: Result<PageResponse, HttpError>)
      modifies this, browser
      ensures page == PreviousPage(old(page))
      ensures page == old(page) ==>
        && browser.requests == old(browser.requests) && browser.toasts == old(browser.toasts)
        && browser.storage == old(browser.storage) && browser.location == old(browser.location)
        && urls == old(urls) && totalPages == old(totalPages) && isLoading == old(isLoading)
      ensures page != old(page) ==>
        && browser.requests == old(browser.requests) + [UserUrlsCall(page, PageSize)]
        && ShowsFetch(response, old(urls), old(totalPages), old(browser.toasts), old(browser.storage), old(browser.location))
      ensures browser.clipboard == old(browser.clipboard)
    {
      var p := PreviousPage(page);
      if p != page {
        page := p;
        FetchUrls(response);
      }
    }

    /** "Next"; as "Previous", towards the last page. */
    method Next(response: Result<PageResponse, HttpError>)
      modifies this, browser
      ensures page == NextPage(old(page), old(totalPages))
      ensures page == old(page) ==>
        && browser.requests == old(browser.requests) && browser.toasts == old(browser.toasts)
        && browser.storage == old(browser.storage) && browser.location == old(browser.location)
        && urls == old(urls) && totalPages == old(totalPages) && isLoading == old(isLoading)
      ensures page != old(page) ==>
        && browser.requests == old(browser.requests) + [UserUrlsCall(page, PageSize)]
        && ShowsFetch(response, old(urls), old(totalPages), old(browser.toasts), old(browser.storage), old(browser.location))
      ensures browser.clipboard == old(browser.clipboard)
    {
      var p := NextPage(page, totalPages);
      if p != page {
        page := p;
        FetchUrls(response);
      }
    }

    /** `handleCopy`: the short link goes to the clipboard when the
        clipboard accepts it. */
    method HandleCopy(shortCode: string, clipboardWorks: bool)
      modifies browser
      ensures clipboardWorks ==>
        browser.clipboard == ShortLink(browser.origin, shortCode)
        && browser.toasts == old(browser.toasts) + [Toast(CopiedMessage, Success)]
      ensures !clipboardWorks ==>
        browser.clipboard == old(browser.clipboard)
        && browser.toasts == old(browser.toasts) + [Toast(CopyFailedMessage, Failure)]
      ensures browser.storage == old(browser.storage) && browser.requests == old(browser.requests)
      ensures browser.location == old(browser.location)
    {
      var fullUrl := ShortLink(browser.origin, shortCode);
      if clipboardWorks {
        browser.WriteClipboard(fullUrl);
        browser.ShowToast(CopiedMessage, Success);
      } else {
        browser.ShowToast(CopyFailedMessage, Failure);
      }
    }

    /** `handleDelete`: nothing at all happens unless the user confirms;
        a delete that succeeds is followed by a fetch of the current page,
        one that fails is not. */
    method HandleDelete(shortCode: string, confirmed: bool, deleteError: Option<HttpError>,
                        refetch: Result<PageResponse, HttpError>)
      modifies this, browser
      ensures !confirmed ==>
        && browser.requests == old(browser.requests) && browser.toasts == old(browser.toasts)
        && browser.storage == old(browser.storage) && browser.location == old(browser.location)
        && urls == old(urls) && totalPages == old(totalPages) && isLoading == old(isLoading)
      ensures confirmed && deleteError.None? ==>
        && browser.requests == old(browser.requests) + [DeleteCall(shortCode), UserUrlsCall(old(page), PageSize)]
        && ShowsFetch(refetch, old(urls), old(totalPages), old(browser.toasts) + [Toast(DeletedMessage, Success)],
                      old(browser.storage), old(browser.location))
      ensures confirmed && deleteError.Some? ==>
        && browser.requests == old(browser.requests) + [DeleteCall(shortCode)]
        && browser.toasts == old(browser.toasts) + [Toast(ErrorText(deleteError.value, DeleteFailedMessage), Failure)]
        && urls == old(urls) && totalPages == old(totalPages) && isLoading == old(isLoading)
        && (deleteError.value.status == Some(401) ==>
              browser.storage == Session.LoggedOut(old(browser.storage)) && browser.location == ApiClient.LoginPath)
        && (deleteError.value.status != Some(401) ==>
              browser.storage == old(browser.storage) && browser.location == old(browser.location))
      ensures page == old(page) && browser.clipboard == old(browser.clipboard)
    {
      if !confirmed {
        return;
      }
      browser.Send(DeleteCall(shortCode));
      match deleteError {
        case None =>
          browser.ShowToast(DeletedMessage, Success);
          FetchUrls(refetch);
        case Some(e) =>
          var rejected := ApiClient.HandleResponseError(browser, e);
          browser.ShowToast(ErrorText(rejected, DeleteFailedMessage), Failure);
      }
    }
  }
}
