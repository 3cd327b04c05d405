/** ShortUrlRedirect.tsx: an unknown client route is taken for a short code
    and the browser is sent to the server's redirect endpoint. */
module ShortUrlRedirects {
  import opened Common
  import opened Web
  import ApiClient

  /** `base.replace(/\/api\/?$/, '')`: one trailing `/api` or `/api/`
      removed, at the very end only. */
  function BackendRoot(base: string): (root: string)
    ensures EndsWith(base, "/api/") ==> base == root + "/api/"
    ensures !EndsWith(base, "/api/") && EndsWith(base, "/api") ==> base == root + "/api"
    ensures !EndsWith(base, "/api/") && !EndsWith(base, "/api") ==> root == base
  {
    if EndsWith(base, "/api/") then base[..|base| - 5]
    else if EndsWith(base, "/api") then base[..|base| - 4]
    else base
  }

  /** The default base gives the server's root; the suffix goes once, so a
      doubled one keeps its first copy; other bases are left alone. */
  lemma BackendRootExamples()
    ensures BackendRoot(ApiClient.DefaultApiBaseUrl) == "http://localhost:8080"
    ensures BackendRoot("https://short.example/api/") == "https://short.example"
    ensures BackendRoot("https://short.example/api/api") == "https://short.example/api"
    ensures BackendRoot("https://short.example/apis") == "https://short.example/apis"
  {
    assert EndsWith(ApiClient.DefaultApiBaseUrl, "/api");
    assert !EndsWith(ApiClient.DefaultApiBaseUrl, "/api/");
    assert EndsWith("https://short.example/api/", "/api/");
    assert !EndsWith("https://short.example/api/api", "/api/");
    assert EndsWith("https://short.example/api/api", "/api");
    assert !EndsWith("https://short.example/apis", "/api/");
    assert !EndsWith("https://short.example/apis", "/api");
  }

  /** The target of the redirect for a short code. */
  function RedirectTarget(apiBase: string, shortCode: string): (href: string)
    ensures StartsWith(href, BackendRoot(apiBase) + "/")
    ensures EndsWith(href, shortCode)
    ensures |href| == |BackendRoot(apiBase)| + 1 + |shortCode|
  {
    BackendRoot(apiBase) + "/" + shortCode
  }

  /** Distinct codes are sent to distinct addresses. */
  lemma RedirectTargetInjective(apiBase: string, a: string, b: string)
    ensures RedirectTarget(apiBase, a) == RedirectTarget(apiBase, b) <==> a == b
  {
    var n := |BackendRoot(apiBase)| + 1;
    if RedirectTarget(apiBase, a) == RedirectTarget(apiBase, b) {
      assert a == RedirectTarget(apiBase, a)[n..];
      assert b == RedirectTarget(apiBase, b)[n..];
    }
  }

  /** The effect: navigate only for a present, non-empty code. */
  method RedirectEffect(browser: Browser, configuredBase: Option<string>, shortCode: Option<string>)
    modifies browser
    ensures shortCode.Some? && shortCode.value != [] ==>
      browser.location == RedirectTarget(ApiClient.ApiBaseUrl(configuredBase), shortCode.value)
    ensures shortCode.None? || shortCode.value == [] ==> browser.location == old(browser.location)
    ensures browser.storage == old(browser.storage) && browser.toasts == old(browser.toasts)
    ensures browser.requests == old(browser.requests) && browser.clipboard == old(browser.clipboard)
  {
    if shortCode.Some? && shortCode.value != [] {
      var backendRoot := BackendRoot(ApiClient.ApiBaseUrl(configuredBase));
      browser.Navigate(backendRoot + "/" + shortCode.value);
    }
  }
}
