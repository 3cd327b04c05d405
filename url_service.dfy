/** UrlService.java: creating, listing and deleting short URLs over the
    document store. The clock (`LocalDateTime.now()`) is the parameter
    `now`, and the value `System.currentTimeMillis() + random` that the
    code generator draws on its `i`-th attempt is `draw(i)`. */
module UrlServices {
  import opened Common
  import opened UrlEntity
  import opened Repositories
  import Base62
  import UrlValidation

  /** The exceptions the services throw, by class. */
  datatype ServiceError =
    | IllegalArgument(message: string)   // IllegalArgumentException
    | NotFound(message: string)          // ResourceNotFoundException
    | Runtime(message: string)           // RuntimeException

  /** ShortenUrlRequest; `null` fields are `None`. */
  datatype ShortenRequest = ShortenRequest(url: Option<string>, customAlias: Option<string>, expiryHours: Option<int>)

  /** UrlResponse */
  datatype UrlResponse = UrlResponse(
    id: string,
    originalUrl: string,
    shortCode: string,
    shortUrl: string,
    clicks: nat,
    expiresAt: Option<int>,
    createdAt: int)

  const BaseUrl: string := "http://localhost:"
  const MaxCodeLength: nat := 7
  const MaxAttempts: nat := 10
  const MillisPerHour: int := 3600000

  const UserNotFoundMessage: string := "User not found"
  const UrlNotFoundMessage: string := "URL not found"
  const AliasInUseMessage: string := "Custom alias already in use"
  const GenerationFailedMessage: string := "Failed to generate unique short code"
  const DeletePermissionMessage: string := "You don't have permission to delete this URL"

  /** `mapToResponse`: the stored fields, plus the public short link. */
  function MapToResponse(d: UrlDoc, port: string): UrlResponse {
    UrlResponse(d.id, d.originalUrl, d.shortCode, BaseUrl + port + "/" + d.shortCode,
      d.clicks, d.expiresAt, d.createdAt)
  }

  /** The short link points at the code on the local server, and on one
      server two different codes never share a link. */
  lemma ShortUrlIdentifiesCode(d1: UrlDoc, d2: UrlDoc, port: string)
    ensures StartsWith(MapToResponse(d1, port).shortUrl, BaseUrl + port + "/")
    ensures EndsWith(MapToResponse(d1, port).shortUrl, "/" + d1.shortCode)
    ensures MapToResponse(d1, port).shortUrl == MapToResponse(d2, port).shortUrl
      <==> d1.shortCode == d2.shortCode
  {
    var p := BaseUrl + port + "/";
    assert MapToResponse(d1, port).shortUrl == p + d1.shortCode;
    assert MapToResponse(d2, port).shortUrl == p + d2.shortCode;
    if p + d1.shortCode == p + d2.shortCode {
      assert d1.shortCode == (p + d1.shortCode)[|p|..];
      assert d2.shortCode == (p + d2.shortCode)[|p|..];
    }
    assert (p + d1.shortCode)[..|p|] == p;
    assert (p + d1.shortCode)[|p + d1.shortCode| - |"/" + d1.shortCode|..] == "/" + d1.shortCode;
  }

  // ---------------------------------------------------------------------
  // Short-code generation

  /** One attempt's code: the base-62 form of the draw, cut to its last 7
      characters when it is longer. */
  function Candidate(n: int): (code: string)
    ensures |code| <= MaxCodeLength
  {
    LastN(Base62.Encoded(n), MaxCodeLength)
  }

  /** A code keeps the draw modulo 62^7: two draws that agree there give
      codes of the same value. */
  lemma CandidateValue(n: nat)
    ensures Base62.InAlphabet(Candidate(n))
    ensures Base62.DecodedValue(Candidate(n)) == n % Base62.Power(MaxCodeLength)
  {
    Base62.DecodeEncoded(n);
    Base62.DecodedTail(Base62.Encoded(n), MaxCodeLength);
  }

  /** One attempt of `generateUniqueShortCode`: encode the draw and keep
      the last 7 characters of a longer code. */
  method CodeOfDraw(n: int) returns (code: string)
    ensures code == Candidate(n)
    ensures EndsWith(Base62.Encoded(n), code)
    ensures |code| == if |Base62.Encoded(n)| <= MaxCodeLength then |Base62.Encoded(n)| else MaxCodeLength
  {
    code := Base62.Encode(n);
    if |code| > MaxCodeLength {
      code := code[|code| - MaxCodeLength..];
    }
  }

  /** The ten codes the generator can try, one per attempt. */
  function Candidates(draw: nat -> int): (codes: seq<string>)
    ensures |codes| == MaxAttempts
    ensures forall i :: 0 <= i < MaxAttempts ==> codes[i] == Candidate(draw(i))
  {
    seq(MaxAttempts, i requires 0 <= i => Candidate(draw(i)))
  }

  /** The first position, from `k` on, whose code is not taken; `|codes|`
      when each of them is. */
  function FirstFree(codes: seq<string>, taken: set<string>, k: nat): (i: nat)
    requires k <= |codes|
    ensures k <= i <= |codes|
    ensures forall j :: k <= j < i ==> codes[j] in taken
    ensures i < |codes| ==> codes[i] !in taken
    decreases |codes| - k
  {
    if k == |codes| || codes[k] !in taken then k
    else FirstFree(codes, taken, k + 1)
  }

  lemma FirstFreeAt(codes: seq<string>, taken: set<string>, i: nat)
    requires i < |codes| && codes[i] !in taken
    requires forall j :: 0 <= j < i ==> codes[j] in taken
    ensures FirstFree(codes, taken, 0) == i
  {
  }

  /** The first of `codes` not in `taken`, or the generation failure when
      every one of them is. */
  function FirstFreeCode(codes: seq<string>, taken: set<string>): (r: Result<string, ServiceError>)
    ensures r.Ok? ==> r.value !in taken && r.value in codes
    ensures r.Err? <==> forall j :: 0 <= j < |codes| ==> codes[j] in taken
    ensures r.Err? ==> r == Err(Runtime(GenerationFailedMessage))
  {
    var i := FirstFree(codes, taken, 0);
    if i < |codes| then Ok(codes[i]) else Err(Runtime(GenerationFailedMessage))
  }

  /** What `generateUniqueShortCode` returns or throws when the codes in
      `taken` exist. */
  function GeneratedCode(draw: nat -> int, taken: set<string>): Result<string, ServiceError> {
    FirstFreeCode(Candidates(draw), taken)
  }

  /** A generated code is short, new, and the first free one among the
      ten candidates; generation fails exactly when all ten are taken. */
  lemma GeneratedCodeIsFresh(draw: nat -> int, taken: set<string>)
    ensures GeneratedCode(draw, taken).Ok? ==>
      GeneratedCode(draw, taken).value !in taken && |GeneratedCode(draw, taken).value| <= MaxCodeLength
    ensures GeneratedCode(draw, taken).Err? <==>
      forall j :: 0 <= j < MaxAttempts ==> Candidate(draw(j)) in taken
    ensures GeneratedCode(draw, taken).Err? ==>
      GeneratedCode(draw, taken).error == Runtime(GenerationFailedMessage)
  {
    var codes := Candidates(draw);
    var r := FirstFreeCode(codes, taken);
    if r.Ok? {
      var i :| 0 <= i < |codes| && codes[i] == r.value;
      assert |r.value| <= MaxCodeLength;
    }
  }

  /** The first free candidate wins even when a later one is free too. */
  lemma GeneratedCodeIsFirstFree(draw: nat -> int, taken: set<string>, i: nat)
    requires i < MaxAttempts && Candidate(draw(i)) !in taken
    requires forall j :: 0 <= j < i ==> Candidate(draw(j)) in taken
    ensures GeneratedCode(draw, taken) == Ok(Candidate(draw(i)))
  {
    var codes := Candidates(draw);
    FirstFreeAt(codes, taken, i);
    assert FirstFreeCode(codes, taken) == Ok(codes[i]);
  }

  // ---------------------------------------------------------------------
  // Creation

  /** `expiresAt` for a request: `now` plus the hours, when they are given
      and positive; no expiry otherwise. */
  function ExpiryFor(expiryHours: Option<int>, now: int): (e: Option<int>)
    ensures e.Some? <==> expiryHours.Some? && expiryHours.value > 0
    ensures e.Some? ==> e.value > now && e.value - now == expiryHours.value * MillisPerHour
  {
    if expiryHours.Some? && expiryHours.value > 0 then Some(now + expiryHours.value * MillisPerHour)
    else None
  }

  /** The trimmed custom alias, when one is given and is not blank. */
  function AliasOf(request: ShortenRequest): (a: Option<string>)
    ensures a.Some? ==> request.customAlias.Some? && a.value == Trim(request.customAlias.value) && a.value != []
    ensures a.None? ==> request.customAlias.None? || IsBlank(request.customAlias.value)
  {
    if request.customAlias.Some? && !IsBlank(request.customAlias.value) then Some(Trim(request.customAlias.value))
    else None
  }

  /** The code a request is filed under: its trimmed alias, which must be
      free, or else a generated one. */
  function SettledCode(request: ShortenRequest, urls: map<string, UrlDoc>, draw: nat -> int): (r: Result<string, ServiceError>)
    ensures r.Ok? ==> r.value !in urls
  {
    GeneratedCodeIsFresh(draw, urls.Keys);
    match AliasOf(request)
    case Some(alias) => if alias in urls then Err(IllegalArgument(AliasInUseMessage)) else Ok(alias)
    case None => GeneratedCode(draw, urls.Keys)
  }

  /** The document `shortenUrl` inserts, or the exception it throws, for a
      store holding `urls` and a user table `users`. */
  function Shortened(request: ShortenRequest, email: string, urls: map<string, UrlDoc>,
                     users: map<string, string>, now: int, draw: nat -> int, newId: string): Result<UrlDoc, ServiceError>
  {
    var invalid := UrlValidation.ValidationError(request.url);
    if invalid.Some? then Err(IllegalArgument(invalid.value))
    else if email !in users then Err(NotFound(UserNotFoundMessage))
    else
      var code := SettledCode(request, urls, draw);
      if code.Err? then Err(code.error)
      else Ok(UrlDoc(newId, request.url.value, code.value, users[email], 0, ExpiryFor(request.expiryHours, now), now))
  }

  /** Once the URL passes, the user is known and the code is settled,
      the document is fixed field by field. */
  lemma ShortenedStores(request: ShortenRequest, email: string, urls: map<string, UrlDoc>,
                        users: map<string, string>, now: int, draw: nat -> int, newId: string, code: string)
    requires UrlValidation.ValidationError(request.url).None? && email in users
    requires SettledCode(request, urls, draw) == Ok(code)
    ensures request.url.Some?
    ensures Shortened(request, email, urls, users, now, draw, newId)
      == Ok(UrlDoc(newId, request.url.value, code, users[email], 0, ExpiryFor(request.expiryHours, now), now))
  {
  }

  /** Every way `shortenUrl` can end: the validator's message, a missing
      user, a taken alias and exhausted generation are errors; otherwise
      the new document is never filed under an existing code, carries the
      request's URL verbatim and the caller's user id, starts with no
      clicks, and expires only when positive hours were asked for. */
  lemma ShortenedOutcome(request: ShortenRequest, email: string, urls: map<string, UrlDoc>,
                         users: map<string, string>, now: int, draw: nat -> int, newId: string)
    ensures var r := Shortened(request, email, urls, users, now, draw, newId);
      && (UrlValidation.ValidationError(request.url).Some? ==>
            r == Err(IllegalArgument(UrlValidation.ValidationError(request.url).value)))
      && (UrlValidation.ValidationError(request.url).None? && email !in users ==>
            r == Err(NotFound(UserNotFoundMessage)))
      && (UrlValidation.ValidationError(request.url).None? && email in users && AliasOf(request).Some? ==>
            (r == Err(IllegalArgument(AliasInUseMessage)) <==> AliasOf(request).value in urls))
      && (UrlValidation.ValidationError(request.url).None? && email in users && AliasOf(request).None? ==>
            (r.Err? <==> GeneratedCode(draw, urls.Keys).Err?))
      && (r.Ok? ==>
            && r.value.shortCode !in urls
            && (AliasOf(request).Some? ==> r.value.shortCode == AliasOf(request).value)
            && (AliasOf(request).None? ==> Ok(r.value.shortCode) == GeneratedCode(draw, urls.Keys))
            && Some(r.value.originalUrl) == request.url
            && email in users && r.value.userId == users[email]
            && r.value.clicks == 0 && r.value.id == newId && r.value.createdAt == now
            && r.value.expiresAt == ExpiryFor(request.expiryHours, now))
  {
    GeneratedCodeIsFresh(draw, urls.Keys);
    if UrlValidation.ValidationError(request.url).None? {
      assert request.url.Some?;
    }
  }

  /** A URL the validator accepts, from a known user with a fresh alias,
      is stored under that alias. */
  lemma ShortenedKeepsFreshAlias(request: ShortenRequest, email: string, urls: map<string, UrlDoc>,
                                 users: map<string, string>, now: int, draw: nat -> int, newId: string)
    requires UrlValidation.IsValid(request.url) && email in users
    requires request.customAlias.Some? && !IsBlank(request.customAlias.value)
    requires Trim(request.customAlias.value) !in urls
    ensures Shortened(request, email, urls, users, now, draw, newId).Ok?
    ensures Shortened(request, email, urls, users, now, draw, newId).value.shortCode == Trim(request.customAlias.value)
  {
  }

  /** The ownership rule of `deleteUrl`: which exception, if any. */
  function DeletionError(urls: map<string, UrlDoc>, users: map<string, string>, code: string, email: string): (e: Option<ServiceError>)
    ensures e.None? <==> code in urls && email in users && urls[code].userId == users[email]
    ensures code !in urls ==> e == Some(NotFound(UrlNotFoundMessage))
  {
    if code !in urls then Some(NotFound(UrlNotFoundMessage))
    else if email !in users then Some(NotFound(UserNotFoundMessage))
    else if urls[code].userId != users[email] then Some(IllegalArgument(DeletePermissionMessage))
    else None
  }

  /** The codes of the URLs a user owns. */
  function OwnedCodes(urls: map<string, UrlDoc>, userId: string): (codes: set<string>)
    ensures forall c :: c in codes <==> c in urls && urls[c].userId == userId
  {
    set c | c in urls && urls[c].userId == userId
  }

  /** The short codes a list of responses mentions. */
  function CodesOf(responses: seq<UrlResponse>): set<string> {
    if responses == [] then {}
    else CodesOf(responses[..|responses| - 1]) + {responses[|responses| - 1].shortCode}
  }

  /** Each response is `mapToResponse` of the stored document under its
      code. */
  predicate DescribesStored(responses: seq<UrlResponse>, urls: map<string, UrlDoc>, port: string) {
    forall i :: 0 <= i < |responses| ==>
      responses[i].shortCode in urls && responses[i] == MapToResponse(urls[responses[i].shortCode], port)
  }

  lemma DescribesStoredSnoc(responses: seq<UrlResponse>, urls: map<string, UrlDoc>, port: string, code: string)
    requires DescribesStored(responses, urls, port)
    requires code in urls && urls[code].shortCode == code
    ensures DescribesStored(responses + [MapToResponse(urls[code], port)], urls, port)
  {
  }

  /** The entity `shortenUrl` fills in: `new Url()`, then its setters for
      the URL, the owner, the code and, when positive hours are given, the
      expiry. */
  method NewUrl(originalUrl: string, userId: string, shortCode: string, expiryHours: Option<int>, now: int) returns (url: Url)
    ensures fresh(url)
    ensures url.id == None && url.createdAt == None && url.clicks == 0
    ensures url.originalUrl == originalUrl && url.userId == userId && url.shortCode == shortCode
    ensures url.expiresAt == ExpiryFor(expiryHours, now)
  {
    url := new Url();
    url.originalUrl := originalUrl;
    url.userId := userId;
    url.shortCode := shortCode;
    if expiryHours.Some? && expiryHours.value > 0 {
      url.expiresAt := Some(now + expiryHours.value * MillisPerHour);
    }
  }

  /** One turn of the loop in `getUserUrls`: the response for one more
      owned code joins the list, and the code leaves the ones still owed. */
  lemma ListingStep(responses: seq<UrlResponse>, remaining: set<string>, owned: set<string>,
                    urls: map<string, UrlDoc>, port: string, code: string)
    requires remaining <= owned && CodesOf(responses) == owned - remaining
    requires |responses| + |remaining| == |owned|
    requires DescribesStored(responses, urls, port)
    requires code in remaining && code in urls && urls[code].shortCode == code
    ensures var next := responses + [MapToResponse(urls[code], port)];
      && CodesOf(next) == owned - (remaining - {code})
      && |next| + |remaining - {code}| == |owned|
      && DescribesStored(next, urls, port)
  {
    var next := responses + [MapToResponse(urls[code], port)];
    assert next[..|next| - 1] == responses;
    assert CodesOf(next) == CodesOf(responses) + {code};
    DescribesStoredSnoc(responses, urls, port, code);
    assert |remaining - {code}| == |remaining| - 1;
  }

  /** The shortening, listing and deletion operations over one store. */
  class UrlService {
    const db: Database
    /** `server.port`, 8080 unless configured. */
    const serverPort: string

    constructor (db: Database, serverPort: string)
      ensures this.db == db && this.serverPort == serverPort
    {
      this.db := db;
      this.serverPort := serverPort;
    }

    /** `generateUniqueShortCode`: up to ten candidates are tried against
        the store; the eleventh draw is made and then the call throws. */
    method GenerateUniqueShortCode(draw: nat -> int) returns (r: Result<string, ServiceError>)
      ensures r == GeneratedCode(draw, db.urls.Keys)
      ensures r.Ok? ==> r.value !in db.urls && |r.value| <= MaxCodeLength
    {
      var taken := db.urls.Keys;
      ghost var codes := Candidates(draw);
      var attempts: nat := 0;
      while true
        invariant attempts <= MaxAttempts
        invariant forall j :: 0 <= j < attempts ==> codes[j] in taken
        decreases MaxAttempts - attempts
      {
        var combined := draw(attempts);
        var shortCode := CodeOfDraw(combined);
        attempts := attempts + 1;
        if attempts > MaxAttempts {
          GeneratedCodeIsFresh(draw, taken);
          return Err(Runtime(GenerationFailedMessage));
        }
        assert shortCode == codes[attempts - 1];
        if shortCode !in taken {
          FirstFreeAt(codes, taken, attempts - 1);
          GeneratedCodeIsFresh(draw, taken);
          return Ok(shortCode);
        }
      }
    }

    /** `shortenUrl`: validate, look up the user, settle the code, set the
        expiry and insert the document. */
    method ShortenUrl(request: ShortenRequest, userEmail: string, now: int, draw: nat -> int, newId: string)
      returns (r: Result<UrlResponse, ServiceError>)
      requires db.Valid()
      modifies db
      ensures db.Valid()
      ensures var s := Shortened(request, userEmail, old(db.urls), old(db.users), now, draw, newId);
        && (s.Err? ==> r == Err(s.error) && db.urls == old(db.urls))
        && (s.Ok? ==> r == Ok(MapToResponse(s.value, serverPort)) && db.urls == old(db.urls)[s.value.shortCode := s.value])
      ensures db.clicks == old(db.clicks) && db.users == old(db.users)
    {
      var validationError := UrlValidation.ValidationError(request.url);
      if validationError.Some? {
        return Err(IllegalArgument(validationError.value));
      }
      if userEmail !in db.users {
        return Err(NotFound(UserNotFoundMessage));
      }
      var code := SettleShortCode(request, draw);
      if code.Err? {
        return Err(code.error);
      }
      var url := NewUrl(request.url.value, db.users[userEmail], code.value, request.expiryHours, now);
      ShortenedStores(request, userEmail, db.urls, db.users, now, draw, newId, code.value);
      var saved := db.SaveUrl(url, newId, now);
      r := Ok(MapToResponse(saved, serverPort));
    }

    /** The step of `shortenUrl` that settles the code: a non-blank alias,
        trimmed, unless it is taken; a generated code otherwise. */
    method SettleShortCode(request: ShortenRequest, draw: nat -> int) returns (code: Result<string, ServiceError>)
      ensures code == SettledCode(request, db.urls, draw)
    {
      if request.customAlias.Some? && !IsBlank(request.customAlias.value) {
        var customAlias := Trim(request.customAlias.value);
        if customAlias in db.urls {
          return Err(IllegalArgument(AliasInUseMessage));
        }
        code := Ok(customAlias);
      } else {
        code := GenerateUniqueShortCode(draw);
      }
    }

    /** `getUserUrls`: one response per URL the user owns, each built by
        `mapToResponse` from the stored document. */
    method GetUserUrls(userEmail: string) returns (r: Result<seq<UrlResponse>, ServiceError>)
      requires db.Valid()
      ensures r.Err? <==> userEmail !in db.users
      ensures r.Err? ==> r.error == NotFound(UserNotFoundMessage)
      ensures r.Ok? ==>
        && CodesOf(r.value) == OwnedCodes(db.urls, db.users[userEmail])
        && |r.value| == |OwnedCodes(db.urls, db.users[userEmail])|
        && DescribesStored(r.value, db.urls, serverPort)
    {
      if userEmail !in db.users {
        return Err(NotFound(UserNotFoundMessage));
      }
      var urls, port := db.urls, serverPort;
      var owned := OwnedCodes(urls, db.users[userEmail]);
      var remaining := owned;
      var responses: seq<UrlResponse> := [];
      while remaining != {}
        invariant remaining <= owned
        invariant CodesOf(responses) == owned - remaining
        invariant |responses| + |remaining| == |owned|
        invariant DescribesStored(responses, urls, port)
        decreases |remaining|
      {
        var code :| code in remaining;
        ListingStep(responses, remaining, owned, urls, port, code);
        responses := responses + [MapToResponse(urls[code], port)];
        remaining := remaining - {code};
      }
      r := Ok(responses);
    }

    /** `deleteUrl`: only the owner may remove a URL, and only that URL
        goes. */
    method DeleteUrl(shortCode: string, userEmail: string) returns (err: Option<ServiceError>)
      requires db.Valid()
      modifies db
      ensures db.Valid()
      ensures err == DeletionError(old(db.urls), old(db.users), shortCode, userEmail)
      ensures db.urls == if err.None? then old(db.urls) - {shortCode} else old(db.urls)
      ensures db.clicks == old(db.clicks) && db.users == old(db.users)
    {
      if shortCode !in db.urls {
        return Some(NotFound(UrlNotFoundMessage));
      }
      var url := db.urls[shortCode];
      if userEmail !in db.users {
        return Some(NotFound(UserNotFoundMessage));
      }
      if url.userId != db.users[userEmail] {
        return Some(IllegalArgument(DeletePermissionMessage));
      }
      db.DeleteUrl(shortCode);
      err := None;
    }
  }
}
