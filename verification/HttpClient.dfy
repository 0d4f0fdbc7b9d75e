/** One request through the HTTP transport and its authorizer: what is sent, what is fetched, and what the
    token cache holds afterwards. What other requests do to the cache meanwhile comes in from outside. */
module HttpClient {
  import opened Wrappers

  type Header = string

  datatype CachedToken = CachedToken(header: Header, refreshAt: int)

  /** What the token endpoint grants. */
  datatype Grant = Grant(header: Header, expiresIn: nat)

  datatype HttpError = Auth | Connect | Status(code: nat) | Body

  datatype HttpResponse = HttpResponse(status: nat, body: Option<seq<int>>)

  const UNAUTHORIZED: nat := 401

  /** What the outside answers during attempt `i`: the time at the first lookup, at the second, inside the
      refresh lock, and after the fetch; the cache as the others leave it while the attempt queues for
      the lock; the token endpoint; whether a request can be built at all; and the server. */
  datatype Outside = Outside(
    now: nat -> int,
    nowInLock: nat -> int,
    nowFetched: nat -> int,
    left: (nat, Option<CachedToken>) -> Option<CachedToken>,
    fetch: nat -> Option<Grant>,
    buildable: bool,
    serve: (nat, Option<Header>) -> Option<HttpResponse>)

  predicate Usable(cache: Option<CachedToken>, now: int) { cache.Some? && now < cache.value.refreshAt }

  /** The header an attempt that finds `cache` is granted: the cached one while it is not due; else the one
      that somebody else has cached by the time the lock is granted; else a fresh one. */
  function Granted(cache: Option<CachedToken>, out: Outside, i: nat): Option<Header> {
    if Usable(cache, out.now(i)) then Some(cache.value.header)
    else if Usable(out.left(i, cache), out.nowInLock(i)) then Some(out.left(i, cache).value.header)
    else if out.fetch(i).Some? then Some(out.fetch(i).value.header)
    else None
  }

  /** The attempt fetches a token of its own. */
  predicate Fetches(cache: Option<CachedToken>, out: Outside, i: nat) {
    !Usable(cache, out.now(i)) && !Usable(out.left(i, cache), out.nowInLock(i)) && out.fetch(i).Some?
  }

  class ClientCredentials {
    const skew: nat
    var cache: Option<CachedToken>
    ghost var fetches: nat

    constructor (skew: nat)
      ensures this.skew == skew && cache == None && fetches == 0
    {
      this.skew := skew;
      cache, fetches := None, 0;
    }

    method CachedValid(now: int) returns (h: Option<Header>)
      ensures h == if Usable(cache, now) then Some(cache.value.header) else None
    {
      match cache
      case None => return None;
      case Some(tok) => return if now < tok.refreshAt then Some(tok.header) else None;
    }

    /** `authorize`: a lookup, the refresh lock, a second lookup, and only then a fetch. */
    method Authorize(out: Outside, i: nat) returns (h: Option<Header>)
      modifies this
      ensures h == Granted(old(cache), out, i)
      ensures fetches == old(fetches) + if Fetches(old(cache), out, i) then 1 else 0
      ensures cache ==
              if Usable(old(cache), out.now(i)) then old(cache)
              else if Fetches(old(cache), out, i) then
                Some(CachedToken(out.fetch(i).value.header, out.nowFetched(i) + out.fetch(i).value.expiresIn - skew))
              else out.left(i, old(cache))
    {
      h := CachedValid(out.now(i));
      if h.Some? {
        return;
      }
      cache := out.left(i, cache);
      h := CachedValid(out.nowInLock(i));
      if h.Some? {
        return;
      }
      var resp := out.fetch(i);
      if resp.None? {
        return None;
      }
      fetches := fetches + 1;
      cache := Some(CachedToken(resp.value.header, out.nowFetched(i) + resp.value.expiresIn - skew));
      h := Some(resp.value.header);
    }

    method OnUnauthorized() returns (retry: bool)
      modifies `cache
      ensures retry && cache == None
    {
      cache := None;
      retry := true;
    }
  }

  /** The authorizers of the library and its examples: none, which never retries; a static token, which does
      not either; and the token manager. */
  datatype Authorizer = NoAuth | StaticToken(header: Header) | Managed(tokens: ClientCredentials)

  /** The objects an authorizer may change. */
  function Footprint(a: Authorizer): set<ClientCredentials> { if a.Managed? then {a.tokens} else {} }

  /** The header of attempt `i`, if there is to be a request: with none, the request goes out without one. */
  function Credential(a: Authorizer, cache: Option<CachedToken>, out: Outside, i: nat): Option<Option<Header>> {
    match a
    case NoAuth => Some(None)
    case StaticToken(h) => Some(Some(h))
    case Managed(_) => if Granted(cache, out, i).Some? then Some(Granted(cache, out, i)) else None
  }

  function CacheOf(a: Authorizer): Option<CachedToken>
    reads Footprint(a)
  {
    if a.Managed? then a.tokens.cache else None
  }

  method Authorize(a: Authorizer, out: Outside, i: nat) returns (h: Option<Option<Header>>)
    modifies Footprint(a)
    ensures h == Credential(a, old(CacheOf(a)), out, i)
  {
    match a
    case NoAuth => h := Some(None);
    case StaticToken(header) => h := Some(Some(header));
    case Managed(tokens) =>
      var granted := tokens.Authorize(out, i);
      h := if granted.Some? then Some(granted) else None;
  }

  method OnUnauthorized(a: Authorizer) returns (retry: bool)
    modifies Footprint(a)
    ensures retry == a.Managed? && CacheOf(a) == None
  {
    retry := false;
    if a.Managed? {
      retry := a.tokens.OnUnauthorized();
    }
  }

  /** How the last response is reported. */
  function Report(resp: HttpResponse): Result<seq<int>, HttpError> {
    if !(200 <= resp.status < 300) then Err(Status(resp.status))
    else if resp.body.None? then Err(Body)
    else Ok(resp.body.value)
  }

  method Send(out: Outside, i: nat, h: Option<Header>) returns (r: Result<HttpResponse, HttpError>, posted: bool)
    ensures posted == out.buildable
    ensures r == if out.buildable && out.serve(i, h).Some? then Ok(out.serve(i, h).value) else Err(Connect)
  {
    if !out.buildable { return Err(Connect), false; }
    match out.serve(i, h)
    case None => return Err(Connect), true;
    case Some(resp) => return Ok(resp), true;
  }

  /** The first request was answered, and by a 401. */
  predicate RejectedFirst(out: Outside, posts: seq<Option<Header>>) {
    posts != [] && out.serve(0, posts[0]).Some? && out.serve(0, posts[0]).value.status == UNAUTHORIZED
  }

  /** `round_trip`: one request, and one more exactly when the first was answered 401, the authorizer asks for
      a retry, and a credential can be had again, with whatever was cached before thrown away. The last
      answer is reported, a 401 that is not retried included. */
  method RoundTrip(a: Authorizer, out: Outside) returns (r: Result<seq<int>, HttpError>, posts: seq<Option<Header>>)
    modifies Footprint(a)
    ensures |posts| <= 2
    ensures posts != [] <==> out.buildable && Credential(a, old(CacheOf(a)), out, 0).Some?
    ensures posts != [] ==> Some(posts[0]) == Credential(a, old(CacheOf(a)), out, 0)
    ensures |posts| == 2 <==> RejectedFirst(out, posts) && a.Managed? && Credential(a, None, out, 1).Some?
    ensures |posts| == 2 ==> Some(posts[1]) == Credential(a, None, out, 1)
    ensures Credential(a, old(CacheOf(a)), out, 0).None? ==> r == Err(Auth)
    ensures RejectedFirst(out, posts) && a.Managed? && |posts| == 1 ==> r == Err(Auth)
    ensures posts != [] && !(RejectedFirst(out, posts) && a.Managed? && |posts| == 1) ==>
              var last := out.serve(|posts| - 1, posts[|posts| - 1]);
              r == if last.Some? then Report(last.value) else Err(Connect)
  {
    posts := [];
    var h := Authorize(a, out, 0);
    if h.None? {
      return Err(Auth), posts;
    }
    var resp, posted := Send(out, 0, h.value);
    posts := if posted then [h.value] else [];
    if resp.Err? {
      return Err(resp.error), posts;
    }
    if resp.value.status == UNAUTHORIZED {
      var retry := OnUnauthorized(a);
      if retry {
        h := Authorize(a, out, 1);
        if h.None? {
          return Err(Auth), posts;
        }
        resp, posted := Send(out, 1, h.value);
        posts := posts + [h.value];
        if resp.Err? {
          return Err(resp.error), posts;
        }
      }
    }
    r := Report(resp.value);
  }
}
