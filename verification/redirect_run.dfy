/** The redirect loop of camouflare/http_transport.py: which hops a fetch may make, with which caller
    headers, and when it stops. URL parsing, the cookie jar and the servers are the `World`. */
module RedirectRun {
  import opened Basics

  datatype Port = NoPort | Port(number: nat) | BadPort

  /** `urlsplit` of a URL, scheme and host in lower case: `literal` tells, for an IP-literal host, whether the
      address is public. */
  datatype UrlParts = UrlParts(scheme: string, host: string, port: Port, literal: Option<bool>)

  datatype Origin = Origin(scheme: string, host: string, port: nat)

  /** A header; `key` is its lower-cased name. */
  datatype Header = Header(name: string, key: string, value: string, fromCaller: bool)

  datatype Hop = Hop(url: string, headers: seq<Header>)

  datatype Response = Response(status: int, location: Option<string>)

  datatype Fetch = Fetch(
    url: string,
    headers: seq<Header>,
    originBound: set<string>,
    maxRedirects: int,
    requireHttps: bool,
    blockPrivate: bool)

  /** What the run meets: the parsing of URLs, the cookie jar and Host header after some hops, whether a
      value fits on the wire, and the answer to each hop, which may depend on all hops before it. */
  datatype World = World(
    parts: string -> UrlParts,
    clean: string -> Option<string>,
    join: (string, string) -> Option<string>,
    cookie: (seq<Hop>, string) -> Option<string>,
    hostHeader: string -> Option<string>,
    wireUrl: string -> Option<string>,
    encodable: string -> bool,
    answer: seq<Hop> -> Option<Response>)

  datatype FetchError = BadUrl | Refused | BadHeader | NoResponse

  datatype Final = Final(url: string, response: Response)

  datatype Outcome = Outcome(hops: seq<Hop>, result: Result<Final, FetchError>)

  predicate IsRedirect(status: int) {
    status in {301, 302, 303, 307, 308}
  }

  /** `_url_origin`; None where it raises. A port of 0 counts as absent. */
  function UrlOrigin(parts: UrlParts): Option<Origin> {
    var default := if parts.scheme == "https" then 443 else 80;
    match parts.port
    case BadPort => None
    case NoPort => Some(Origin(parts.scheme, parts.host, default))
    case Port(n) => Some(Origin(parts.scheme, parts.host, if n == 0 then default else n))
  }

  /** `_check_target` passes. */
  predicate Permitted(req: Fetch, parts: UrlParts) {
    (req.requireHttps ==> parts.scheme == "https") && (req.blockPrivate ==> parts.literal != Some(false))
  }

  predicate HasHeader(headers: seq<Header>, key: string) {
    exists i :: 0 <= i < |headers| && headers[i].key == key
  }

  function Without(headers: seq<Header>, keys: set<string>): (r: seq<Header>)
    ensures forall h :: h in r <==> h in headers && h.key !in keys
  {
    if headers == [] then []
    else (if headers[0].key in keys then [] else [headers[0]]) + Without(headers[1..], keys)
  }

  /** `_headers_for_origin`. */
  function HeadersForOrigin(w: World, req: Fetch, target: Origin, url: string): seq<Header> {
    if UrlOrigin(w.parts(url)) == Some(target) then req.headers else Without(req.headers, req.originBound)
  }

  /** The headers of one hop: the caller's that may go there, the jar's cookies, and a Host field. */
  function HopHeaders(w: World, req: Fetch, target: Origin, hops: seq<Hop>, url: string): seq<Header> {
    var kept := HeadersForOrigin(w, req, target, url);
    var cookie := w.cookie(hops, url);
    var baked := if !HasHeader(kept, "cookie") && cookie.Some?
        then kept + [Header("Cookie", "cookie", cookie.value, false)] else kept;
    var host := w.hostHeader(url);
    if host.Some? && !HasHeader(baked, "host") then [Header("Host", "host", host.value, false)] + baked else baked
  }

  /** The URL to go to after `response`, if it is to be followed at all. */
  function NextUrl(w: World, req: Fetch, url: string, redirects: int, response: Response): Option<string> {
    if IsRedirect(response.status) && response.location.Some? && response.location.value != ""
        && redirects < req.maxRedirects
    then w.join(url, response.location.value) else None
  }

  // ----- the run as a function -----

  /** The rest of a run that is about to visit `url` after `hops`. */
  function Follow(w: World, req: Fetch, target: Origin, hops: seq<Hop>, url: string, redirects: nat): Outcome
    decreases req.maxRedirects - redirects
  {
    var headers := HopHeaders(w, req, target, hops, url);
    if w.wireUrl(url) == None then Outcome(hops, Err(BadUrl))
    else if exists h :: h in headers && !w.encodable(h.value) then Outcome(hops, Err(BadHeader))
    else
      var made := hops + [Hop(url, headers)];
      match w.answer(made)
      case None => Outcome(made, Err(NoResponse))
      case Some(response) =>
        var next := NextUrl(w, req, url, redirects, response);
        if next == None then Outcome(made, Ok(Final(url, response)))
        else if !Permitted(req, w.parts(next.value)) then Outcome(made, Err(Refused))
        else Follow(w, req, target, made, next.value, redirects + 1)
  }

  /** `_fetch` from the start. */
  function Exchange(w: World, req: Fetch): Outcome {
    var first := w.clean(req.url);
    if first == None then Outcome([], Err(BadUrl))
    else if !Permitted(req, w.parts(first.value)) then Outcome([], Err(Refused))
    else
      var target := UrlOrigin(w.parts(first.value));
      if target == None then Outcome([], Err(BadUrl)) else Follow(w, req, target.value, [], first.value, 0)
  }

  // ----- the run as the loop it is -----

  method HeadersEncodable(w: World, headers: seq<Header>) returns (ok: bool)
    ensures ok <==> forall h :: h in headers ==> w.encodable(h.value)
  {
    for i := 0 to |headers|
      invariant forall k :: 0 <= k < i ==> w.encodable(headers[k].value)
    {
      if !w.encodable(headers[i].value) {
        return false;
      }
    }
    return true;
  }

  /** `_fetch`. */
  method RunFetch(w: World, req: Fetch) returns (r: Outcome)
    ensures r == Exchange(w, req)
  {
    hide HopHeaders, NextUrl, Permitted;
    var first := w.clean(req.url);
    if first == None {
      return Outcome([], Err(BadUrl));
    }
    var url := first.value;
    if !Permitted(req, w.parts(url)) {
      return Outcome([], Err(Refused));
    }
    var target := UrlOrigin(w.parts(url));
    if target == None {
      return Outcome([], Err(BadUrl));
    }
    var redirects := 0;
    var hops: seq<Hop> := [];
    while true
      invariant redirects >= 0 && Follow(w, req, target.value, hops, url, redirects) == Exchange(w, req)
      decreases req.maxRedirects - redirects
    {
      var headers := HopHeaders(w, req, target.value, hops, url);
      if w.wireUrl(url) == None {
        return Outcome(hops, Err(BadUrl));
      }
      var ok := HeadersEncodable(w, headers);
      if !ok {
        return Outcome(hops, Err(BadHeader));
      }
      hops := hops + [Hop(url, headers)];
      var answer := w.answer(hops);
      if answer == None {
        return Outcome(hops, Err(NoResponse));
      }
      var next := NextUrl(w, req, url, redirects, answer.value);
      if next == None {
        return Outcome(hops, Ok(Final(url, answer.value)));
      }
      if !Permitted(req, w.parts(next.value)) {
        return Outcome(hops, Err(Refused));
      }
      FollowedBelowLimit(w, req, url, redirects, answer.value);
      url := next.value;
      redirects := redirects + 1;
    }
  }

  // ----- what holds of every run -----

  /** The hops made so far are a chain: each follows from the server's answer to the one before. */
  ghost predicate Chain(w: World, req: Fetch, target: Origin, hops: seq<Hop>) {
    forall i :: 0 <= i < |hops| ==> Linked(w, req, target, hops, i)
  }

  ghost predicate Linked(w: World, req: Fetch, target: Origin, hops: seq<Hop>, i: nat)
    requires i < |hops|
  {
    && Permitted(req, w.parts(hops[i].url))
    && w.wireUrl(hops[i].url).Some?
    && (forall h :: h in hops[i].headers ==> w.encodable(h.value))
    && hops[i].headers == HopHeaders(w, req, target, hops[..i], hops[i].url)
    && (i > 0 ==>
         w.answer(hops[..i]).Some?
         && NextUrl(w, req, hops[i - 1].url, i - 1, w.answer(hops[..i]).value) == Some(hops[i].url))
  }

  /** About to visit `url` as hop number |hops|. */
  ghost predicate About(w: World, req: Fetch, hops: seq<Hop>, url: string) {
    && Permitted(req, w.parts(url))
    && (hops != [] ==>
         w.answer(hops).Some? && NextUrl(w, req, hops[|hops| - 1].url, |hops| - 1, w.answer(hops).value) == Some(url))
  }

  lemma ChainGrows(w: World, req: Fetch, target: Origin, hops: seq<Hop>, url: string)
    requires Chain(w, req, target, hops) && About(w, req, hops, url) && w.wireUrl(url).Some?
    requires forall h :: h in HopHeaders(w, req, target, hops, url) ==> w.encodable(h.value)
    ensures Chain(w, req, target, hops + [Hop(url, HopHeaders(w, req, target, hops, url))])
  {
    hide HopHeaders, NextUrl, Permitted;
    var made := hops + [Hop(url, HopHeaders(w, req, target, hops, url))];
    forall i | 0 <= i < |made| ensures Linked(w, req, target, made, i) {
      if i < |hops| {
        assert Linked(w, req, target, hops, i);
        assert made[..i] == hops[..i];
      } else {
        assert made[..i] == hops;
      }
    }
  }

  lemma {:induction false} FollowChains(w: World, req: Fetch, target: Origin, hops: seq<Hop>, url: string)
    requires Chain(w, req, target, hops) && About(w, req, hops, url)
    ensures var r := Follow(w, req, target, hops, url, |hops|);
            && Chain(w, req, target, r.hops) && hops <= r.hops
            && (r.hops != hops && hops == [] ==> r.hops[0].url == url)
            && |r.hops| <= (if req.maxRedirects > |hops| then req.maxRedirects else |hops|) + 1
            && (r.result.Ok? ==>
                  && r.hops != [] && r.result.value.url == r.hops[|r.hops| - 1].url
                  && w.answer(r.hops) == Some(r.result.value.response)
                  && NextUrl(w, req, r.result.value.url, |r.hops| - 1, r.result.value.response) == None)
            && (r.result == Err(Refused) ==>
                  && r.hops != [] && w.answer(r.hops).Some?
                  && var next := NextUrl(w, req, r.hops[|r.hops| - 1].url, |r.hops| - 1, w.answer(r.hops).value);
                     next.Some? && !Permitted(req, w.parts(next.value)))
    decreases req.maxRedirects - |hops|
  {
    hide HopHeaders, Chain, Permitted, NextUrl;
    var headers := HopHeaders(w, req, target, hops, url);
    if w.wireUrl(url) != None && !(exists h :: h in headers && !w.encodable(h.value)) {
      var made := hops + [Hop(url, headers)];
      ChainGrows(w, req, target, hops, url);
      if w.answer(made).Some? {
        var response := w.answer(made).value;
        var next := NextUrl(w, req, url, |hops|, response);
        if next.Some? && Permitted(req, w.parts(next.value)) {
          FollowedBelowLimit(w, req, url, |hops|, response);
          FollowChains(w, req, target, made, next.value);
        }
      }
    }
  }

  lemma FollowedBelowLimit(w: World, req: Fetch, url: string, redirects: int, response: Response)
    requires NextUrl(w, req, url, redirects, response).Some?
    ensures redirects < req.maxRedirects
  {
  }

  lemma ExchangeChains(w: World, req: Fetch)
    ensures var r := Exchange(w, req);
            r.hops == [] ||
            (w.clean(req.url).Some? && var target := UrlOrigin(w.parts(w.clean(req.url).value));
             target.Some? && Chain(w, req, target.value, r.hops) && r.hops[0].url == w.clean(req.url).value)
    ensures |Exchange(w, req).hops| <= (if req.maxRedirects > 0 then req.maxRedirects else 0) + 1
    ensures var r := Exchange(w, req);
            r.result.Ok? ==>
              && r.hops != [] && r.result.value.url == r.hops[|r.hops| - 1].url
              && w.answer(r.hops) == Some(r.result.value.response)
              && NextUrl(w, req, r.result.value.url, |r.hops| - 1, r.result.value.response) == None
  {
    hide Follow, NextUrl, HopHeaders;
    var first := w.clean(req.url);
    if first.Some? && Permitted(req, w.parts(first.value)) {
      var target := UrlOrigin(w.parts(first.value));
      if target.Some? {
        FollowChains(w, req, target.value, [], first.value);
      }
    }
  }

  /** At most `max_redirects` redirects are followed. Every hop goes where the policy in force allows, HTTPS
      only when that is required and never to a non-public address literal when those are blocked, and is
      made with a URL and headers that fit on the wire. */
  lemma EveryHopIsPermitted(w: World, req: Fetch)
    ensures var r := Exchange(w, req);
            && |r.hops| <= (if req.maxRedirects > 0 then req.maxRedirects else 0) + 1
            && forall i :: 0 <= i < |r.hops| ==>
                 && (req.requireHttps ==> w.parts(r.hops[i].url).scheme == "https")
                 && (req.blockPrivate ==> w.parts(r.hops[i].url).literal != Some(false))
                 && w.wireUrl(r.hops[i].url).Some? && forall h :: h in r.hops[i].headers ==> w.encodable(h.value)
  {
    hide Exchange, HopHeaders, NextUrl, UrlOrigin;
    ExchangeChains(w, req);
    var hops := Exchange(w, req).hops;
    forall i | 0 <= i < |hops|
      ensures Permitted(req, w.parts(hops[i].url))
      ensures w.wireUrl(hops[i].url).Some? && forall h :: h in hops[i].headers ==> w.encodable(h.value)
    {
      assert Linked(w, req, UrlOrigin(w.parts(w.clean(req.url).value)).value, hops, i);
    }
  }

  /** The port a URL names: the given one unless it is absent or 0, and then its scheme's. */
  function EffectivePort(parts: UrlParts): nat {
    if parts.port.Port? && parts.port.number != 0 then parts.port.number
    else if parts.scheme == "https" then 443 else 80
  }

  /** Scheme, host and port, and a port that can be read at all. */
  predicate SameOrigin(a: UrlParts, b: UrlParts) {
    && a.scheme == b.scheme && a.host == b.host && EffectivePort(a) == EffectivePort(b)
    && a.port != BadPort && b.port != BadPort
  }

  lemma OriginIsSchemeHostPort(a: UrlParts, b: UrlParts)
    requires UrlOrigin(a).Some?
    ensures UrlOrigin(a) == UrlOrigin(b) <==> SameOrigin(a, b)
  {
  }

  /** A caller header named origin-bound goes to the first URL's scheme, host and port only; there, and for
      every other caller header everywhere, nothing is lost. */
  lemma OriginBoundHeadersStay(w: World, req: Fetch, i: nat, h: Header)
    requires forall x :: x in req.headers ==> x.fromCaller
    requires i < |Exchange(w, req).hops|
    ensures var hops := Exchange(w, req).hops;
            h.fromCaller ==>
              (h in hops[i].headers <==>
                 && h in req.headers
                 && (SameOrigin(w.parts(hops[0].url), w.parts(hops[i].url)) || h.key !in req.originBound))
  {
    hide Exchange, NextUrl, UrlOrigin, Permitted, SameOrigin;
    ExchangeChains(w, req);
    var hops := Exchange(w, req).hops;
    var target := UrlOrigin(w.parts(hops[0].url)).value;
    assert Linked(w, req, target, hops, i);
    OriginIsSchemeHostPort(w.parts(hops[0].url), w.parts(hops[i].url));
    CallerHeaders(w, req, target, hops[..i], hops[i].url, h);
  }

  lemma CallerHeaders(w: World, req: Fetch, target: Origin, hops: seq<Hop>, url: string, h: Header)
    requires forall x :: x in req.headers ==> x.fromCaller
    ensures h.fromCaller ==>
              (h in HopHeaders(w, req, target, hops, url) <==> h in HeadersForOrigin(w, req, target, url))
    ensures h in HeadersForOrigin(w, req, target, url) <==>
              h in req.headers && (UrlOrigin(w.parts(url)) == Some(target) || h.key !in req.originBound)
  {
  }

  /** What a hop carries that is not the caller's: the jar's cookies, exactly if there are any and the hop
      has no Cookie header of the caller's, and a Host field, exactly if the URL needs one and the caller
      gave none; and every hop carries a caller's Cookie or Host header at most. */
  lemma AddedHeaders(w: World, req: Fetch, i: nat, h: Header)
    requires forall x :: x in req.headers ==> x.fromCaller
    requires i < |Exchange(w, req).hops| && !h.fromCaller
    ensures var hops := Exchange(w, req).hops;
            var ofCaller := set x | x in hops[i].headers && x.fromCaller :: x.key;
            var cookie, host := w.cookie(hops[..i], hops[i].url), w.hostHeader(hops[i].url);
            h in hops[i].headers <==>
              || (cookie.Some? && "cookie" !in ofCaller && h == Header("Cookie", "cookie", cookie.value, false))
              || (host.Some? && "host" !in ofCaller && h == Header("Host", "host", host.value, false))
  {
    hide Exchange, NextUrl, UrlOrigin, Permitted;
    ExchangeChains(w, req);
    var hops := Exchange(w, req).hops;
    var target := UrlOrigin(w.parts(hops[0].url)).value;
    assert Linked(w, req, target, hops, i);
    JarAndHost(w, req, target, hops[..i], hops[i].url, h);
  }

  lemma JarAndHost(w: World, req: Fetch, target: Origin, hops: seq<Hop>, url: string, h: Header)
    requires (forall x :: x in req.headers ==> x.fromCaller) && !h.fromCaller
    ensures var headers := HopHeaders(w, req, target, hops, url);
            var ofCaller := set x | x in headers && x.fromCaller :: x.key;
            var cookie, host := w.cookie(hops, url), w.hostHeader(url);
            h in headers <==>
              || (cookie.Some? && "cookie" !in ofCaller && h == Header("Cookie", "cookie", cookie.value, false))
              || (host.Some? && "host" !in ofCaller && h == Header("Host", "host", host.value, false))
  {
    hide HeadersForOrigin;
    var kept := HeadersForOrigin(w, req, target, url);
    var headers := HopHeaders(w, req, target, hops, url);
    forall x ensures x in kept ==> x.fromCaller && x in headers {
      CallerHeaders(w, req, target, hops, url, x);
    }
    forall x | x in headers && x.fromCaller ensures x in kept {
      CallerHeaders(w, req, target, hops, url, x);
    }
    var ofCaller := set x | x in headers && x.fromCaller :: x.key;
    KeysOf(kept, headers, "cookie");
    KeysOf(kept, headers, "host");
  }

  lemma KeysOf(kept: seq<Header>, headers: seq<Header>, key: string)
    requires forall x :: x in kept <==> x in headers && x.fromCaller
    ensures HasHeader(kept, key) <==> key in (set x | x in headers && x.fromCaller :: x.key)
  {
    if HasHeader(kept, key) {
      var i :| 0 <= i < |kept| && kept[i].key == key;
      assert kept[i] in headers;
    }
  }

  /** A response that is returned is the last hop's. A redirect status is returned exactly when the limit
      is reached, or its Location is absent, empty or cannot be requested. */
  lemma RedirectIsReturnedOnlyIfNotFollowed(w: World, req: Fetch)
    ensures var r := Exchange(w, req);
            r.result.Ok? ==>
              && r.hops != [] && r.result.value.url == r.hops[|r.hops| - 1].url
              && w.answer(r.hops) == Some(r.result.value.response)
              && (r.result.value.response.status in {301, 302, 303, 307, 308} ==>
                    || |r.hops| - 1 >= req.maxRedirects
                    || r.result.value.response.location == None
                    || r.result.value.response.location.value == ""
                    || w.join(r.result.value.url, r.result.value.response.location.value) == None)
  {
    hide Exchange, HopHeaders, UrlOrigin, Permitted, Chain;
    ExchangeChains(w, req);
  }

  /** Every hop after the first is where the answer to the hop before it redirected to. */
  lemma HopsFollowTheServer(w: World, req: Fetch, i: nat)
    requires 0 < i < |Exchange(w, req).hops|
    ensures var hops := Exchange(w, req).hops;
            && w.answer(hops[..i]).Some?
            && var response := w.answer(hops[..i]).value;
               && response.status in {301, 302, 303, 307, 308}
               && response.location.Some? && response.location.value != ""
               && w.join(hops[i - 1].url, response.location.value) == Some(hops[i].url)
  {
    hide Exchange, HopHeaders, UrlOrigin, Permitted;
    ExchangeChains(w, req);
    assert Linked(w, req, UrlOrigin(w.parts(w.clean(req.url).value)).value, Exchange(w, req).hops, i);
  }

  /** The URL a run stands at after `hops`, with the last answer a redirect it would follow. */
  ghost predicate LeadsTo(w: World, req: Fetch, hops: seq<Hop>, url: string) {
    if hops == [] then w.clean(req.url) == Some(url)
    else
      var response := w.answer(hops);
      && response.Some? && response.value.status in {301, 302, 303, 307, 308} && |hops| <= req.maxRedirects
      && response.value.location.Some? && response.value.location.value != ""
      && w.join(hops[|hops| - 1].url, response.value.location.value) == Some(url)
  }

  /** Why a run fails: nothing answered the last hop, or the next URL is against the policy in force or does
      not fit on the wire, or its headers do not. A run that may go on does. */
  lemma FailuresHaveReasons(w: World, req: Fetch)
    ensures var r := Exchange(w, req);
            r.result.Err? ==>
              match r.result.error
              case NoResponse => r.hops != [] && w.answer(r.hops) == None
              case Refused =>
                exists url :: LeadsTo(w, req, r.hops, url)
                              && ((req.requireHttps && w.parts(url).scheme != "https")
                                  || (req.blockPrivate && w.parts(url).literal == Some(false)))
              case BadUrl =>
                || (r.hops == [] && w.clean(req.url) == None)
                || (exists url :: LeadsTo(w, req, r.hops, url)
                                  && (w.wireUrl(url) == None || (r.hops == [] && w.parts(url).port == BadPort)))
              case BadHeader =>
                exists url, target :: LeadsTo(w, req, r.hops, url) && UrlOrigin(target) != None
                  && exists h :: h in HopHeaders(w, req, UrlOrigin(target).value, r.hops, url)
                                 && !w.encodable(h.value)
  {
    hide Follow, HopHeaders, NextUrl;
    var first := w.clean(req.url);
    if first.Some? {
      assert LeadsTo(w, req, [], first.value);
      if Permitted(req, w.parts(first.value)) && UrlOrigin(w.parts(first.value)).Some? {
        FollowFails(w, req, w.parts(first.value), [], first.value);
      }
    }
  }

  ghost predicate Reasoned(w: World, req: Fetch, target: UrlParts, r: Outcome)
    requires UrlOrigin(target).Some?
  {
    r.result.Err? ==>
      match r.result.error
      case NoResponse => r.hops != [] && w.answer(r.hops) == None
      case Refused => exists url :: LeadsTo(w, req, r.hops, url) && !Permitted(req, w.parts(url))
      case BadUrl => exists url :: LeadsTo(w, req, r.hops, url) && w.wireUrl(url) == None
      case BadHeader =>
        exists url :: LeadsTo(w, req, r.hops, url)
                      && exists h :: h in HopHeaders(w, req, UrlOrigin(target).value, r.hops, url)
                                     && !w.encodable(h.value)
  }

  lemma {:induction false} FollowFails(w: World, req: Fetch, target: UrlParts, hops: seq<Hop>, url: string)
    requires UrlOrigin(target).Some? && LeadsTo(w, req, hops, url)
    ensures Reasoned(w, req, target, Follow(w, req, UrlOrigin(target).value, hops, url, |hops|))
    decreases req.maxRedirects - |hops|
  {
    hide HopHeaders, Permitted, NextUrl, UrlOrigin;
    var headers := HopHeaders(w, req, UrlOrigin(target).value, hops, url);
    if w.wireUrl(url) != None && !(exists h :: h in headers && !w.encodable(h.value)) {
      var made := hops + [Hop(url, headers)];
      if w.answer(made).Some? {
        var next := NextUrl(w, req, url, |hops|, w.answer(made).value);
        if next.Some? {
          NextLeads(w, req, hops, Hop(url, headers));
          if Permitted(req, w.parts(next.value)) {
            FollowedBelowLimit(w, req, url, |hops|, w.answer(made).value);
            FollowFails(w, req, target, made, next.value);
          }
        }
      }
    }
  }

  lemma NextLeads(w: World, req: Fetch, hops: seq<Hop>, hop: Hop)
    requires w.answer(hops + [hop]).Some?
    ensures var next := NextUrl(w, req, hop.url, |hops|, w.answer(hops + [hop]).value);
            next.Some? ==> LeadsTo(w, req, hops + [hop], next.value)
  {
  }
}
