/** What a backend is sent: the cookies of its session, and of the client's own cookies those
    the site does not manage. */
module Upstream {
  import opened Stores
  import opened Response

  datatype Pair = Pair(name: string, value: string)

  /** The client's own cookies: neither the proxy's key nor one the site stores. */
  predicate Theirs(site: Site, proxy: string, p: Pair) { p.name != proxy && site.decide(p.name) != Keep }

  function OwnCookies(site: Site, proxy: string, client: seq<Pair>): seq<Pair> {
    if client == [] then []
    else OwnCookies(site, proxy, client[..|client| - 1]) + if Theirs(site, proxy, client[|client| - 1]) then [client[|client| - 1]] else []
  }

  /** Every cookie of the session once, in any order. */
  ghost predicate Lists(pairs: seq<Pair>, cached: map<string, string>) {
    && (forall p <- pairs :: p.name in cached && cached[p.name] == p.value)
    && (forall n <- cached :: Pair(n, cached[n]) in pairs)
    && (forall i, j :: 0 <= i < j < |pairs| ==> pairs[i].name != pairs[j].name)
  }

  /** The cookies of a request as the backend gets them. */
  ghost predicate Sends(site: Site, proxy: string, client: seq<Pair>, cached: map<string, string>, kept: seq<Pair>) {
    var own := OwnCookies(site, proxy, client); own <= kept && Lists(kept[|own|..], cached)
  }

  /** The rewriting of the request's cookies; the session's come in no particular order. */
  method PrepareUpstream(site: Site, proxy: string, client: seq<Pair>, cached: map<string, string>) returns (kept: seq<Pair>)
    ensures Sends(site, proxy, client, cached, kept)
  {
    kept := [];
    for i := 0 to |client|
      invariant kept == OwnCookies(site, proxy, client[..i])
    {
      assert client[..i + 1][..i] == client[..i];
      if client[i].name == proxy { continue; }
      if site.decide(client[i].name) == Keep { continue; }
      kept := kept + [client[i]];
    }
    assert client[..|client|] == client;
    var names := cached.Keys;
    var injected: seq<Pair> := [];
    while names != {}
      invariant names <= cached.Keys
      invariant forall p <- injected :: p.name in cached && p.name !in names && cached[p.name] == p.value
      invariant forall n <- cached :: n in names || Pair(n, cached[n]) in injected
      invariant forall i, j :: 0 <= i < j < |injected| ==> injected[i].name != injected[j].name
    {
      var n :| n in names;
      names := names - {n};
      assert forall p <- injected :: p.name != n;
      injected := injected + [Pair(n, cached[n])];
    }
    ghost var own := kept;
    kept := kept + injected;
    assert kept[|own|..] == injected;
  }

  lemma {:induction false} OwnCookiesHas(site: Site, proxy: string, client: seq<Pair>, p: Pair)
    ensures p in OwnCookies(site, proxy, client) <==> p in client && Theirs(site, proxy, p)
  {
    if client != [] {
      assert client == client[..|client| - 1] + [client[|client| - 1]];
      OwnCookiesHas(site, proxy, client[..|client| - 1], p);
    }
  }

  /** A cookie the site stores, and the proxy's key, reach the backend only as the session
      holds them, whatever the client sends; every other cookie of the client passes. */
  lemma SentIff(site: Site, proxy: string, client: seq<Pair>, cached: map<string, string>, kept: seq<Pair>, p: Pair)
    requires Sends(site, proxy, client, cached, kept)
    ensures p in kept <==> Lookup(cached, p.name) == Some(p.value) || (p in client && p.name != proxy && site.decide(p.name) != Keep)
  {
    var own := OwnCookies(site, proxy, client);
    OwnCookiesHas(site, proxy, client, p);
    assert kept == own + kept[|own|..];
  }
}
