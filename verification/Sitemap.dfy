/** Sitemap discovery: a depth-bounded walk over sitemap indexes that may link in circles. */
module Sitemap {
  import opened Options

  type Url = string

  /** What fetching and parsing a URL gives. The walk fetches no URL twice, so one answer each is
      enough. */
  datatype Answer = Unreachable | Malformed | Index(nested: seq<Url>) | UrlSet(urls: seq<Url>)

  type World = Url -> Answer

  const MAX_DEPTH: nat := 3

  const COMMON_SITEMAP_PATHS: seq<string> :=
    ["/sitemap.xml", "/sitemap_index.xml", "/sitemap-index.xml", "/sitemapindex.xml"]

  // ----- The walk -----

  /** The URLs tried, in order, each with the depth it was tried at; and the URLs turned away
      because they were offered too deep. */
  datatype Walk = Walk(tried: seq<Url>, depths: map<Url, nat>, cut: set<Url>)

  const START := Walk([], map[], {})

  function Visit(w: Walk, url: Url, depth: nat): Walk {
    Walk(w.tried + [url], w.depths[url := depth], w.cut)
  }

  function Resolve(world: World, url: Url, depth: nat, w: Walk): Walk
    requires 1 <= depth <= MAX_DEPTH + 1
    decreases MAX_DEPTH + 1 - depth, 0
  {
    if depth > MAX_DEPTH then w.(cut := w.cut + {url})
    else if url in w.tried then w
    else if world(url).Index? then ResolveAll(world, world(url).nested, depth + 1, Visit(w, url, depth))
    else Visit(w, url, depth)
  }

  function ResolveAll(world: World, urls: seq<Url>, depth: nat, w: Walk): Walk
    requires 1 <= depth <= MAX_DEPTH + 1
    decreases MAX_DEPTH + 1 - depth, |urls|
  {
    if urls == [] then w
    else Resolve(world, urls[|urls| - 1], depth, ResolveAll(world, urls[..|urls| - 1], depth, w))
  }

  lemma ResolveAllStep(world: World, urls: seq<Url>, depth: nat, w: Walk, i: nat)
    requires 1 <= depth <= MAX_DEPTH + 1 && i < |urls|
    ensures ResolveAll(world, urls[..i + 1], depth, w)
         == Resolve(world, urls[i], depth, ResolveAll(world, urls[..i], depth, w))
  {
    hide Resolve;
    assert urls[..i + 1][..i] == urls[..i];
  }

  lemma NothingResolved(world: World, urls: seq<Url>, depth: nat, w: Walk)
    requires 1 <= depth <= MAX_DEPTH + 1
    ensures ResolveAll(world, urls[..0], depth, w) == w
  {
  }

  lemma ResolveUnfolds(world: World, url: Url, depth: nat, w: Walk)
    requires 1 <= depth <= MAX_DEPTH + 1
    ensures Resolve(world, url, depth, w) ==
            if depth > MAX_DEPTH then w.(cut := w.cut + {url})
            else if url in w.tried then w
            else if world(url).Index? then ResolveAll(world, world(url).nested, depth + 1, Visit(w, url, depth))
            else Visit(w, url, depth)
  {
    hide ResolveAll;
  }

  function Discovered(world: World, candidates: seq<Url>): Walk {
    ResolveAll(world, candidates, 1, START)
  }

  // ----- What is recorded of it -----

  predicate Readable(world: World, u: Url) {
    world(u).Index? || world(u).UrlSet?
  }

  function FoundOf(world: World, tried: seq<Url>): seq<Url> {
    if tried == [] then []
    else FoundOf(world, tried[..|tried| - 1]) + if Readable(world, tried[|tried| - 1]) then [tried[|tried| - 1]] else []
  }

  function ErrorsOf(world: World, tried: seq<Url>): seq<Url> {
    if tried == [] then []
    else
      var u := tried[|tried| - 1];
      ErrorsOf(world, tried[..|tried| - 1]) + if Readable(world, u) then [] else [u]
  }

  function UrlsOf(world: World, tried: seq<Url>): seq<Url> {
    if tried == [] then []
    else
      var r := world(tried[|tried| - 1]);
      UrlsOf(world, tried[..|tried| - 1]) + if r.UrlSet? then r.urls else []
  }

  lemma OneMoreTry(world: World, tried: seq<Url>, u: Url)
    ensures FoundOf(world, tried + [u]) == FoundOf(world, tried) + if Readable(world, u) then [u] else []
    ensures ErrorsOf(world, tried + [u]) == ErrorsOf(world, tried) + if Readable(world, u) then [] else [u]
    ensures UrlsOf(world, tried + [u]) == UrlsOf(world, tried) + if world(u).UrlSet? then world(u).urls else []
  {
    assert (tried + [u])[..|tried|] == tried;
  }

  lemma {:induction false} EveryTryIsRecorded(world: World, tried: seq<Url>)
    ensures |tried| == |FoundOf(world, tried)| + |ErrorsOf(world, tried)|
    ensures forall u :: u in FoundOf(world, tried) <==> u in tried && (world(u).Index? || world(u).UrlSet?)
    ensures forall u :: u in ErrorsOf(world, tried) <==> u in tried && (world(u).Unreachable? || world(u).Malformed?)
  {
    if tried == [] {
    } else {
      EveryTryIsRecorded(world, tried[..|tried| - 1]);
      assert tried == tried[..|tried| - 1] + [tried[|tried| - 1]];
    }
  }

  /** The URLs found are those the URL sets among the tried list. */
  lemma {:induction false} ListedUrls(world: World, tried: seq<Url>)
    ensures forall x :: x in UrlsOf(world, tried) <==> exists u :: u in tried && world(u).UrlSet? && x in world(u).urls
  {
    if tried == [] {
    } else {
      var init, last := tried[..|tried| - 1], tried[|tried| - 1];
      ListedUrls(world, init);
      assert tried == init + [last];
      assert forall u :: u in tried <==> u in init || u == last;
    }
  }

  /** The four lists and the seen set belong to what was tried. */
  ghost predicate Recorded(world: World, tried: seq<Url>, seen: set<Url>, found: seq<Url>, errors: seq<Url>,
                           urls: seq<Url>) {
    && (forall u :: u in seen <==> u in tried)
    && found == FoundOf(world, tried) && errors == ErrorsOf(world, tried) && urls == UrlsOf(world, tried)
  }

  lemma RecordOne(world: World, tried: seq<Url>, seen: set<Url>, found: seq<Url>, errors: seq<Url>, urls: seq<Url>,
                  u: Url)
    requires Recorded(world, tried, seen, found, errors, urls)
    ensures !Readable(world, u) ==> Recorded(world, tried + [u], seen + {u}, found, errors + [u], urls)
    ensures world(u).Index? ==> Recorded(world, tried + [u], seen + {u}, found + [u], errors, urls)
    ensures world(u).UrlSet? ==> Recorded(world, tried + [u], seen + {u}, found + [u], errors, urls + world(u).urls)
  {
    hide FoundOf, ErrorsOf, UrlsOf;
    OneMoreTry(world, tried, u);
  }

  lemma SeenIsTried(world: World, tried: seq<Url>, seen: set<Url>, found: seq<Url>, errors: seq<Url>, urls: seq<Url>)
    requires Recorded(world, tried, seen, found, errors, urls)
    ensures forall u :: u in seen <==> u in tried
  {
  }

  /** `list(dict.fromkeys(urls))` */
  function Dedup(s: seq<Url>): seq<Url> {
    if s == [] then []
    else
      var r, x := Dedup(s[..|s| - 1]), s[|s| - 1];
      if x in r then r else r + [x]
  }

  function First(s: seq<Url>, x: Url): nat
    requires x in s
    ensures First(s, x) < |s| && s[First(s, x)] == x
  {
    if s[0] == x then 0 else 1 + First(s[1..], x)
  }

  lemma {:induction false} FirstIsFirst(s: seq<Url>, x: Url, i: nat)
    requires i < |s| && s[i] == x
    ensures First(s, x) <= i
  {
    if s[0] != x { FirstIsFirst(s[1..], x, i - 1); }
  }

  lemma FirstOfPrefix(s: seq<Url>, t: seq<Url>, x: Url)
    requires x in s
    ensures First(s + t, x) == First(s, x)
  {
    FirstIsFirst(s + t, x, First(s, x));
    var i := First(s + t, x);
    assert i < |s| && s[i] == x;
    FirstIsFirst(s, x, i);
  }

  /** Each URL once, in the order of first occurrence: the order is strict, so none repeats. */
  ghost predicate FirstSeenOrder(r: seq<Url>, s: seq<Url>) {
    && (forall x :: x in r <==> x in s)
    && (forall i, k :: 0 <= i < k < |r| ==> r[i] in s && r[k] in s && First(s, r[i]) < First(s, r[k]))
  }

  lemma MembersOfFirstSeen(r: seq<Url>, s: seq<Url>)
    requires FirstSeenOrder(r, s)
    ensures forall x :: x in r <==> x in s
  {
  }

  lemma FirstOfNew(s: seq<Url>, x: Url)
    requires x !in s
    ensures First(s + [x], x) == |s|
  {
    FirstIsFirst(s + [x], x, |s|);
    assert forall k :: 0 <= k < |s| ==> (s + [x])[k] == s[k] && s[k] in s;
  }

  lemma {:induction false} DedupKeepsFirstSeenOrder(s: seq<Url>)
    ensures FirstSeenOrder(Dedup(s), s)
  {
    hide First;
    if s == [] {
    } else {
      var init, x := s[..|s| - 1], s[|s| - 1];
      var r := Dedup(init);
      DedupKeepsFirstSeenOrder(init);
      assert s == init + [x];
      forall i | 0 <= i < |r| ensures r[i] in s && First(s, r[i]) == First(init, r[i]) {
        assert r[i] in r && r[i] in init;
        FirstOfPrefix(init, [x], r[i]);
      }
      if x !in r { FirstOfNew(init, x); }
    }
  }

  // ----- The program -----

  class SitemapDiscovery {
    var robotsFound: bool
    var sitemapUrlsTried: seq<Url>
    var sitemapsFound: seq<Url>
    var urls: seq<Url>
    var errors: seq<Url>
    var seen: set<Url>
    ghost var depths: map<Url, nat>
    ghost var cut: set<Url>

    constructor ()
      ensures Trail() == START && forall world :: Valid(world)
    {
      robotsFound, sitemapUrlsTried, sitemapsFound, urls, errors, seen := false, [], [], [], [], {};
      depths, cut := map[], {};
    }

    ghost function Trail(): Walk
      reads this
    {
      Walk(sitemapUrlsTried, depths, cut)
    }

    ghost predicate Valid(world: World)
      reads this
    {
      Recorded(world, sitemapUrlsTried, seen, sitemapsFound, errors, urls)
    }

    method ResolveSitemap(world: World, url: Url, depth: nat)
      requires Valid(world) && 1 <= depth <= MAX_DEPTH + 1
      modifies `sitemapUrlsTried, `sitemapsFound, `urls, `errors, `seen, `depths, `cut
      ensures Valid(world) && Trail() == Resolve(world, url, depth, old(Trail()))
      decreases MAX_DEPTH + 1 - depth
    {
      hide Recorded, Resolve, ResolveAll;
      ResolveUnfolds(world, url, depth, Trail());
      if depth > MAX_DEPTH || url in seen {
        SeenIsTried(world, sitemapUrlsTried, seen, sitemapsFound, errors, urls);
        cut := if depth > MAX_DEPTH then cut + {url} else cut;
        return;
      }
      RecordOne(world, sitemapUrlsTried, seen, sitemapsFound, errors, urls, url);
      assert url !in sitemapUrlsTried by { SeenIsTried(world, sitemapUrlsTried, seen, sitemapsFound, errors, urls); }
      seen := seen + {url};
      sitemapUrlsTried := sitemapUrlsTried + [url];
      depths := depths[url := depth];
      match world(url) {
        case Unreachable => errors := errors + [url];
        case Malformed => errors := errors + [url];
        case UrlSet(listed) =>
          sitemapsFound := sitemapsFound + [url];
          urls := urls + listed;
        case Index(nested) =>
          sitemapsFound := sitemapsFound + [url];
          ghost var visited := Trail();
          NothingResolved(world, nested, depth + 1, visited);
          for i := 0 to |nested|
            invariant Valid(world) && Trail() == ResolveAll(world, nested[..i], depth + 1, visited)
          {
            ResolveAllStep(world, nested, depth + 1, visited, i);
            ResolveSitemap(world, nested[i], depth + 1);
          }
          assert nested[..|nested|] == nested;
      }
      assert Valid(world);
    }

    /** `robots` are the directives of the robots.txt, if there is one. */
    method DiscoverSitemaps(world: World, baseUrl: Url, robots: Option<seq<Url>>)
      requires Valid(world) && Trail() == START
      modifies this
      ensures robotsFound == robots.Some?
      ensures robots.Some? && robots.value != [] ==> Trail() == Discovered(world, robots.value)
      ensures robots.None? || robots.value == [] ==>
                Trail() == Discovered(world, [baseUrl + "/sitemap.xml", baseUrl + "/sitemap_index.xml",
                                              baseUrl + "/sitemap-index.xml", baseUrl + "/sitemapindex.xml"])
      ensures sitemapsFound == FoundOf(world, sitemapUrlsTried) && errors == ErrorsOf(world, sitemapUrlsTried)
      ensures |sitemapUrlsTried| == |sitemapsFound| + |errors|
      ensures FirstSeenOrder(urls, UrlsOf(world, sitemapUrlsTried))
      ensures forall x :: x in urls <==>
                exists u :: u in sitemapUrlsTried && world(u).UrlSet? && x in world(u).urls
    {
      hide ResolveAll, FoundOf, ErrorsOf, UrlsOf, FirstSeenOrder, Candidates;
      robotsFound := robots.Some?;
      var candidates := Candidates(baseUrl, robots);
      NothingResolved(world, candidates, 1, START);
      for i := 0 to |candidates|
        invariant Valid(world) && Trail() == ResolveAll(world, candidates[..i], 1, START)
        invariant robotsFound == robots.Some?
      {
        ResolveAllStep(world, candidates, 1, START, i);
        ResolveSitemap(world, candidates[i], 1);
      }
      assert candidates[..|candidates|] == candidates;
      DedupKeepsFirstSeenOrder(urls);
      EveryTryIsRecorded(world, sitemapUrlsTried);
      ListedUrls(world, sitemapUrlsTried);
      MembersOfFirstSeen(Dedup(urls), urls);
      urls := Dedup(urls);
      CandidatesWritten(baseUrl, robots);
    }
  }

  lemma CandidatesWritten(baseUrl: Url, robots: Option<seq<Url>>)
    ensures Candidates(baseUrl, robots)
         == if robots.Some? && robots.value != [] then robots.value
            else [baseUrl + "/sitemap.xml", baseUrl + "/sitemap_index.xml",
                  baseUrl + "/sitemap-index.xml", baseUrl + "/sitemapindex.xml"]
  {
  }

  function Candidates(baseUrl: Url, robots: Option<seq<Url>>): seq<Url> {
    if robots.Some? && robots.value != [] then robots.value
    else seq(|COMMON_SITEMAP_PATHS|, i requires 0 <= i < |COMMON_SITEMAP_PATHS| => baseUrl + COMMON_SITEMAP_PATHS[i])
  }

  // ----- Links -----

  predicate HasLink(world: World, u: Url, v: Url) {
    world(u).Index? && v in world(u).nested
  }

  /** u is n nested links away from a root. */
  ghost predicate Linked(world: World, roots: seq<Url>, u: Url, n: nat)
    decreases n
  {
    if n == 0 then u in roots
    else exists v :: Linked(world, roots, v, n - 1) && HasLink(world, v, u)
  }

  ghost predicate Reachable(world: World, roots: seq<Url>, u: Url) {
    exists n: nat :: Linked(world, roots, u, n)
  }

  /** What holds of the walk at any moment. */
  ghost predicate WalkOk(world: World, roots: seq<Url>, w: Walk) {
    && (forall i, k :: 0 <= i < k < |w.tried| ==> w.tried[i] != w.tried[k])
    && (forall u :: u in w.tried <==> u in w.depths)
    && (forall u :: u in w.depths ==> 1 <= w.depths[u] <= MAX_DEPTH && Linked(world, roots, u, w.depths[u] - 1))
    && (forall v :: v in w.cut ==> CutShort(world, w, v))
  }

  /** v was linked from an index tried at the greatest depth. */
  ghost predicate CutShort(world: World, w: Walk, v: Url) {
    exists u :: u in w.depths && w.depths[u] == MAX_DEPTH && HasLink(world, u, v)
  }

  ghost predicate Grows(w: Walk, x: Walk) {
    && w.tried <= x.tried && w.cut <= x.cut
    && forall u :: u in w.depths ==> u in x.depths && x.depths[u] == w.depths[u]
  }

  /** All the links of u were followed, or turned away where u stands at the greatest depth. */
  ghost predicate LinksDone(world: World, w: Walk, u: Url) {
    u in w.depths ==> forall v :: HasLink(world, u, v) ==> if w.depths[u] < MAX_DEPTH then v in w.tried else v in w.cut
  }

  ghost predicate NewOnesDone(world: World, w: Walk, x: Walk) {
    forall u :: u in x.depths && u !in w.depths ==> LinksDone(world, x, u)
  }

  /** url may be offered at this depth. */
  ghost predicate OfferedAt(world: World, roots: seq<Url>, w: Walk, url: Url, depth: nat)
    requires depth >= 1
  {
    Linked(world, roots, url, depth - 1) && (depth > MAX_DEPTH ==> CutShort(world, w, url))
  }

  predicate Settled(w: Walk, url: Url, depth: nat) {
    if depth > MAX_DEPTH then url in w.cut else url in w.tried
  }

  lemma GrowsTransitive(w: Walk, x: Walk, y: Walk)
    requires Grows(w, x) && Grows(x, y)
    ensures Grows(w, y)
  {
  }

  lemma DoneStaysDone(world: World, w: Walk, x: Walk, y: Walk)
    requires NewOnesDone(world, w, x) && Grows(w, x) && Grows(x, y) && NewOnesDone(world, x, y)
    ensures NewOnesDone(world, w, y)
  {
    hide HasLink;
    forall u | u in y.depths && u !in w.depths ensures LinksDone(world, y, u) {
      if u in x.depths { assert LinksDone(world, x, u); }
    }
  }

  lemma OfferStays(world: World, roots: seq<Url>, w: Walk, x: Walk, url: Url, depth: nat)
    requires depth >= 1 && OfferedAt(world, roots, w, url, depth) && Grows(w, x)
    ensures OfferedAt(world, roots, x, url, depth)
  {
    hide Linked, HasLink;
  }

  lemma VisitOk(world: World, roots: seq<Url>, url: Url, depth: nat, w: Walk)
    requires WalkOk(world, roots, w) && 1 <= depth <= MAX_DEPTH && url !in w.tried &&
        Linked(world, roots, url, depth - 1)
    ensures WalkOk(world, roots, Visit(w, url, depth)) && Grows(w, Visit(w, url, depth))
  {
    hide Linked, HasLink;
    var x := Visit(w, url, depth);
    forall v | v in x.cut ensures CutShort(world, x, v) {
      var u :| u in w.depths && w.depths[u] == MAX_DEPTH && HasLink(world, u, v);
      assert u in x.depths && x.depths[u] == MAX_DEPTH;
    }
  }

  lemma {:induction false} ResolveLaws(world: World, roots: seq<Url>, url: Url, depth: nat, w: Walk)
    requires 1 <= depth <= MAX_DEPTH + 1 && WalkOk(world, roots, w) && OfferedAt(world, roots, w, url, depth)
    ensures var x := Resolve(world, url, depth, w);
            WalkOk(world, roots, x) && Grows(w, x) && NewOnesDone(world, w, x) && Settled(x, url, depth)
    decreases MAX_DEPTH + 1 - depth, 0
  {
    hide Linked, WalkOk, NewOnesDone, Grows, CutShort;
    if depth > MAX_DEPTH {
      CutOk(world, roots, url, w);
    } else if url in w.tried {
      NothingNew(world, w);
    } else {
      var x := Visit(w, url, depth);
      VisitOk(world, roots, url, depth, w);
      if world(url).Index? {
        var nested := world(url).nested;
        forall i | 0 <= i < |nested| ensures OfferedAt(world, roots, x, nested[i], depth + 1) {
          LinkIsOffered(world, roots, x, url, depth, nested[i]);
        }
        ResolveAllLaws(world, roots, nested, depth + 1, x);
        IndexDone(world, w, url, depth, ResolveAll(world, nested, depth + 1, x));
        GrowsTransitive(w, x, ResolveAll(world, nested, depth + 1, x));
        SettledStays(x, ResolveAll(world, nested, depth + 1, x), url, depth);
      } else {
        LeafDone(world, w, url, depth);
      }
    }
  }

  lemma CutOk(world: World, roots: seq<Url>, url: Url, w: Walk)
    requires WalkOk(world, roots, w) && CutShort(world, w, url)
    ensures var x := w.(cut := w.cut + {url}); WalkOk(world, roots, x) && Grows(w, x) && NewOnesDone(world, w, x)
  {
    hide Linked, HasLink;
    var x := w.(cut := w.cut + {url});
    forall v | v in x.cut ensures CutShort(world, x, v) {
      assert CutShort(world, w, v);
      var u :| u in w.depths && w.depths[u] == MAX_DEPTH && HasLink(world, u, v);
      assert u in x.depths && x.depths[u] == MAX_DEPTH;
    }
  }

  lemma NothingNew(world: World, w: Walk)
    ensures Grows(w, w) && NewOnesDone(world, w, w)
  {
  }

  lemma LinkIsOffered(world: World, roots: seq<Url>, x: Walk, url: Url, depth: nat, v: Url)
    requires 1 <= depth <= MAX_DEPTH && url in x.depths && x.depths[url] == depth
    requires Linked(world, roots, url, depth - 1) && HasLink(world, url, v)
    ensures OfferedAt(world, roots, x, v, depth + 1)
  {
    assert Linked(world, roots, v, depth);
  }

  lemma LeafDone(world: World, w: Walk, url: Url, depth: nat)
    requires !world(url).Index?
    ensures NewOnesDone(world, w, Visit(w, url, depth))
  {
  }

  lemma IndexDone(world: World, w: Walk, url: Url, depth: nat, y: Walk)
    requires 1 <= depth <= MAX_DEPTH && world(url).Index? && Grows(Visit(w, url, depth), y)
    requires NewOnesDone(world, Visit(w, url, depth), y)
    requires forall i :: 0 <= i < |world(url).nested| ==> Settled(y, world(url).nested[i], depth + 1)
    ensures NewOnesDone(world, w, y)
  {
    var x := Visit(w, url, depth);
    assert url in x.depths && x.depths[url] == depth;
    forall u | u in y.depths && u !in w.depths ensures LinksDone(world, y, u) {
      if u == url {
        forall v | HasLink(world, u, v) ensures if y.depths[u] < MAX_DEPTH then v in y.tried else v in y.cut {
          var i :| 0 <= i < |world(url).nested| && world(url).nested[i] == v;
          assert Settled(y, world(url).nested[i], depth + 1);
        }
      } else {
        assert u !in x.depths;
      }
    }
  }

  lemma SettledStays(w: Walk, x: Walk, url: Url, depth: nat)
    requires Settled(w, url, depth) && Grows(w, x)
    ensures Settled(x, url, depth)
  {
  }

  lemma {:induction false} ResolveAllLaws(world: World, roots: seq<Url>, urls: seq<Url>, depth: nat, w: Walk)
    requires 1 <= depth <= MAX_DEPTH + 1 && WalkOk(world, roots, w)
    requires forall i :: 0 <= i < |urls| ==> OfferedAt(world, roots, w, urls[i], depth)
    ensures var x := ResolveAll(world, urls, depth, w);
            && WalkOk(world, roots, x) && Grows(w, x) && NewOnesDone(world, w, x)
            && forall i :: 0 <= i < |urls| ==> Settled(x, urls[i], depth)
    decreases MAX_DEPTH + 1 - depth, |urls|
  {
    hide Linked, WalkOk, NewOnesDone, Grows, Settled, OfferedAt, Resolve;
    if urls == [] {
      NothingNew(world, w);
    } else {
      var m := |urls| - 1;
      var init := urls[..m];
      assert forall i :: 0 <= i < m ==> init[i] == urls[i];
      ResolveAllLaws(world, roots, init, depth, w);
      var x := ResolveAll(world, init, depth, w);
      OfferStays(world, roots, w, x, urls[m], depth);
      ResolveLaws(world, roots, urls[m], depth, x);
      var y := Resolve(world, urls[m], depth, x);
      GrowsTransitive(w, x, y);
      DoneStaysDone(world, w, x, y);
      forall i | 0 <= i < |urls| ensures Settled(y, urls[i], depth) {
        if i < m { SettledStays(x, y, init[i], depth); }
      }
    }
  }

  // ----- Main results -----

  /** On any graph, circles included: no URL is tried twice; every one tried is at most MAX_DEPTH - 1
      links from a candidate; every candidate is tried; and so is every link of an index first tried
      above the greatest depth. */
  lemma WalkLaws(world: World, candidates: seq<Url>)
    ensures var w := Discovered(world, candidates);
            && (forall i, k :: 0 <= i < k < |w.tried| ==> w.tried[i] != w.tried[k])
            && (forall u :: u in w.tried <==> u in w.depths)
            && (forall u :: u in w.tried ==>
                1 <= w.depths[u] <= MAX_DEPTH && Linked(world, candidates, u, w.depths[u] - 1))
            && (forall u :: u in candidates ==> u in w.tried)
            && (forall u, v :: u in w.tried && HasLink(world, u, v) && w.depths[u] < MAX_DEPTH ==> v in w.tried)
            && (forall u, v :: u in w.tried && HasLink(world, u, v) && w.depths[u] == MAX_DEPTH ==> v in w.cut)
            && (forall v :: v in w.cut ==> CutShort(world, w, v))
  {
    hide CutShort, Resolve, ResolveAll;
    var w := Discovered(world, candidates);
    forall i | 0 <= i < |candidates| ensures OfferedAt(world, candidates, START, candidates[i], 1) {
      assert candidates[i] in candidates;
    }
    ResolveAllLaws(world, candidates, candidates, 1, START);
    forall u | u in candidates ensures u in w.tried {
      var i :| 0 <= i < |candidates| && candidates[i] == u;
      assert Settled(w, candidates[i], 1);
    }
    forall u, v | u in w.tried && HasLink(world, u, v)
      ensures if w.depths[u] < MAX_DEPTH then v in w.tried else v in w.cut
    {
      assert LinksDone(world, w, u);
    }
  }

  /** Every URL some number of links away from a candidate was tried. */
  ghost predicate Complete(world: World, candidates: seq<Url>) {
    forall u :: Reachable(world, candidates, u) ==> u in Discovered(world, candidates).tried
  }

  lemma {:induction false} NothingCutNothingMissed(world: World, candidates: seq<Url>, u: Url, n: nat)
    requires forall v :: v in Discovered(world, candidates).cut ==> v in Discovered(world, candidates).tried
    requires Linked(world, candidates, u, n)
    ensures u in Discovered(world, candidates).tried
    decreases n
  {
    hide Discovered, HasLink, CutShort;
    WalkLaws(world, candidates);
    if n == 0 {
    } else {
      var v :| Linked(world, candidates, v, n - 1) && HasLink(world, v, u);
      NothingCutNothingMissed(world, candidates, v, n - 1);
    }
  }

  /** The walk misses nothing reachable exactly when every URL it turned away as too deep was tried
      at some other place. */
  lemma CompleteUnlessCut(world: World, candidates: seq<Url>)
    ensures Complete(world, candidates) <==>
              forall v :: v in Discovered(world, candidates).cut ==> v in Discovered(world, candidates).tried
  {
    hide Discovered;
    var w := Discovered(world, candidates);
    WalkLaws(world, candidates);
    if forall v :: v in w.cut ==> v in w.tried {
      forall u | Reachable(world, candidates, u) ensures u in w.tried {
        var n: nat :| Linked(world, candidates, u, n);
        NothingCutNothingMissed(world, candidates, u, n);
      }
    }
    if Complete(world, candidates) {
      forall v | v in w.cut ensures v in w.tried {
        CutIsLinked(world, candidates, v);
        assert Reachable(world, candidates, v);
      }
    }
  }

  lemma CutIsLinked(world: World, candidates: seq<Url>, v: Url)
    requires v in Discovered(world, candidates).cut
    ensures Linked(world, candidates, v, MAX_DEPTH)
  {
    hide Discovered;
    var w := Discovered(world, candidates);
    WalkLaws(world, candidates);
    assert CutShort(world, w, v);
    var u :| u in w.depths && w.depths[u] == MAX_DEPTH && HasLink(world, u, v);
    assert Linked(world, candidates, u, MAX_DEPTH - 1);
  }

  /** Where no chain of MAX_DEPTH links starts at a candidate, everything reachable is tried. */
  lemma ShallowSitesAreCovered(world: World, candidates: seq<Url>)
    requires forall u :: !Linked(world, candidates, u, MAX_DEPTH)
    ensures Complete(world, candidates)
    ensures forall u :: u in Discovered(world, candidates).tried <==> Reachable(world, candidates, u)
  {
    hide Discovered, Linked;
    var w := Discovered(world, candidates);
    forall v | v in w.cut ensures v in w.tried {
      CutIsLinked(world, candidates, v);
    }
    CompleteUnlessCut(world, candidates);
    WalkLaws(world, candidates);
    forall u ensures u in w.tried <==> Reachable(world, candidates, u) {
      if u in w.tried { assert Linked(world, candidates, u, w.depths[u] - 1); }
    }
  }

  // ----- Breadth within the depth -----

  /** Every URL less than MAX_DEPTH links away from a candidate was tried. */
  ghost predicate Breadth(world: World, candidates: seq<Url>) {
    forall u, n: nat :: n < MAX_DEPTH && Linked(world, candidates, u, n) ==> u in Discovered(world, candidates).tried
  }

  /** An index tried at the greatest depth although it is nearer, with a link that was not tried. */
  ghost predicate PinnedDeep(world: World, candidates: seq<Url>, u: Url) {
    var w := Discovered(world, candidates);
    && u in w.depths && w.depths[u] == MAX_DEPTH
    && (exists n: nat :: n < MAX_DEPTH - 1 && Linked(world, candidates, u, n))
    && exists v :: HasLink(world, u, v) && v !in w.tried
  }

  lemma {:induction false} NothingPinnedNothingMissed(world: World, candidates: seq<Url>, u: Url, n: nat)
    requires forall v :: !PinnedDeep(world, candidates, v)
    requires n < MAX_DEPTH && Linked(world, candidates, u, n)
    ensures u in Discovered(world, candidates).tried
    decreases n
  {
    hide Discovered, HasLink, CutShort;
    WalkLaws(world, candidates);
    if n == 0 {
    } else {
      var v :| Linked(world, candidates, v, n - 1) && HasLink(world, v, u);
      NothingPinnedNothingMissed(world, candidates, v, n - 1);
      assert !PinnedDeep(world, candidates, v);
    }
  }

  /** Breadth within MAX_DEPTH is reached exactly when no index was pinned deep at the cost of one of
      its links, deep as the site may otherwise be. */
  lemma BreadthUnlessPinned(world: World, candidates: seq<Url>)
    ensures Breadth(world, candidates) <==> forall u :: !PinnedDeep(world, candidates, u)
  {
    hide Discovered, HasLink;
    if forall u :: !PinnedDeep(world, candidates, u) {
      forall u, n: nat | n < MAX_DEPTH && Linked(world, candidates, u, n)
        ensures u in Discovered(world, candidates).tried
      {
        NothingPinnedNothingMissed(world, candidates, u, n);
      }
    }
    if Breadth(world, candidates) {
      forall u ensures !PinnedDeep(world, candidates, u) {
        if PinnedDeep(world, candidates, u) { PinnedMisses(world, candidates, u); }
      }
    }
  }

  lemma PinnedMisses(world: World, candidates: seq<Url>, u: Url)
    requires PinnedDeep(world, candidates, u)
    ensures !Breadth(world, candidates)
  {
    hide Discovered;
    var n: nat :| n < MAX_DEPTH - 1 && Linked(world, candidates, u, n);
    var v :| HasLink(world, u, v) && v !in Discovered(world, candidates).tried;
    assert Linked(world, candidates, v, n + 1);
  }

  /** No URL stands at two distances from the candidates, as far as the walk goes. */
  ghost predicate OneDistance(world: World, candidates: seq<Url>) {
    forall u, m: nat, n: nat ::
      m < MAX_DEPTH && n < MAX_DEPTH && Linked(world, candidates, u, m) && Linked(world, candidates, u, n) ==> m == n
  }

  /** Which is known of the site beforehand, and is enough. */
  lemma OneDistanceGivesBreadth(world: World, candidates: seq<Url>)
    requires OneDistance(world, candidates)
    ensures Breadth(world, candidates)
  {
    hide Discovered, Linked, CutShort;
    WalkLaws(world, candidates);
    forall u ensures !PinnedDeep(world, candidates, u) {
      assert u in Discovered(world, candidates).depths && Discovered(world, candidates).depths[u] == MAX_DEPTH ==>
               Linked(world, candidates, u, MAX_DEPTH - 1);
    }
    BreadthUnlessPinned(world, candidates);
  }

  // ----- A URL pinned deep -----

  /** home lists deep and direct; deep lists direct as well; direct lists page. */
  function Crossed(u: Url): Answer {
    if u == "home" then Index(["deep", "direct"])
    else if u == "deep" then Index(["direct"])
    else if u == "direct" then Index(["page"])
    else UrlSet([])
  }

  /** Breadth within MAX_DEPTH is not reached on every site: "page" is two links from the candidate,
      but "direct" was first tried one link deeper than it need be, and "page" was cut. */
  lemma SeenPinsAUrlDeep()
    ensures Linked(Crossed, ["home"], "page", MAX_DEPTH - 1)
    ensures Discovered(Crossed, ["home"]).tried == ["home", "deep", "direct"]
    ensures !Complete(Crossed, ["home"]) && !Breadth(Crossed, ["home"])
  {
    hide Discovered, Linked;
    PageIsTwoLinksAway();
    PageIsCut();
    assert Reachable(Crossed, ["home"], "page");
    assert "page" !in ["home", "deep", "direct"];
  }

  lemma PageIsTwoLinksAway()
    ensures Linked(Crossed, ["home"], "page", MAX_DEPTH - 1)
  {
    assert Crossed("home").nested[1] == "direct" && Crossed("direct").nested[0] == "page";
    assert HasLink(Crossed, "home", "direct") && HasLink(Crossed, "direct", "page");
    assert Linked(Crossed, ["home"], "home", 0);
    assert Linked(Crossed, ["home"], "direct", 1);
  }

  lemma PageIsCut()
    ensures Discovered(Crossed, ["home"]).tried == ["home", "deep", "direct"]
  {
    var w1 := Visit(START, "home", 1);
    var w2 := Visit(w1, "deep", 2);
    var w4 := DirectIsTriedDeep(w2);
    OneByOne(Crossed, "direct", 3, w2);
    assert Resolve(Crossed, "deep", 2, w1) == w4;
    OneByOne(Crossed, "deep", 2, w1);
    assert ["deep", "direct"][..1] == ["deep"];
    assert w4.tried[2] == "direct";
    assert ResolveAll(Crossed, ["deep", "direct"], 2, w1) == w4;
    OneByOne(Crossed, "home", 1, START);
  }

  lemma DirectIsTriedDeep(w: Walk) returns (x: Walk)
    requires w.tried == ["home", "deep"]
    ensures x == Resolve(Crossed, "direct", 3, w) && x.tried == ["home", "deep", "direct"]
  {
    OneByOne(Crossed, "page", 4, Visit(w, "direct", 3));
    x := Visit(w, "direct", 3).(cut := w.cut + {"page"});
  }

  lemma OneByOne(world: World, url: Url, depth: nat, w: Walk)
    requires 1 <= depth <= MAX_DEPTH + 1
    ensures ResolveAll(world, [url], depth, w) == Resolve(world, url, depth, w)
  {
    hide Resolve;
    assert [url][..0] == [];
    assert ResolveAll(world, [url][..0], depth, w) == w;
  }
}
