/** The authenticated crawler: a bounded breadth-first search over an unknown site. */
module Crawler {
  import opened Common

  datatype Url = Url(text: string)

  /** What the browser makes of a URL. */
  datatype Outcome = Unreachable | Arrived(finalUrl: Url, links: seq<Url>)

  /** A fixed site as the crawler sees it: a target, an answer for every URL and the scope test. */
  datatype Site = Site(target: Url, visit: Url -> Outcome, inScope: Url -> bool)

  datatype SkipReason = NavigationError | OutOfScopeRedirect
  datatype Skip = Skip(url: Url, reason: SkipReason)
  datatype Manifest = Manifest(urls: seq<Url>, skipped: seq<Skip>)
  datatype CrawlError = NothingLoaded

  // ----- one page -----

  function BeforeHash(text: string): string {
    if text == [] || text[0] == '#' then [] else [text[0]] + BeforeHash(text[1..])
  }

  /** Everything before the first '#'. */
  function StripFragment(link: Url): Url {
    Url(BeforeHash(link.text))
  }

  predicate Loads(site: Site, u: Url) {
    site.inScope(u) && site.visit(u).Arrived? && site.inScope(site.visit(u).finalUrl)
  }

  function InScopeLinks(site: Site, links: seq<Url>): seq<Url> {
    if links == [] then []
    else
      var u := StripFragment(links[0]);
      (if site.inScope(u) then [u] else []) + InScopeLinks(site, links[1..])
  }

  /** The links a loaded page contributes to the search. */
  function OutLinks(site: Site, u: Url): seq<Url> {
    if Loads(site, u) then InScopeLinks(site, site.visit(u).links) else []
  }

  // ----- the reference order, level by level -----

  /** The URLs worth trying: in scope, not tried before, each once. */
  function Fresh(site: Site, urls: seq<Url>, seen: set<Url>): seq<Url> {
    if urls == [] then []
    else if urls[0] in seen || !site.inScope(urls[0]) then Fresh(site, urls[1..], seen)
    else [urls[0]] + Fresh(site, urls[1..], seen + {urls[0]})
  }

  function Loaded(site: Site, urls: seq<Url>): seq<Url> {
    if urls == [] then []
    else (if Loads(site, urls[0]) then [urls[0]] else []) + Loaded(site, urls[1..])
  }

  function Failures(site: Site, urls: seq<Url>): seq<Skip> {
    if urls == [] then []
    else
      (if Loads(site, urls[0]) || !site.inScope(urls[0]) then []
       else [Skip(urls[0], if site.visit(urls[0]).Arrived? then OutOfScopeRedirect else NavigationError)])
      + Failures(site, urls[1..])
  }

  function LinksOf(site: Site, pages: seq<Url>): seq<Url> {
    if pages == [] then [] else OutLinks(site, pages[0]) + LinksOf(site, pages[1..])
  }

  /** The URLs tried before level `k`. */
  function SeenBefore(site: Site, k: nat): set<Url>
    decreases k, 0
  {
    if k == 0 then {} else SeenBefore(site, k - 1) + SetOf(Attempted(site, k - 1))
  }

  /** The URLs tried at level `k`, in order. */
  function Attempted(site: Site, k: nat): seq<Url>
    decreases k, 1
  {
    Fresh(site, if k == 0 then [site.target] else LinksOf(site, Pages(site, k - 1)), SeenBefore(site, k))
  }

  /** The pages found at level `k`, in order. */
  function Pages(site: Site, k: nat): seq<Url>
    decreases k, 2
  {
    Loaded(site, Attempted(site, k))
  }

  /** All pages of the first `n` levels, in order. */
  function Order(site: Site, n: nat): seq<Url> {
    if n == 0 then [] else Order(site, n - 1) + Pages(site, n - 1)
  }

  /** All URLs tried at the first `n` levels, in order. */
  function Tries(site: Site, n: nat): seq<Url> {
    if n == 0 then [] else Tries(site, n - 1) + Attempted(site, n - 1)
  }

  /** The shortest beginning of `urls` in which `limit` pages load, or all of them. */
  function Until(site: Site, urls: seq<Url>, limit: nat): seq<Url> {
    if limit == 0 || urls == [] then []
    else [urls[0]] + Until(site, urls[1..], if Loads(site, urls[0]) then limit - 1 else limit)
  }

  // ----- the crawl itself -----

  function Tagged(urls: seq<Url>, depth: nat): (r: seq<(Url, nat)>)
    ensures |r| == |urls|
  {
    seq(|urls|, i requires 0 <= i < |urls| => (urls[i], depth))
  }

  /** The links that are appended to the queue. */
  function Kept(site: Site, links: seq<Url>, visited: seq<Url>): seq<Url> {
    if links == [] then []
    else
      var u := StripFragment(links[0]);
      (if u !in visited && site.inScope(u) then [u] else []) + Kept(site, links[1..], visited)
  }

  /** The queue holds the rest of this level, then what is known of the next. */
  ghost predicate Layered(queue: seq<(Url, nat)>, front: seq<Url>, back: seq<Url>, level: nat) {
    queue == Tagged(front, level) + Tagged(back, level + 1)
  }

  method KeepLinks(site: Site, links: seq<Url>, visited: seq<Url>, queue: seq<(Url, nat)>, depth: nat,
                   ghost front: seq<Url>, ghost back: seq<Url>)
    returns (longer: seq<(Url, nat)>)
    requires Layered(queue, front, back, depth)
    ensures Layered(longer, front, back + Kept(site, links, visited), depth)
  {
    longer := queue;
    ghost var next := back;
    assert back + [] == back;
    for k := 0 to |links|
      invariant next == back + Kept(site, links[..k], visited) && Layered(longer, front, next, depth)
    {
      var u := StripFragment(links[k]);
      assert links[..k + 1] == links[..k] + [links[k]];
      KeptAppend(site, links[..k], links[k], visited);
      if u !in visited && site.inScope(u) {
        longer := longer + [(u, depth + 1)];
        PushBack(front, next, u, depth, longer);
        next := next + [u];
      }
    }
    assert links[..|links|] == links;
  }

  /** Where the search stands inside a level: `tried` has been tried, `front` is still to be
      looked at, and `back` holds the next level as far as it is known. */
  ghost predicate Progress(site: Site, level: nat, maxDepth: nat, front: seq<Url>, back: seq<Url>,
                           tried: seq<Url>, seen: set<Url>)
  {
    && seen == SeenBefore(site, level) + SetOf(tried)
    && Attempted(site, level) == tried + Fresh(site, front, seen)
    && (level >= maxDepth ==> back == [])
    && (level < maxDepth ==> SameNext(site, back, Loaded(site, tried), seen))
  }

  /** The queued links lead to the same tries as all links of the pages loaded so far. */
  ghost predicate SameNext(site: Site, back: seq<Url>, pages: seq<Url>, seen: set<Url>) {
    forall s: set<Url> :: seen <= s ==> Fresh(site, back, s) == Fresh(site, LinksOf(site, pages), s)
  }

  /** What the crawl has written so far: every tried URL is visited or skipped. */
  ghost predicate Recorded(site: Site, attempts: seq<Url>, seen: set<Url>, visited: seq<Url>, skipped: seq<Skip>) {
    && Distinct(attempts) && SetOf(attempts) == seen
    && visited == Loaded(site, attempts) && skipped == Failures(site, attempts)
  }

  /** authenticated_crawl: the visited pages are the reference order cut at the URL limit. The URLs tried
      are those of the reference order of tries, up to the page that reached the limit; each is tried
      once and is visited or recorded with the reason it was skipped, and nothing else is. */
  method AuthenticatedCrawl(site: Site, crawlDepth: nat, crawlUrls: nat)
    returns (r: Result<Manifest, CrawlError>, ghost attempts: seq<Url>)
    ensures attempts == Until(site, Tries(site, crawlDepth + 1), crawlUrls) && Distinct(attempts)
    ensures r.Err? <==> Cut(Order(site, crawlDepth + 1), crawlUrls) == []
    ensures r.Ok? ==>
              && r.value.urls == Cut(Order(site, crawlDepth + 1), crawlUrls)
              && r.value.urls == Loaded(site, attempts)
              && r.value.skipped == Failures(site, attempts)
              && ManifestHolds(site, r.value)
  {
    CrawlByLinks(site, crawlDepth + 1, crawlUrls);
    hide ManifestHolds;
    var queue: seq<(Url, nat)> := [(site.target, 0)];
    var visited: seq<Url> := [];
    var seen: set<Url> := {};
    var skipped: seq<Skip> := [];
    attempts := [];
    ghost var level, front, back, tried: seq<Url> := 0, [site.target], [], [];
    assert Layered(queue, front, back, 0);
    Start(site, crawlDepth);
    hide Searching, Layered, Order, Tries, Until, Loaded, Failures, Kept, SetOf;
    while queue != [] && |visited| < crawlUrls
      invariant level <= crawlDepth && |visited| <= crawlUrls
      invariant Layered(queue, front, back, level)
      invariant Searching(site, level, crawlDepth, front, back, tried, seen, attempts, visited, skipped)
      invariant NotEarly(site, attempts, crawlUrls)
      decreases crawlDepth - level, |front|
    {
      if front == [] {
        Descend(site, level, crawlDepth, queue, back, tried, seen, attempts, visited, skipped);
        level, front, back, tried := level + 1, back, [], [];
      }
      PopFront(front, back, level, queue);
      var (url, depth) := queue[0];
      assert depth == level;
      queue := queue[1..];
      ghost var rest := front[1..];
      VisitedIsLoaded(site, level, crawlDepth, front, back, tried, seen, attempts, visited, skipped);
      if url in seen || !site.inScope(url) {
        PassOver(site, level, crawlDepth, front, back, tried, seen, attempts, visited, skipped);
        front := rest;
        continue;
      }
      TryUrl(site, level, crawlDepth, front, back, tried, seen, attempts, visited, skipped);
      StillNotEarly(site, attempts, url, crawlUrls);
      seen := seen + {url};
      attempts := attempts + [url];
      match site.visit(url) {
        case Unreachable =>
          skipped := skipped + [Skip(url, NavigationError)];
        case Arrived(finalUrl, links) =>
          if !site.inScope(finalUrl) {
            skipped := skipped + [Skip(url, OutOfScopeRedirect)];
          } else {
            visited := visited + [url];
            if depth < crawlDepth {
              queue := KeepLinks(site, links, visited, queue, depth, rest, back);
              back := back + Kept(site, links, visited);
            }
          }
      }
      front, tried := rest, tried + [url];
    }
    Stop(site, level, crawlDepth, queue, front, back, tried, seen, attempts, visited, skipped, crawlUrls);
    if visited == [] {
      return Err(NothingLoaded), attempts;
    }
    return Ok(Manifest(visited, skipped)), attempts;
  }

  /** Everything the loop keeps, apart from the shape of the queue. */
  ghost predicate Searching(site: Site, level: nat, maxDepth: nat, front: seq<Url>, back: seq<Url>, tried: seq<Url>,
                            seen: set<Url>, attempts: seq<Url>, visited: seq<Url>, skipped: seq<Skip>)
  {
    && Progress(site, level, maxDepth, front, back, tried, seen)
    && visited == Order(site, level) + Loaded(site, tried)
    && attempts == Tries(site, level) + tried
    && Recorded(site, attempts, seen, visited, skipped)
  }

  /** The limit was not reached before the last try. */
  ghost predicate NotEarly(site: Site, attempts: seq<Url>, limit: nat) {
    attempts != [] ==> |Loaded(site, attempts[..|attempts| - 1])| < limit
  }

  lemma StillNotEarly(site: Site, attempts: seq<Url>, url: Url, limit: nat)
    requires |Loaded(site, attempts)| < limit
    ensures NotEarly(site, attempts + [url], limit)
  {
    assert (attempts + [url])[..|attempts|] == attempts;
  }

  lemma {:induction false} UntilIs(site: Site, tries: seq<Url>, attempts: seq<Url>, limit: nat)
    requires attempts <= tries && NotEarly(site, attempts, limit)
    requires attempts == tries || |Loaded(site, attempts)| >= limit
    ensures Until(site, tries, limit) == attempts
  {
    if attempts != [] {
      var rest := attempts[1..];
      var left := if Loads(site, attempts[0]) then limit - 1 else limit;
      assert attempts == [attempts[0]] + rest;
      if rest != [] {
        assert attempts[..|attempts| - 1][1..] == rest[..|rest| - 1];
      }
      UntilIs(site, tries[1..], rest, left);
    }
  }

  lemma VisitedIsLoaded(site: Site, level: nat, maxDepth: nat, front: seq<Url>, back: seq<Url>, tried: seq<Url>,
                        seen: set<Url>, attempts: seq<Url>, visited: seq<Url>, skipped: seq<Skip>)
    requires Searching(site, level, maxDepth, front, back, tried, seen, attempts, visited, skipped)
    ensures visited == Loaded(site, attempts)
  {
  }

  lemma Start(site: Site, maxDepth: nat)
    ensures Searching(site, 0, maxDepth, [site.target], [], [], {}, [], [], [])
  {
    assert LinksOf(site, Loaded(site, [])) == [];
  }

  lemma Descend(site: Site, level: nat, maxDepth: nat, queue: seq<(Url, nat)>, back: seq<Url>, tried: seq<Url>,
                seen: set<Url>, attempts: seq<Url>, visited: seq<Url>, skipped: seq<Skip>)
    requires Searching(site, level, maxDepth, [], back, tried, seen, attempts, visited, skipped)
    requires queue != [] && Layered(queue, [], back, level)
    ensures level < maxDepth && back != [] && Layered(queue, back, [], level + 1)
    ensures Searching(site, level + 1, maxDepth, back, [], [], seen, attempts, visited, skipped)
  {
    NextLevel(site, level, maxDepth, queue, back, tried, seen);
  }

  /** A URL already tried, or outside the scope, is passed over. */
  lemma PassOver(site: Site, level: nat, maxDepth: nat, front: seq<Url>, back: seq<Url>, tried: seq<Url>,
                 seen: set<Url>, attempts: seq<Url>, visited: seq<Url>, skipped: seq<Skip>)
    requires Searching(site, level, maxDepth, front, back, tried, seen, attempts, visited, skipped)
    requires front != [] && (front[0] in seen || !site.inScope(front[0]))
    ensures Searching(site, level, maxDepth, front[1..], back, tried, seen, attempts, visited, skipped)
  {
    hide Order, Attempted, SeenBefore, Loaded, Failures, LinksOf;
  }

  /** What trying the URL at the front leads to, by its outcome. */
  lemma TryUrl(site: Site, level: nat, maxDepth: nat, front: seq<Url>, back: seq<Url>, tried: seq<Url>,
               seen: set<Url>, attempts: seq<Url>, visited: seq<Url>, skipped: seq<Skip>)
    requires Searching(site, level, maxDepth, front, back, tried, seen, attempts, visited, skipped)
    requires front != [] && front[0] !in seen && site.inScope(front[0])
    ensures var url := front[0];
            var failure := Skip(url, if site.visit(url).Arrived? then OutOfScopeRedirect else NavigationError);
            !Loads(site, url) ==>
              Searching(site, level, maxDepth, front[1..], back, tried + [url], seen + {url}, attempts + [url],
                        visited, skipped + [failure])
    ensures var url := front[0];
            Loads(site, url) ==>
              Searching(site, level, maxDepth, front[1..],
                        if level < maxDepth then back + Kept(site, site.visit(url).links, visited + [url]) else back,
                        tried + [url], seen + {url}, attempts + [url], visited + [url], skipped)
  {
    hide Order, Tries, Attempted, SeenBefore, Loaded, Failures, LinksOf, Kept, Fresh;
    var url := front[0];
    assert Tries(site, level) + tried + [url] == Tries(site, level) + (tried + [url]);
    TryOne(site, level, maxDepth, front, back, tried, seen);
    RecordOne(site, attempts, seen, visited, skipped, url);
    if Loads(site, url) && level < maxDepth {
      VisitedAreSeen(site, attempts + [url]);
      KeepOne(site, level, maxDepth, front[1..], back, tried, seen + {url}, url, visited + [url]);
    }
  }

  lemma Stop(site: Site, level: nat, maxDepth: nat, queue: seq<(Url, nat)>, front: seq<Url>, back: seq<Url>,
             tried: seq<Url>, seen: set<Url>, attempts: seq<Url>, visited: seq<Url>, skipped: seq<Skip>, limit: nat)
    requires level <= maxDepth && Layered(queue, front, back, level)
    requires Searching(site, level, maxDepth, front, back, tried, seen, attempts, visited, skipped)
    requires |visited| <= limit && (queue == [] || |visited| == limit) && NotEarly(site, attempts, limit)
    ensures attempts == Until(site, Tries(site, maxDepth + 1), limit)
    ensures visited == Cut(Order(site, maxDepth + 1), limit) == Loaded(site, attempts)
    ensures skipped == Failures(site, attempts) && Distinct(attempts)
  {
    hide Progress, Order, Tries, Until, Loaded, Failures, NotEarly;
    Finish(site, level, maxDepth, front, back, tried, seen);
    if queue == [] {
      assert |queue| == |front| + |back|;
    }
    UntilIs(site, Tries(site, maxDepth + 1), attempts, limit);
  }

  function Cut(s: seq<Url>, n: nat): seq<Url> {
    if |s| <= n then s else s[..n]
  }

  lemma PopFront(front: seq<Url>, back: seq<Url>, level: nat, queue: seq<(Url, nat)>)
    requires front != [] && Layered(queue, front, back, level)
    ensures queue[0] == (front[0], level)
    ensures Layered(queue[1..], front[1..], back, level)
  {
    assert Tagged(front, level) == [(front[0], level)] + Tagged(front[1..], level);
  }

  lemma PushBack(front: seq<Url>, back: seq<Url>, u: Url, level: nat, longer: seq<(Url, nat)>)
    requires longer != [] && longer[|longer| - 1] == (u, level + 1)
    requires Layered(longer[..|longer| - 1], front, back, level)
    ensures Layered(longer, front, back + [u], level)
  {
    assert Tagged(back + [u], level + 1) == Tagged(back, level + 1) + [(u, level + 1)];
    assert longer == longer[..|longer| - 1] + [(u, level + 1)];
  }

  lemma NextLevel(site: Site, level: nat, maxDepth: nat, queue: seq<(Url, nat)>, back: seq<Url>, tried: seq<Url>,
                  seen: set<Url>)
    requires Progress(site, level, maxDepth, [], back, tried, seen) && queue != [] && Layered(queue, [], back, level)
    ensures level < maxDepth && back != []
    ensures Layered(queue, back, [], level + 1)
    ensures Progress(site, level + 1, maxDepth, back, [], [], seen)
    ensures Order(site, level + 1) == Order(site, level) + Loaded(site, tried)
    ensures Tries(site, level + 1) == Tries(site, level) + tried == Tries(site, level + 1) + []
    ensures Order(site, level + 1) == Order(site, level + 1) + Loaded(site, [])
  {
    assert back != [];
    assert Attempted(site, level) == tried + [] == tried;
    SeenGrows(site, level);
    AttemptedFollows(site, level);
    assert Attempted(site, level + 1) == [] + Fresh(site, back, seen);
    assert seen == SeenBefore(site, level + 1) + SetOf<Url>([]);
    assert LinksOf(site, Loaded(site, [])) == [];
    assert Order(site, level + 1) == Order(site, level) + Pages(site, level);
  }

  lemma SeenGrows(site: Site, k: nat)
    ensures SeenBefore(site, k + 1) == SeenBefore(site, k) + SetOf(Attempted(site, k))
  {
  }

  lemma AttemptedFollows(site: Site, k: nat)
    ensures Attempted(site, k + 1)
            == Fresh(site, LinksOf(site, Loaded(site, Attempted(site, k))), SeenBefore(site, k + 1))
  {
    assert Pages(site, k) == Loaded(site, Attempted(site, k));
  }

  /** Trying the URL at the front; if it does not load, nothing else changes. */
  lemma TryOne(site: Site, level: nat, maxDepth: nat, front: seq<Url>, back: seq<Url>, tried: seq<Url>, seen: set<Url>)
    requires Progress(site, level, maxDepth, front, back, tried, seen)
    requires front != [] && front[0] !in seen && site.inScope(front[0])
    ensures seen + {front[0]} == SeenBefore(site, level) + SetOf(tried + [front[0]])
    ensures Attempted(site, level) == (tried + [front[0]]) + Fresh(site, front[1..], seen + {front[0]})
    ensures Order(site, level) + Loaded(site, tried + [front[0]])
            == (Order(site, level) + Loaded(site, tried)) + (if Loads(site, front[0]) then [front[0]] else [])
    ensures !Loads(site, front[0]) || level >= maxDepth
            ==> Progress(site, level, maxDepth, front[1..], back, tried + [front[0]], seen + {front[0]})
  {
    hide Order, Attempted, SeenBefore, SetOf, LinksOf, Loads;
    var url := front[0];
    LoadedAppend(site, tried, url);
    SetOfAppend(tried, url);
    TryFront(site, front, tried, seen);
    if !Loads(site, url) && level < maxDepth {
      assert Loaded(site, tried + [url]) == Loaded(site, tried);
      assert SameNext(site, back, Loaded(site, tried), seen + {url});
    }
  }

  lemma TryFront(site: Site, front: seq<Url>, tried: seq<Url>, seen: set<Url>)
    requires front != [] && front[0] !in seen && site.inScope(front[0])
    ensures tried + Fresh(site, front, seen) == (tried + [front[0]]) + Fresh(site, front[1..], seen + {front[0]})
  {
  }

  lemma RecordOne(site: Site, attempts: seq<Url>, seen: set<Url>, visited: seq<Url>, skipped: seq<Skip>, url: Url)
    requires Recorded(site, attempts, seen, visited, skipped) && url !in seen && site.inScope(url)
    ensures var failure := Skip(url, if site.visit(url).Arrived? then OutOfScopeRedirect else NavigationError);
            Recorded(site, attempts + [url], seen + {url},
                     if Loads(site, url) then visited + [url] else visited,
                     if Loads(site, url) then skipped else skipped + [failure])
  {
    LoadedAppend(site, attempts, url);
    FailuresAppend(site, attempts, url);
    assert [url][1..] == [];
    assert SetOf(attempts + [url]) == SetOf(attempts) + {url};
    assert url !in attempts;
  }

  lemma KeepOne(site: Site, level: nat, maxDepth: nat, rest: seq<Url>, back: seq<Url>,
                tried: seq<Url>, seen: set<Url>, url: Url, visited: seq<Url>)
    requires level < maxDepth && Loads(site, url) && SetOf(visited) <= seen
    requires seen == SeenBefore(site, level) + SetOf(tried + [url])
    requires Attempted(site, level) == (tried + [url]) + Fresh(site, rest, seen)
    requires SameNext(site, back, Loaded(site, tried), seen)
    ensures var kept := Kept(site, site.visit(url).links, visited);
            Progress(site, level, maxDepth, rest, back + kept, tried + [url], seen)
  {
    var links := site.visit(url).links;
    LoadedAppend(site, tried, url);
    LinksOfAppend(site, Loaded(site, tried), url);
    forall s: set<Url> | seen <= s
      ensures Fresh(site, back + Kept(site, links, visited), s)
              == Fresh(site, LinksOf(site, Loaded(site, tried + [url])), s)
    {
      FreshConcat(site, back, Kept(site, links, visited), s);
      FreshConcat(site, LinksOf(site, Loaded(site, tried)), InScopeLinks(site, links), s);
      KeptIsEnough(site, links, visited, s + SetOf(Fresh(site, back, s)));
    }
  }

  lemma Finish(site: Site, level: nat, maxDepth: nat, front: seq<Url>, back: seq<Url>, tried: seq<Url>, seen: set<Url>)
    requires level <= maxDepth && Progress(site, level, maxDepth, front, back, tried, seen)
    ensures Order(site, level) + Loaded(site, tried) <= Order(site, maxDepth + 1)
    ensures front == [] && back == [] ==> Order(site, level) + Loaded(site, tried) == Order(site, maxDepth + 1)
    ensures Tries(site, level) + tried <= Tries(site, maxDepth + 1)
    ensures front == [] && back == [] ==> Tries(site, level) + tried == Tries(site, maxDepth + 1)
  {
    hide Order, Tries, Attempted, SeenBefore, SameNext, Loaded;
    LevelBegun(site, level, tried, Fresh(site, front, seen));
    OrderPrefix(site, level + 1, maxDepth + 1);
    if front == [] && back == [] {
      assert Fresh(site, front, seen) == [];
      if level < maxDepth {
        NothingNext(site, level, maxDepth, tried, seen);
        NothingAfterAnEmptyLevel(site, level + 1, maxDepth + 1);
      }
    }
  }

  /** A level of which `tried` has been tried and `rest` is left. */
  lemma LevelBegun(site: Site, level: nat, tried: seq<Url>, rest: seq<Url>)
    requires Attempted(site, level) == tried + rest
    ensures Order(site, level) + Loaded(site, tried) <= Order(site, level + 1)
    ensures Tries(site, level) + tried <= Tries(site, level + 1)
    ensures rest == [] ==> Order(site, level) + Loaded(site, tried) == Order(site, level + 1)
    ensures rest == [] ==> Tries(site, level) + tried == Tries(site, level + 1)
  {
    NextOf(site, level);
    hide Order, Tries, Attempted, Pages;
    LoadedConcat(site, tried, rest);
    Concat(Tries(site, level), tried, rest);
    Concat(Order(site, level), Loaded(site, tried), Loaded(site, rest));
  }

  lemma NextOf(site: Site, n: nat)
    ensures Order(site, n + 1) == Order(site, n) + Loaded(site, Attempted(site, n))
    ensures Tries(site, n + 1) == Tries(site, n) + Attempted(site, n)
  {
    hide Attempted, Loaded;
  }

  lemma Concat(a: seq<Url>, b: seq<Url>, c: seq<Url>)
    ensures a + b <= a + (b + c) && (c == [] ==> a + b == a + (b + c))
  {
    assert a + (b + c) == a + b + c;
  }

  lemma NothingNext(site: Site, level: nat, maxDepth: nat, tried: seq<Url>, seen: set<Url>)
    requires level < maxDepth && Progress(site, level, maxDepth, [], [], tried, seen)
    ensures Attempted(site, level + 1) == []
  {
    SeenGrows(site, level);
    AttemptedFollows(site, level);
    hide Attempted, SeenBefore;
    assert Attempted(site, level) == tried;
    assert SeenBefore(site, level + 1) == seen;
    assert Fresh(site, [], seen) == [];
  }

  // ----- lists -----

  lemma {:induction false} FreshConcat(site: Site, a: seq<Url>, b: seq<Url>, seen: set<Url>)
    ensures Fresh(site, a + b, seen) == Fresh(site, a, seen) + Fresh(site, b, seen + SetOf(Fresh(site, a, seen)))
  {
    if a == [] {
      assert a + b == b;
      assert seen + SetOf(Fresh(site, a, seen)) == seen;
    } else {
      assert (a + b)[1..] == a[1..] + b;
      if a[0] in seen || !site.inScope(a[0]) {
        FreshConcat(site, a[1..], b, seen);
      } else {
        FreshConcat(site, a[1..], b, seen + {a[0]});
        var tail := Fresh(site, a[1..], seen + {a[0]});
        assert SetOf([a[0]] + tail) == {a[0]} + SetOf(tail);
        assert seen + SetOf([a[0]] + tail) == (seen + {a[0]}) + SetOf(tail);
      }
    }
  }

  /** Leaving out links to pages already visited changes nothing that will be tried. */
  lemma {:induction false} KeptIsEnough(site: Site, links: seq<Url>, visited: seq<Url>, seen: set<Url>)
    requires SetOf(visited) <= seen
    ensures Fresh(site, Kept(site, links, visited), seen) == Fresh(site, InScopeLinks(site, links), seen)
  {
    if links != [] {
      var u := StripFragment(links[0]);
      KeptIsEnough(site, links[1..], visited, seen);
      KeptIsEnough(site, links[1..], visited, seen + {u});
      assert u in visited ==> u in SetOf(visited);
      if site.inScope(u) {
        assert ([u] + InScopeLinks(site, links[1..]))[1..] == InScopeLinks(site, links[1..]);
        assert ([u] + Kept(site, links[1..], visited))[1..] == Kept(site, links[1..], visited);
        if u in visited {
          assert [] + Kept(site, links[1..], visited) == Kept(site, links[1..], visited);
        }
      } else {
        assert [] + Kept(site, links[1..], visited) == Kept(site, links[1..], visited);
        assert [] + InScopeLinks(site, links[1..]) == InScopeLinks(site, links[1..]);
      }
    }
  }

  lemma {:induction false} KeptAppend(site: Site, links: seq<Url>, link: Url, visited: seq<Url>)
    ensures Kept(site, links + [link], visited)
            == Kept(site, links, visited)
               + (if StripFragment(link) !in visited && site.inScope(StripFragment(link))
                  then [StripFragment(link)] else [])
  {
    if links == [] {
      assert links + [link] == [link];
    } else {
      assert (links + [link])[1..] == links[1..] + [link];
      KeptAppend(site, links[1..], link, visited);
    }
  }

  lemma {:induction false} LoadedConcat(site: Site, a: seq<Url>, b: seq<Url>)
    ensures Loaded(site, a + b) == Loaded(site, a) + Loaded(site, b)
  {
    if a == [] {
      assert a + b == b;
    } else {
      assert (a + b)[1..] == a[1..] + b;
      LoadedConcat(site, a[1..], b);
    }
  }

  lemma LoadedAppend(site: Site, urls: seq<Url>, u: Url)
    ensures Loaded(site, urls + [u]) == Loaded(site, urls) + (if Loads(site, u) then [u] else [])
  {
    LoadedConcat(site, urls, [u]);
    assert [u][1..] == [];
  }

  lemma {:induction false} FailuresAppend(site: Site, urls: seq<Url>, u: Url)
    ensures Failures(site, urls + [u]) == Failures(site, urls) + Failures(site, [u])
  {
    if urls == [] {
      assert urls + [u] == [u];
    } else {
      assert (urls + [u])[1..] == urls[1..] + [u];
      FailuresAppend(site, urls[1..], u);
    }
  }

  lemma {:induction false} LinksOfAppend(site: Site, pages: seq<Url>, u: Url)
    ensures LinksOf(site, pages + [u]) == LinksOf(site, pages) + OutLinks(site, u)
  {
    if pages == [] {
      assert pages + [u] == [u];
    } else {
      assert (pages + [u])[1..] == pages[1..] + [u];
      LinksOfAppend(site, pages[1..], u);
    }
  }

  lemma {:induction false} VisitedAreSeen(site: Site, urls: seq<Url>)
    ensures forall u :: u in Loaded(site, urls) <==> u in urls && Loads(site, u)
  {
    if urls != [] {
      VisitedAreSeen(site, urls[1..]);
      assert urls == [urls[0]] + urls[1..];
    }
  }

  lemma {:induction false} OrderPrefix(site: Site, m: nat, n: nat)
    requires m <= n
    ensures Order(site, m) <= Order(site, n) && Tries(site, m) <= Tries(site, n)
  {
    hide Attempted, Pages, Loaded, Order, Tries;
    if m < n {
      OrderPrefix(site, m, n - 1);
      NextOf(site, n - 1);
    }
  }

  lemma {:induction false} NothingAfterAnEmptyLevel(site: Site, m: nat, n: nat)
    requires m <= n && Attempted(site, m) == []
    ensures Order(site, n) == Order(site, m) && Tries(site, n) == Tries(site, m) && Attempted(site, n) == []
  {
    hide Attempted;
    if m < n {
      NothingAfterAnEmptyLevel(site, m, n - 1);
      EmptyLevel(site, n - 1);
    }
  }

  lemma EmptyLevel(site: Site, k: nat)
    requires Attempted(site, k) == []
    ensures Pages(site, k) == [] && Attempted(site, k + 1) == []
  {
    AttemptedFollows(site, k);
  }

  // ----- what the order means: distances -----

  /** `u` can be reached from the target by following exactly `k` links through loaded pages. */
  ghost predicate ReachIn(site: Site, u: Url, k: nat)
    decreases k, 0
  {
    Loads(site, u) && (if k == 0 then u == site.target else LinkedFrom(site, u, k - 1))
  }

  ghost predicate LinkedFrom(site: Site, u: Url, k: nat)
    decreases k, 1
  {
    exists v :: ReachIn(site, v, k) && u in OutLinks(site, v)
  }

  /** ... in fewer than `k` links. */
  ghost predicate ReachBelow(site: Site, u: Url, k: nat) {
    exists j: nat :: j < k && ReachIn(site, u, j)
  }

  /** The shortest way to `u` has `k` links. */
  ghost predicate Distance(site: Site, u: Url, k: nat) {
    ReachIn(site, u, k) && !ReachBelow(site, u, k)
  }

  lemma ReachBelowStep(site: Site, u: Url, k: nat)
    ensures ReachBelow(site, u, k + 1) <==> ReachBelow(site, u, k) || ReachIn(site, u, k)
  {
    if j: nat :| j < k + 1 && ReachIn(site, u, j) {
      assert j < k || j == k;
    }
  }

  lemma {:induction false} FreshMembers(site: Site, urls: seq<Url>, seen: set<Url>)
    ensures Distinct(Fresh(site, urls, seen))
    ensures forall u :: u in Fresh(site, urls, seen) <==> u in urls && u !in seen && site.inScope(u)
  {
    if urls != [] {
      FreshMembers(site, urls[1..], seen);
      FreshMembers(site, urls[1..], seen + {urls[0]});
      assert urls == [urls[0]] + urls[1..];
    }
  }

  lemma {:induction false} LinksOfMembers(site: Site, pages: seq<Url>)
    ensures forall u :: u in LinksOf(site, pages) <==> exists v :: v in pages && u in OutLinks(site, v)
  {
    if pages != [] {
      LinksOfMembers(site, pages[1..]);
      assert pages == [pages[0]] + pages[1..];
    }
  }

  lemma {:induction false} OutLinksInScope(site: Site, links: seq<Url>)
    ensures forall u :: u in InScopeLinks(site, links) ==> site.inScope(u)
  {
    if links != [] {
      OutLinksInScope(site, links[1..]);
    }
  }

  /** Level `k` holds exactly the pages at distance `k`, and everything nearer was tried before. */
  lemma {:induction false} LevelsAreDistances(site: Site, k: nat)
    ensures forall u :: u in Pages(site, k) <==> Distance(site, u, k)
    ensures forall u :: u in SeenBefore(site, k) && Loads(site, u) <==> ReachBelow(site, u, k)
  {
    hide Pages, Attempted, SeenBefore, Distance, ReachBelow, Loads;
    if k == 0 {
      FirstLevelIsTarget(site);
    } else {
      LevelsAreDistances(site, k - 1);
      forall u
        ensures u in SeenBefore(site, k) && Loads(site, u) <==> ReachBelow(site, u, k)
      {
        SeenIsBelow(site, k - 1, u);
      }
      forall u
        ensures u in Pages(site, k) <==> Distance(site, u, k)
      {
        NextLevelIsNextDistance(site, k - 1, u);
      }
    }
  }

  lemma FirstLevelIsTarget(site: Site)
    ensures forall u :: u in Pages(site, 0) <==> Distance(site, u, 0)
    ensures forall u :: u in SeenBefore(site, 0) && Loads(site, u) <==> ReachBelow(site, u, 0)
  {
    VisitedAreSeen(site, Attempted(site, 0));
    FreshMembers(site, [site.target], {});
  }

  lemma SeenIsBelow(site: Site, k: nat, u: Url)
    requires u in Pages(site, k) <==> Distance(site, u, k)
    requires u in SeenBefore(site, k) && Loads(site, u) <==> ReachBelow(site, u, k)
    ensures u in SeenBefore(site, k + 1) && Loads(site, u) <==> ReachBelow(site, u, k + 1)
  {
    SeenGrows(site, k);
    VisitedAreSeen(site, Attempted(site, k));
    ReachBelowStep(site, u, k);
    assert u in SetOf(Attempted(site, k)) <==> u in Attempted(site, k);
  }

  /** A link from a page adds one to the ways of reaching it. */
  lemma LinkExtends(site: Site, u: Url, v: Url, k: nat)
    requires Loads(site, u) && u in OutLinks(site, v)
    ensures ReachIn(site, v, k) ==> ReachIn(site, u, k + 1)
    ensures ReachBelow(site, v, k) ==> ReachBelow(site, u, k + 1)
  {
    assert ReachIn(site, v, k) ==> LinkedFrom(site, u, k);
    if ReachBelow(site, v, k) {
      var j: nat :| j < k && ReachIn(site, v, j);
      assert LinkedFrom(site, u, j);
      assert ReachIn(site, u, j + 1);
    }
  }

  lemma NextLevelIsNextDistance(site: Site, k: nat, u: Url)
    requires forall v :: v in Pages(site, k) <==> Distance(site, v, k)
    requires u in SeenBefore(site, k + 1) && Loads(site, u) <==> ReachBelow(site, u, k + 1)
    ensures u in Pages(site, k + 1) <==> Distance(site, u, k + 1)
  {
    VisitedAreSeen(site, Attempted(site, k + 1));
    FreshMembers(site, LinksOf(site, Pages(site, k)), SeenBefore(site, k + 1));
    LinksOfMembers(site, Pages(site, k));
    if Distance(site, u, k + 1) {
      assert LinkedFrom(site, u, k);
      var v :| ReachIn(site, v, k) && u in OutLinks(site, v);
      LinkExtends(site, u, v, k);
      assert v in Pages(site, k);
    }
    if u in Pages(site, k + 1) {
      var v :| v in Pages(site, k) && u in OutLinks(site, v);
      LinkExtends(site, u, v, k);
    }
  }

  /** The unlimited crawl finds exactly the loadable pages less than `n` links from the target,
      each once. */
  lemma {:induction false} OrderIsReachable(site: Site, n: nat)
    ensures forall u :: u in Order(site, n) <==> ReachBelow(site, u, n)
    ensures Distinct(Order(site, n))
  {
    hide Pages, Attempted, ReachIn;
    if n > 0 {
      hide ReachBelow;
      OrderIsReachable(site, n - 1);
      LevelsAreDistances(site, n - 1);
      forall u
        ensures u in Order(site, n) <==> ReachBelow(site, u, n)
      {
        ReachBelowStep(site, u, n - 1);
      }
      PagesAreDistinct(site, n - 1);
      DisjointConcat(Order(site, n - 1), Pages(site, n - 1));
    }
  }

  lemma PagesAreDistinct(site: Site, k: nat)
    ensures Distinct(Pages(site, k))
  {
    FreshMembers(site, if k == 0 then [site.target] else LinksOf(site, Pages(site, k - 1)), SeenBefore(site, k));
    LoadedDistinct(site, Attempted(site, k));
  }

  lemma DisjointConcat(a: seq<Url>, b: seq<Url>)
    requires Distinct(a) && Distinct(b) && forall u :: u in a ==> u !in b
    ensures Distinct(a + b)
  {
    forall i, j | 0 <= i < j < |a + b|
      ensures (a + b)[i] != (a + b)[j]
    {
      if i < |a| <= j {
        assert a[i] in a && b[j - |a|] in b;
      }
    }
  }

  lemma {:induction false} LoadedDistinct(site: Site, urls: seq<Url>)
    requires Distinct(urls)
    ensures Distinct(Loaded(site, urls))
  {
    if urls != [] {
      LoadedDistinct(site, urls[1..]);
      VisitedAreSeen(site, urls[1..]);
    }
  }

  /** Pages come in non-decreasing distance from the target. */
  lemma {:induction false} OrderIsByDistance(site: Site, n: nat, i: nat, j: nat, k: nat)
    requires i < j < |Order(site, n)| && ReachIn(site, Order(site, n)[j], k)
    ensures ReachBelow(site, Order(site, n)[i], k + 1)
  {
    hide ReachIn, ReachBelow, Pages;
    var a, b := Order(site, n - 1), Pages(site, n - 1);
    assert Order(site, n) == a + b;
    if j < |a| {
      OrderIsByDistance(site, n - 1, i, j, k);
    } else {
      LastLevelIsFar(site, n - 1, j - |a|, k);
      LastLevelIsNear(site, n, i);
      WithinMore(site, Order(site, n)[i], n, k + 1);
    }
  }

  lemma WithinMore(site: Site, u: Url, m: nat, k: nat)
    requires ReachBelow(site, u, m) && m <= k
    ensures ReachBelow(site, u, k)
  {
    var j: nat :| j < m && ReachIn(site, u, j);
  }

  lemma LastLevelIsFar(site: Site, n: nat, j: nat, k: nat)
    requires j < |Pages(site, n)| && ReachIn(site, Pages(site, n)[j], k)
    ensures k >= n
  {
    LevelsAreDistances(site, n);
    assert Pages(site, n)[j] in Pages(site, n);
    assert Distance(site, Pages(site, n)[j], n);
  }

  lemma LastLevelIsNear(site: Site, n: nat, i: nat)
    requires i < |Order(site, n)|
    ensures ReachBelow(site, Order(site, n)[i], n)
  {
    OrderIsReachable(site, n);
    assert Order(site, n)[i] in Order(site, n);
  }

  /** The crawl's answer: without the URL limit it is exactly the pages within `crawlDepth` links,
      each once; with it, a prefix of that list. */
  lemma CrawlMeaning(site: Site, crawlDepth: nat, crawlUrls: nat)
    ensures var all := Order(site, crawlDepth + 1);
            && (forall u :: u in all <==> ReachBelow(site, u, crawlDepth + 1))
            && Distinct(all)
            && Cut(all, crawlUrls) <= all
            && (|Cut(all, crawlUrls)| < crawlUrls ==> Cut(all, crawlUrls) == all)
  {
    OrderIsReachable(site, crawlDepth + 1);
  }

  // ----- the crawl, told by the links -----

  /** `u` is the link up to its first '#'. */
  ghost predicate StripsTo(link: Url, u: Url) {
    u.text <= link.text && '#' !in u.text && (|u.text| == |link.text| || link.text[|u.text|] == '#')
  }

  lemma {:induction false} BeforeHashMeaning(text: string)
    ensures StripsTo(Url(text), Url(BeforeHash(text)))
  {
    if text != [] && text[0] != '#' {
      BeforeHashMeaning(text[1..]);
      assert text == [text[0]] + text[1..];
    }
  }

  lemma NoHash(s: string)
    requires '#' !in s
    ensures forall i :: 0 <= i < |s| ==> s[i] != '#'
  {
  }

  lemma StripMeaning(link: Url, u: Url)
    ensures StripsTo(link, u) <==> u == StripFragment(link)
  {
    BeforeHashMeaning(link.text);
    var r := BeforeHash(link.text);
    if StripsTo(link, u) {
      NoHash(r);
      NoHash(u.text);
      assert |u.text| == |r|;
      assert u.text == link.text[..|u.text|] && r == link.text[..|r|];
    }
  }

  /** The page opens within the scope and stays there. */
  ghost predicate Opens(site: Site, u: Url) {
    site.inScope(u) && site.visit(u).Arrived? && site.inScope(site.visit(u).finalUrl)
  }

  /** Link number `b` of the page leads to `u`. */
  ghost predicate LeadsTo(site: Site, page: Url, b: nat, u: Url) {
    Opens(site, page) && b < |site.visit(page).links| && StripsTo(site.visit(page).links[b], u)
  }

  lemma {:induction false} InScopeLinksMeaning(site: Site, links: seq<Url>, u: Url)
    ensures u in InScopeLinks(site, links)
            <==> site.inScope(u) && exists b :: 0 <= b < |links| && StripsTo(links[b], u)
  {
    if links != [] {
      InScopeLinksMeaning(site, links[1..], u);
      StripMeaning(links[0], u);
      assert forall b :: 0 <= b < |links[1..]| ==> links[1..][b] == links[b + 1];
      if b :| 0 <= b < |links| && StripsTo(links[b], u) {
        assert b == 0 || StripsTo(links[1..][b - 1], u);
      }
    }
  }

  /** The search goes from a page to every address in scope that one of its links leads to, and to no other. */
  lemma OutLinksMeaning(site: Site, page: Url, u: Url)
    ensures u in OutLinks(site, page) <==> site.inScope(u) && exists b: nat :: LeadsTo(site, page, b, u)
  {
    if Loads(site, page) {
      var links := site.visit(page).links;
      InScopeLinksMeaning(site, links, u);
      if b :| 0 <= b < |links| && StripsTo(links[b], u) {
        assert LeadsTo(site, page, b, u);
      }
    }
  }

  /** Every tried address but the target is what a link of a listed page leads to. */
  ghost predicate Grounded(site: Site, listed: seq<Url>, u: Url) {
    u == site.target || ('#' !in u.text && exists page, b: nat :: page in listed && LeadsTo(site, page, b, u))
  }

  /** The reason for which an address is skipped. */
  ghost predicate RightlySkipped(site: Site, skip: Skip) {
    && site.inScope(skip.url)
    && if site.visit(skip.url).Arrived?
       then skip.reason.OutOfScopeRedirect? && !site.inScope(site.visit(skip.url).finalUrl)
       else skip.reason.NavigationError?
  }

  lemma {:induction false} UntilAppend(site: Site, a: seq<Url>, b: seq<Url>, limit: nat)
    ensures Until(site, a + b, limit) == Until(site, a, limit) || a <= Until(site, a + b, limit)
  {
    if a == [] {
      assert a + b == b;
    } else if limit > 0 {
      assert (a + b)[1..] == a[1..] + b;
      var left: nat := if Loads(site, a[0]) then limit - 1 else limit;
      UntilAppend(site, a[1..], b, left);
      assert a == [a[0]] + a[1..];
    }
  }

  lemma TriedIsGrounded(site: Site, k: nat, u: Url)
    requires u in Attempted(site, k)
    ensures site.inScope(u) && Grounded(site, if k == 0 then [] else Pages(site, k - 1), u)
  {
    FreshMembers(site, if k == 0 then [site.target] else LinksOf(site, Pages(site, k - 1)), SeenBefore(site, k));
    if k > 0 {
      LinksOfMembers(site, Pages(site, k - 1));
      var page :| page in Pages(site, k - 1) && u in OutLinks(site, page);
      OutLinksMeaning(site, page, u);
    }
  }

  lemma {:induction false} AttemptsAreGrounded(site: Site, n: nat, limit: nat, u: Url)
    requires u in Until(site, Tries(site, n), limit)
    ensures site.inScope(u) && Grounded(site, Loaded(site, Until(site, Tries(site, n), limit)), u)
  {
    hide Grounded, Attempted, Pages, Loaded, Until;
    UntilWithin(site, Tries(site, n), limit);
    if n > 0 {
      var before, last := Tries(site, n - 1), Attempted(site, n - 1);
      UntilAppend(site, before, last, limit);
      if Until(site, Tries(site, n), limit) == Until(site, before, limit) {
        AttemptsAreGrounded(site, n - 1, limit, u);
      } else {
        FullLevelIsGrounded(site, n, limit, u);
      }
    }
  }

  lemma {:induction false} UntilWithin(site: Site, urls: seq<Url>, limit: nat)
    ensures Until(site, urls, limit) <= urls
  {
    if limit != 0 && urls != [] {
      UntilWithin(site, urls[1..], if Loads(site, urls[0]) then limit - 1 else limit);
    }
  }

  /** Where a level is begun, the pages of the one before are all listed. */
  lemma FullLevelIsGrounded(site: Site, n: nat, limit: nat, u: Url)
    requires n > 0 && u in Until(site, Tries(site, n), limit)
    requires Tries(site, n - 1) <= Until(site, Tries(site, n), limit)
    ensures site.inScope(u) && Grounded(site, Loaded(site, Until(site, Tries(site, n), limit)), u)
  {
    hide Tries, Until, Attempted, Pages, Loaded, Opens;
    var attempts := Until(site, Tries(site, n), limit);
    UntilWithin(site, Tries(site, n), limit);
    var k := LevelOf(site, n, u);
    TriedIsGrounded(site, k, u);
    if k > 0 {
      PagesAreListed(site, k - 1, n - 1, attempts);
    }
  }

  lemma PagesAreListed(site: Site, k: nat, n: nat, attempts: seq<Url>)
    requires k < n && Tries(site, n) <= attempts
    ensures forall page :: page in Pages(site, k) ==> page in Loaded(site, attempts)
  {
    hide Tries, Attempted;
    VisitedAreSeen(site, attempts);
    VisitedAreSeen(site, Attempted(site, k));
    hide Pages, Loaded;
    assert Pages(site, k) == Loaded(site, Attempted(site, k)) by { PagesAre(site, k); }
    forall page | page in Pages(site, k)
      ensures page in Loaded(site, attempts)
    {
      EarlierLevelIsTried(site, k, n, page);
      assert page in attempts;
    }
  }

  lemma PagesAre(site: Site, k: nat)
    ensures Pages(site, k) == Loaded(site, Attempted(site, k))
  {
  }

  lemma {:induction false} LevelOf(site: Site, n: nat, u: Url) returns (k: nat)
    requires u in Tries(site, n)
    ensures k < n && u in Attempted(site, k)
  {
    hide Attempted;
    if u in Attempted(site, n - 1) {
      k := n - 1;
    } else {
      k := LevelOf(site, n - 1, u);
    }
  }

  lemma {:induction false} EarlierLevelIsTried(site: Site, k: nat, n: nat, u: Url)
    requires k < n && u in Attempted(site, k)
    ensures u in Tries(site, n)
  {
    hide Attempted;
    if k < n - 1 {
      EarlierLevelIsTried(site, k, n - 1, u);
    }
  }

  lemma {:induction false} FailuresAreRight(site: Site, urls: seq<Url>)
    requires forall u :: u in urls ==> site.inScope(u)
    ensures forall u :: u in urls <==> u in Loaded(site, urls) || exists k :: 0 <= k < |Failures(site, urls)|
                                                                          && Failures(site, urls)[k].url == u
    ensures forall k :: 0 <= k < |Failures(site, urls)| ==> RightlySkipped(site, Failures(site, urls)[k])
    ensures forall u :: u in Loaded(site, urls) ==> Opens(site, u)
  {
    hide Failures, Loaded, RightlySkipped, Opens;
    FailuresOfMore(site, urls);
    if urls != [] {
      FailuresAreRight(site, urls[1..]);
      assert urls == [urls[0]] + urls[1..];
      var all, rest := Failures(site, urls), Failures(site, urls[1..]);
      if !Opens(site, urls[0]) {
        var skip := all[0];
        assert all == [skip] + rest;
        assert forall k :: 0 <= k < |rest| ==> all[k + 1] == rest[k];
      }
    }
  }

  /** The first try either opens or is skipped for its reason. */
  lemma FailuresOfMore(site: Site, urls: seq<Url>)
    requires urls != [] ==> site.inScope(urls[0])
    ensures urls == [] ==> Failures(site, urls) == [] && Loaded(site, urls) == []
    ensures urls != [] ==>
              var rest, all := Failures(site, urls[1..]), Failures(site, urls);
              if Opens(site, urls[0])
              then all == rest && Loaded(site, urls) == [urls[0]] + Loaded(site, urls[1..])
              else
                && all == [all[0]] + rest && all[0].url == urls[0] && RightlySkipped(site, all[0])
                && Loaded(site, urls) == Loaded(site, urls[1..])
  {
  }

  /** What the manifest of a crawl says, link by link: everything it lists opens in scope, everything it skips is
      skipped for the right reason, and all of it but the target is what a link of a listed page leads to. */
  ghost predicate ManifestHolds(site: Site, m: Manifest) {
    && (forall u :: u in m.urls ==> Opens(site, u) && Grounded(site, m.urls, u))
    && (forall k :: 0 <= k < |m.skipped| ==>
          RightlySkipped(site, m.skipped[k]) && Grounded(site, m.urls, m.skipped[k].url))
  }

  lemma CrawlByLinks(site: Site, n: nat, limit: nat)
    ensures var attempts := Until(site, Tries(site, n), limit);
            ManifestHolds(site, Manifest(Loaded(site, attempts), Failures(site, attempts)))
  {
    var attempts := Until(site, Tries(site, n), limit);
    forall u | u in attempts
      ensures site.inScope(u) && Grounded(site, Loaded(site, attempts), u)
    {
      AttemptsAreGrounded(site, n, limit, u);
    }
    FailuresAreRight(site, attempts);
    hide Grounded, RightlySkipped, Opens, Until, Tries;
    forall k | 0 <= k < |Failures(site, attempts)|
      ensures Failures(site, attempts)[k].url in attempts
    {
    }
  }

  /** Every address in scope that a page nearer than the depth leads to is tried, unless the limit comes first. */
  lemma LinksAreTried(site: Site, depth: nat, page: Url, k: nat, b: nat, u: Url)
    requires Distance(site, page, k) && k < depth && LeadsTo(site, page, b, u) && site.inScope(u)
    ensures u in Tries(site, depth + 1)
  {
    hide Tries, Attempted, Pages, SeenBefore, Distance, LeadsTo, OutLinks, LinksOf;
    LevelsAreDistances(site, k);
    assert page in Pages(site, k);
    OutLinksMeaning(site, page, u);
    LinksOfMembers(site, Pages(site, k));
    NextAttempts(site, k, u);
    if u in Attempted(site, k + 1) {
      EarlierLevelIsTried(site, k + 1, depth + 1, u);
    } else {
      SeenIsTried(site, k + 1, u);
      OrderPrefix(site, k + 1, depth + 1);
    }
  }

  lemma NextAttempts(site: Site, k: nat, u: Url)
    ensures u in Attempted(site, k + 1)
            <==> u in LinksOf(site, Pages(site, k)) && u !in SeenBefore(site, k + 1) && site.inScope(u)
  {
    FreshMembers(site, LinksOf(site, Pages(site, k)), SeenBefore(site, k + 1));
  }

  lemma {:induction false} SeenIsTried(site: Site, k: nat, u: Url)
    requires u in SeenBefore(site, k)
    ensures u in Tries(site, k)
  {
    hide Attempted, Pages, LinksOf, Fresh;
    if u !in Attempted(site, k - 1) {
      SeenIsTried(site, k - 1, u);
    }
  }

  // ----- the order within a level -----

  ghost predicate LinkBefore(a: nat, b: nat, c: nat, d: nat) {
    a < c || (a == c && b < d)
  }

  lemma {:induction false} FreshOrder(site: Site, urls: seq<Url>, seen: set<Url>, i: nat, j: nat) returns (p: nat)
    requires i < j < |Fresh(site, urls, seen)|
    ensures p < |urls| && urls[p] == Fresh(site, urls, seen)[i]
    ensures forall q :: 0 <= q <= p ==> urls[q] != Fresh(site, urls, seen)[j]
  {
    FreshMembers(site, urls, seen);
    var tries := Fresh(site, urls, seen);
    assert tries[j] in tries;
    var t := urls[1..];
    assert forall q :: 0 < q < |urls| ==> urls[q] == t[q - 1];
    if urls[0] in seen || !site.inScope(urls[0]) {
      var q := FreshOrder(site, t, seen, i, j);
      p := q + 1;
    } else {
      assert tries[0] == urls[0] && tries[j] != tries[0];
      if i == 0 {
        p := 0;
      } else {
        var q := FreshOrder(site, t, seen + {urls[0]}, i - 1, j - 1);
        p := q + 1;
      }
    }
    assert urls[0] != tries[j];
    forall q | 0 <= q <= p
      ensures urls[q] != tries[j]
    {
      assert q > 0 ==> urls[q] == t[q - 1];
    }
  }

  /** Entry `p` of the addresses a page leads to comes from link `b`, and the links up to there lead to entries up
      to `p`. */
  lemma {:induction false} LinkOfEntry(site: Site, links: seq<Url>, p: nat) returns (b: nat)
    requires p < |InScopeLinks(site, links)|
    ensures b < |links| && StripsTo(links[b], InScopeLinks(site, links)[p])
    ensures forall d, y :: 0 <= d <= b && StripsTo(links[d], y) && site.inScope(y)
                           ==> y in InScopeLinks(site, links)[..p + 1]
  {
    var head, all, rest := StripFragment(links[0]), InScopeLinks(site, links), InScopeLinks(site, links[1..]);
    StripMeaning(links[0], head);
    forall y | StripsTo(links[0], y)
      ensures y == head
    {
      StripMeaning(links[0], y);
    }
    if site.inScope(head) {
      assert all == [head] + rest;
      if p == 0 {
        b := 0;
        assert all[..1] == [head];
      } else {
        b := LinkOfEntry(site, links[1..], p - 1);
        assert all[..p + 1] == [head] + rest[..p];
        b := b + 1;
      }
    } else {
      assert all == rest;
      b := LinkOfEntry(site, links[1..], p);
      b := b + 1;
    }
    assert forall d :: 0 < d < |links| ==> links[d] == links[1..][d - 1];
  }

  lemma {:induction false} PageOfEntry(site: Site, pages: seq<Url>, p: nat) returns (a: nat, b: nat)
    requires p < |LinksOf(site, pages)|
    ensures a < |pages| && LeadsTo(site, pages[a], b, LinksOf(site, pages)[p])
    ensures forall c: nat, d: nat, y ::
              c < |pages| && !LinkBefore(a, b, c, d) && LeadsTo(site, pages[c], d, y) && site.inScope(y)
              ==> y in LinksOf(site, pages)[..p + 1]
  {
    hide StripsTo;
    var first, rest, all := OutLinks(site, pages[0]), LinksOf(site, pages[1..]), LinksOf(site, pages);
    assert all == first + rest;
    if p < |first| {
      a := 0;
      b := LinkOfEntry(site, site.visit(pages[0]).links, p);
      assert all[..p + 1] == first[..p + 1];
    } else {
      a, b := PageOfEntry(site, pages[1..], p - |first|);
      assert all[..p + 1] == first + rest[..p - |first| + 1];
      forall d: nat, y | LeadsTo(site, pages[0], d, y) && site.inScope(y)
        ensures y in first
      {
        OutLinksMeaning(site, pages[0], y);
      }
      a := a + 1;
    }
    assert forall c :: 0 < c < |pages| ==> pages[c] == pages[1..][c - 1];
  }

  /** Within a level addresses are tried in the order in which the pages of the level before, and the links on each
      page, first lead to them. */
  lemma TriedInOrder(site: Site, k: nat, i: nat, j: nat) returns (a: nat, b: nat)
    requires i < j < |Attempted(site, k + 1)|
    ensures a < |Pages(site, k)| && LeadsTo(site, Pages(site, k)[a], b, Attempted(site, k + 1)[i])
    ensures forall c: nat, d: nat ::
              c < |Pages(site, k)| && LeadsTo(site, Pages(site, k)[c], d, Attempted(site, k + 1)[j])
              ==> LinkBefore(a, b, c, d)
  {
    hide Pages, LeadsTo, LinksOf;
    var links := LinksOf(site, Pages(site, k));
    var p := FreshOrder(site, links, SeenBefore(site, k + 1), i, j);
    FreshMembers(site, links, SeenBefore(site, k + 1));
    a, b := PageOfEntry(site, Pages(site, k), p);
    assert Attempted(site, k + 1)[j] in Attempted(site, k + 1);
    assert Attempted(site, k + 1)[j] !in links[..p + 1];
  }
}
