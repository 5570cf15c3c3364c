/** The crawler under the scope test of the scope file: what it opens, where it arrives and what it lists. */
module CrawlScope {
  import opened Common
  import Crawler
  import opened ScopePaths

  /** same_origin. */
  predicate SameOrigin(base: Url, u: Url) {
    (u.scheme == "http" || u.scheme == "https") && OriginOf(base) == OriginOf(u)
  }

  /** route_is_in_scope, with the verdict of safe_route on the text of the URL. */
  predicate RouteIsInScope(base: Url, scope: Option<Scope>, safe: bool, u: Url) {
    SameOrigin(base, u) && safe && InScope(u, scope)
  }

  /** Scheme, host and port agree; a missing port reads as 443 for https and as 80 otherwise. */
  ghost predicate SameSite(u: Url, v: Url) {
    u.scheme == v.scheme && u.host == v.host && exists port: nat :: HasPort(u, port) && HasPort(v, port)
  }

  /** The test of a URL, told by its parts: a safe http or https URL on the site of the target and of the scope, whose
      segments continue those of an allowed path, and of no excluded one. */
  lemma RouteByParts(base: Url, scope: Scope, safe: bool, u: Url)
    requires Normalised(scope.excluded) && Normalised(scope.allowed) && Rooted(u.path)
    ensures RouteIsInScope(base, Some(scope), safe, u)
            <==>
            && safe && (u.scheme == "http" || u.scheme == "https") && SameSite(base, u) && SameSite(scope.target, u)
            && (var path := if u.path == "" then "/" else u.path;
                && (exists a :: a in scope.allowed && Rooted(Stem(a)) && Segments(Stem(a)) <= Segments(path))
                && !(exists e :: e in scope.excluded && Rooted(Stem(e)) && Segments(Stem(e)) <= Segments(path)))
  {
    hide Normalised, HasPort, Segments, Stem;
    ScopeBySegments(u, scope);
    OriginsByPorts(base, u);
    OriginsByPorts(scope.target, u);
  }

  /** The parser of URLs: a URL with a host has an empty path or one that begins with a slash
      (section 3.3 of RFC 3986). */
  ghost predicate Parses(parse: Crawler.Url -> Url) {
    forall u :: parse(u).host != "" ==> Rooted(parse(u).path)
  }

  /** The scope test of the site is route_is_in_scope. */
  ghost predicate Guarded(site: Crawler.Site, parse: Crawler.Url -> Url, safe: Crawler.Url -> bool, scope: Scope) {
    forall u :: site.inScope(u) <==> RouteIsInScope(parse(site.target), Some(scope), safe(u), parse(u))
  }

  /** The URL has the origin of the scope, continues the segments of an allowed path, and of no
      excluded one. */
  ghost predicate Permitted(u: Url, scope: Scope)
    requires Normalised(scope.excluded) && Normalised(scope.allowed)
  {
    var path := if u.path == "" then "/" else u.path;
    && OriginOf(u) == OriginOf(scope.target) && Rooted(path)
    && (exists a :: a in scope.allowed && Rooted(Stem(a)) && Segments(Stem(a)) <= Segments(path))
    && !(exists e :: e in scope.excluded && Rooted(Stem(e)) && Segments(Stem(e)) <= Segments(path))
  }

  lemma InScopeIsPermitted(u: Url, scope: Scope)
    requires Normalised(scope.excluded) && Normalised(scope.allowed) && Rooted(u.path)
    requires InScope(u, Some(scope))
    ensures Permitted(u, scope)
  {
    ScopeBySegments(u, scope);
  }

  lemma GuardPermits(site: Crawler.Site, parse: Crawler.Url -> Url, safe: Crawler.Url -> bool, scope: Scope,
                     u: Crawler.Url)
    requires Normalised(scope.excluded) && Normalised(scope.allowed) && scope.target.host != ""
    requires Parses(parse) && Guarded(site, parse, safe, scope) && site.inScope(u)
    ensures Permitted(parse(u), scope)
  {
    assert RouteIsInScope(parse(site.target), Some(scope), safe(u), parse(u));
    assert OriginOf(parse(u)) == OriginOf(scope.target);
    InScopeIsPermitted(parse(u), scope);
  }

  lemma {:induction false} TriesAreInScope(site: Crawler.Site, n: nat, u: Crawler.Url)
    requires u in Crawler.Tries(site, n)
    ensures site.inScope(u)
  {
    hide Crawler.LinksOf, Crawler.Pages, Crawler.SeenBefore, Crawler.Fresh;
    if u in Crawler.Tries(site, n - 1) {
      TriesAreInScope(site, n - 1, u);
    } else {
      Crawler.FreshMembers(site, if n == 1 then [site.target] else Crawler.LinksOf(site, Crawler.Pages(site, n - 2)),
                           Crawler.SeenBefore(site, n - 1));
    }
  }

  lemma {:induction false} UntilIsWithin(site: Crawler.Site, urls: seq<Crawler.Url>, limit: nat)
    ensures forall u :: u in Crawler.Until(site, urls, limit) ==> u in urls
  {
    if limit != 0 && urls != [] {
      UntilIsWithin(site, urls[1..], if Crawler.Loads(site, urls[0]) then limit - 1 else limit);
    }
  }

  lemma OrderLoads(site: Crawler.Site, n: nat, limit: nat, u: Crawler.Url)
    requires u in Crawler.Cut(Crawler.Order(site, n), limit)
    ensures Crawler.Loads(site, u)
  {
    Crawler.OrderIsReachable(site, n);
    assert Crawler.ReachBelow(site, u, n);
  }

  /** With normalised path lists, whatever the site: every URL the crawler opens is permitted. Where the browser
      arrives from there is another matter, see below. */
  lemma OpenedUrlsArePermitted(site: Crawler.Site, parse: Crawler.Url -> Url, safe: Crawler.Url -> bool, scope: Scope,
                             depth: nat, limit: nat, u: Crawler.Url)
    requires Normalised(scope.excluded) && Normalised(scope.allowed) && scope.target.host != ""
    requires Parses(parse) && Guarded(site, parse, safe, scope)
    requires u in Crawler.Until(site, Crawler.Tries(site, depth + 1), limit)
    ensures Permitted(parse(u), scope)
  {
    hide Normalised, Parses, Guarded, Permitted;
    UntilIsWithin(site, Crawler.Tries(site, depth + 1), limit);
    TriesAreInScope(site, depth + 1, u);
    GuardPermits(site, parse, safe, scope, u);
  }

  /** So is every URL it lists, and the address at which each listed page ended. */
  lemma ListedPagesArePermitted(site: Crawler.Site, parse: Crawler.Url -> Url, safe: Crawler.Url -> bool, scope: Scope,
                                depth: nat, limit: nat, u: Crawler.Url)
    requires Normalised(scope.excluded) && Normalised(scope.allowed) && scope.target.host != ""
    requires Parses(parse) && Guarded(site, parse, safe, scope)
    requires u in Crawler.Cut(Crawler.Order(site, depth + 1), limit)
    ensures Permitted(parse(u), scope) && site.visit(u).Arrived? && Permitted(parse(site.visit(u).finalUrl), scope)
  {
    hide Normalised, Parses, Guarded, Permitted;
    OrderLoads(site, depth + 1, limit, u);
    GuardPermits(site, parse, safe, scope, u);
    GuardPermits(site, parse, safe, scope, site.visit(u).finalUrl);
  }

  // ----- where the browser arrives -----

  /** enforce_browser_scope: the browser follows redirects within the origin of the target, whatever their path. */
  ghost predicate BrowserGuarded(site: Crawler.Site, parse: Crawler.Url -> Url) {
    forall u :: site.visit(u).Arrived? ==> SameOrigin(parse(site.target), parse(site.visit(u).finalUrl))
  }

  /** The browser arrives within scope from every one of these URLs that answers. */
  ghost predicate ArrivesInScope(site: Crawler.Site, urls: seq<Crawler.Url>) {
    forall u :: u in urls && site.visit(u).Arrived? ==> site.inScope(site.visit(u).finalUrl)
  }

  ghost predicate NoRedirectRecorded(skipped: seq<Crawler.Skip>) {
    forall k :: 0 <= k < |skipped| ==> !skipped[k].reason.OutOfScopeRedirect?
  }

  lemma {:induction false} NoRedirectExactlyWhen(site: Crawler.Site, urls: seq<Crawler.Url>)
    requires forall u :: u in urls ==> site.inScope(u)
    ensures NoRedirectRecorded(Crawler.Failures(site, urls)) <==> ArrivesInScope(site, urls)
  {
    if urls != [] {
      NoRedirectExactlyWhen(site, urls[1..]);
      var rest, all := Crawler.Failures(site, urls[1..]), Crawler.Failures(site, urls);
      assert forall u :: u in urls <==> u == urls[0] || u in urls[1..];
      assert ArrivesInScope(site, urls)
             <==> ArrivesInScope(site, [urls[0]]) && ArrivesInScope(site, urls[1..]);
      if Crawler.Loads(site, urls[0]) {
        assert all == rest;
      } else {
        assert |all| == |rest| + 1 && forall k :: 0 <= k < |rest| ==> rest[k] == all[k + 1];
        assert all[0].reason.OutOfScopeRedirect? <==> site.visit(urls[0]).Arrived?;
      }
    }
  }

  /** The crawl stays in scope with every address it arrives at exactly when its manifest records no
      out-of-scope redirect. */
  lemma ArrivalsAreInScopeExactlyWhen(site: Crawler.Site, depth: nat, limit: nat)
    ensures var tries := Crawler.Until(site, Crawler.Tries(site, depth + 1), limit);
            ArrivesInScope(site, tries) <==> NoRedirectRecorded(Crawler.Failures(site, tries))
  {
    var tries := Crawler.Until(site, Crawler.Tries(site, depth + 1), limit);
    UntilIsWithin(site, Crawler.Tries(site, depth + 1), limit);
    forall u | u in tries
      ensures site.inScope(u)
    {
      TriesAreInScope(site, depth + 1, u);
    }
    NoRedirectExactlyWhen(site, tries);
  }

  /** Whatever is out of scope on the origin of a page in scope can be arrived at: a site that redirects there
      passes the guard of the browser, and the crawler notices afterwards. */
  lemma RedirectLeavesScope(parse: Crawler.Url -> Url, safe: Crawler.Url -> bool, scope: Scope, depth: nat, limit: nat,
                            page: Crawler.Url, other: Crawler.Url)
    returns (site: Crawler.Site)
    requires RouteIsInScope(parse(page), Some(scope), safe(page), parse(page)) && limit > 0
    requires SameOrigin(parse(page), parse(other))
    requires !RouteIsInScope(parse(page), Some(scope), safe(other), parse(other))
    ensures Guarded(site, parse, safe, scope) && BrowserGuarded(site, parse) && site.target == page
    ensures var tries := Crawler.Until(site, Crawler.Tries(site, depth + 1), limit);
            && page in tries && site.visit(page) == Crawler.Arrived(other, []) && !ArrivesInScope(site, tries)
            && Crawler.Skip(page, Crawler.OutOfScopeRedirect) in Crawler.Failures(site, tries)
  {
    site := Crawler.Site(page, u => Crawler.Arrived(other, []),
                         u => RouteIsInScope(parse(page), Some(scope), safe(u), parse(u)));
    assert Crawler.Fresh(site, [page], {}) == [page];
    assert Crawler.Attempted(site, 0) == [page];
    OnlyTheTarget(site, depth);
    var tries := Crawler.Until(site, Crawler.Tries(site, depth + 1), limit);
    assert tries == [page] + Crawler.Until(site, [], limit);
    assert Crawler.Failures(site, tries) == [Crawler.Skip(page, Crawler.OutOfScopeRedirect)];
  }

  /** A target that does not load is the only try. */
  lemma {:induction false} OnlyTheTarget(site: Crawler.Site, n: nat)
    requires Crawler.Attempted(site, 0) == [site.target] && !Crawler.Loads(site, site.target)
    ensures Crawler.Tries(site, n + 1) == [site.target]
    ensures n > 0 ==> Crawler.Attempted(site, n) == []
    ensures Crawler.Pages(site, n) == []
  {
    if n > 0 {
      OnlyTheTarget(site, n - 1);
    } else {
      assert Crawler.Tries(site, 0) == [] && [site.target][1..] == [];
      assert Crawler.Loaded(site, [site.target]) == [] + Crawler.Loaded(site, []);
    }
  }

  /** An excluded page behind a redirect from an allowed one. */
  lemma ExcludedPageIsArrivedAt() returns (site: Crawler.Site, parse: Crawler.Url -> Url)
    ensures var scope := Scope(Url("http", "host", None, "/"), ["/private"], ["/"]);
            && Guarded(site, parse, u => true, scope) && BrowserGuarded(site, parse)
            && site.visit(site.target).Arrived?
            && var final := parse(site.visit(site.target).finalUrl);
               final.path == "/private" && !InScope(final, Some(scope))
    ensures site.target in Crawler.Until(site, Crawler.Tries(site, 1), 1)
  {
    var scope := Scope(Url("http", "host", None, "/"), ["/private"], ["/"]);
    parse := (u: Crawler.Url) => Url("http", "host", None, u.text);
    var page, other := Crawler.Url("/public"), Crawler.Url("/private");
    assert !Covers("/private", "/public") && Covers("/", "/public") by {
      assert Stem("/private") == "/private" && "/"[..0] == "" && Stem("/") == "";
      assert "/public"[1] == 'p' && "/public"[2] == 'u';
    }
    assert "/" in scope.allowed && scope.excluded == ["/private"];
    assert "/private" in scope.excluded && Covers("/private", "/private");
    site := RedirectLeavesScope(parse, u => true, scope, 0, 1, page, other);
  }
}
