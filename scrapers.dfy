/**
 * The per-site decisions of main.go's scrapers, with the fetched HTML
 * abstracted to what the callbacks read from it: the RBC scraper's
 * `li.job-result` nodes (title, location, link) and the generic scraper's
 * body text. A visit that failed is a page that is absent.
 */
module Scrapers {
  import opened Wrappers
  import opened Matching

  /** The base that RBC's relative job links are appended to. */
  const RbcBase: string := "https://jobs.rbc.com"

  /** The placeholder title of a generic match. */
  const GenericTitle: string := "Possible cloud/DevOps opening"

  /** One `li.job-result` node: its `h3.job-title` text, `.job-location` text and link `href`. */
  datatype Listing = Listing(title: string, location: string, href: string)

  /** A match as handed to `notify`: company, title, location and absolute link. */
  datatype Candidate = Candidate(company: string, title: string, location: string, link: string)

  /** Which scraper a site uses. */
  datatype Scraper = RbcScraper | GenericScraper

  /** `JobSite`: a company name, the URL to visit and its scraper. */
  datatype JobSite = JobSite(name: string, url: string, scraper: Scraper)

  /** What a successful visit exposes to the callbacks. */
  datatype Page = Page(jobResults: seq<Listing>, bodyText: string)

  /** One site and the outcome of visiting it (`None` when `Visit` returned an error). */
  datatype Visit = Visit(site: JobSite, page: Option<Page>)

  /** The RBC filter: a keyword in the title and Halifax in the location. */
  predicate RbcWanted(l: Listing) {
    MatchesKeywords(l.title) && LocationContainsHalifax(l.location)
  }

  /** The candidate an RBC listing yields, if any. */
  function RbcCandidate(name: string, l: Listing): Option<Candidate> {
    if RbcWanted(l) then Some(Candidate(name, l.title, l.location, RbcBase + l.href)) else None
  }

  /** The candidates of an RBC results page, in document order. */
  function RbcCandidates(name: string, listings: seq<Listing>): seq<Candidate> {
    if listings == [] then []
    else
      var earlier := RbcCandidates(name, listings[..|listings| - 1]);
      match RbcCandidate(name, listings[|listings| - 1])
      case Some(c) => earlier + [c]
      case None => earlier
  }

  /** The candidate of a generic page: one placeholder match when the body matches. */
  function GenericCandidates(name: string, url: string, bodyText: string): seq<Candidate> {
    if MatchesKeywords(bodyText) then [Candidate(name, GenericTitle, "", url)] else []
  }

  /** The candidates one visit yields: none when the visit failed. */
  function SiteCandidates(v: Visit): seq<Candidate> {
    match v.page
    case None => []
    case Some(p) =>
      if v.site.scraper == RbcScraper then RbcCandidates(v.site.name, p.jobResults)
      else GenericCandidates(v.site.name, v.site.url, p.bodyText)
  }

  /** The candidates of a whole run, site after site. */
  function RunCandidates(visits: seq<Visit>): seq<Candidate> {
    if visits == [] then []
    else RunCandidates(visits[..|visits| - 1]) + SiteCandidates(visits[|visits| - 1])
  }

  /**
   * An RBC page yields at most one candidate per listing, and a candidate
   * exactly for each listing with a keyword in its title and Halifax in its
   * location, carrying that listing's title and location and its link
   * joined to the RBC base.
   */
  lemma {:induction false} RbcCandidatesExactly(name: string, listings: seq<Listing>)
    ensures |RbcCandidates(name, listings)| <= |listings|
    ensures forall c :: c in RbcCandidates(name, listings) <==>
      exists l :: l in listings && RbcWanted(l) && c == Candidate(name, l.title, l.location, RbcBase + l.href)
  {
    if listings != [] {
      var init, last := listings[..|listings| - 1], listings[|listings| - 1];
      assert listings == init + [last];
      RbcCandidatesExactly(name, init);
      forall c | c in RbcCandidates(name, listings)
        ensures exists l :: l in listings && RbcWanted(l) && c == Candidate(name, l.title, l.location, RbcBase + l.href)
      {
        if c !in RbcCandidates(name, init) {
          assert RbcWanted(last) && c == Candidate(name, last.title, last.location, RbcBase + last.href);
        } else {
          var l :| l in init && RbcWanted(l) && c == Candidate(name, l.title, l.location, RbcBase + l.href);
          assert l in listings;
        }
      }
      forall l | l in listings && RbcWanted(l)
        ensures Candidate(name, l.title, l.location, RbcBase + l.href) in RbcCandidates(name, listings)
      {
        if l != last {
          assert l in init;
        }
      }
    }
  }

  /** A single listing yields its candidate exactly when it is wanted. */
  lemma RbcCandidatesOne(name: string, l: Listing)
    ensures RbcCandidates(name, [l]) ==
      if RbcWanted(l) then [Candidate(name, l.title, l.location, RbcBase + l.href)] else []
  {
    assert [l][..0] == [];
  }

  /** One more listing adds its candidate at the end exactly when it is wanted. */
  lemma RbcCandidatesSnoc(name: string, ls: seq<Listing>, l: Listing)
    ensures RbcCandidates(name, ls + [l]) == RbcCandidates(name, ls) +
      if RbcWanted(l) then [Candidate(name, l.title, l.location, RbcBase + l.href)] else []
  {
    assert (ls + [l])[..|ls|] == ls;
  }

  /**
   * The candidates of a page are those of its first part followed by those
   * of the rest: listings are handled one by one, in document order.
   */
  lemma {:induction false} RbcCandidatesAppend(name: string, a: seq<Listing>, b: seq<Listing>)
    ensures RbcCandidates(name, a + b) == RbcCandidates(name, a) + RbcCandidates(name, b)
    decreases |b|
  {
    if b == [] {
      assert a + b == a;
    } else {
      var init := b[..|b| - 1];
      assert (a + b)[..|a + b| - 1] == a + init;
      assert (a + b)[|a + b| - 1] == b[|b| - 1];
      RbcCandidatesAppend(name, a, init);
    }
  }

  /** A generic page yields at most one candidate: the placeholder, with no location and the page URL. */
  lemma GenericCandidatesExactly(name: string, url: string, bodyText: string)
    ensures |GenericCandidates(name, url, bodyText)| <= 1
    ensures GenericCandidates(name, url, bodyText) != [] <==> MatchesKeywords(bodyText)
    ensures forall c :: c in GenericCandidates(name, url, bodyText) ==>
      c.company == name && c.title == GenericTitle && c.location == "" && c.link == url
  {
  }

  /** The candidates of two runs of sites, one after the other, are those of both. */
  lemma {:induction false} RunCandidatesAppend(a: seq<Visit>, b: seq<Visit>)
    ensures RunCandidates(a + b) == RunCandidates(a) + RunCandidates(b)
    decreases |b|
  {
    if b == [] {
      assert a + b == a;
    } else {
      var init := b[..|b| - 1];
      assert (a + b)[..|a + b| - 1] == a + init;
      assert (a + b)[|a + b| - 1] == b[|b| - 1];
      RunCandidatesAppend(a, init);
    }
  }

  /** A site whose visit failed contributes nothing and does not disturb the sites around it. */
  lemma FailedVisitIsolated(before: seq<Visit>, failed: Visit, after: seq<Visit>)
    requires failed.page == None
    ensures RunCandidates(before + [failed] + after) == RunCandidates(before + after)
  {
    var withFailed := before + [failed];
    assert RunCandidates([failed]) == [] by {
      assert [failed][..0] == [];
    }
    assert RunCandidates(withFailed) == RunCandidates(before) by {
      RunCandidatesAppend(before, [failed]);
    }
    calc {
      RunCandidates(withFailed + after);
      { RunCandidatesAppend(withFailed, after); }
      RunCandidates(withFailed) + RunCandidates(after);
      RunCandidates(before) + RunCandidates(after);
      { RunCandidatesAppend(before, after); }
      RunCandidates(before + after);
    }
  }
}
