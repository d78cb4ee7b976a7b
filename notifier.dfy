/**
 * `notify` and the scrapers that call it. The outbox stands for the three
 * places a new match goes: the stdout line, the `matches.log` line and the
 * Slack message, which all carry the same text.
 */
module Notifier {
  import opened Wrappers
  import opened Matching
  import opened Fingerprint
  import opened Dedup
  import opened Scrapers

  /** The alert text: "✅ company: title location→ link". */
  function Message(company: string, title: string, loc: string, link: string): string {
    "\U{2705} " + company + ": " + title + " " + loc + "\U{2192} " + link
  }

  /** The dedup key of a candidate. */
  function KeyOf(digest: string -> string, c: Candidate): string {
    Key(digest, c.company, c.title, c.link)
  }

  /** What a sequence of `notify` calls does: the history afterwards and the messages sent. */
  datatype Effect = Effect(history: map<string, int>, sent: seq<string>)

  /** One `notify` call for candidate `c` at time `now`, from `history`. */
  function NotifyEffect(digest: string -> string, history: map<string, int>, c: Candidate, now: int): Effect {
    var key := KeyOf(digest, c);
    Effect(Recorded(history, key, now),
           if Admits(history, key, now) then [Message(c.company, c.title, c.location, c.link)] else [])
  }

  /** `notify` called for each candidate in turn, all at time `now`. */
  function NotifyAll(digest: string -> string, history: map<string, int>, cs: seq<Candidate>, now: int): Effect {
    if cs == [] then Effect(history, [])
    else
      var before := NotifyAll(digest, history, cs[..|cs| - 1], now);
      var last := NotifyEffect(digest, before.history, cs[|cs| - 1], now);
      Effect(last.history, before.sent + last.sent)
  }

  lemma NotifyAllSnoc(digest: string -> string, history: map<string, int>, cs: seq<Candidate>, c: Candidate, now: int)
    ensures var before := NotifyAll(digest, history, cs, now);
            var last := NotifyEffect(digest, before.history, c, now);
            NotifyAll(digest, history, cs + [c], now) == Effect(last.history, before.sent + last.sent)
  {
    assert (cs + [c])[..|cs|] == cs;
  }

  /** Two batches of calls in a row have the effect of the concatenated batch. */
  lemma {:induction false} NotifyAllAppend(digest: string -> string, history: map<string, int>,
                                           a: seq<Candidate>, b: seq<Candidate>, now: int)
    ensures var ea := NotifyAll(digest, history, a, now);
            var eb := NotifyAll(digest, ea.history, b, now);
            NotifyAll(digest, history, a + b, now) == Effect(eb.history, ea.sent + eb.sent)
    decreases |b|
  {
    if b == [] {
      assert a + b == a;
    } else {
      var init, c := b[..|b| - 1], b[|b| - 1];
      assert a + b == (a + init) + [c];
      assert b == init + [c];
      NotifyAllAppend(digest, history, a, init, now);
      NotifyAllSnoc(digest, history, a + init, c, now);
      NotifyAllSnoc(digest, NotifyAll(digest, history, a, now).history, init, c, now);
    }
  }

  /**
   * Candidates sharing one key (the same company, title and link, whatever
   * their locations) alert at most once at a given time: exactly once, with
   * the first candidate's text, when the key is admitted, and never when it
   * is suppressed. This is idempotence within the window, and the reason two
   * reports of one job that differ only in location collapse to one alert.
   */
  lemma {:induction false} SameKeyAlertsAtMostOnce(digest: string -> string, history: map<string, int>,
                                                   cs: seq<Candidate>, now: int)
    requires cs != []
    requires forall i :: 0 <= i < |cs| ==> KeyOf(digest, cs[i]) == KeyOf(digest, cs[0])
    ensures var key := KeyOf(digest, cs[0]);
            var e := NotifyAll(digest, history, cs, now);
            e.history == Recorded(history, key, now) &&
            e.sent == if Admits(history, key, now)
                      then [Message(cs[0].company, cs[0].title, cs[0].location, cs[0].link)]
                      else []
  {
    var key := KeyOf(digest, cs[0]);
    if |cs| == 1 {
      assert cs[..0] == [];
    } else {
      var init := cs[..|cs| - 1];
      assert init[0] == cs[0];
      SameKeyAlertsAtMostOnce(digest, history, init, now);
      assert KeyOf(digest, cs[|cs| - 1]) == key;
      assert !Admits(Recorded(history, key, now), key, now);
    }
  }

  /** Reporting one job twice, with any two locations, sends at most one alert. */
  lemma RepeatedMatchAlertsOnce(digest: string -> string, history: map<string, int>,
                                company: string, title: string, loc1: string, loc2: string, link: string, now: int)
    ensures var cs := [Candidate(company, title, loc1, link), Candidate(company, title, loc2, link)];
            NotifyAll(digest, history, cs, now).sent ==
              if Admits(history, Key(digest, company, title, link), now)
              then [Message(company, title, loc1, link)] else []
  {
    SameKeyAlertsAtMostOnce(digest, history, [Candidate(company, title, loc1, link), Candidate(company, title, loc2, link)], now);
  }

  /**
   * Every message sent is the alert text of one of the candidates, at most
   * one per candidate, and a batch that sends nothing leaves the history as
   * it was.
   */
  lemma {:induction false} NotifyAllSendsOnlyCandidates(digest: string -> string, history: map<string, int>,
                                                        cs: seq<Candidate>, now: int)
    ensures |NotifyAll(digest, history, cs, now).sent| <= |cs|
    ensures forall m :: m in NotifyAll(digest, history, cs, now).sent ==>
      exists c :: c in cs && m == Message(c.company, c.title, c.location, c.link)
    ensures NotifyAll(digest, history, cs, now).sent == [] ==> NotifyAll(digest, history, cs, now).history == history
  {
    if cs != [] {
      var init, c := cs[..|cs| - 1], cs[|cs| - 1];
      assert cs == init + [c];
      NotifyAllSendsOnlyCandidates(digest, history, init, now);
      var e := NotifyAll(digest, history, cs, now);
      forall m | m in e.sent
        ensures exists c' :: c' in cs && m == Message(c'.company, c'.title, c'.location, c'.link)
      {
        if m !in NotifyAll(digest, history, init, now).sent {
          assert m == Message(c.company, c.title, c.location, c.link);
        } else {
          var c' :| c' in init && m == Message(c'.company, c'.title, c'.location, c'.link);
          assert c' in cs;
        }
      }
    }
  }

  /** No recorded timestamp goes down and no key is forgotten. */
  lemma {:induction false} NotifyAllKeepsTimestamps(digest: string -> string, history: map<string, int>,
                                                    cs: seq<Candidate>, now: int)
    ensures var h := NotifyAll(digest, history, cs, now).history;
            forall k :: k in history ==> k in h && h[k] >= history[k]
  {
    if cs != [] {
      var init, c := cs[..|cs| - 1], cs[|cs| - 1];
      NotifyAllKeepsTimestamps(digest, history, init, now);
      RecordedKeepsTimestamps(NotifyAll(digest, history, init, now).history, KeyOf(digest, c), now);
    }
  }

  /** Every key recorded is an old key or the key of one of the candidates. */
  lemma {:induction false} NotifyAllRecordsOnlyCandidates(digest: string -> string, history: map<string, int>,
                                                          cs: seq<Candidate>, now: int)
    ensures var h := NotifyAll(digest, history, cs, now).history;
            forall k :: k in h ==> k in history || exists i :: 0 <= i < |cs| && KeyOf(digest, cs[i]) == k
  {
    if cs != [] {
      var init, c := cs[..|cs| - 1], cs[|cs| - 1];
      NotifyAllRecordsOnlyCandidates(digest, history, init, now);
      var h0 := NotifyAll(digest, history, init, now).history;
      var h := NotifyAll(digest, history, cs, now).history;
      assert h == Recorded(h0, KeyOf(digest, c), now);
      forall k | k in h
        ensures k in history || exists i :: 0 <= i < |cs| && KeyOf(digest, cs[i]) == k
      {
        if k != KeyOf(digest, c) {
          assert k in h0;
          if k !in history {
            var i :| 0 <= i < |init| && KeyOf(digest, init[i]) == k;
            assert cs[i] == init[i];
          }
        } else {
          assert KeyOf(digest, cs[|cs| - 1]) == k;
        }
      }
    }
  }

  /**
   * After a batch at `now`, every candidate's key is recorded and is
   * suppressed at `now`: a run never leaves one of its matches open to a
   * second alert at the same moment.
   */
  lemma {:induction false} NotifyAllSuppressesCandidates(digest: string -> string, history: map<string, int>,
                                                         cs: seq<Candidate>, now: int)
    ensures var h := NotifyAll(digest, history, cs, now).history;
            forall i :: 0 <= i < |cs| ==> KeyOf(digest, cs[i]) in h && !Admits(h, KeyOf(digest, cs[i]), now)
  {
    if cs != [] {
      var init, c := cs[..|cs| - 1], cs[|cs| - 1];
      NotifyAllSuppressesCandidates(digest, history, init, now);
      var h0 := NotifyAll(digest, history, init, now).history;
      var h := NotifyAll(digest, history, cs, now).history;
      assert h == Recorded(h0, KeyOf(digest, c), now);
      forall i | 0 <= i < |cs|
        ensures KeyOf(digest, cs[i]) in h && !Admits(h, KeyOf(digest, cs[i]), now)
      {
        if i < |init| {
          assert cs[i] == init[i];
        }
      }
    }
  }

  /**
   * The state after the effect `e` from history `h0`, snapshot `snapshot0`
   * and outbox `outbox0`: the history is the effect's, its messages are
   * appended, and the snapshot was rewritten iff something was sent (the
   * last write follows the last update).
   */
  ghost predicate Follows(h0: map<string, int>, snapshot0: map<string, int>, outbox0: seq<string>, e: Effect,
                          h: map<string, int>, snapshot: map<string, int>, outbox: seq<string>)
  {
    h == e.history && outbox == outbox0 + e.sent && snapshot == if e.sent == [] then snapshot0 else h
  }

  /** Two effects in a row give the state of their composition. */
  lemma FollowsThen(h0: map<string, int>, s0: map<string, int>, o0: seq<string>, ea: Effect,
                    h1: map<string, int>, s1: map<string, int>, o1: seq<string>, eb: Effect,
                    h2: map<string, int>, s2: map<string, int>, o2: seq<string>)
    requires Follows(h0, s0, o0, ea, h1, s1, o1)
    requires Follows(h1, s1, o1, eb, h2, s2, o2)
    requires eb.sent == [] ==> eb.history == h1
    ensures Follows(h0, s0, o0, Effect(eb.history, ea.sent + eb.sent), h2, s2, o2)
  {
  }

  /** The process state that `notify` touches: the dedup store and the outbox. */
  class Monitor {
    /** The global `history` and its snapshot file. */
    const store: DedupStore
    /** SHA-1 followed by hex encoding. */
    const digest: string -> string
    /** The alert texts emitted so far, in order. */
    var outbox: seq<string>

    constructor (store: DedupStore, digest: string -> string)
      ensures this.store == store && this.digest == digest && outbox == []
    {
      this.store := store;
      this.digest := digest;
      outbox := [];
    }

    /** The current state is the one `e` leads to from the given history, snapshot and outbox. */
    ghost predicate Reflects(h0: map<string, int>, snapshot0: map<string, int>, outbox0: seq<string>, e: Effect)
      reads this, store
    {
      Follows(h0, snapshot0, outbox0, e, store.history, store.snapshot, outbox)
    }

    /** `notify`: key the match, ask the store, and emit the alert text when admitted. */
    method Notify(company: string, title: string, loc: string, link: string, now: int)
      modifies this, store
      ensures Reflects(old(store.history), old(store.snapshot), old(outbox),
                       NotifyEffect(digest, old(store.history), Candidate(company, title, loc, link), now))
    {
      var key := MakeHash(digest, [company, title, link]);
      var ok := store.ShouldNotify(key, now);
      if !ok {
        return;
      }
      var msg := Message(company, title, loc, link);
      outbox := outbox + [msg];
    }

    /** `scrapeRBC` on a fetched page: notify each wanted listing, in order. */
    method ScrapeRBC(name: string, listings: seq<Listing>, now: int)
      modifies this, store
      ensures Reflects(old(store.history), old(store.snapshot), old(outbox),
                       NotifyAll(digest, old(store.history), RbcCandidates(name, listings), now))
    {
      for i := 0 to |listings|
        invariant Reflects(old(store.history), old(store.snapshot), old(outbox),
                           NotifyAll(digest, old(store.history), RbcCandidates(name, listings[..i]), now))
      {
        var title := listings[i].title;
        var location := listings[i].location;
        var full := RbcBase + listings[i].href;
        assert listings[..i + 1] == listings[..i] + [listings[i]];
        RbcCandidatesSnoc(name, listings[..i], listings[i]);
        ghost var cs := RbcCandidates(name, listings[..i]);
        ghost var ea := NotifyAll(digest, old(store.history), cs, now);
        ghost var h1, s1, o1 := store.history, store.snapshot, outbox;
        var keywords := ContainsKeywords(title);
        if keywords && LocationContainsHalifax(location) {
          var c := Candidate(name, title, location, full);
          assert RbcCandidates(name, listings[..i + 1]) == cs + [c];
          Notify(name, title, location, full, now);
          NotifyAllSnoc(digest, old(store.history), cs, c, now);
          FollowsThen(old(store.history), old(store.snapshot), old(outbox), ea, h1, s1, o1,
                      NotifyEffect(digest, h1, c, now), store.history, store.snapshot, outbox);
        } else {
          assert RbcCandidates(name, listings[..i + 1]) == cs;
        }
      }
      assert listings[..|listings|] == listings;
    }

    /** `scrapeGeneric` on a fetched page: one placeholder alert when the body matches. */
    method ScrapeGeneric(name: string, url: string, bodyText: string, now: int)
      modifies this, store
      ensures Reflects(old(store.history), old(store.snapshot), old(outbox),
                       NotifyAll(digest, old(store.history), GenericCandidates(name, url, bodyText), now))
    {
      var keywords := ContainsKeywords(bodyText);
      if keywords {
        NotifyAllSnoc(digest, store.history, [], Candidate(name, GenericTitle, "", url), now);
        Notify(name, GenericTitle, "", url, now);
      }
    }

    /** One worker: run the site's scraper on its page, or log the failed visit and stop. */
    method ScrapeSite(v: Visit, now: int)
      modifies this, store
      ensures Reflects(old(store.history), old(store.snapshot), old(outbox),
                       NotifyAll(digest, old(store.history), SiteCandidates(v), now))
    {
      match v.page {
        case None =>
        case Some(p) =>
          if v.site.scraper == RbcScraper {
            ScrapeRBC(v.site.name, p.jobResults, now);
          } else {
            ScrapeGeneric(v.site.name, v.site.url, p.bodyText, now);
          }
      }
    }

    /**
     * `scrapeAll`, with the workers run one after another in list order: a
     * failed visit adds nothing, every other site's scraper runs.
     */
    method ScrapeAll(visits: seq<Visit>, now: int)
      modifies this, store
      ensures Reflects(old(store.history), old(store.snapshot), old(outbox),
                       NotifyAll(digest, old(store.history), RunCandidates(visits), now))
    {
      for i := 0 to |visits|
        invariant Reflects(old(store.history), old(store.snapshot), old(outbox),
                           NotifyAll(digest, old(store.history), RunCandidates(visits[..i]), now))
      {
        assert visits[..i + 1][..i] == visits[..i];
        ghost var done := RunCandidates(visits[..i]);
        ghost var ea := NotifyAll(digest, old(store.history), done, now);
        ghost var eb := NotifyAll(digest, ea.history, SiteCandidates(visits[i]), now);
        ghost var h1, s1, o1 := store.history, store.snapshot, outbox;
        ScrapeSite(visits[i], now);
        assert RunCandidates(visits[..i + 1]) == done + SiteCandidates(visits[i]);
        NotifyAllAppend(digest, old(store.history), done, SiteCandidates(visits[i]), now);
        NotifyAllSendsOnlyCandidates(digest, ea.history, SiteCandidates(visits[i]), now);
        FollowsThen(old(store.history), old(store.snapshot), old(outbox), ea, h1, s1, o1, eb,
                    store.history, store.snapshot, outbox);
      }
      assert visits[..|visits|] == visits;
    }
  }
}
