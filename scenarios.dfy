/**
 * End-to-end runs of the pipeline on concrete pages: a first alert from a
 * generic page, its suppression an hour later, its re-alert after 73 hours,
 * and the RBC location filter.
 */
module Scenarios {
  import opened Matching
  import opened Fingerprint
  import opened Dedup
  import opened Scrapers
  import opened Notifier

  const AcmeUrl: string := "https://acme.example/careers"

  /** The alert a generic match of AcmeCo's careers page produces. */
  const AcmeAlert: string := "\U{2705} AcmeCo: " + GenericTitle + " \U{2192} " + AcmeUrl

  /** The generic candidate AcmeCo's page yields, and its key. */
  lemma AcmeCandidate(digest: string -> string)
    ensures GenericCandidates("AcmeCo", AcmeUrl, "Senior DevOps Engineer") == [Candidate("AcmeCo", GenericTitle, "", AcmeUrl)]
    ensures KeyOf(digest, Candidate("AcmeCo", GenericTitle, "", AcmeUrl)) == digest("AcmeCo" + GenericTitle + AcmeUrl)
    ensures Message("AcmeCo", GenericTitle, "", AcmeUrl) == AcmeAlert
  {
    DevOpsEngineerMatches();
    ConcatOfThree("AcmeCo", GenericTitle, AcmeUrl);
    assert "\U{2705} " + "AcmeCo" + ": " == "\U{2705} AcmeCo: ";
    assert " " + "" + "\U{2192} " == " \U{2192} ";
  }

  /** With an empty history, the page sends one alert and records its key at `now`. */
  lemma FirstTimeAlert(digest: string -> string, now: int)
    ensures var e := NotifyAll(digest, map[], GenericCandidates("AcmeCo", AcmeUrl, "Senior DevOps Engineer"), now);
            e.sent == [AcmeAlert] && e.history == map[digest("AcmeCo" + GenericTitle + AcmeUrl) := now]
  {
    AcmeCandidate(digest);
    NotifyAllSnoc(digest, map[], [], Candidate("AcmeCo", GenericTitle, "", AcmeUrl), now);
  }

  /** An hour after the first alert, the same page sends nothing and the history stays. */
  lemma SuppressedAnHourLater(digest: string -> string, now: int)
    ensures var h := map[digest("AcmeCo" + GenericTitle + AcmeUrl) := now - 3600];
            var e := NotifyAll(digest, h, GenericCandidates("AcmeCo", AcmeUrl, "Senior DevOps Engineer"), now);
            e.sent == [] && e.history == h
  {
    AcmeCandidate(digest);
    NotifyAllSnoc(digest, map[digest("AcmeCo" + GenericTitle + AcmeUrl) := now - 3600], [],
                  Candidate("AcmeCo", GenericTitle, "", AcmeUrl), now);
  }

  /** 73 hours after the first alert, the same page alerts again and the key is re-stamped. */
  lemma RealertAfter73Hours(digest: string -> string, now: int)
    ensures var h := map[digest("AcmeCo" + GenericTitle + AcmeUrl) := now - 73 * 3600];
            var e := NotifyAll(digest, h, GenericCandidates("AcmeCo", AcmeUrl, "Senior DevOps Engineer"), now);
            e.sent == [AcmeAlert] && e.history == map[digest("AcmeCo" + GenericTitle + AcmeUrl) := now]
  {
    AcmeCandidate(digest);
    NotifyAllSnoc(digest, map[digest("AcmeCo" + GenericTitle + AcmeUrl) := now - 73 * 3600], [],
                  Candidate("AcmeCo", GenericTitle, "", AcmeUrl), now);
  }

  /** Of a Halifax and a Toronto cloud listing, only the Halifax one is a candidate, with its absolute link. */
  lemma RbcLocationFilter()
    ensures RbcCandidates("RBC", [Listing("Cloud Platform Engineer", "Halifax, NS", "/jobs/123"),
                                  Listing("Cloud Engineer", "Toronto", "/jobs/124")])
         == [Candidate("RBC", "Cloud Platform Engineer", "Halifax, NS", "https://jobs.rbc.com/jobs/123")]
  {
    var halifax := Listing("Cloud Platform Engineer", "Halifax, NS", "/jobs/123");
    var toronto := Listing("Cloud Engineer", "Toronto", "/jobs/124");
    assert MatchesKeywords(halifax.title) by {
      var lower := Lower(halifax.title);
      assert lower[..5] == "cloud";
      assert OccursAt(lower, "cloud", 0);
      ContainsIffOccurs(lower, "cloud");
      assert "cloud" in Keywords;
    }
    LocationExamples();
    assert RbcWanted(halifax) && !RbcWanted(toronto);
    assert RbcBase + halifax.href == "https://jobs.rbc.com/jobs/123";
    RbcCandidatesOne("RBC", halifax);
    RbcCandidatesSnoc("RBC", [halifax], toronto);
    assert [halifax] + [toronto] == [halifax, toronto];
  }
}
