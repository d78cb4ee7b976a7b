# jobchecker: verified model of the match, fingerprint, dedup and notify logic

jobchecker is a single Go program (`main.go`) that visits a fixed list of
career pages and looks for cloud/DevOps openings. On the RBC site it reads each
job listing. On every other site it reads the whole page body. It alerts on new
matches through Slack and a log file. A history of fingerprints with Unix
timestamps suppresses a repeat alert for the same job for 72 hours.

This project models the decision logic of that program in Dafny and proves
its properties:

- `matching.dfy` (module `Matching`): `containsKeywords` and
  `locationContainsHalifax`. Both are case-insensitive substring tests, with
  lower-casing over ASCII. `containsKeywords` is a method with the source's loop
  over the seven keywords. It is proved equal to the predicate `MatchesKeywords`.
- `fingerprint.dfy` (module `Fingerprint`): `makeHash`. It is a method that
  writes the parts one after another into a hasher state. The key is
  `digest(company + title + link)`. The location is never part of it.
- `dedup.dfy` (module `Dedup`): the `history` map and `shouldNotify`, as the
  class `DedupStore`. The class also has a `snapshot` field for the
  `history.json` contents last written. The decision is the predicate `Admits`
  and the new history is the function `Recorded`.
- `scrapers.dfy` (module `Scrapers`): the per-listing decision of `scrapeRBC`
  and the per-page decision of `scrapeGeneric`. They work on listing records
  and body text, which stand in for the HTML.
- `notifier.dfy` (module `Notifier`): `notify` and the scrapers that call it,
  as methods of the class `Monitor`. `Monitor` holds the store, the digest and
  an outbox. The outbox is the sequence of alert texts that stands in for the
  stdout line, the `matches.log` line and the Slack post. Every method is
  proved against the functions `NotifyEffect` and `NotifyAll`, and the dedup
  properties are lemmas about those functions.
- `scenarios.dfy` (module `Scenarios`): concrete runs. A first alert, its
  suppression an hour later, a re-alert after 73 hours, and the RBC location
  filter.

Inputs from outside the program become parameters:
- The clock is `now`, in integer Unix seconds.
- SHA-1 with hex encoding is `digest: string -> string`. This is an arbitrary
  function, so every property holds for any digest.
- A fetched page is a `Page` record, or `None` when the visit failed.

Three facts about `main.go` shape the model:

- `makeHash` writes the company, title and link into the hasher with no
  separator between them, so only their concatenation counts
  (`Fingerprint.ShiftedFieldsCollide`).
- There is no flag recording that an alert was sent and no summary message at
  the end of a run, so neither is modelled.
- There is no lock around `history`, even though each site worker is a
  goroutine that calls `shouldNotify`.

For timestamps well inside the int64 range, the integer clock is exact:
`time.Since(time.Unix(ts, 0)) < 72h` with an integer `ts` gives the same
answer as `floor(now) - ts < 259200`. Near the int64 limits it does not (see
"Left out").

## Model

| member | source | states |
|---|---|---|
| `Matching.ContainsIffOccurs` | main.go:221 | The substring test is true exactly when the keyword occurs at some index of the text, both directions. |
| `Matching.ContainsKeywords` | main.go:217-226 | The loop returns true iff one of the seven keywords occurs in the lower-cased text. |
| `Matching.MatchersIgnoreCase` | main.go:217-230 | Both matchers give the same answer for the text, its upper-case form and its lower-case form. |
| `Matching.LowerIgnoresCase` | main.go:219 | Lower-casing is idempotent and undoes upper-casing. |
| `Matching.EmptyTextNeverMatches` | main.go:217-230 | The empty text matches no keyword and no location. |
| `Matching.DevOpsEngineerMatches` | main.go:217-226 | "Senior DevOps Engineer" matches: case is ignored. |
| `Matching.AzureWebsitesMatches` | main.go:217-226 | "azurewebsites" matches: a keyword inside a longer word is enough, no word boundary is needed. |
| `Matching.KeywordNotInDevelops` | main.go:218 | None of the seven keywords is a substring of "develops". |
| `Matching.DevelopsDoesNotMatch` | main.go:217-226 | "develops" does not match the keyword profile. |
| `Matching.LocationContainsHalifax` | main.go:228-230 | True exactly when "halifax" occurs at some index of the lower-cased location. |
| `Matching.LocationExamples` | main.go:228-230 | "Halifax, NS" passes the location test and "Toronto" does not. |
| `Fingerprint.MakeHash` | main.go:181-187 | The key is the digest of all parts written back to back. |
| `Fingerprint.ConcatOfThree` | main.go:183-185 | Three parts are written as exactly their concatenation. |
| `Fingerprint.KeyDependsOnlyOnConcatenation` | main.go:181-187 | Two field triples with the same concatenation get the same key, for any digest. |
| `Fingerprint.ShiftedFieldsCollide` | main.go:183-185 | Moving text across a field boundary does not change the key, because there is no separator. |
| `Dedup.RecordedStampsOnlyAdmitted` | main.go:170-178 | An admitted key is stamped with `now`. A suppressed call leaves the history unchanged. Only the key itself can be added. |
| `Dedup.RecordedKeepsTimestamps` | main.go:170-176 | One call never removes a key and never lowers a timestamp, whatever the clock did. |
| `Dedup.SuppressedWithinWindow` | main.go:171-176 | After an admission at `t`, the key is suppressed at every time before `t` plus 72 hours, including times before `t` when the clock went back. |
| `Dedup.ReadmittedAfterWindow` | main.go:172-176 | After an admission at `t`, the key is admitted again from exactly `t` plus 72 hours on. |
| `Dedup.DedupStore.Load` | main.go:41-43 | The store starts from the saved map when it was read, and from an empty map otherwise. |
| `Dedup.DedupStore.ShouldNotify` | main.go:170-179 | Absent key: true, and the key is stamped with `now`. Key younger than 72 hours: false, and history and snapshot are unchanged. Otherwise: true and re-stamped. Every other key is unchanged, and the snapshot equals the new history after an admission. |
| `Scrapers.RbcCandidatesExactly` | main.go:118-126 | A value is a candidate of an RBC page iff some listing has a keyword in its title and Halifax in its location and gives that value: its title and location and the link `https://jobs.rbc.com` + href. There are no more candidates than listings. |
| `Scrapers.RbcCandidatesOne` | main.go:118-126 | One listing yields exactly its candidate when it is wanted, and nothing otherwise. |
| `Scrapers.RbcCandidatesSnoc` | main.go:118-126 | One more listing at the end of a page adds its candidate after the earlier ones exactly when it is wanted, and nothing otherwise. |
| `Scrapers.RbcCandidatesAppend` | main.go:118-127 | The candidates of a page are those of its first listings followed by those of the rest. With `RbcCandidatesOne`, this gives one candidate per wanted listing, in document order, repeats included. |
| `Scrapers.GenericCandidatesExactly` | main.go:139-143 | A generic page yields at most one candidate, iff its body matches. The candidate has the placeholder title, an empty location and the page URL. |
| `Scrapers.RunCandidatesAppend` | main.go:99-107 | The candidates of two runs of sites in a row are those of both runs, in order. |
| `Scrapers.FailedVisitIsolated` | main.go:129-131 | A site whose visit failed contributes nothing, and the candidates of the other sites are unchanged. |
| `Notifier.NotifyAllAppend` | main.go:152-166 | Two batches of `notify` calls in a row have the effect of the concatenated batch. |
| `Notifier.SameKeyAlertsAtMostOnce` | main.go:152-179 | Any number of calls at one time for candidates sharing one key send exactly one alert if the key is admitted and none otherwise. The alert is the first candidate's text. The history is that of a single call. |
| `Notifier.RepeatedMatchAlertsOnce` | main.go:152-158 | Two calls for the same company, title and link, with any two locations, send at most one alert. |
| `Notifier.NotifyAllSendsOnlyCandidates` | main.go:152-166 | Every message sent is the alert text of one of the candidates, there are at most as many messages as candidates, and a batch that sends nothing leaves the history unchanged. |
| `Notifier.NotifyAllKeepsTimestamps` | main.go:170-176 | A batch of calls never removes a key and never lowers a timestamp. |
| `Notifier.NotifyAllRecordsOnlyCandidates` | main.go:153-176 | Every key in the history afterwards was there before or is the key of one of the candidates. |
| `Notifier.NotifyAllSuppressesCandidates` | main.go:170-176 | After a batch at `now`, every candidate's key is recorded and suppressed at `now`. |
| `Notifier.Monitor.Notify` | main.go:152-166 | The history becomes that of `shouldNotify` on the key of company, title and link. The text "✅ company: title loc→ link" is appended to the outbox iff the key was admitted. The snapshot is rewritten iff the key was admitted. |
| `Notifier.Monitor.ScrapeRBC` | main.go:113-132 | The state is that of `notify` called, in document order, for the candidates `RbcCandidates` describes. |
| `Notifier.Monitor.ScrapeGeneric` | main.go:134-148 | The state is that of `notify` called once with the placeholder when the body matches, and unchanged otherwise. |
| `Notifier.Monitor.ScrapeSite` | main.go:101-104 | A failed visit changes nothing. Otherwise the site's own scraper runs on its page. |
| `Notifier.Monitor.ScrapeAll` | main.go:58-109 | The state is that of `notify` called for every candidate of every site, site after site. |
| `Scenarios.AcmeCandidate` | main.go:139-158 | A generic page containing "Senior DevOps Engineer" yields the placeholder candidate. Its key is the digest of company + title + URL, and its text is "✅ AcmeCo: Possible cloud/DevOps opening → URL". |
| `Scenarios.FirstTimeAlert` | main.go:152-179 | From an empty history: one alert, and a history holding only that key at `now`. |
| `Scenarios.SuppressedAnHourLater` | main.go:170-174 | With the key stamped an hour ago: no alert, and the history is unchanged. |
| `Scenarios.RealertAfter73Hours` | main.go:170-178 | With the key stamped 73 hours ago: one alert, and the key is re-stamped at `now`. |
| `Scenarios.RbcLocationFilter` | main.go:118-126 | Of a Halifax and a Toronto cloud listing, only the Halifax one is a candidate, with link `https://jobs.rbc.com/jobs/123`. |

## Left out

- HTTP fetching and HTML selection (colly `Visit`, `OnHTML`, `ChildText`, `ChildAttr`) are network I/O and a foreign library. A page is a `Page` record holding its `li.job-result` listings and its body text. A failed visit is `None`.
- The Slack POST (`sendSlack`), its JSON payload and the environment tokens are network I/O. The outbox stands in for the post, the stdout line and the `matches.log` append.
- JSON encoding and decoding of `history.json` are a foreign library. Writing is the assignment of `snapshot` after each admitted update, and write errors, which the code ignores, are not modelled. Loading is `DedupStore.Load` with the decoded map or `None`. A partly decoded malformed file is not modelled.
- SHA-1 and hex encoding are the `digest` parameter, an arbitrary function. No property depends on how it is computed.
- The goroutine fan-out with `sync.WaitGroup`: concurrency. `ScrapeAll` runs the sites one after another in list order. The code has no lock around `history`, so the model makes no claim about concurrent calls.
- The wall clock: `now` is one integer reading per call of a scraper or `ScrapeAll`. The code reads the clock separately in each `shouldNotify`, and twice within one call: once through `time.Since` for the comparison (main.go:172) and once through `time.Now()` for the stamp (main.go:176). The model compares and stamps with the same `now`.
- Timestamps are unbounded integers, not int64. For a stored `ts` near the upper int64 limit, `time.Unix` overflows and `Time.Sub` saturates, so the code's answer can differ from `now - ts < 259200`.
- A `history.json` holding `null` makes `json.Unmarshal` leave `history` as a nil map. The first admission then panics when it writes to that map. `DedupStore.Load` has no such failure: it takes an ordinary map.
- Unicode case folding in `strings.ToLower`: only ASCII letters are lowered, and other characters stay as they are.
- Startup configuration checks (`log.Fatal` on missing tokens), the static site table and the progress lines printed to stdout.
