# Quicket event scraper, modelled in Dafny

This project models the `QuicketScraper` class of the Quicket events scraper.
The class pages through the Quicket event listing in a browser and collects
one record per event: title, location, date and time. The model covers:

- the date/time parser `_parse_date_time`, with its two regular-expression
  searches;
- the per-page extraction `_extract_events_from_page`, with its defaults for
  missing fields and its skipping of items that raise;
- the navigation methods `safe_click`, `wait_for_page_load`,
  `navigate_to_page` and `navigate_to_next_page`;
- the retrying extraction `_extract_events_from_page_with_retry`;
- the page loop of `scrape_events`, and the constructor.

The browser is not modelled. Each question the scraper asks it is answered
by an oracle value passed in as a parameter (`Browser.Session`, `PageVisit`,
`Control`, `Attempt`, `Observation`). A ghost field `log` records, in order,
the clicks, waits and refreshes the scraper asks for. That is how the
contracts state "no click happens" or "exactly two refreshes".

Files and modules:

- `common.dfy` (`Common`): `Option` and `Result`.
- `date_time_text.dfy` (`DateTimeText`): `str.strip()`, the two patterns as
  declarative span predicates, scanners proved to find exactly those spans,
  the leftmost search of `re.search`, and `ParseDateTime`.
- `date_time_example.dfy` (`DateTimeExample`): the worked listing example.
- `extraction.dfy` (`Extraction`): items, records, and the extraction loop
  with its reference fold `ExtractAll`.
- `browser.dfy` (`Browser`): the oracle datatypes and the polling wait.
- `scrape_spec.dfy` (`ScrapeSpec`): the retrying extraction and the page
  loop as functions of the browser's answers (`Retry`, `TurnOf`, `RunFrom`),
  and the lemmas about them.
- `scraper.dfy` (`Scraper`): the class `QuicketScraper`. Its fields are
  `maxPages`, `currentPage`, `eventsData`, `firstPageEvent` and
  `driverOpen`. Its methods are proved against the functions of
  `ScrapeSpec`.

In these points the code does something easy to misread, and the model
follows the code:

- `page_has_changed` compares the element found with `first_page_event` by
  element identity. The docstring of `wait_for_page_load`
  (quicket_scraper.py:121-126) describes a `reference_element` argument that
  the method does not have. The helper `_element_has_changed`
  (quicket_scraper.py:111-118) compares inner HTML instead, but nothing
  calls it.
- `max_pages` is not required to be at least 1. With `max_pages < 1` the
  loop body never runs (`RunNoPages`).
- `events_data` is not cleared by `scrape_events`. A second call extends
  the list left by the first, and `ScrapeEvents` states the new list as the
  old one followed by the new records.
- `setup_driver` runs before `current_page` is reset to 1. When it raises,
  `current_page` keeps its old value.

## Model

| member | source | states |
|---|---|---|
| DateTimeText.StripCorrect | quicket_scraper.py:342-348 | `Strip` removes exactly the leading and trailing whitespace, as `str.strip()` does, and keeps the text between unchanged |
| DateTimeText.MatchEndCorrect | quicket_scraper.py:384-385 | at a start position, the scanner of each pattern returns the end of the longest match there, or nothing exactly when the pattern matches nowhere from that position |
| DateTimeText.FirstMatchCorrect | quicket_scraper.py:387-395 | `re.search` followed by `group(1).strip()` yields the leftmost match, longest at its start, or "" when the pattern matches nowhere |
| DateTimeText.ParseDateTime | quicket_scraper.py:368-400 | the date is the first match of `[A-Za-z]+,\s+[A-Za-z]+\s+\d{1,2},\s+\d{4}` and the time the first match of `\d{1,2}:\d{2}(?:\s*[AP]M)?`, each searched over the whole text |
| DateTimeText.ParseAbsent | quicket_scraper.py:377-395 | the date is "" if and only if the date pattern matches nowhere, and the same for the time |
| DateTimeText.ParseEmpty | quicket_scraper.py:377-400 | the empty text parses to an empty date and an empty time |
| DateTimeExample.ParseListingExample | quicket_scraper.py:383-395 | "Friday, March 14, 2025 · 18:30" parses to date "Friday, March 14, 2025" and time "18:30" |
| Extraction.RecordOfFields | quicket_scraper.py:341-357 | a missing title or location becomes "Not specified", and a present one is its stripped text; date and time are the first matches in the stripped date/time text |
| Extraction.MissingDateTimeIsEmpty | quicket_scraper.py:347-350 | an item without a date/time container gets date "" and time "" |
| Extraction.ExtractEventsFromPage | quicket_scraper.py:324-366 | the loop over the page's items returns `ExtractAll(items)`: the records of the items, in document order, skipping those that raise |
| Extraction.ExtractAllIsRecordsOfKept | quicket_scraper.py:339-364 | extraction is the record of each item that does not raise, in document order, one record per such item |
| Extraction.SkipsMalformed | quicket_scraper.py:362-364 | removing an item that raises does not change the page's records |
| Extraction.AllWellFormed | quicket_scraper.py:339-359 | when no item raises, the k-th record is the record of the k-th item, and there are as many records as items |
| Extraction.ExtractAllAppend | quicket_scraper.py:339-359 | the records of a concatenation of item lists are the concatenation of their records |
| Browser.WaitLoadedIff | quicket_scraper.py:131-142 | the wait reports a page load exactly when some poll finds the first item gone or different from `first_page_event`, and no earlier poll ended the wait |
| Browser.WaitTimedOutIff | quicket_scraper.py:137-146 | the wait times out exactly when no poll finds a change and no poll raises |
| Browser.PollUntilChanged | quicket_scraper.py:137-139 | the polling loop of `WebDriverWait.until(page_has_changed)` returns the outcome `WaitResult` defines |
| Scraper.QuicketScraper.constructor | quicket_scraper.py:48-63 | a new scraper keeps the given page limit, 10 when none is given, and is on page 1, with no events, no reference item and no driver |
| Scraper.QuicketScraper.SafeClick | quicket_scraper.py:148-173 | the click succeeds exactly when the element accepted it or the JavaScript fallback returned; one click is logged |
| Scraper.QuicketScraper.WaitForPageLoad | quicket_scraper.py:120-146 | the outcome is `WaitResult` for the current reference item; one wait is logged |
| Scraper.QuicketScraper.NavigateToPage | quicket_scraper.py:175-207 | for the current page number: success, with nothing changed and no browser action; otherwise the page number changes, to the requested one, only when the link is found, the click succeeds and the page changes, and the clicks and waits are those of `LinkCalls` |
| Scraper.QuicketScraper.NavigateToNextPage | quicket_scraper.py:209-240 | success exactly when the button is found and enabled, the click succeeds and the page changes; then the page number goes up by exactly 1, otherwise it is unchanged |
| Scraper.QuicketScraper.ExtractEventsFromPageWithRetry | quicket_scraper.py:296-322 | the result and the refreshes are those of `Retry`; the page number is unchanged, because the re-navigation targets the current page |
| ScrapeSpec.RetryMeaning | quicket_scraper.py:303-322 | at most 3 tries; every try but the last raised and was followed by a refresh that returned; a last try that read a snapshot always gives its records; the result is otherwise [] after 3 failures with 2 refreshes, and an error only when the refresh after a failed try raised |
| ScrapeSpec.RetrySucceedsOnThirdTry | quicket_scraper.py:303-322 | two failed tries, then a snapshot: its records, after exactly 2 refreshes |
| ScrapeSpec.RetryGivesUp | quicket_scraper.py:303-322 | three failed tries: [] after exactly 2 refreshes |
| ScrapeSpec.Taken | quicket_scraper.py:262-265 | one turn's extraction yields one page of records exactly when it raises no error, and it never moves on |
| ScrapeSpec.TurnOf | quicket_scraper.py:258-284 | a turn extracts at most one page; it moves on only after an extraction without error and below `max_pages` |
| Scraper.QuicketScraper.TakePage | quicket_scraper.py:262-265 | the first item becomes `firstPageEvent`, and the records of the retrying extraction are appended to `eventsData`, as `Taken` says |
| Scraper.QuicketScraper.MoveOn | quicket_scraper.py:276-282 | moves on exactly when the page link navigates or, failing that, the next button does; the page number goes up by 1 exactly then |
| Scraper.QuicketScraper.ScrapePage | quicket_scraper.py:262-282 | one pass of the loop body does what `TurnOf` says: extract, stop at `max_pages`, otherwise try to move on |
| Scraper.QuicketScraper.ScrapeCurrentPage | quicket_scraper.py:258-282 | one pass of the loop body on the current page of the session is one step of `RunOver`: when it moves on, the page goes up by 1 and the records and actions gathered so far followed by the run from the new page are those of the run from the old page; otherwise the pass ends the run, in the state `RunOver` gives |
| Scraper.QuicketScraper.ScrapePages | quicket_scraper.py:258-282 | the loop ends in the state `RunOver` describes: last page, reference item, records and browser actions |
| Scraper.QuicketScraper.ScrapeEvents | quicket_scraper.py:242-294 | the driver is closed on every path; a setup failure changes nothing else; a failed first load leaves page 1 and adds no records; otherwise the new records, page, reference item and actions are those of `RunFrom` from page 1, the page stays within 1..max(1, max_pages), and the result is the whole event list or the error raised |
| ScrapeSpec.RunTurn | quicket_scraper.py:258-282 | one turn of the loop by how it ends: missing first item, extraction error, last page, stuck, or moved on |
| ScrapeSpec.RunTurnRecords | quicket_scraper.py:262-282 | the records of a run are this turn's page, followed by those of the run from the next page when the loop moves on |
| ScrapeSpec.TurnResumes | quicket_scraper.py:258-282 | a turn that moves on leaves the rest of the run, records and actions, to the run from the next page with the same last page, reference and error; a turn that does not ends the run on its own page with its own records, actions and error |
| ScrapeSpec.RunStep | quicket_scraper.py:276-282 | a turn that moves on contributes its page in front of the run from the next page number |
| ScrapeSpec.RunStays | quicket_scraper.py:258-282 | a turn that does not move on ends the loop on its own page, with at most one page of records |
| ScrapeSpec.RunBounds | quicket_scraper.py:258-282 | the loop ends on a page between its start and max(start, max_pages), extracts at most max_pages - start + 1 pages, and the final page number counts the pages extracted |
| ScrapeSpec.RunOverPageAt | quicket_scraper.py:258-282 | the k-th page of records comes from the turn on page number start + k, and every page but the last was left by a successful move |
| ScrapeSpec.RunPageAt | quicket_scraper.py:258-282 | pages are extracted in page-number order: the k-th page of records is the retrying extraction of page start + k, and every page before the last was left by a successful navigation |
| ScrapeSpec.RunStopsWhenStuck | quicket_scraper.py:276-282 | when neither the page link nor the next button works, the loop ends on that page without error, with that page's records |
| ScrapeSpec.RunNoPages | quicket_scraper.py:258 | with max_pages below 1, nothing is extracted and the page stays 1 |
| ScrapeSpec.TwoPageRun | quicket_scraper.py:258-282 | two pages joined by a working page link give the records of page 1, then those of page 2, and end on page 2 |

## Left out

- Selenium is not modelled: the driver, Chrome options, `ChromeDriverManager`, `implicitly_wait` and `quit`. Every browser answer is an oracle parameter.
- `handle_cookie_consent` is left out. It catches every exception it meets, so it never changes the outcome.
- The `time.sleep` calls and the random 1-3 second delay are left out; they only affect timing.
- Screenshots, logging and the page source dump on error are left out. They are assumed not to raise.
- HTML parsing and CSS/XPath selection are not modelled. A page snapshot is the list of event items, each given as the text of its three sub-elements and a flag saying that reading it raised.
- `save_to_csv` and the command-line driver `run_scraper.py` are not part of this model.
- `_element_has_changed` is left out: nothing calls it.
- Element identity is modelled as equality of opaque `Marker` values.
- Wall-clock waits are not modelled. A wait is the finite list of polls it gets to make; running out of polls is a timeout.
- `Control.LookupFails` stands for every exception `navigate_to_page` or `navigate_to_next_page` catches before the click, including `is_enabled` raising.
- `close_driver`'s `if self.driver` test is not modelled. `driverOpen` is false after `ScrapeEvents` on every path.
- The `return []` after the retry loop cannot be reached, because the loop always returns from inside. The model reaches the same `[]` by leaving the loop at the third failure.
- `\d` is modelled as the ASCII digits only; Python's `\d` also matches other Unicode decimal digits. `\s` and `str.strip()` use the whitespace set of `str.isspace()`.
- Integers are unbounded, as Python's are.
- Exceptions that escape `scrape_events` are modelled as `Err` values with a reason: driver setup, the first load, a missing first event item at the top of the loop, or a refresh that raises.
- ScrapeEvents: the exception object and its message are not modelled, only which of the four causes raised it.
