/**
 * The `QuicketScraper` object: its fields, its navigation methods, the
 * retrying extraction and the page loop of `scrape_events`, each proved to
 * do what the functions of `ScrapeSpec` say.
 *
 * The browser is the `Session` oracle of `Browser`; `log` records, in order,
 * the clicks, waits and refreshes the scraper asks the browser for.
 */
module Scraper {
  import opened Common
  import opened Extraction
  import opened Browser
  import opened ScrapeSpec

  class QuicketScraper {
    const maxPages: int
    var currentPage: int
    var eventsData: seq<EventRecord>
    /** The first event item seen at the top of the current page loop turn (`first_page_event`). */
    var firstPageEvent: Option<Marker>
    /** Whether a WebDriver is running. */
    var driverOpen: bool
    ghost var log: seq<BrowserCall>

    /** `__init__`: at most `maxPages` pages (10 by default), page 1, no events, no reference item, no driver. */
    constructor(maxPages: int := 10)
      ensures this.maxPages == maxPages && currentPage == 1 && eventsData == []
      ensures firstPageEvent == None && !driverOpen && log == []
    {
      this.maxPages := maxPages;
      currentPage := 1;
      eventsData := [];
      firstPageEvent := None;
      driverOpen := false;
      log := [];
    }

    /** `safe_click`: the click counts when the element accepted it or the JavaScript fallback returned. */
    method SafeClick(outcome: ClickOutcome) returns (ok: bool)
      modifies this`log
      ensures ok == ClickSucceeds(outcome)
      ensures log == old(log) + [Click]
    {
      log := log + [Click];
      match outcome
      case ScrollFails => ok := false;
      case Accepted => ok := true;
      case Intercepted(jsClickOk) => ok := jsClickOk;
      case ClickFails => ok := false;
    }

    /** `wait_for_page_load`: poll until the first event item is no longer `firstPageEvent`. */
    method WaitForPageLoad(polls: seq<Observation>) returns (outcome: WaitOutcome)
      modifies this`log
      ensures outcome == WaitResult(firstPageEvent, polls)
      ensures log == old(log) + [Wait]
    {
      log := log + [Wait];
      outcome := PollUntilChanged(firstPageEvent, polls);
    }

    /**
     * `navigate_to_page`: nothing to do for the current page; otherwise the
     * page number changes only when the link is found, the click goes
     * through and the page changes.
     */
    method NavigateToPage(pageNumber: int, link: Control) returns (ok: bool)
      modifies this`currentPage, this`log
      ensures pageNumber == old(currentPage) ==> ok && currentPage == old(currentPage) && log == old(log)
      ensures pageNumber != old(currentPage) ==>
        && ok == LinkNavigates(link, firstPageEvent)
        && currentPage == (if ok then pageNumber else old(currentPage))
        && log == old(log) + LinkCalls(link)
    {
      if currentPage == pageNumber {
        return true;
      }
      if !link.Found? {
        return false;
      }
      var clicked := SafeClick(link.click);
      if !clicked {
        return false;
      }
      var outcome := WaitForPageLoad(link.polls);
      if outcome != Loaded {
        return false;
      }
      currentPage := pageNumber;
      ok := true;
    }

    /** `navigate_to_next_page`: one page further exactly when the enabled next button leads to a new page. */
    method NavigateToNextPage(button: Control) returns (ok: bool)
      modifies this`currentPage, this`log
      ensures ok == NextNavigates(button, firstPageEvent)
      ensures currentPage == old(currentPage) + (if ok then 1 else 0)
      ensures log == old(log) + NextCalls(button)
    {
      if !button.Found? || !button.enabled {
        return false;
      }
      var clicked := SafeClick(button.click);
      if !clicked {
        return false;
      }
      var outcome := WaitForPageLoad(button.polls);
      if outcome != Loaded {
        return false;
      }
      currentPage := currentPage + 1;
      ok := true;
    }

    /**
     * `_extract_events_from_page_with_retry`: up to `MaxRetries` tries with a
     * refresh between them; the navigation back to the current page after a
     * refresh changes nothing.
     */
    method ExtractEventsFromPageWithRetry(attempt: nat -> Attempt) returns (r: Result<seq<EventRecord>, ScrapeError>)
      modifies this`currentPage, this`log
      ensures r == Retry(attempt).result
      ensures currentPage == old(currentPage)
      ensures log == old(log) + Refreshes(Retry(attempt).refreshes)
    {
      var retries: nat := 0;
      while retries < MaxRetries
        invariant retries < MaxRetries
        invariant Retry(attempt) == RetryFrom(attempt, retries)
        invariant currentPage == old(currentPage)
        invariant log == old(log) + Refreshes(retries)
      {
        match attempt(retries)
        case Snapshot(items) =>
          var pageEvents := ExtractEventsFromPage(items);
          return Ok(pageEvents);
        case ExtractRaises(refreshOk) =>
          retries := retries + 1;
          if retries >= MaxRetries {
            break;
          }
          log := log + [Refresh];
          if !refreshOk {
            return Err(RefreshFailed);
          }
          var _ := NavigateToPage(currentPage, Missing);
      }
      r := Ok([]);
    }

    /**
     * One turn of the page loop of `scrape_events` on the current page, over
     * session `b`; `turns` says what each turn over `b` does.
     */
    method ScrapeCurrentPage(b: Session, ghost turns: nat -> Turn) returns (moved: bool, error: Option<ScrapeError>)
      requires 1 <= currentPage <= maxPages && Describes(turns, b, maxPages)
      modifies this`currentPage, this`eventsData, this`firstPageEvent, this`log
      ensures moved == turns(old(currentPage)).moves
      ensures currentPage == old(currentPage) + (if moved then 1 else 0)
      ensures var before := RunOver(turns, maxPages, old(currentPage), old(firstPageEvent));
        !moved ==>
          && currentPage == before.lastPage && firstPageEvent == before.reference
          && eventsData == old(eventsData) + Flatten(before.pages)
          && log == old(log) + before.calls
          && error == before.error
      ensures var before := RunOver(turns, maxPages, old(currentPage), old(firstPageEvent));
        var after := RunOver(turns, maxPages, currentPage, firstPageEvent);
        moved ==>
          && old(eventsData) + Flatten(before.pages) == eventsData + Flatten(after.pages)
          && old(log) + before.calls == log + after.calls
          && before.lastPage == after.lastPage && before.reference == after.reference
          && before.error == after.error
          && error.None?
    {
      ghost var page: nat := currentPage;
      ghost var reference, events0, calls0 := firstPageEvent, eventsData, log;
      var v := b.visit(currentPage);
      assert turns(currentPage) == TurnOf(v, currentPage, maxPages);
      moved, error := ScrapePage(v);
      TurnResumes(turns, maxPages, page, reference, events0, calls0, eventsData, log);
    }

    /**
     * The body of the page loop on a page visit `v`: extract the page, then,
     * below `maxPages`, move on by page number or else by the next button.
     */
    method ScrapePage(v: PageVisit) returns (moved: bool, error: Option<ScrapeError>)
      modifies this`currentPage, this`eventsData, this`firstPageEvent, this`log
      ensures var turn := TurnOf(v, old(currentPage), maxPages);
        && moved == turn.moves && error == turn.error
        && firstPageEvent == (if turn.first.Some? then turn.first else old(firstPageEvent))
        && currentPage == old(currentPage) + (if moved then 1 else 0)
        && eventsData == old(eventsData) + Flatten(turn.extracted)
        && log == old(log) + turn.calls
    {
      error := TakePage(v);
      if error.Some? || currentPage >= maxPages {
        return false, error;
      }
      moved := MoveOn(v);
    }

    /**
     * The first half of the page loop's body: the first event item becomes
     * the reference, and the records of the retrying extraction are added.
     */
    method TakePage(v: PageVisit) returns (error: Option<ScrapeError>)
      modifies this`currentPage, this`eventsData, this`firstPageEvent, this`log
      ensures var taken := Taken(v);
        && error == taken.error
        && firstPageEvent == (if taken.first.Some? then taken.first else old(firstPageEvent))
        && currentPage == old(currentPage)
        && eventsData == old(eventsData) + Flatten(taken.extracted)
        && log == old(log) + taken.calls
    {
      if v.first.None? {
        return Some(FirstItemMissing);
      }
      firstPageEvent := v.first;
      var pageEvents := ExtractEventsFromPageWithRetry(v.attempt);
      if pageEvents.Err? {
        return Some(pageEvents.error);
      }
      eventsData := eventsData + pageEvents.value;
      FlattenCons(pageEvents.value, []);
      assert [pageEvents.value] + [] == [pageEvents.value];
      error := None;
    }

    /** Move on from the current page: to the next page number, or else by the next button. */
    method MoveOn(v: PageVisit) returns (moved: bool)
      modifies this`currentPage, this`log
      ensures moved == Advances(v, firstPageEvent)
      ensures currentPage == old(currentPage) + (if moved then 1 else 0)
      ensures log == old(log) + AdvanceCalls(v, firstPageEvent)
    {
      moved := NavigateToPage(currentPage + 1, v.pageLink);
      if !moved {
        moved := NavigateToNextPage(v.nextButton);
      }
    }

    /**
     * `scrape_events`: start the driver, reset to page 1, then extract page
     * after page until `maxPages` is reached or neither the page link nor the
     * next button moves on; the driver is closed on every path.
     */
    method ScrapeEvents(b: Session) returns (r: Result<seq<EventRecord>, ScrapeError>)
      modifies this`currentPage, this`eventsData, this`firstPageEvent, this`driverOpen, this`log
      ensures !driverOpen
      ensures b.startup == DriverFails ==>
        && r == Err(DriverSetupFailed)
        && currentPage == old(currentPage) && eventsData == old(eventsData)
        && firstPageEvent == old(firstPageEvent) && log == old(log)
      ensures b.startup == LoadFails ==>
        && r == Err(InitialLoadFailed)
        && currentPage == 1 && eventsData == old(eventsData)
        && firstPageEvent == old(firstPageEvent) && log == old(log)
      ensures b.startup == Ready ==>
        var t := RunFrom(b, maxPages, 1, old(firstPageEvent));
        && currentPage == t.lastPage && firstPageEvent == t.reference
        && eventsData == old(eventsData) + Flatten(t.pages)
        && log == old(log) + t.calls
        && r == (match t.error case None => Ok(eventsData) case Some(e) => Err(e))
        && 1 <= currentPage <= Max(1, maxPages)
    {
      if b.startup == DriverFails {
        driverOpen := false;
        return Err(DriverSetupFailed);
      }
      driverOpen := true;
      currentPage := 1;
      if b.startup == LoadFails {
        driverOpen := false;
        return Err(InitialLoadFailed);
      }
      TurnsOfDescribes(b, maxPages);
      var error := ScrapePages(b, TurnsOf(b, maxPages));
      RunBounds(b, maxPages, 1, old(firstPageEvent));
      driverOpen := false;
      match error
      case None => r := Ok(eventsData);
      case Some(e) => r := Err(e);
    }

    /**
     * The page loop of `scrape_events`, from the current page on: one turn
     * per page until a turn does not move on or `maxPages` is passed.
     */
    method ScrapePages(b: Session, ghost turns: nat -> Turn) returns (error: Option<ScrapeError>)
      requires 1 <= currentPage && Describes(turns, b, maxPages)
      modifies this`currentPage, this`eventsData, this`firstPageEvent, this`log
      ensures var t := RunOver(turns, maxPages, old(currentPage), old(firstPageEvent));
        && currentPage == t.lastPage && firstPageEvent == t.reference
        && eventsData == old(eventsData) + Flatten(t.pages)
        && log == old(log) + t.calls
        && error == t.error
    {
      ghost var whole := RunOver(turns, maxPages, currentPage, firstPageEvent);
      error := None;
      while currentPage <= maxPages
        invariant 1 <= currentPage
        invariant var rest := RunOver(turns, maxPages, currentPage, firstPageEvent);
          && old(eventsData) + Flatten(whole.pages) == eventsData + Flatten(rest.pages)
          && old(log) + whole.calls == log + rest.calls
          && whole.lastPage == rest.lastPage && whole.reference == rest.reference && whole.error == rest.error
        invariant error.None?
        decreases maxPages - currentPage
      {
        var moved;
        moved, error := ScrapeCurrentPage(b, turns);
        if !moved {
          return;
        }
      }
      assert old(log) + whole.calls == log + [];
      assert old(eventsData) + Flatten(whole.pages) == eventsData + [];
    }
  }
}
