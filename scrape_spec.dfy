/**
 * What the retrying extraction and the page loop of `scrape_events` produce,
 * as functions of the browser's answers. The methods of `QuicketScraper` are
 * proved to do exactly this; the lemmas here state what the scraper promises
 * about it.
 */
module ScrapeSpec {
  import opened Common
  import opened Extraction
  import opened Browser

  /** Why `scrape_events` raises. */
  datatype ScrapeError =
    | DriverSetupFailed   // setup_driver raised
    | InitialLoadFailed   // opening the events page or the first wait raised
    | FirstItemMissing    // no first event item at the top of the page loop
    | RefreshFailed       // the refresh between extraction tries raised

  /** `max_retries` of `_extract_events_from_page_with_retry`. */
  const MaxRetries: nat := 3

  // ---------------------------------------------------------------------------
  // _extract_events_from_page_with_retry
  // ---------------------------------------------------------------------------

  /** The outcome of the retrying extraction, with how many tries and refreshes it took. */
  datatype RetryTrace = RetryTrace(result: Result<seq<EventRecord>, ScrapeError>, attempts: nat, refreshes: nat)

  /** The retrying extraction from try `k` on (`k` earlier tries raised and were followed by a refresh). */
  function RetryFrom(attempt: nat -> Attempt, k: nat): RetryTrace
    requires k < MaxRetries
    decreases MaxRetries - k
  {
    match attempt(k)
    case Snapshot(items) => RetryTrace(Ok(ExtractAll(items)), k + 1, k)
    case ExtractRaises(refreshOk) =>
      if k + 1 >= MaxRetries then RetryTrace(Ok([]), k + 1, k)
      else if !refreshOk then RetryTrace(Err(RefreshFailed), k + 1, k + 1)
      else RetryFrom(attempt, k + 1)
  }

  function Retry(attempt: nat -> Attempt): RetryTrace {
    RetryFrom(attempt, 0)
  }

  /**
   * At most `MaxRetries` tries; every try but the last raised and was
   * followed by a refresh that returned; the result is the first snapshot's
   * records, or [] once every try raised, or the refresh's failure.
   */
  lemma {:induction false} RetryFromMeaning(attempt: nat -> Attempt, k: nat)
    requires k < MaxRetries
    ensures var t := RetryFrom(attempt, k);
      && k < t.attempts <= MaxRetries
      && (forall j :: k <= j < t.attempts - 1 ==> attempt(j) == ExtractRaises(true))
      && (match attempt(t.attempts - 1)
          case Snapshot(items) => t.result == Ok(ExtractAll(items)) && t.refreshes == t.attempts - 1
          case ExtractRaises(refreshOk) =>
            if t.attempts == MaxRetries then t.result == Ok([]) && t.refreshes == t.attempts - 1
            else !refreshOk && t.result == Err(RefreshFailed) && t.refreshes == t.attempts)
    decreases MaxRetries - k
  {
    if attempt(k).ExtractRaises? && k + 1 < MaxRetries && attempt(k).refreshOk {
      RetryFromMeaning(attempt, k + 1);
    }
  }

  lemma RetryMeaning(attempt: nat -> Attempt)
    ensures var t := Retry(attempt);
      && 1 <= t.attempts <= MaxRetries
      && (forall j :: 0 <= j < t.attempts - 1 ==> attempt(j) == ExtractRaises(true))
      && (t.result.Ok? ==> t.refreshes == t.attempts - 1)
      && (t.result.Ok? && attempt(t.attempts - 1).Snapshot? ==>
            t.result.value == ExtractAll(attempt(t.attempts - 1).items))
      && (t.result.Ok? && attempt(t.attempts - 1).ExtractRaises? ==>
            t.attempts == MaxRetries && t.result.value == [])
      && (t.result.Err? ==> t.result.error == RefreshFailed && t.refreshes == t.attempts < MaxRetries)
      && (attempt(t.attempts - 1).Snapshot? ==> t.result.Ok?)
      && (t.result.Err? ==> attempt(t.attempts - 1) == ExtractRaises(false))
  {
    RetryFromMeaning(attempt, 0);
  }

  /** Two failed tries, then a snapshot: its records, after exactly two refreshes. */
  lemma RetrySucceedsOnThirdTry(attempt: nat -> Attempt, items: seq<Item>)
    requires attempt(0) == ExtractRaises(true) && attempt(1) == ExtractRaises(true)
    requires attempt(2) == Snapshot(items)
    ensures Retry(attempt) == RetryTrace(Ok(ExtractAll(items)), 3, 2)
  {
    RetryFromMeaning(attempt, 0);
  }

  /** Three failed tries: no records, after exactly two refreshes. */
  lemma RetryGivesUp(attempt: nat -> Attempt)
    requires attempt(0) == ExtractRaises(true) && attempt(1) == ExtractRaises(true)
    requires attempt(2).ExtractRaises?
    ensures Retry(attempt) == RetryTrace(Ok([]), 3, 2)
  {
    RetryFromMeaning(attempt, 0);
  }

  /** `Refresh`, `n` times. */
  function Refreshes(n: nat): (calls: seq<BrowserCall>)
    ensures |calls| == n && forall k :: 0 <= k < n ==> calls[k] == Refresh
  {
    if n == 0 then [] else Refreshes(n - 1) + [Refresh]
  }

  // ---------------------------------------------------------------------------
  // Navigation
  // ---------------------------------------------------------------------------

  /** `navigate_to_page` towards another page number succeeds: link found, clicked, page changed. */
  predicate LinkNavigates(link: Control, reference: Option<Marker>) {
    link.Found? && ClickSucceeds(link.click) && WaitResult(reference, link.polls) == Loaded
  }

  /** `navigate_to_next_page` succeeds: button found and enabled, clicked, page changed. */
  predicate NextNavigates(button: Control, reference: Option<Marker>) {
    button.Found? && button.enabled && ClickSucceeds(button.click) && WaitResult(reference, button.polls) == Loaded
  }

  /** The clicks and waits of `navigate_to_page` towards another page number. */
  function LinkCalls(link: Control): seq<BrowserCall> {
    if link.Found? then [Click] + (if ClickSucceeds(link.click) then [Wait] else []) else []
  }

  /** The clicks and waits of `navigate_to_next_page`. */
  function NextCalls(button: Control): seq<BrowserCall> {
    if button.Found? && button.enabled then [Click] + (if ClickSucceeds(button.click) then [Wait] else []) else []
  }

  /** The page loop moves on: by page number, or else by the next button. */
  predicate Advances(v: PageVisit, reference: Option<Marker>) {
    LinkNavigates(v.pageLink, reference) || NextNavigates(v.nextButton, reference)
  }

  function AdvanceCalls(v: PageVisit, reference: Option<Marker>): seq<BrowserCall> {
    LinkCalls(v.pageLink) + (if LinkNavigates(v.pageLink, reference) then [] else NextCalls(v.nextButton))
  }

  // ---------------------------------------------------------------------------
  // The page loop of scrape_events
  // ---------------------------------------------------------------------------

  /**
   * What the page loop leaves behind: each extracted page's records in
   * order, the page it ended on, the last reference item, the browser
   * actions, and the error it raised, if any.
   */
  datatype Trace = Trace(
    pages: seq<seq<EventRecord>>,
    lastPage: nat,
    reference: Option<Marker>,
    calls: seq<BrowserCall>,
    error: Option<ScrapeError>)

  /**
   * What one turn of the page loop does on page `page`: the records it
   * extracted (none or one page of them), the first event item it found and
   * made the reference, the browser actions, the error it raised, and
   * whether it moved on to the next page.
   */
  datatype Turn = Turn(
    extracted: seq<seq<EventRecord>>,
    first: Option<Marker>,
    calls: seq<BrowserCall>,
    error: Option<ScrapeError>,
    moves: bool)

  /**
   * The first half of a turn: the first event item becomes the reference and
   * the page is extracted with retries.
   */
  function Taken(v: PageVisit): (turn: Turn)
    ensures |turn.extracted| <= 1 && !turn.moves
    ensures turn.error.None? <==> |turn.extracted| == 1
  {
    match v.first
    case None => Turn([], None, [], Some(FirstItemMissing), false)
    case Some(m) =>
      var retry := Retry(v.attempt);
      var refreshes := Refreshes(retry.refreshes);
      match retry.result
      case Err(e) => Turn([], v.first, refreshes, Some(e), false)
      case Ok(records) => Turn([records], v.first, refreshes, None, false)
  }

  /**
   * One turn of the page loop entered with `current_page == page`: below
   * `maxPages`, an extraction without error is followed by the attempt to
   * move on.
   */
  function TurnOf(v: PageVisit, page: int, maxPages: int): (turn: Turn)
    ensures |turn.extracted| <= 1
    ensures turn.error.None? <==> |turn.extracted| == 1
    ensures turn.moves ==> turn.error.None? && page < maxPages
  {
    var taken := Taken(v);
    if taken.error.Some? || page >= maxPages then taken
    else taken.(calls := taken.calls + AdvanceCalls(v, v.first), moves := Advances(v, v.first))
  }

  /** What the turn on each page number does. */
  function TurnsOf(s: Session, maxPages: int): nat -> Turn {
    (k: nat) => TurnOf(s.visit(k), k, maxPages)
  }

  /**
   * The page loop entered with `current_page == page` and
   * `first_page_event == reference`, given what each turn does.
   */
  function RunOver(turns: nat -> Turn, maxPages: int, page: nat, reference: Option<Marker>): Trace
    decreases maxPages - page
  {
    if page > maxPages then Trace([], page, reference, [], None)
    else
      var turn := turns(page);
      var seen := if turn.first.Some? then turn.first else reference;
      if turn.moves then
        var rest := RunOver(turns, maxPages, page + 1, seen);
        Trace(turn.extracted + rest.pages, rest.lastPage, rest.reference, turn.calls + rest.calls, rest.error)
      else Trace(turn.extracted, page, seen, turn.calls, turn.error)
  }

  /** The page loop of `scrape_events` over the browser session `s`. */
  function RunFrom(s: Session, maxPages: int, page: nat, reference: Option<Marker>): Trace {
    RunOver(TurnsOf(s, maxPages), maxPages, page, reference)
  }

  /** `turns` says what each turn over session `s` does; it is looked up only where a turn is named. */
  ghost predicate Describes(turns: nat -> Turn, s: Session, maxPages: int) {
    forall k: nat {:trigger TurnOf(s.visit(k), k, maxPages)} :: turns(k) == TurnOf(s.visit(k), k, maxPages)
  }

  lemma TurnsOfDescribes(s: Session, maxPages: int)
    ensures Describes(TurnsOf(s, maxPages), s, maxPages)
  {
  }

  /** Every turn extracts at most one page of records, and exactly one when it moves on. */
  ghost predicate Shaped(turns: nat -> Turn) {
    forall k: nat :: |turns(k).extracted| <= 1 && (turns(k).moves ==> |turns(k).extracted| == 1)
  }

  lemma TurnsOfShaped(s: Session, maxPages: int)
    ensures Shaped(TurnsOf(s, maxPages))
  {
    forall k: nat
      ensures |TurnsOf(s, maxPages)(k).extracted| <= 1
      ensures TurnsOf(s, maxPages)(k).moves ==> |TurnsOf(s, maxPages)(k).extracted| == 1
    {
      assert TurnsOf(s, maxPages)(k) == TurnOf(s.visit(k), k, maxPages);
    }
  }

  /** The k-th page a run extracts is the one page of records of the turn on page number `page + k`. */
  lemma {:induction false} RunOverPageAt(turns: nat -> Turn, maxPages: int, page: nat, reference: Option<Marker>, k: nat)
    requires Shaped(turns) && k < |RunOver(turns, maxPages, page, reference).pages|
    ensures var t := RunOver(turns, maxPages, page, reference);
      && page + k <= maxPages && turns(page + k).extracted == [t.pages[k]]
      && (k < |t.pages| - 1 ==> turns(page + k).moves)
    decreases k
  {
    var t := RunOver(turns, maxPages, page, reference);
    var turn := turns(page);
    var seen := if turn.first.Some? then turn.first else reference;
    assert |turn.extracted| <= 1 && (turn.moves ==> |turn.extracted| == 1);
    if turn.moves && k > 0 {
      var rest := RunOver(turns, maxPages, page + 1, seen);
      assert t.pages == turn.extracted + rest.pages;
      RunOverPageAt(turns, maxPages, page + 1, seen, k - 1);
      assert page + k == page + 1 + (k - 1) && t.pages[k] == rest.pages[k - 1];
    }
  }

  /** The records of all pages, in page order. */
  function Flatten(pages: seq<seq<EventRecord>>): seq<EventRecord> {
    if pages == [] then [] else pages[0] + Flatten(pages[1..])
  }

  /** The records of one more page in front. */
  lemma FlattenCons(records: seq<EventRecord>, pages: seq<seq<EventRecord>>)
    ensures Flatten([records] + pages) == records + Flatten(pages)
  {
    assert ([records] + pages)[1..] == pages;
  }

  /** The records of the pages of a turn, then those of the turns after it. */
  lemma FlattenTurn(extracted: seq<seq<EventRecord>>, pages: seq<seq<EventRecord>>)
    requires |extracted| <= 1
    ensures Flatten(extracted + pages) == Flatten(extracted) + Flatten(pages)
  {
    if extracted == [] {
      assert extracted + pages == pages;
    } else {
      FlattenCons(extracted[0], pages);
      FlattenCons(extracted[0], []);
      assert extracted == [extracted[0]] + [];
    }
  }

  /**
   * The turn on page `page` within `maxPages`, seen from the whole run: a
   * turn that moves on puts its records and actions in front of the run from
   * the next page, and one that does not ends the run.
   */
  lemma RunOverStep(turns: nat -> Turn, maxPages: int, page: nat, reference: Option<Marker>)
    requires page <= maxPages && |turns(page).extracted| <= 1
    ensures var t := RunOver(turns, maxPages, page, reference);
      var turn := turns(page);
      var seen := if turn.first.Some? then turn.first else reference;
      var rest := RunOver(turns, maxPages, page + 1, seen);
      && (turn.moves ==>
            && Flatten(t.pages) == Flatten(turn.extracted) + Flatten(rest.pages)
            && t.calls == turn.calls + rest.calls
            && t.lastPage == rest.lastPage && t.reference == rest.reference && t.error == rest.error)
      && (!turn.moves ==> t == Trace(turn.extracted, page, seen, turn.calls, turn.error))
  {
    var turn := turns(page);
    var seen := if turn.first.Some? then turn.first else reference;
    FlattenTurn(turn.extracted, RunOver(turns, maxPages, page + 1, seen).pages);
  }

  /**
   * Records and actions gathered so far, before and after the turn on page
   * `page`: a turn that moves on leaves the rest of the run to the next page,
   * and one that does not has completed the run.
   */
  lemma TurnResumes(turns: nat -> Turn, maxPages: int, page: nat, reference: Option<Marker>,
                    events0: seq<EventRecord>, calls0: seq<BrowserCall>,
                    events: seq<EventRecord>, calls: seq<BrowserCall>)
    requires page <= maxPages && |turns(page).extracted| <= 1
    requires events == events0 + Flatten(turns(page).extracted) && calls == calls0 + turns(page).calls
    ensures var turn := turns(page);
      var before := RunOver(turns, maxPages, page, reference);
      var seen := if turn.first.Some? then turn.first else reference;
      var after := RunOver(turns, maxPages, page + 1, seen);
      && (turn.moves ==>
            && events0 + Flatten(before.pages) == events + Flatten(after.pages)
            && calls0 + before.calls == calls + after.calls
            && before.lastPage == after.lastPage && before.reference == after.reference
            && before.error == after.error)
      && (!turn.moves ==>
            && before.lastPage == page && before.reference == seen && before.error == turn.error
            && events == events0 + Flatten(before.pages) && calls == calls0 + before.calls)
  {
    var turn := turns(page);
    var seen := if turn.first.Some? then turn.first else reference;
    RunOverStep(turns, maxPages, page, reference);
    if turn.moves {
      var after := RunOver(turns, maxPages, page + 1, seen);
      assert events0 + (Flatten(turn.extracted) + Flatten(after.pages)) == events + Flatten(after.pages);
      assert calls0 + (turn.calls + after.calls) == calls + after.calls;
    }
  }

  function Max(a: int, b: int): int {
    if a < b then b else a
  }

  /** One turn of the loop that extracts the page and moves on to the next one. */
  lemma RunStep(s: Session, maxPages: int, page: nat, reference: Option<Marker>)
    requires 1 <= page < maxPages
    requires s.visit(page).first.Some? && Retry(s.visit(page).attempt).result.Ok?
    requires Advances(s.visit(page), s.visit(page).first)
    ensures var t := RunFrom(s, maxPages, page, reference);
      var rest := RunFrom(s, maxPages, page + 1, s.visit(page).first);
      && t.pages == [Retry(s.visit(page).attempt).result.value] + rest.pages
      && t.lastPage == rest.lastPage && t.reference == rest.reference && t.error == rest.error
  {
  }

  /** One turn of the loop on a page within `maxPages`, by how it ends. */
  lemma RunTurn(s: Session, maxPages: int, page: nat, reference: Option<Marker>)
    requires 1 <= page <= maxPages
    ensures var t := RunFrom(s, maxPages, page, reference);
      var v := s.visit(page);
      var retry := Retry(v.attempt);
      var calls := Refreshes(retry.refreshes);
      && (v.first.None? ==> t == Trace([], page, reference, [], Some(FirstItemMissing)))
      && (v.first.Some? && retry.result.Err? ==> t == Trace([], page, v.first, calls, Some(retry.result.error)))
      && (v.first.Some? && retry.result.Ok? && page == maxPages ==>
            t == Trace([retry.result.value], page, v.first, calls, None))
      && (v.first.Some? && retry.result.Ok? && page < maxPages && !Advances(v, v.first) ==>
            t == Trace([retry.result.value], page, v.first, calls + AdvanceCalls(v, v.first), None))
      && (v.first.Some? && retry.result.Ok? && page < maxPages && Advances(v, v.first) ==>
            var rest := RunFrom(s, maxPages, page + 1, v.first);
            t == Trace([retry.result.value] + rest.pages, rest.lastPage, rest.reference,
                       calls + AdvanceCalls(v, v.first) + rest.calls, rest.error))
  {
  }

  /** The records one turn of the loop adds, in front of those of the turns after it. */
  lemma RunTurnRecords(s: Session, maxPages: int, page: nat, reference: Option<Marker>)
    requires 1 <= page <= maxPages
    ensures var t := RunFrom(s, maxPages, page, reference);
      var v := s.visit(page);
      var retry := Retry(v.attempt);
      && (v.first.None? || retry.result.Err? ==> Flatten(t.pages) == [])
      && (v.first.Some? && retry.result.Ok? && !(page < maxPages && Advances(v, v.first)) ==>
            Flatten(t.pages) == retry.result.value)
      && (v.first.Some? && retry.result.Ok? && page < maxPages && Advances(v, v.first) ==>
            Flatten(t.pages) == retry.result.value + Flatten(RunFrom(s, maxPages, page + 1, v.first).pages))
  {
    var v := s.visit(page);
    RunTurn(s, maxPages, page, reference);
    if v.first.Some? && Retry(v.attempt).result.Ok? {
      var records := Retry(v.attempt).result.value;
      if page < maxPages && Advances(v, v.first) {
        FlattenCons(records, RunFrom(s, maxPages, page + 1, v.first).pages);
      } else {
        FlattenCons(records, []);
        assert [records] + [] == [records];
      }
    }
  }

  /** A turn of the loop that does not move on to another page. */
  lemma RunStays(s: Session, maxPages: int, page: nat, reference: Option<Marker>)
    requires 1 <= page
    requires !(page < maxPages && s.visit(page).first.Some? && Retry(s.visit(page).attempt).result.Ok?
               && Advances(s.visit(page), s.visit(page).first))
    ensures var t := RunFrom(s, maxPages, page, reference);
      && t.lastPage == page && |t.pages| <= (if page <= maxPages then 1 else 0)
      && (t.error.Some? ==> |t.pages| == 0)
      && (t.error.None? && page <= maxPages ==> |t.pages| == 1)
      && (|t.pages| == 1 ==> s.visit(page).first.Some? && Retry(s.visit(page).attempt).result == Ok(t.pages[0]))
  {
    if page <= maxPages {
      assert TurnsOf(s, maxPages)(page) == TurnOf(s.visit(page), page, maxPages);
    }
  }

  /**
   * The loop ends on the page it last extracted, or on the page after it when
   * that page raised, never beyond `max(page, maxPages)`, after extracting at
   * most `maxPages - page + 1` pages, one per page number.
   */
  lemma {:induction false} RunBounds(s: Session, maxPages: int, page: nat, reference: Option<Marker>)
    requires 1 <= page
    ensures var t := RunFrom(s, maxPages, page, reference);
      && page <= t.lastPage <= Max(page, maxPages)
      && (t.error.Some? ==> t.lastPage == page + |t.pages|)
      && (t.error.None? && page <= maxPages ==> 1 <= |t.pages| && t.lastPage == page + |t.pages| - 1)
      && |t.pages| <= Max(0, maxPages - page + 1)
    decreases maxPages - page
  {
    if page < maxPages && s.visit(page).first.Some? && Retry(s.visit(page).attempt).result.Ok?
       && Advances(s.visit(page), s.visit(page).first)
    {
      RunStep(s, maxPages, page, reference);
      RunBounds(s, maxPages, page + 1, s.visit(page).first);
    } else {
      RunStays(s, maxPages, page, reference);
    }
  }

  /**
   * The k-th extracted page is page number `page + k`, and its records are
   * what the retrying extraction returned there; every page but the last
   * was left by a successful navigation.
   */
  lemma RunPageAt(s: Session, maxPages: int, page: nat, reference: Option<Marker>, k: nat)
    requires 1 <= page && k < |RunFrom(s, maxPages, page, reference).pages|
    ensures var t := RunFrom(s, maxPages, page, reference);
      && s.visit(page + k).first.Some?
      && Retry(s.visit(page + k).attempt).result == Ok(t.pages[k])
      && (k < |t.pages| - 1 ==> Advances(s.visit(page + k), s.visit(page + k).first))
  {
    TurnsOfShaped(s, maxPages);
    RunOverPageAt(TurnsOf(s, maxPages), maxPages, page, reference, k);
    assert TurnsOf(s, maxPages)(page + k) == TurnOf(s.visit(page + k), page + k, maxPages);
  }

  /** When neither the page link nor the next button works, the loop ends on this page without error. */
  lemma RunStopsWhenStuck(s: Session, maxPages: int, page: nat, reference: Option<Marker>, records: seq<EventRecord>)
    requires 1 <= page < maxPages
    requires s.visit(page).first.Some?
    requires Retry(s.visit(page).attempt).result == Ok(records)
    requires !Advances(s.visit(page), s.visit(page).first)
    ensures var t := RunFrom(s, maxPages, page, reference);
      t.pages == [records] && t.lastPage == page && t.error.None?
  {
  }

  /** With `max_pages` below 1 the loop extracts nothing and stays on page 1. */
  lemma RunNoPages(s: Session, maxPages: int, reference: Option<Marker>)
    requires maxPages < 1
    ensures RunFrom(s, maxPages, 1, reference) == Trace([], 1, reference, [], None)
  {
  }

  /**
   * Two pages whose first extraction succeeds, joined by a working page
   * link: the records of page 1, then those of page 2.
   */
  lemma TwoPageRun(s: Session, reference: Option<Marker>, first: seq<Item>, second: seq<Item>)
    requires s.visit(1).first.Some? && s.visit(2).first.Some?
    requires s.visit(1).attempt(0) == Snapshot(first) && s.visit(2).attempt(0) == Snapshot(second)
    requires LinkNavigates(s.visit(1).pageLink, s.visit(1).first)
    ensures var t := RunFrom(s, 2, 1, reference);
      && t.pages == [ExtractAll(first), ExtractAll(second)]
      && Flatten(t.pages) == ExtractAll(first) + ExtractAll(second)
      && t.lastPage == 2 && t.reference == s.visit(2).first && t.error.None?
  {
    RetryFromMeaning(s.visit(1).attempt, 0);
    RetryFromMeaning(s.visit(2).attempt, 0);
    RunStep(s, 2, 1, reference);
    var rest := RunFrom(s, 2, 2, s.visit(1).first);
    assert rest.pages == [ExtractAll(second)] && rest.lastPage == 2;
    FlattenCons(ExtractAll(first), [ExtractAll(second)]);
    FlattenCons(ExtractAll(second), []);
  }
}
