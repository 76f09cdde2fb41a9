/**
 * The browser as the scraper sees it.
 *
 * Selenium is not modelled. Each question the scraper puts to the browser
 * (is there a link, is the button enabled, what did the click do, what does
 * the first event item look like on each poll) is answered by an oracle
 * value that the caller supplies. The wait that `WebDriverWait.until` runs
 * in wall-clock time becomes a finite sequence of poll observations.
 */
module Browser {
  import opened Common
  import opened Extraction

  /** The identity of the first event item element; only equality is observed. */
  type Marker(==)

  /** What one evaluation of `page_has_changed` finds as the first event item. */
  datatype Observation =
    | Gone               // find_element raised NoSuchElementException or StaleElementReferenceException
    | Present(marker: Marker)
    | Broken             // find_element raised anything else, which escapes the wait

  /** How the steps of `safe_click` went. */
  datatype ClickOutcome =
    | ScrollFails                    // scrollIntoView raised
    | Accepted                       // element.click() returned
    | Intercepted(jsClickOk: bool)   // element.click() was intercepted; whether the JavaScript click returned
    | ClickFails                     // element.click() raised anything else

  /** A pagination link or the next button, as the browser answers for it. */
  datatype Control =
    | LookupFails   // find_elements (or is_enabled) raised
    | Missing       // find_elements returned nothing
    | Found(enabled: bool, click: ClickOutcome, polls: seq<Observation>)

  /** One try of `_extract_events_from_page`. */
  datatype Attempt =
    | Snapshot(items: seq<Item>)       // page_source was read and parsed
    | ExtractRaises(refreshOk: bool)   // it raised; whether the refresh that follows returns

  /** What the browser answers while the scraper is on one result page. */
  datatype PageVisit = PageVisit(
    first: Option<Marker>,      // the first event item found at the top of the page loop, if any
    attempt: nat -> Attempt,    // the k-th extraction try on this page (k = 0, 1, 2)
    pageLink: Control,          // the link to the next page number
    nextButton: Control)        // the next-page button

  /** How getting the browser ready went. */
  datatype Startup =
    | Ready
    | DriverFails   // setup_driver raised
    | LoadFails     // opening the events page or the first 30-second wait raised

  /** A whole scraping session: the start-up, then what each page number shows. */
  datatype Session = Session(startup: Startup, visit: nat -> PageVisit)

  /** The browser actions whose number and order the model keeps track of. */
  datatype BrowserCall = Click | Wait | Refresh

  /** `page_has_changed`: the first item vanished or is another element than the reference. */
  predicate PageChanged(reference: Option<Marker>, o: Observation) {
    o.Gone? || (o.Present? && (reference.None? || o.marker != reference.value))
  }

  /** A poll that ends the wait, one way or the other. */
  predicate Decisive(reference: Option<Marker>, o: Observation) {
    o.Broken? || PageChanged(reference, o)
  }

  /** `safe_click` reports success: the plain click or the JavaScript fallback went through. */
  predicate ClickSucceeds(c: ClickOutcome) {
    c.Accepted? || (c.Intercepted? && c.jsClickOk)
  }

  datatype WaitOutcome = Loaded | TimedOut | WaitRaised

  /** `WebDriverWait(driver, 10).until(page_has_changed)` over the polls it gets to make. */
  function WaitResult(reference: Option<Marker>, polls: seq<Observation>): WaitOutcome {
    if polls == [] then TimedOut
    else if polls[0].Broken? then WaitRaised
    else if PageChanged(reference, polls[0]) then Loaded
    else WaitResult(reference, polls[1..])
  }

  /**
   * The wait reports a load exactly when some poll sees the page changed and
   * no earlier poll ended the wait.
   */
  lemma {:induction false} WaitLoadedIff(reference: Option<Marker>, polls: seq<Observation>)
    ensures WaitResult(reference, polls) == Loaded <==>
      exists k :: 0 <= k < |polls| && PageChanged(reference, polls[k])
        && forall j :: 0 <= j < k ==> !Decisive(reference, polls[j])
  {
    if polls != [] && !Decisive(reference, polls[0]) {
      WaitLoadedIff(reference, polls[1..]);
      if WaitResult(reference, polls) == Loaded {
        var k :| 0 <= k < |polls| - 1 && PageChanged(reference, polls[1..][k])
          && forall j :: 0 <= j < k ==> !Decisive(reference, polls[1..][j]);
        assert forall j :: 0 <= j < k + 1 ==> !Decisive(reference, polls[j]) by {
          forall j | 0 <= j < k + 1 ensures !Decisive(reference, polls[j]) {
            if j > 0 {
              assert polls[j] == polls[1..][j - 1];
            }
          }
        }
      } else {
        forall k | 0 <= k < |polls| && PageChanged(reference, polls[k])
          ensures exists j :: 0 <= j < k && Decisive(reference, polls[j])
        {
          assert k > 0 && polls[k] == polls[1..][k - 1];
          var j :| 0 <= j < k - 1 && Decisive(reference, polls[1..][j]);
          assert Decisive(reference, polls[j + 1]);
        }
      }
    }
  }

  /** The wait times out exactly when no poll ends it. */
  lemma {:induction false} WaitTimedOutIff(reference: Option<Marker>, polls: seq<Observation>)
    ensures WaitResult(reference, polls) == TimedOut <==>
      forall k :: 0 <= k < |polls| ==> !Decisive(reference, polls[k])
  {
    if polls != [] && !Decisive(reference, polls[0]) {
      WaitTimedOutIff(reference, polls[1..]);
      assert forall k :: 1 <= k < |polls| ==> polls[k] == polls[1..][k - 1];
    }
  }

  /**
   * The polling loop of `WebDriverWait.until` with `page_has_changed` as its
   * condition: it stops at the first poll that sees a change or raises.
   */
  method PollUntilChanged(reference: Option<Marker>, polls: seq<Observation>) returns (r: WaitOutcome)
    ensures r == WaitResult(reference, polls)
  {
    var i := 0;
    while i < |polls| && !Decisive(reference, polls[i])
      invariant 0 <= i <= |polls|
      invariant WaitResult(reference, polls[i..]) == WaitResult(reference, polls)
    {
      assert polls[i..][1..] == polls[i + 1..];
      i := i + 1;
    }
    if i == |polls| {
      r := TimedOut;
    } else if polls[i].Broken? {
      r := WaitRaised;
    } else {
      r := Loaded;
    }
  }
}
