/**
 * Turning one page snapshot into event records (`_extract_events_from_page`).
 *
 * The HTML parsing and CSS selection are not modelled: a snapshot is the
 * sequence of `li.l-event-item` elements in document order, each reduced to
 * the text of its three sub-elements (absent when the selector finds nothing)
 * and a flag saying that reading the item raised, which the source catches
 * per item before moving on to the next one.
 */
module Extraction {
  import opened Common
  import opened DateTimeText

  /** One event item of the page, as the selectors see it. */
  datatype Item = Item(
    title: Option<string>,     // text of div.l-hit-name, if present
    location: Option<string>,  // text of div.l-hit-venue, if present
    dateTime: Option<string>,  // text of div.l-date-container, if present
    malformed: bool)           // reading this item raised

  /** The dictionary the scraper stores per event. */
  datatype EventRecord = EventRecord(title: string, location: string, date: string, time: string)

  /** Stand-in for a missing title or location. */
  const NotSpecified: string := "Not specified"

  /** The date/time text the parser receives: stripped, or "" when the container is missing. */
  function DateTimeTextOf(item: Item): string {
    match item.dateTime
    case None => ""
    case Some(t) => Strip(t)
  }

  /** The record built from an item that does not raise. */
  function RecordOf(item: Item): EventRecord {
    var title := match item.title case None => NotSpecified case Some(t) => Strip(t);
    var location := match item.location case None => NotSpecified case Some(t) => Strip(t);
    var dt := ParseDateTime(DateTimeTextOf(item));
    EventRecord(title, location, dt.date, dt.time)
  }

  /**
   * A missing title or location becomes "Not specified", a present one is
   * its text stripped; date and time are the first matches of the two
   * patterns in the stripped date/time text.
   */
  lemma RecordOfFields(item: Item)
    ensures var r := RecordOf(item);
      && (item.title.None? ==> r.title == NotSpecified)
      && (item.title.Some? ==>
            exists lo: nat, hi: nat :: StrippedAt(item.title.value, lo, hi) && r.title == item.title.value[lo..hi])
      && (item.location.None? ==> r.location == NotSpecified)
      && (item.location.Some? ==>
            exists lo: nat, hi: nat :: StrippedAt(item.location.value, lo, hi) && r.location == item.location.value[lo..hi])
      && IsFirstMatch(DatePattern, DateTimeTextOf(item), r.date)
      && IsFirstMatch(TimePattern, DateTimeTextOf(item), r.time)
  {
    if item.title.Some? {
      StripCorrect(item.title.value);
    }
    if item.location.Some? {
      StripCorrect(item.location.value);
    }
  }

  /** A missing date/time container gives an empty date and an empty time. */
  lemma MissingDateTimeIsEmpty(item: Item)
    requires item.dateTime.None?
    ensures RecordOf(item).date == "" && RecordOf(item).time == ""
  {
    ParseEmpty();
  }

  /** What one item contributes: its record, or nothing when it raises. */
  function Emitted(item: Item): seq<EventRecord> {
    if item.malformed then [] else [RecordOf(item)]
  }

  /** Left-to-right concatenation of what each item contributes. */
  function Collect(items: seq<Item>, emit: Item -> seq<EventRecord>): seq<EventRecord> {
    if items == [] then [] else Collect(items[..|items| - 1], emit) + emit(items[|items| - 1])
  }

  /** The page's records, as the left-to-right loop accumulates them. */
  function ExtractAll(items: seq<Item>): seq<EventRecord> {
    Collect(items, Emitted)
  }

  /** `_extract_events_from_page` over a snapshot of the page. */
  method ExtractEventsFromPage(items: seq<Item>) returns (pageEvents: seq<EventRecord>)
    ensures pageEvents == ExtractAll(items)
  {
    pageEvents := [];
    for i := 0 to |items|
      invariant pageEvents == ExtractAll(items[..i])
    {
      assert items[..i + 1][..i] == items[..i];
      if !items[i].malformed {
        pageEvents := pageEvents + [RecordOf(items[i])];
      }
    }
    assert items[..|items|] == items;
  }

  /** Collecting over a concatenation is the concatenation of the collections. */
  lemma {:induction false} CollectAppend(a: seq<Item>, b: seq<Item>, emit: Item -> seq<EventRecord>)
    ensures Collect(a + b, emit) == Collect(a, emit) + Collect(b, emit)
    decreases |b|
  {
    if b == [] {
      assert a + b == a;
    } else {
      var b' := b[..|b| - 1];
      assert (a + b)[..|a + b| - 1] == a + b';
      CollectAppend(a, b', emit);
    }
  }

  /** The items that do not raise, in document order. */
  function Kept(items: seq<Item>): (r: seq<Item>)
    ensures |r| <= |items|
    ensures forall k :: 0 <= k < |r| ==> !r[k].malformed
  {
    if items == [] then []
    else if items[0].malformed then Kept(items[1..])
    else [items[0]] + Kept(items[1..])
  }

  /** `f` applied to each item, in order. */
  function MapItems(items: seq<Item>, f: Item -> EventRecord): (r: seq<EventRecord>)
    ensures |r| == |items|
    ensures forall k :: 0 <= k < |items| ==> r[k] == f(items[k])
  {
    if items == [] then [] else [f(items[0])] + MapItems(items[1..], f)
  }

  /** `emit` behaves like `Emitted` with record builder `f`. */
  ghost predicate EmitsRecord(emit: Item -> seq<EventRecord>, f: Item -> EventRecord) {
    forall x :: emit(x) == if x.malformed then [] else [f(x)]
  }

  lemma {:induction false} CollectIsMapOfKept(items: seq<Item>, emit: Item -> seq<EventRecord>, f: Item -> EventRecord)
    requires EmitsRecord(emit, f)
    ensures Collect(items, emit) == MapItems(Kept(items), f)
    decreases |items|
  {
    if items != [] {
      var rest := items[1..];
      assert items == [items[0]] + rest;
      CollectAppend([items[0]], rest, emit);
      assert [items[0]][..0] == [];
      assert Collect([items[0]], emit) == emit(items[0]);
      CollectIsMapOfKept(rest, emit, f);
    }
  }

  /**
   * Extraction keeps document order and emits exactly one record per item
   * that does not raise: it is the record of each kept item, in order.
   */
  lemma ExtractAllIsRecordsOfKept(items: seq<Item>)
    ensures ExtractAll(items) == MapItems(Kept(items), RecordOf)
  {
    CollectIsMapOfKept(items, Emitted, RecordOf);
  }

  /** Extraction of a concatenated snapshot is the concatenation of the extractions. */
  lemma ExtractAllAppend(a: seq<Item>, b: seq<Item>)
    ensures ExtractAll(a + b) == ExtractAll(a) + ExtractAll(b)
  {
    CollectAppend(a, b, Emitted);
  }

  /** An item that contributes nothing can be dropped. */
  lemma CollectSkips(items: seq<Item>, k: nat, emit: Item -> seq<EventRecord>)
    requires k < |items| && emit(items[k]) == []
    ensures Collect(items, emit) == Collect(items[..k] + items[k + 1..], emit)
  {
    var before, x, after := items[..k], items[k], items[k + 1..];
    var upto := before + [x];
    assert items == upto + after;
    CollectAppend(upto, after, emit);
    assert upto[..|upto| - 1] == before && upto[|upto| - 1] == x;
    assert Collect(upto, emit) == Collect(before, emit);
    CollectAppend(before, after, emit);
  }

  /** Items that raise are skipped without affecting the others. */
  lemma SkipsMalformed(items: seq<Item>, k: nat)
    requires k < |items| && items[k].malformed
    ensures ExtractAll(items) == ExtractAll(items[..k] + items[k + 1..])
  {
    CollectSkips(items, k, Emitted);
  }

  /** When no item raises, the page gives exactly one record per item, in order. */
  lemma AllWellFormed(items: seq<Item>)
    requires forall k :: 0 <= k < |items| ==> !items[k].malformed
    ensures |ExtractAll(items)| == |items|
    ensures forall k :: 0 <= k < |items| ==> ExtractAll(items)[k] == RecordOf(items[k])
  {
    ExtractAllIsRecordsOfKept(items);
    KeptAll(items);
  }

  lemma {:induction false} KeptAll(items: seq<Item>)
    requires forall k :: 0 <= k < |items| ==> !items[k].malformed
    ensures Kept(items) == items
    decreases |items|
  {
    if items != [] {
      KeptAll(items[1..]);
    }
  }
}
