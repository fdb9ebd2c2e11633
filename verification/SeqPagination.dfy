/**
  Counting the events of a window page by page (`count_events_detailed`, app/context/seq_client.py).

  The server holds one stable list; a page starts after the item whose id is the cursor.  What
  the loop computes is stated over the list alone, without cursors, and then compared with the
  true number of events.
*/
module SeqPagination {
  import opened Common

  const PAGE := 1000
  const MAX_PAGES := 20

  /** One element of a page as parsed from JSON; "" is an event without an id. */
  datatype Item = NotADict | Event(id: string)

  datatype Answer = Failed | Counted(total: nat, capped: bool)

  function EventId(item: Item): Option<string> {
    if item.Event? && item.id != "" then Some(item.id) else None
  }

  /** `[e for e in events if isinstance(e, dict)]`, counted. */
  function Dicts(items: seq<Item>): (n: nat)
    ensures n <= |items|
  {
    if items == [] then 0 else (if items[0].Event? then 1 else 0) + Dicts(items[1..])
  }

  ghost predicate UniqueIds(all: seq<Item>) {
    forall i, j | 0 <= i < j < |all| && EventId(all[i]).Some? :: EventId(all[i]) != EventId(all[j])
  }

  /** The page at an offset. */
  function Window(all: seq<Item>, start: nat): (w: seq<Item>)
    requires start <= |all|
    ensures |w| == Min(PAGE, |all| - start)
  {
    all[start..start + Min(PAGE, |all| - start)]
  }

  /** Where the server continues: after the item with the cursor's id. */
  function Offset(all: seq<Item>, id: string): (n: nat)
    ensures n <= |all|
  {
    if all == [] then 0 else if EventId(all[0]) == Some(id) then 1 else 1 + Offset(all[1..], id)
  }

  lemma {:induction false} CursorIsOffset(all: seq<Item>, i: nat)
    requires UniqueIds(all) && i < |all| && EventId(all[i]).Some?
    ensures Offset(all, EventId(all[i]).value) == i + 1
    decreases i
  {
    if i > 0 {
      var rest := all[1..];
      assert forall j | 0 <= j < |rest| :: rest[j] == all[j + 1];
      CursorIsOffset(rest, i - 1);
    }
  }

  lemma {:induction false} AllDicts(items: seq<Item>)
    ensures Dicts(items) == |items| <==> forall i | 0 <= i < |items| :: items[i].Event?
  {
    if items != [] {
      AllDicts(items[1..]);
      assert (forall i | 0 <= i < |items| :: items[i].Event?) <==>
             items[0].Event? && forall i | 0 <= i < |items[1..]| :: items[1..][i].Event? by {
        assert forall i | 0 < i < |items| :: items[i] == items[1..][i - 1];
      }
    }
  }

  // ---- what the loop counts ---------------------------------------------------------------------

  /** All of page `j` are events. */
  ghost predicate Full(all: seq<Item>, j: nat) {
    PAGE * (j + 1) <= |all| && forall i | PAGE * j <= i < PAGE * (j + 1) :: all[i].Event?
  }

  /** The id of the item that closes page `j`, the cursor for the next page. */
  ghost function Closing(all: seq<Item>, j: nat): Option<string>
    requires PAGE * (j + 1) <= |all|
  {
    EventId(all[PAGE * (j + 1) - 1])
  }

  /** Page `j` is full and its last event has an id, so page `j + 1` is asked for. */
  ghost predicate Linked(all: seq<Item>, j: nat) {
    Full(all, j) && Closing(all, j).Some?
  }

  ghost predicate LinkedTo(all: seq<Item>, pages: nat) {
    forall j | 0 <= j < pages :: Linked(all, j)
  }

  /** The loop stops at page `last`: the first one that is not linked, or the limit. */
  ghost predicate StopsAt(all: seq<Item>, last: nat) {
    last <= MAX_PAGES && LinkedTo(all, last) && (last < MAX_PAGES ==> !Linked(all, last))
  }

  /** The answer of a loop that stops at page `last`. */
  ghost function AnswerAt(all: seq<Item>, last: nat): Answer
    requires LinkedTo(all, last)
  {
    PagesFit(all, last);
    if last == MAX_PAGES then Counted(PAGE * MAX_PAGES, true)
    else if Full(all, last) then Counted(PAGE * (last + 1), true)
    else Counted(PAGE * last + Dicts(Window(all, PAGE * last)), false)
  }

  lemma {:induction false} PagesFit(all: seq<Item>, pages: nat)
    requires LinkedTo(all, pages)
    ensures PAGE * pages <= |all|
  {
    if pages > 0 {
      assert Linked(all, pages - 1);
    }
  }

  lemma {:induction false} FullWindow(all: seq<Item>, j: nat)
    requires PAGE * j <= |all|
    ensures Dicts(Window(all, PAGE * j)) == PAGE <==> Full(all, j)
  {
    var w := Window(all, PAGE * j);
    AllDicts(w);
    if Full(all, j) {
      forall i | 0 <= i < |w|
        ensures w[i].Event?
      {
        assert w[i] == all[PAGE * j + i];
      }
    } else if Dicts(w) == PAGE {
      forall i | PAGE * j <= i < PAGE * (j + 1)
        ensures all[i].Event?
      {
        assert all[i] == w[i - PAGE * j];
      }
    }
  }

  /** The page at which a loop that has come to page `from` stops. */
  ghost function StopFrom(all: seq<Item>, from: nat): (last: nat)
    requires from <= MAX_PAGES && LinkedTo(all, from)
    ensures from <= last && StopsAt(all, last)
    decreases MAX_PAGES - from
  {
    if from < MAX_PAGES && Linked(all, from) then StopFrom(all, from + 1) else from
  }

  ghost function LastPage(all: seq<Item>): (last: nat)
    ensures StopsAt(all, last)
  {
    StopFrom(all, 0)
  }

  /** What the loop answers when no request fails. */
  ghost function Total(all: seq<Item>): Answer {
    AnswerAt(all, LastPage(all))
  }

  /** The loop has asked for `page` full pages, none of which failed, and stands at the cursor of the last one. */
  ghost predicate Reached(all: seq<Item>, failing: set<int>, page: nat, afterId: Option<string>) {
    && page <= MAX_PAGES && LinkedTo(all, page) && PAGE * page <= |all|
    && LastPage(all) == StopFrom(all, page)
    && afterId == (if page == 0 then None else Closing(all, page - 1))
    && (forall p | p in failing :: p < 0 || p >= page)
  }

  /** The answer when the requests for the `failing` pages raise. */
  ghost function Expected(all: seq<Item>, failing: set<int>): Answer {
    if exists p :: p in failing && 0 <= p <= LastPage(all) && p < MAX_PAGES then Failed else Total(all)
  }

  /** Where the server continues for a cursor. */
  function Start(all: seq<Item>, afterId: Option<string>): (n: nat)
    ensures n <= |all|
  {
    if afterId.None? then 0 else Offset(all, afterId.value)
  }

  lemma {:induction false} ReachedOffset(all: seq<Item>, failing: set<int>, page: nat, afterId: Option<string>)
    requires UniqueIds(all) && Reached(all, failing, page, afterId)
    ensures Start(all, afterId) == PAGE * page
  {
    if page > 0 {
      assert Linked(all, page - 1);
      CursorIsOffset(all, PAGE * page - 1);
    }
  }

  /** A page that does not lead on decides the answer. */
  lemma {:induction false} StopsHere(all: seq<Item>, failing: set<int>, page: nat, afterId: Option<string>)
    requires page < MAX_PAGES && Reached(all, failing, page, afterId)
    ensures page in failing ==> Expected(all, failing) == Failed
    ensures page !in failing && !Linked(all, page) ==> Expected(all, failing) == AnswerAt(all, page)
    ensures page !in failing && Linked(all, page) ==> Reached(all, failing, page + 1, Closing(all, page))
  {
  }

  lemma {:induction false} LastOfWindow(all: seq<Item>, page: nat)
    requires PAGE * (page + 1) <= |all|
    ensures |Window(all, PAGE * page)| == PAGE
    ensures EventId(Window(all, PAGE * page)[PAGE - 1]) == Closing(all, page)
  {
  }

  /** What one page says about the answer. */
  lemma {:induction false} AtPage(all: seq<Item>, failing: set<int>, page: nat, afterId: Option<string>, w: seq<Item>)
    requires UniqueIds(all) && page < MAX_PAGES && Reached(all, failing, page, afterId)
            && w == Window(all, Start(all, afterId))
    ensures Dicts(w) < PAGE || Dicts(w) == |w| == PAGE
    ensures page in failing ==> Expected(all, failing) == Failed
    ensures page !in failing && Dicts(w) < PAGE ==> Expected(all, failing) == Counted(PAGE * page + Dicts(w), false)
    ensures page !in failing && Dicts(w) == PAGE && EventId(w[|w| - 1]).None? ==>
              Expected(all, failing) == Counted(PAGE * page + PAGE, true)
    ensures page !in failing && Dicts(w) == PAGE && EventId(w[|w| - 1]).Some? ==>
              Reached(all, failing, page + 1, EventId(w[|w| - 1]))
  {
    ReachedOffset(all, failing, page, afterId);
    FullWindow(all, page);
    StopsHere(all, failing, page, afterId);
    if Full(all, page) {
      LastOfWindow(all, page);
    }
  }

  lemma {:induction false} AtLimit(all: seq<Item>, failing: set<int>, afterId: Option<string>)
    requires Reached(all, failing, MAX_PAGES, afterId)
    ensures Expected(all, failing) == Counted(PAGE * MAX_PAGES, true)
  {
  }

  /** `count_events_detailed`; the requests for the `failing` pages raise. */
  method CountEventsDetailed(all: seq<Item>, failing: set<int>) returns (r: Answer)
    requires UniqueIds(all)
    ensures r == Expected(all, failing)
  {
    var total := 0;
    var capped := false;
    var afterId: Option<string> := None;
    var page := 0;
    while page < MAX_PAGES
      invariant 0 <= page <= MAX_PAGES && !capped && total == PAGE * page
      invariant Reached(all, failing, page, afterId)
    {
      var events := Window(all, Start(all, afterId));
      AtPage(all, failing, page, afterId, events);
      if page in failing {
        return Failed;
      }
      total := total + Dicts(events);
      if Dicts(events) < PAGE {
        return Counted(total, capped);
      }
      afterId := EventId(events[|events| - 1]);
      if afterId.None? {
        capped := true;
        return Counted(total, capped);
      }
      page := page + 1;
    }
    AtLimit(all, failing, afterId);
    capped := true;
    return Counted(total, capped);
  }

  // ---- against the truth ------------------------------------------------------------------------------

  lemma {:induction false} DictsConcat(a: seq<Item>, b: seq<Item>)
    ensures Dicts(a + b) == Dicts(a) + Dicts(b)
  {
    if a == [] {
      assert a + b == b;
    } else {
      DictsConcat(a[1..], b);
      assert (a + b)[1..] == a[1..] + b;
    }
  }

  lemma {:induction false} LinkedPagesCount(all: seq<Item>, pages: nat)
    requires LinkedTo(all, pages) && PAGE * pages <= |all|
    ensures Dicts(all[..PAGE * pages]) == PAGE * pages
  {
    if pages > 0 {
      assert Linked(all, pages - 1);
      LinkedPagesCount(all, pages - 1);
      FullWindow(all, pages - 1);
      var before := all[..PAGE * (pages - 1)];
      DictsConcat(before, Window(all, PAGE * (pages - 1)));
      assert all[..PAGE * pages] == before + Window(all, PAGE * (pages - 1));
    }
  }

  /** The end of what the loop has seen. */
  ghost function Seen(all: seq<Item>, last: nat): nat {
    if last == MAX_PAGES then PAGE * last else Min(PAGE * (last + 1), |all|)
  }

  /** The total is the number of events among the items seen. */
  lemma {:induction false} TotalCountsSeen(all: seq<Item>, last: nat)
    requires StopsAt(all, last)
    ensures Seen(all, last) <= |all| && AnswerAt(all, last).total == Dicts(all[..Seen(all, last)])
  {
    PagesFit(all, last);
    LinkedPagesCount(all, last);
    if last < MAX_PAGES {
      FullWindow(all, last);
      var before := all[..PAGE * last];
      DictsConcat(before, Window(all, PAGE * last));
      assert all[..Seen(all, last)] == before + Window(all, PAGE * last);
    }
  }

  /** The total is never too high, and it is exact iff no event lies behind the items seen. */
  lemma {:induction false} LowerBound(all: seq<Item>)
    ensures Total(all).total <= Dicts(all)
    ensures Seen(all, LastPage(all)) <= |all|
    ensures Total(all).total == Dicts(all) <==> forall i | Seen(all, LastPage(all)) <= i < |all| :: all[i].NotADict?
  {
    TotalCountsSeen(all, LastPage(all));
    CountBehind(all, Seen(all, LastPage(all)));
  }

  lemma {:induction false} CountBehind(all: seq<Item>, n: nat)
    requires n <= |all|
    ensures Dicts(all[..n]) <= Dicts(all)
    ensures Dicts(all[..n]) == Dicts(all) <==> forall i | n <= i < |all| :: all[i].NotADict?
  {
    var rest := all[n..];
    assert all == all[..n] + rest;
    DictsConcat(all[..n], rest);
    NoDicts(rest);
    if Dicts(rest) == 0 {
      assert forall i | n <= i < |all| :: all[i] == rest[i - n];
    } else {
      var i :| 0 <= i < |rest| && !rest[i].NotADict?;
      assert all[n + i] == rest[i];
    }
  }

  lemma {:induction false} NoDicts(items: seq<Item>)
    ensures Dicts(items) == 0 <==> forall i | 0 <= i < |items| :: items[i].NotADict?
  {
    if items != [] {
      NoDicts(items[1..]);
      assert (forall i | 0 <= i < |items| :: items[i].NotADict?) <==>
             items[0].NotADict? && forall i | 0 <= i < |items[1..]| :: items[1..][i].NotADict? by {
        assert forall i | 0 < i < |items| :: items[i] == items[1..][i - 1];
      }
    }
  }

  /** Every item is an event. */
  ghost predicate OnlyEvents(all: seq<Item>) {
    forall i | 0 <= i < |all| :: all[i].Event?
  }

  /** On a list of events an uncapped total is exact, and a capped one is the pages counted. */
  lemma {:induction false} UncappedIsExact(all: seq<Item>)
    requires OnlyEvents(all)
    ensures !Total(all).capped ==> Total(all).total == |all|
    ensures Total(all).capped ==> Total(all).total <= |all| && Total(all).total % PAGE == 0
  {
    AllDicts(all);
    LowerBound(all);
  }

  /** The event that closes page `j` has an id, for every full page short of the limit. */
  ghost predicate CursorsPresent(all: seq<Item>) {
    forall j | 0 <= j < MAX_PAGES && PAGE * (j + 1) <= |all| :: ClosesWithId(all, j)
  }

  /** The item that closes page `j` is an event with an id. */
  ghost predicate ClosesWithId(all: seq<Item>, j: nat)
    requires PAGE * (j + 1) <= |all|
  {
    all[PAGE * (j + 1) - 1].Event? && all[PAGE * (j + 1) - 1].id != ""
  }

  lemma {:induction false} ClosingIsTheId(all: seq<Item>)
    ensures forall j: nat | PAGE * (j + 1) <= |all| ::
              Closing(all, j) == if ClosesWithId(all, j) then Some(all[PAGE * (j + 1) - 1].id) else None
  {
  }

  /** Uncapped iff fewer than 20000 events and every page boundary has an id. */
  lemma {:induction false} UncappedIff(all: seq<Item>)
    requires OnlyEvents(all)
    ensures !Total(all).capped <==> |all| < PAGE * MAX_PAGES && CursorsPresent(all)
  {
    ClosingIsTheId(all);
    PagesFit(all, LastPage(all));
    if !Total(all).capped {
      forall j | 0 <= j < MAX_PAGES && PAGE * (j + 1) <= |all|
        ensures ClosesWithId(all, j)
      {
        assert Linked(all, j);
      }
    }
  }

  /** With all ids present: exact below 20000, otherwise 20000 and capped. */
  lemma {:induction false} CountWithIds(all: seq<Item>)
    requires OnlyEvents(all) && CursorsPresent(all)
    ensures Total(all) == Counted(Min(|all|, PAGE * MAX_PAGES), |all| >= PAGE * MAX_PAGES)
  {
    ClosingIsTheId(all);
    UncappedIff(all);
    UncappedIsExact(all);
    PagesFit(all, LastPage(all));
  }

  /** The promise that a capped count means MORE events fails exactly when the pages counted end the list. */
  lemma {:induction false} CappedButExactIff(all: seq<Item>)
    requires OnlyEvents(all)
    ensures Total(all).capped && Total(all).total == |all| <==>
            && 0 < |all| <= PAGE * MAX_PAGES && |all| % PAGE == 0
            && (forall j | 0 <= j < MAX_PAGES && PAGE * (j + 1) < |all| :: ClosesWithId(all, j))
            && (|all| < PAGE * MAX_PAGES ==> all[|all| - 1] == Event(""))
  {
    ClosingIsTheId(all);
    PagesFit(all, LastPage(all));
    UncappedIsExact(all);
    if Total(all).capped && Total(all).total == |all| {
      forall j | 0 <= j < MAX_PAGES && PAGE * (j + 1) < |all|
        ensures ClosesWithId(all, j)
      {
        assert Linked(all, j);
      }
    } else if 0 < |all| <= PAGE * MAX_PAGES && |all| % PAGE == 0 && |all| < PAGE * MAX_PAGES
        && EventId(all[|all| - 1]).None? {
      var n := |all| / PAGE;
      assert PAGE * (n - 1 + 1) == |all|;
      assert !Linked(all, n - 1);
    }
  }

  /** An item that is no dictionary makes its page look like the last one: uncapped, yet too low. */
  lemma {:induction false} NonDictHidesEvents(events: seq<Item>)
    requires OnlyEvents(events) && |events| >= PAGE
    ensures Total([NotADict] + events) == Counted(PAGE - 1, false)
    ensures Dicts([NotADict] + events) == |events| > PAGE - 1
  {
    var all := [NotADict] + events;
    AllDicts(events);
    assert all[1..] == events;
    var shown := events[..PAGE - 1];
    AllDicts(shown);
    assert Window(all, 0) == [NotADict] + shown;
    assert ([NotADict] + shown)[1..] == shown;
    FullWindow(all, 0);
  }
}
