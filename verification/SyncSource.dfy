/** Reading the change log in pages: whatever the page size, the events right after the cursor and no others. */
module SyncSource {
  import opened Wrappers
  import opened SyncState
  import opened SyncPlan
  import opened SyncConvergence

  datatype ReadResult = Events(events: seq<Event>) | InvalidLimit | ScanLimit

  const MAX_PAGES := 10
  const MAX_LIMIT := 100

  predicate After(cursor: Option<Position>, e: Event) { cursor.None? || Before(cursor.value, e.position) }

  /** The API starts at the cursor's second, not at the cursor. */
  predicate Listed(cursor: Option<Position>, e: Event) {
    cursor.None? || cursor.value.timestamp <= e.position.timestamp
  }

  /** How many leading events fail the test. */
  function Leading(log: seq<Event>, ok: Event -> bool): (n: nat)
    ensures n <= |log| && (forall i :: 0 <= i < n ==> !ok(log[i])) && (n < |log| ==> ok(log[n]))
  {
    if log == [] || ok(log[0]) then 0 else 1 + Leading(log[1..], ok)
  }

  /** The number of events at or before the cursor. */
  function Passed(log: seq<Event>, cursor: Option<Position>): nat { Leading(log, e => After(cursor, e)) }

  function FirstListed(log: seq<Event>, cursor: Option<Position>): nat { Leading(log, e => Listed(cursor, e)) }

  lemma PassedStands(log: seq<Event>, cursor: Option<Position>)
    requires Ascending(log)
    ensures StandsAt(log, cursor, Passed(log, cursor))
    ensures forall k: nat :: StandsAt(log, cursor, k) ==> k == Passed(log, cursor)
    ensures FirstListed(log, cursor) <= Passed(log, cursor)
    ensures forall i :: FirstListed(log, cursor) <= i < |log| ==> Listed(cursor, log[i])
  {
    var n := Passed(log, cursor);
    forall i | n <= i < |log|
      ensures After(cursor, log[i])
    {
      assert n < i ==> Before(log[n].position, log[i].position);
    }
    var m := FirstListed(log, cursor);
    forall i | m <= i < |log|
      ensures Listed(cursor, log[i])
    {
      assert m < i ==> Before(log[m].position, log[i].position);
    }
    if n < |log| { assert After(cursor, log[n]) && Listed(cursor, log[n]); }
    forall k: nat | StandsAt(log, cursor, k) ensures k == n {
      assert k < |log| ==> After(cursor, log[k]);
    }
  }

  function Keep(events: seq<Event>, cursor: Option<Position>): seq<Event> {
    if events == [] then []
    else (if After(cursor, events[0]) then [events[0]] else []) + Keep(events[1..], cursor)
  }

  /** Filtering a page of the sorted log keeps what lies past the cursor. */
  lemma {:induction false} KeepSlice(log: seq<Event>, cursor: Option<Position>, lo: nat, hi: nat, k: nat)
    requires lo <= hi <= |log| && StandsAt(log, cursor, k)
    ensures Keep(log[lo..hi], cursor) == if hi <= k then [] else if lo <= k then log[k..hi] else log[lo..hi]
    decreases hi - lo
  {
    if lo < hi {
      KeepSlice(log, cursor, lo + 1, hi, k);
      assert log[lo..hi][0] == log[lo] && log[lo..hi][1..] == log[lo + 1..hi];
      assert After(cursor, log[lo]) <==> lo >= k;
      if lo >= k { assert [log[lo]] + log[lo + 1..hi] == log[lo..hi]; }
    } else {
      assert log[lo..hi] == [];
    }
  }

  /** The pages up to the limit hold no new event, and more pages follow. */
  predicate SameSecondOverflow(log: seq<Event>, cursor: Option<Position>, limit: nat) {
    var end := FirstListed(log, cursor) + 10 * limit;
    end <= Passed(log, cursor) && end < |log|
  }

  /** One request: the slice at `offset`, filtered, and whether the API offers a continuation. */
  method ReadPage(log: seq<Event>, cursor: Option<Position>, offset: nat, limit: nat)
    returns (events: seq<Event>, more: bool)
    requires Ascending(log) && FirstListed(log, cursor) <= offset <= |log|
    requires offset <= Passed(log, cursor) && limit >= 1
    ensures events <= log[Passed(log, cursor)..] && |events| <= limit
    ensures more <==> offset + limit < |log|
    ensures events == [] <==> offset + limit <= Passed(log, cursor) || Passed(log, cursor) == |log|
  {
    var hi := if offset + limit < |log| then offset + limit else |log|;
    ghost var k := Passed(log, cursor);
    PassedStands(log, cursor);
    KeepSlice(log, cursor, offset, hi, k);
    events := Keep(log[offset..hi], cursor);
    more := offset + limit < |log|;
    if hi > k { assert log[k..hi] == log[k..][..hi - k]; }
  }

  lemma NextPage(first: nat, page: nat, limit: nat)
    requires page < MAX_PAGES
    ensures first + (page + 1) * limit == first + page * limit + limit <= first + MAX_PAGES * limit
  {
    assert (page + 1) * limit == page * limit + limit;
    assert (page + 1) * limit <= MAX_PAGES * limit;
  }

  /**
   * `read`: the events form a contiguous run right after the cursor, at most a page long; none are returned only at the
   * end of the log; and the scan limit trips exactly when ten pages of the cursor's own second hold nothing new.
   */
  method Read(log: seq<Event>, cursor: Option<Position>, limit: int) returns (result: ReadResult)
    requires Ascending(log)
    ensures result.InvalidLimit? <==> !(1 <= limit <= 100)
    ensures result.ScanLimit? <==> 1 <= limit <= 100 && SameSecondOverflow(log, cursor, limit)
    ensures result.Events? ==> result.events <= log[Passed(log, cursor)..] && |result.events| <= limit
    ensures result.Events? && result.events == [] ==> Passed(log, cursor) == |log|
  {
    if limit < 1 || limit > MAX_LIMIT { return InvalidLimit; }
    PassedStands(log, cursor);
    ghost var first := FirstListed(log, cursor);
    var offset := FirstListed(log, cursor);
    var page := 0;
    while page < MAX_PAGES
      invariant 0 <= page <= MAX_PAGES && offset == first + page * limit
      invariant offset <= Passed(log, cursor)
      invariant page > 0 ==> offset < |log|
    {
      NextPage(first, page, limit);
      var events, more := ReadPage(log, cursor, offset, limit);
      if |events| > 0 || !more { return Events(events); }
      offset := offset + limit;
      page := page + 1;
    }
    return ScanLimit;
  }
}
