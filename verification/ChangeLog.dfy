/** Reading the change log in pages. */
module ChangeLog {
  import opened Core
  import opened CentralTables

  /** A row of the log with its AUTOINCREMENT id. */
  datatype Entry = Entry(eventId: nat, change: Change)

  datatype Page = Page(operations: seq<Entry>, nextEventId: Option<nat>)

  const MAX_LIMIT: nat := 1024

  function Clamp(limit: nat): (n: nat)
    ensures 1 <= n <= MAX_LIMIT && (1 <= limit <= MAX_LIMIT ==> n == limit)
  {
    if limit < 1 then 1 else if limit > MAX_LIMIT then MAX_LIMIT else limit
  }

  /** Rows are only ever appended, so the `i`-th row has id `i + 1`. */
  function Entries(log: seq<Change>): (rows: seq<Entry>)
    ensures |rows| == |log|
  {
    seq(|log|, i requires 0 <= i < |log| => Entry(i + 1, log[i]))
  }

  /** `get_file_change_logs`: up to `limit` rows after an id, and where to go on if there are more. */
  method GetFileChangeLogs(log: seq<Change>, after: nat, limit: nat) returns (r: Result<Page>)
    ensures after > I64_MAX ==> r == Err(IntegerConversion)
    ensures after <= I64_MAX && after <= |log| ==>
      var n, left := if limit < 1 then 1 else if limit > 1024 then 1024 else limit, |log| - after;
      && r.Ok? && |r.value.operations| == (if left < n then left else n)
      && (forall i :: 0 <= i < |r.value.operations| ==> r.value.operations[i] == Entry(after + i + 1, log[after + i]))
      && r.value.nextEventId == if left > n then Some(after + n) else None
    ensures after <= I64_MAX && after > |log| ==> r == Ok(Page([], None))
    ensures after <= I64_MAX ==> r == Ok(PageAfter(log, after, limit))
  {
    if after > I64_MAX { return Err(IntegerConversion); }
    var n := Clamp(limit);
    var events := [];
    var i := after;
    while i < |log| && |events| < n + 1
      invariant after <= i && (i <= |log| || i == after)
      invariant after <= |log| ==> events == Entries(log)[after..i] && |events| <= n + 1
      invariant after > |log| ==> events == [] && i == after
    {
      events := events + [Entry(i + 1, log[i])];
      i := i + 1;
    }
    if |events| > n {
      PageFull(log, after, n, events);
      events := events[..n];
      return Ok(Page(events, Some(events[|events| - 1].eventId)));
    }
    if after <= |log| { PageLast(log, after, n, events, i); }
    return Ok(Page(events, None));
  }

  lemma {:induction false} PageFull(log: seq<Change>, after: nat, n: nat, events: seq<Entry>)
    requires 0 < n && after + n + 1 <= |log| && events == Entries(log)[after..after + n + 1]
    ensures events[..n] == Entries(log)[after..after + n] && events[..n][n - 1].eventId == after + n
    ensures forall k :: 0 <= k < n ==> events[..n][k] == Entry(after + k + 1, log[after + k])
  {}

  lemma {:induction false} PageLast(log: seq<Change>, after: nat, n: nat, events: seq<Entry>, i: nat)
    requires after <= i <= |log| && events == Entries(log)[after..i] && |events| <= n && (i == |log| || n + 1 <= |events|)
    ensures i == |log| && events == Entries(log)[after..] && |log| - after <= n
    ensures forall k :: 0 <= k < |events| ==> events[k] == Entry(after + k + 1, log[after + k])
  {}

  function PageAfter(log: seq<Change>, after: nat, limit: nat): Page {
    var n := Clamp(limit);
    if after >= |log| then Page([], None)
    else if |log| - after > n then Page(Entries(log)[after..after + n], Some(after + n))
    else Page(Entries(log)[after..], None)
  }

  /** Following the cursor from page to page. */
  function Follow(log: seq<Change>, after: nat, limit: nat): seq<Entry>
    decreases |log| - after
  {
    var page := PageAfter(log, after, limit);
    if page.nextEventId.Some? then page.operations + Follow(log, page.nextEventId.value, limit) else page.operations
  }

  /** Whatever the page size, the pages together are the whole log after the start, in order
      and without repetition. */
  lemma {:induction false} PagesCoverTheLog(log: seq<Change>, after: nat, limit: nat)
    requires after <= |log|
    ensures Follow(log, after, limit) == Entries(log)[after..]
    decreases |log| - after
  {
    var page := PageAfter(log, after, limit);
    if page.nextEventId.Some? {
      PagesCoverTheLog(log, page.nextEventId.value, limit);
      assert Entries(log)[after..] == page.operations + Entries(log)[page.nextEventId.value..];
    }
  }
}
