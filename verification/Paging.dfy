/**
  Listing in pages. A table view is the set of its row numbers; the service
  asks for one row more than the limit to learn whether a next page exists.
 */
module Paging {
  import opened Results
  import opened Text
  import opened SequentialStore

  const MAX_LIMIT: int := 200

  datatype Listing =
    | Flags(org: Text, includeArchived: bool)
    | Receipts(org: Text, flagKey: Option<Text>, environmentKey: Option<Text>)

  predicate Selects(filter: Option<Text>, value: Text) {
    filter.None? || filter.value == value
  }

  predicate ListsReceipt(listing: Listing, row: ReceiptRow)
    requires listing.Receipts?
  {
    row.org == listing.org && Selects(listing.flagKey, row.receipt.flagKey)
      && Selects(listing.environmentKey, row.receipt.environmentKey)
  }

  /** Some receipt of the organization has this row number and passes the filters. */
  ghost predicate HasReceipt(rows: seq<ReceiptRow>, org: Text, flagKey: Option<Text>, environmentKey: Option<Text>,
                             k: int) {
    exists i | 0 <= i < |rows| ::
      && rows[i].rowSeq == k && rows[i].org == org
      && (flagKey == None || flagKey == Some(rows[i].receipt.flagKey))
      && (environmentKey == None || environmentKey == Some(rows[i].receipt.environmentKey))
  }

  /** Some flag of the organization has this row number, and is live or archived ones are wanted. */
  ghost predicate HasFlag(flags: map<FlagId, FlagRecord>, org: Text, includeArchived: bool, k: int) {
    exists id | id in flags ::
      flags[id].rowSeq == k && flags[id].org == org && (flags[id].archived ==> includeArchived)
  }

  /** A row that the listing is about. */
  ghost predicate HasRow(store: Store, listing: Listing, k: int) {
    match listing
    case Flags(org, includeArchived) => HasFlag(store.flags, org, includeArchived, k)
    case Receipts(org, flagKey, environmentKey) => HasReceipt(store.receipts, org, flagKey, environmentKey, k)
  }

  /** The scan returns exactly the rows of the store that match. */
  ghost predicate ReturnsExactly(scan: seq<int>, store: Store, listing: Listing) {
    forall k :: k in scan <==> HasRow(store, listing, k)
  }

  /** Its rows are never removed: archived flags are not dropped from it. */
  predicate KeepsRows(listing: Listing) {
    listing.Flags? ==> listing.includeArchived
  }

  function Above(keys: set<int>, after: int): (s: set<int>)
    ensures s <= keys
  {
    set k | k in keys && k > after
  }

  lemma {:induction false} MinimumExists(s: set<int>)
    requires s != {}
    ensures exists m :: m in s && forall y | y in s :: m <= y
    decreases |s|
  {
    var x := Pick(s);
    var rest := s - {x};
    assert forall y | y in s :: y in rest || y == x;
    if rest != {} {
      MinimumExists(rest);
      var m :| m in rest && forall y | y in rest :: m <= y;
      var low := if x <= m then x else m;
      assert low in s && forall y | y in s :: low <= y;
    } else {
      assert x in s && forall y | y in s :: x <= y;
    }
  }

  function Minimum(s: set<int>): (m: int)
    requires s != {}
    ensures m in s && forall y | y in s :: m <= y
  {
    MinimumExists(s);
    var m :| m in s && forall y | y in s :: m <= y;
    m
  }

  predicate Increasing(s: seq<int>) {
    forall i, j | 0 <= i < j < |s| :: s[i] < s[j]
  }

  /** `WHERE row_seq > after ORDER BY row_seq LIMIT limit`. */
  function Select(keys: set<int>, after: int, limit: nat): (r: seq<int>)
    ensures |r| <= limit
    decreases limit
  {
    var rest := Above(keys, after);
    if limit == 0 || rest == {} then []
    else [Minimum(rest)] + Select(keys, Minimum(rest), limit - 1)
  }

  ghost predicate Selected(keys: set<int>, after: int, rows: seq<int>) {
    Increasing(rows) && forall i | 0 <= i < |rows| :: rows[i] in keys && rows[i] > after
  }

  lemma SelectedFirst(keys: set<int>, after: int, first: int, others: seq<int>)
    requires first in keys && first > after && Selected(keys, first, others)
    ensures Selected(keys, after, [first] + others)
  {
  }

  lemma {:induction false} SelectSound(keys: set<int>, after: int, limit: nat)
    ensures Selected(keys, after, Select(keys, after, limit))
    decreases limit
  {
    var rest := Above(keys, after);
    if limit > 0 && rest != {} {
      SelectSound(keys, Minimum(rest), limit - 1);
      SelectedFirst(keys, after, Minimum(rest), Select(keys, Minimum(rest), limit - 1));
    }
  }

  /** A row that is left out is above a full page. */
  lemma {:induction false} SelectLeavesOut(keys: set<int>, after: int, limit: nat, k: int)
    requires k in keys && k > after && k !in Select(keys, after, limit)
    ensures |Select(keys, after, limit)| == limit
    ensures k > LastOf(Select(keys, after, limit), after)
    decreases limit
  {
    assert k in Above(keys, after);
    if limit > 0 {
      var first := Minimum(Above(keys, after));
      var others := Select(keys, first, limit - 1);
      assert Select(keys, after, limit) == [first] + others;
      SelectLeavesOut(keys, first, limit - 1, k);
      LastOfFirst(first, others, after);
    }
  }

  function LastOf(rows: seq<int>, after: int): int {
    if rows == [] then after else rows[|rows| - 1]
  }

  lemma LastOfFirst(first: int, others: seq<int>, after: int)
    ensures LastOf([first] + others, after) == LastOf(others, first)
  {
  }

  datatype Page = Page(rows: seq<int>, next: Option<Text>)

  predicate RowNumbers(keys: set<int>) {
    forall k | k in keys :: 0 < k <= I64_MAX
  }

  /** The first `limit` rows after the cursor, and a cursor if and only if more rows follow. */
  function PageOf(keys: set<int>, after: int, limit: nat): Page
    requires RowNumbers(keys) && limit > 0
  {
    var rows := Select(keys, after, limit);
    SelectSound(keys, after, limit);
    if rows != [] && Above(keys, LastOf(rows, after)) != {} then Page(rows, Some(Decimal(LastOf(rows, after))))
    else Page(rows, None)
  }

  function Serve(keys: set<int>, after: Option<Text>, limit: int): Result<Page, ()>
    requires RowNumbers(keys)
  {
    match ParseCursor(after)
    case Failure(error) => Failure(error)
    case Success(cursor) =>
      if !(1 <= limit <= MAX_LIMIT) then Failure(())
      else Success(PageOf(keys, if cursor.Some? then cursor.value else 0, limit))
  }

  /** The row after a full page, if there is one. */
  function Following(keys: set<int>, rows: seq<int>, after: int, limit: nat): seq<int> {
    var rest := Above(keys, LastOf(rows, after));
    if |rows| < limit || rest == {} then [] else [Minimum(rest)]
  }

  lemma {:induction false} SelectMore(keys: set<int>, after: int, limit: nat)
    ensures Select(keys, after, limit + 1)
            == Select(keys, after, limit) + Following(keys, Select(keys, after, limit), after, limit)
    decreases limit
  {
    var rest := Above(keys, after);
    if rest != {} {
      var first := Minimum(rest);
      assert Select(keys, after, limit + 1) == [first] + Select(keys, first, limit);
      if limit > 0 {
        var shorter := Select(keys, first, limit - 1);
        SelectMore(keys, first, limit - 1);
        LastOfFirst(first, shorter, after);
        assert [first] + (shorter + Following(keys, shorter, first, limit - 1))
               == ([first] + shorter) + Following(keys, [first] + shorter, after, limit);
      }
    }
  }

  /** A row with its number. */
  datatype Numbered<R> = Numbered(rowSeq: int, fields: R)

  datatype Listed<R> = Listed(records: seq<Numbered<R>>, next: Option<Text>)

  /** The records are these rows of the table, in this order. */
  ghost predicate AreRows<R>(table: map<int, R>, rows: seq<int>, records: seq<Numbered<R>>) {
    && |records| == |rows|
    && forall i | 0 <= i < |rows| :: rows[i] in table && records[i] == Numbered(rows[i], table[rows[i]])
  }

  method SelectRecords<R>(table: map<int, R>, after: int, limit: nat) returns (records: seq<Numbered<R>>)
    ensures AreRows(table, Select(table.Keys, after, limit), records)
  {
    var rows := Select(table.Keys, after, limit);
    SelectSound(table.Keys, after, limit);
    records := seq(|rows|, i requires 0 <= i < |rows| => Numbered(rows[i], table[rows[i]]));
  }

  /** Ask for one row more than the limit, then drop it. */
  method PageRecords<R>(table: map<int, R>, start: int, limit: nat) returns (listed: Listed<R>)
    requires RowNumbers(table.Keys) && limit > 0
    ensures listed.next == PageOf(table.Keys, start, limit).next
    ensures AreRows(table, PageOf(table.Keys, start, limit).rows, listed.records)
  {
    var records := SelectRecords(table, start, limit + 1);
    OneMore(table.Keys, start, limit);
    OneRecordMore(table, start, limit, records);
    SelectSound(table.Keys, start, limit);
    var hasMore := |records| > limit;
    if hasMore {
      records := records[..|records| - 1];
    }
    var next: Option<Text> := None;
    if hasMore && records != [] {
      next := Some(Decimal(records[|records| - 1].rowSeq));
    }
    listed := Listed(records, next);
  }

  /** The service method: check the cursor and the limit, then serve the page. */
  method ListPage<R>(table: map<int, R>, after: Option<Text>, limit: int) returns (r: Result<Listed<R>, ()>)
    requires RowNumbers(table.Keys)
    ensures match Serve(table.Keys, after, limit)
            case Failure(error) => r == Failure(error)
            case Success(page) =>
              r.Success? && r.value.next == page.next && AreRows(table, page.rows, r.value.records)
  {
    var cursor := ParseCursor(after);
    if cursor.Failure? {
      return Failure(cursor.error);
    }
    if !(1 <= limit <= MAX_LIMIT) {
      return Failure(());
    }
    var listed := PageRecords(table, if cursor.value.Some? then cursor.value.value else 0, limit);
    r := Success(listed);
  }

  lemma OneRecordMore<R>(table: map<int, R>, after: int, limit: nat, records: seq<Numbered<R>>)
    requires limit > 0 && AreRows(table, Select(table.Keys, after, limit + 1), records)
    ensures AreRows(table, Select(table.Keys, after, limit),
                    if |records| > limit then records[..|records| - 1] else records)
  {
    OneMore(table.Keys, after, limit);
  }

  /** The extra row tells whether rows follow the page. */
  lemma OneMore(keys: set<int>, after: int, limit: nat)
    requires limit > 0
    ensures var rows, more := Select(keys, after, limit), Select(keys, after, limit + 1);
            && (|more| > limit <==> rows != [] && Above(keys, LastOf(rows, after)) != {})
            && rows == if |more| > limit then more[..|more| - 1] else more
  {
    SelectMore(keys, after, limit);
    if |Select(keys, after, limit)| < limit {
      ShortPageIsLast(keys, after, limit);
    }
  }

  /** A page below the limit has nothing after it. */
  lemma ShortPageIsLast(keys: set<int>, after: int, limit: nat)
    requires |Select(keys, after, limit)| < limit
    ensures Above(keys, LastOf(Select(keys, after, limit), after)) == {}
  {
    var rows := Select(keys, after, limit);
    SelectSound(keys, after, limit);
    forall k | k in keys && k > LastOf(rows, after) ensures false {
      BeyondLast(rows, after, k);
      if k !in rows {
        SelectLeavesOut(keys, after, limit, k);
      }
    }
  }

  lemma BeyondLast(rows: seq<int>, after: int, k: int)
    requires Increasing(rows) && k > LastOf(rows, after)
    ensures k !in rows
  {
  }

  // ------------------------------------------------------------- whole scans

  /** Following cursors; page `i` is served from `views[i]`. */
  function Follow(views: seq<set<int>>, after: Option<Text>, limit: int): seq<int>
    requires forall v | v in views :: RowNumbers(v)
  {
    if views == [] then []
    else
      match Serve(views[0], after, limit)
      case Failure(_) => []
      case Success(page) =>
        if page.next.None? then page.rows else page.rows + Follow(views[1..], page.next, limit)
  }

  /** The scan reaches a page without a cursor exactly at the last view. */
  predicate EndsWith(views: seq<set<int>>, after: Option<Text>, limit: int)
    requires forall v | v in views :: RowNumbers(v)
  {
    && views != []
    && match Serve(views[0], after, limit)
       case Failure(_) => false
       case Success(page) => if page.next.None? then |views| == 1 else EndsWith(views[1..], page.next, limit)
  }

  function CursorValue(after: Option<Text>): int
    requires ParseCursor(after).Success?
  {
    if ParseCursor(after).value.Some? then ParseCursor(after).value.value else 0
  }

  lemma PageIsSelected(keys: set<int>, after: Option<Text>, limit: int)
    requires RowNumbers(keys) && Serve(keys, after, limit).Success?
    ensures ParseCursor(after).Success? && Selected(keys, CursorValue(after), Serve(keys, after, limit).value.rows)
  {
    SelectSound(keys, CursorValue(after), limit);
  }

  /** A page with a cursor: the cursor reads back as the last row of the page. */
  lemma NextCursor(keys: set<int>, after: Option<Text>, limit: int)
    requires RowNumbers(keys) && Serve(keys, after, limit).Success? && Serve(keys, after, limit).value.next.Some?
    ensures var page := Serve(keys, after, limit).value;
            && ParseCursor(after).Success? && page.rows != [] && ParseCursor(page.next).Success?
            && CursorValue(page.next) == LastOf(page.rows, CursorValue(after))
            && CursorValue(page.next) in keys && CursorValue(page.next) > CursorValue(after)
  {
    PageIsSelected(keys, after, limit);
    RevisionRoundTrip(LastOf(Serve(keys, after, limit).value.rows, CursorValue(after)));
  }

  predicate Exceeds(rows: seq<int>, after: int) {
    forall i | 0 <= i < |rows| :: rows[i] > after
  }

  lemma JoinIncreasing(a: seq<int>, b: seq<int>, after: int)
    requires Increasing(a) && Increasing(b) && Exceeds(a, after) && Exceeds(b, LastOf(a, after))
    ensures Increasing(a + b) && Exceeds(a + b, after)
  {
  }

  /** No row twice, and rows in increasing order. */
  lemma {:induction false} FollowIncreasing(views: seq<set<int>>, after: Option<Text>, limit: int)
    requires (forall v | v in views :: RowNumbers(v)) && ParseCursor(after).Success?
    ensures Increasing(Follow(views, after, limit)) && Exceeds(Follow(views, after, limit), CursorValue(after))
    decreases |views|
  {
    if views != [] && Serve(views[0], after, limit).Success? {
      var page := Serve(views[0], after, limit).value;
      PageIsSelected(views[0], after, limit);
      if page.next.Some? {
        NextCursor(views[0], after, limit);
        FollowIncreasing(views[1..], page.next, limit);
        JoinIncreasing(page.rows, Follow(views[1..], page.next, limit), CursorValue(after));
      }
    }
  }

  /**
    A row that matches whenever a page is served is returned, whatever rows
    come and go between pages.
   */
  lemma {:induction false} FollowKeepsPresentRows(views: seq<set<int>>, after: Option<Text>, limit: int, k: int)
    requires (forall v | v in views :: RowNumbers(v)) && EndsWith(views, after, limit) && ParseCursor(after).Success?
    requires k > CursorValue(after) && forall i | 0 <= i < |views| :: k in views[i]
    ensures k in Follow(views, after, limit)
    decreases |views|
  {
    var page := Serve(views[0], after, limit).value;
    PageOrLater(views[0], after, limit, k);
    if page.next.Some? && k !in page.rows {
      NextCursor(views[0], after, limit);
      FollowKeepsPresentRows(views[1..], page.next, limit, k);
    }
  }

  /** A row that is returned matched when some page was served. */
  lemma {:induction false} FollowOnlyServed(views: seq<set<int>>, after: Option<Text>, limit: int, k: int)
    requires (forall v | v in views :: RowNumbers(v)) && k in Follow(views, after, limit)
    ensures exists i :: 0 <= i < |views| && k in views[i]
    decreases |views|
  {
    PageIsSelected(views[0], after, limit);
    var page := Serve(views[0], after, limit).value;
    if k !in page.rows {
      FollowOnlyServed(views[1..], page.next, limit, k);
      var i :| 0 <= i < |views[1..]| && k in views[1..][i];
      assert k in views[i + 1];
    } else {
      assert k in views[0];
    }
  }

  /** When a page is served at all: the cursor is absent or the numeral of a positive i64, and 1 <= limit <= 200. */
  lemma ServeIff(keys: set<int>, after: Option<Text>, limit: int)
    requires RowNumbers(keys)
    ensures Serve(keys, after, limit).Success? <==>
              && 1 <= limit <= 200
              && (after == None || exists n | 0 < n <= 0x7FFF_FFFF_FFFF_FFFF :: Reads(after.value, n))
  {
    if after.Some? {
      if ParseRevision(after.value).Some? {
        ParseCursorIff(after.value, ParseRevision(after.value).value);
      } else {
        forall n | 0 < n <= 0x7FFF_FFFF_FFFF_FFFF ensures !Reads(after.value, n) {
          ParseCursorIff(after.value, n);
        }
      }
    }
  }

  /** The first `limit` rows above `start`, and a cursor at the last of them exactly if rows are left. */
  ghost predicate IsPage(page: Page, keys: set<int>, start: int, limit: int) {
    && Increasing(page.rows) && |page.rows| <= limit
    && (forall k | k in page.rows :: k in keys && k > start)
    && (forall k | k in keys && k > start && k !in page.rows ::
          |page.rows| == limit && k > LastOf(page.rows, start) && page.next.Some?)
    && (page.next.Some? ==>
          && page.rows != [] && Reads(page.next.value, page.rows[|page.rows| - 1])
          && exists k :: k in keys && k > start && k !in page.rows)
  }

  /** The page that is served for a cursor, or for none. */
  lemma PageIs(keys: set<int>, after: Option<Text>, start: int, limit: int)
    requires RowNumbers(keys) && 1 <= limit <= 200
    requires if after == None then start == 0
             else Reads(after.value, start) && 0 < start <= 0x7FFF_FFFF_FFFF_FFFF
    ensures Serve(keys, after, limit).Success? && IsPage(Serve(keys, after, limit).value, keys, start, limit)
  {
    if after.Some? {
      ParseCursorIff(after.value, start);
    }
    PageOfIs(keys, start, limit);
  }

  lemma PageOfIs(keys: set<int>, start: int, limit: nat)
    requires RowNumbers(keys) && limit > 0
    ensures IsPage(PageOf(keys, start, limit), keys, start, limit)
  {
    var rows := Select(keys, start, limit);
    SelectSound(keys, start, limit);
    var last := LastOf(rows, start);
    forall k | k in keys && k > start && k !in rows ensures |rows| == limit && k > last && k in Above(keys, last) {
      SelectLeavesOut(keys, start, limit, k);
    }
    if rows != [] && Above(keys, last) != {} {
      DecimalReads(last);
      var k := Minimum(Above(keys, last));
      assert k > start && k !in rows;
    }
  }

  /** A row above the cursor is on the page, or above the next cursor. */
  lemma PageOrLater(keys: set<int>, after: Option<Text>, limit: int, k: int)
    requires RowNumbers(keys) && Serve(keys, after, limit).Success? && k in keys
    requires ParseCursor(after).Success? && k > CursorValue(after)
    ensures var page := Serve(keys, after, limit).value;
            k in page.rows || (page.next.Some? && k > LastOf(page.rows, CursorValue(after)))
  {
    var page := Serve(keys, after, limit).value;
    if k !in page.rows {
      SelectLeavesOut(keys, CursorValue(after), limit, k);
      assert k in Above(keys, LastOf(page.rows, CursorValue(after)));
    }
  }

  /** Rows are never removed. */
  ghost predicate Growing(views: seq<set<int>>) {
    forall i, j | 0 <= i <= j < |views| :: views[i] <= views[j]
  }

  /** Rows are never removed and new rows come above all others. */
  ghost predicate AppendOnly(views: seq<set<int>>) {
    forall i, j | 0 <= i <= j < |views| ::
      views[i] <= views[j] && forall k, k' | k in views[i] && k' in views[j] && k' !in views[i] :: k < k'
  }

  /** The scan returns exactly the rows that are present when its last page is served. */
  ghost predicate ExactScan(views: seq<set<int>>, after: Option<Text>, limit: int)
    requires (forall v | v in views :: RowNumbers(v)) && views != [] && ParseCursor(after).Success?
  {
    forall k :: k in Follow(views, after, limit) <==> k in views[|views| - 1] && k > CursorValue(after)
  }

  /** A row that was missing from this page has not appeared between its two cursors. */
  ghost predicate NoneAppears(keys: set<int>, last: set<int>, after: int, next: int) {
    forall k | k in last && k !in keys && k > after :: k > next
  }

  /** No row appears behind the cursor while the scan goes on. */
  ghost predicate NothingBehind(views: seq<set<int>>, after: Option<Text>, limit: int)
    requires (forall v | v in views :: RowNumbers(v)) && EndsWith(views, after, limit) && ParseCursor(after).Success?
    decreases |views|
  {
    var page := Serve(views[0], after, limit).value;
    page.next.Some? ==>
      && NoneAppears(views[0], views[|views| - 1], CursorValue(after), LastOf(page.rows, CursorValue(after)))
      && ParseCursor(page.next).Success? && NothingBehind(views[1..], page.next, limit)
  }

  /** One page and an exact rest are an exact whole. */
  lemma PageAndRest(keys: set<int>, after: Option<Text>, limit: int, rest: seq<int>, last: set<int>, next: int, k: int)
    requires RowNumbers(keys) && Serve(keys, after, limit).Success? && Serve(keys, after, limit).value.next.Some?
    requires keys <= last && ParseCursor(after).Success? && NoneAppears(keys, last, CursorValue(after), next)
    requires next == LastOf(Serve(keys, after, limit).value.rows, CursorValue(after))
    requires k in rest <==> k in last && k > next
    ensures k in Serve(keys, after, limit).value.rows + rest <==> k in last && k > CursorValue(after)
  {
    PageIsSelected(keys, after, limit);
    NextCursor(keys, after, limit);
    if k in keys && k > CursorValue(after) {
      PageOrLater(keys, after, limit, k);
    }
  }

  lemma LastPageIsExact(keys: set<int>, after: Option<Text>, limit: int, k: int)
    requires RowNumbers(keys) && Serve(keys, after, limit).Success? && Serve(keys, after, limit).value.next.None?
    ensures ParseCursor(after).Success?
    ensures k in Serve(keys, after, limit).value.rows <==> k in keys && k > CursorValue(after)
  {
    PageIsSelected(keys, after, limit);
    if k in keys && k > CursorValue(after) {
      PageOrLater(keys, after, limit, k);
    }
  }

  lemma {:induction false} NothingBehindIsEnough(views: seq<set<int>>, after: Option<Text>, limit: int)
    requires (forall v | v in views :: RowNumbers(v)) && EndsWith(views, after, limit) && ParseCursor(after).Success?
    requires Growing(views) && NothingBehind(views, after, limit)
    ensures ExactScan(views, after, limit)
    decreases |views|
  {
    var page, last := Serve(views[0], after, limit).value, views[|views| - 1];
    if page.next.Some? {
      NextCursor(views[0], after, limit);
      GrowingTail(views);
      NothingBehindIsEnough(views[1..], page.next, limit);
      assert views[1..][|views| - 2] == last;
      forall k
        ensures k in Follow(views, after, limit) <==> k in last && k > CursorValue(after)
      {
        PageAndRest(views[0], after, limit, Follow(views[1..], page.next, limit), last, CursorValue(page.next), k);
      }
    } else {
      forall k
        ensures k in Follow(views, after, limit) <==> k in last && k > CursorValue(after)
      {
        LastPageIsExact(views[0], after, limit, k);
      }
    }
  }

  /** An exact whole has an exact rest, and nothing new before it. */
  lemma RestIsExact(keys: set<int>, after: Option<Text>, limit: int, rest: seq<int>, last: set<int>, next: int)
    requires RowNumbers(keys) && Serve(keys, after, limit).Success? && Serve(keys, after, limit).value.next.Some?
    requires keys <= last && ParseCursor(after).Success? && Exceeds(rest, next)
    requires next == LastOf(Serve(keys, after, limit).value.rows, CursorValue(after))
    requires forall k :: k in Serve(keys, after, limit).value.rows + rest <==> k in last && k > CursorValue(after)
    ensures NoneAppears(keys, last, CursorValue(after), next)
    ensures forall k :: k in rest <==> k in last && k > next
  {
    var rows := Serve(keys, after, limit).value.rows;
    PageIsSelected(keys, after, limit);
    NextCursor(keys, after, limit);
    forall k ensures k in rest <==> k in last && k > next {
      assert k in rows + rest <==> k in rows || k in rest;
      if k in last && k > next {
        BeyondLast(rows, CursorValue(after), k);
      }
    }
    forall k | k in last && k !in keys && k > CursorValue(after) ensures k > next {
      assert k in rows + rest;
    }
  }

  lemma {:induction false} ExactMeansNothingBehind(views: seq<set<int>>, after: Option<Text>, limit: int)
    requires (forall v | v in views :: RowNumbers(v)) && EndsWith(views, after, limit) && ParseCursor(after).Success?
    requires Growing(views) && ExactScan(views, after, limit)
    ensures NothingBehind(views, after, limit)
    decreases |views|
  {
    var page, last := Serve(views[0], after, limit).value, views[|views| - 1];
    if page.next.Some? {
      var rest := Follow(views[1..], page.next, limit);
      NextCursor(views[0], after, limit);
      FollowIncreasing(views[1..], page.next, limit);
      assert Follow(views, after, limit) == page.rows + rest;
      RestIsExact(views[0], after, limit, rest, last, CursorValue(page.next));
      assert views[1..][|views| - 2] == last;
      GrowingTail(views);
      ExactMeansNothingBehind(views[1..], page.next, limit);
    }
  }

  /**
    On a table that only gains rows, a scan is exact if and only if no row
    appears behind the cursor while it goes on.
   */
  lemma ScanIsExactIff(views: seq<set<int>>, after: Option<Text>, limit: int)
    requires (forall v | v in views :: RowNumbers(v)) && EndsWith(views, after, limit) && ParseCursor(after).Success?
    requires Growing(views)
    ensures ExactScan(views, after, limit) <==> NothingBehind(views, after, limit)
  {
    if NothingBehind(views, after, limit) {
      NothingBehindIsEnough(views, after, limit);
    } else if ExactScan(views, after, limit) {
      ExactMeansNothingBehind(views, after, limit);
    }
  }

  lemma GrowingTail(views: seq<set<int>>)
    requires views != [] && Growing(views)
    ensures Growing(views[1..]) && views[0] <= views[|views| - 1]
  {
    forall i, j | 0 <= i <= j < |views[1..]| ensures views[1..][i] <= views[1..][j] {
      assert views[1..][i] == views[i + 1] && views[1..][j] == views[j + 1];
    }
  }

  lemma AppendOnlyTail(views: seq<set<int>>)
    requires views != [] && AppendOnly(views)
    ensures AppendOnly(views[1..])
  {
    forall i, j | 0 <= i <= j < |views[1..]|
      ensures views[1..][i] <= views[1..][j]
      ensures forall k, k' | k in views[1..][i] && k' in views[1..][j] && k' !in views[1..][i] :: k < k'
    {
      assert views[1..][i] == views[i + 1] && views[1..][j] == views[j + 1];
    }
  }

  /** Rows that come above all others are never behind a cursor. */
  lemma {:induction false} AppendOnlyLeavesNothingBehind(views: seq<set<int>>, after: Option<Text>, limit: int)
    requires (forall v | v in views :: RowNumbers(v)) && EndsWith(views, after, limit) && ParseCursor(after).Success?
    requires AppendOnly(views)
    ensures NothingBehind(views, after, limit)
    decreases |views|
  {
    if Serve(views[0], after, limit).value.next.Some? {
      NextCursor(views[0], after, limit);
      AppendOnlyTail(views);
      AppendOnlyLeavesNothingBehind(views[1..], Serve(views[0], after, limit).value.next, limit);
    }
  }

  /** On an append-only table the scan returns exactly the rows present at its end. */
  lemma ScanIsExact(views: seq<set<int>>, after: Option<Text>, limit: int)
    requires (forall v | v in views :: RowNumbers(v)) && EndsWith(views, after, limit) && ParseCursor(after).Success?
    requires AppendOnly(views)
    ensures ExactScan(views, after, limit)
  {
    AppendOnlyLeavesNothingBehind(views, after, limit);
    NothingBehindIsEnough(views, after, limit);
  }

  /** Once nothing is appended any more, at most one page per remaining row is left. */
  lemma {:induction false} ScanTerminates(keys: set<int>, after: Option<Text>, limit: int) returns (pages: nat)
    requires RowNumbers(keys) && ParseCursor(after).Success? && 1 <= limit <= MAX_LIMIT
    ensures pages <= |Above(keys, CursorValue(after))| + 1
    ensures EndsWith(seq(pages, _ => keys), after, limit)
    decreases |Above(keys, CursorValue(after))|
  {
    var page := Serve(keys, after, limit).value;
    if page.next.None? {
      pages := 1;
      assert seq(1, _ => keys)[0] == keys;
    } else {
      NextCursor(keys, after, limit);
      var here, there := Above(keys, CursorValue(after)), Above(keys, CursorValue(page.next));
      assert CursorValue(page.next) in here && CursorValue(page.next) !in there
             && there <= here - {CursorValue(page.next)};
      assert |here| == |there| + |here - there|;
      assert CursorValue(page.next) in here - there;
      var rest := ScanTerminates(keys, page.next, limit);
      pages := rest + 1;
      assert seq(pages, _ => keys)[1..] == seq(rest, _ => keys);
    }
  }

  /** A row that appears below the cursor is skipped. */
  lemma LateRowIsSkipped()
    ensures var views := [{2, 3}, {1, 2, 3}];
            && EndsWith(views, None, 1) && Growing(views) && !NothingBehind(views, None, 1)
            && 1 in views[1] && 1 !in Follow(views, None, 1)
  {
    var views := [{2, 3}, {1, 2, 3}];
    var first := Serve(views[0], None, 1).value;
    assert Above({2, 3}, 0) == {2, 3};
    assert first.rows == [2] by {
      assert Select({2, 3}, 2, 0) == [];
    }
    assert 3 in Above({2, 3}, 2);
    NextCursor(views[0], None, 1);
    var second := Serve(views[1], first.next, 1).value;
    assert Above({1, 2, 3}, 2) == {3};
    assert second.rows == [3] by {
      assert Select({1, 2, 3}, 3, 0) == [];
    }
    assert Above({1, 2, 3}, 3) == {};
    assert views[1..] == [views[1]];
    assert 1 in views[1] && 1 !in views[0] && 1 > 0;
  }
}
