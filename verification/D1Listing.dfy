/**
  Scans of the D1 tables while they grow: because commits are fenced by the
  epoch, row numbers are handed out in commit order, and a scan that follows
  its cursors returns exactly the matching rows present at its end.
 */
module D1Listing {
  import opened Results
  import opened Text
  import opened SequentialStore
  import opened Invariants
  import opened History
  import opened D1Tables
  import opened D1Machine
  import opened D1Theorems
  import opened Paging
  import Domain

  /** The row numbers a listing sees. */
  function View(t: Tables, listing: Listing): set<int> {
    match listing
    case Flags(org, includeArchived) =>
      set id | id in t.flags && id.org == org && (includeArchived || !t.flags[id].record.archived) :: t.flags[id].rowSeq
    case Receipts(_, _, _) =>
      set i | 0 <= i < |t.receipts| && ListsReceipt(listing, t.receipts[i]) :: t.receipts[i].rowSeq
  }

  /** They are the numbers of exactly the rows that match. */
  lemma ViewMeans(t: Tables, listing: Listing, k: int)
    requires TablesInv(t)
    ensures k in View(t, listing) <==> HasRow(Abs(t), listing, k)
  {
    match listing
    case Flags(org, includeArchived) => FlagViewMeans(t, org, includeArchived, k);
    case Receipts(_, _, _) =>
  }

  lemma FlagViewMeans(t: Tables, org: Text, includeArchived: bool, k: int)
    requires TablesInv(t)
    ensures k in View(t, Flags(org, includeArchived)) <==> HasFlag(Abs(t).flags, org, includeArchived, k)
  {
    assert forall id | id in t.flags ::
             && id in Abs(t).flags && Abs(t).flags[id] == t.flags[id].record
             && t.flags[id].rowSeq == t.flags[id].record.rowSeq && t.flags[id].record.org == id.org;
    assert forall id | id in Abs(t).flags :: id in t.flags;
  }

  /** Moments of a run, in order. */
  predicate Moments(moments: seq<nat>, actions: seq<Action>) {
    && (forall i | 0 <= i < |moments| :: moments[i] <= |actions|)
    && forall i, j | 0 <= i <= j < |moments| :: moments[i] <= moments[j]
  }

  /** What a listing shows at these moments. */
  function Views(sha: Domain.Sha256, actions: seq<Action>, moments: seq<nat>, listing: Listing): seq<set<int>>
    requires Moments(moments, actions)
  {
    seq(|moments|, i requires 0 <= i < |moments| => View(Execute(sha, actions[..moments[i]]).tables, listing))
  }

  lemma ViewGrows(t: Tables, t': Tables, listing: Listing)
    requires TablesInv(t) && TablesInv(t') && GrowsUpward(t, t') && KeepsRows(listing)
    ensures View(t, listing) <= View(t', listing)
    ensures forall k, k' | k in View(t, listing) && k' in View(t', listing) && k' !in View(t, listing) :: k < k'
  {
    match listing
    case Flags(org, _) => FlagViewGrows(t, t', listing);
    case Receipts(_, _, _) => ReceiptViewGrows(t, t', listing);
  }

  lemma FlagViewGrows(t: Tables, t': Tables, listing: Listing)
    requires TablesInv(t) && GrowsUpward(t, t') && listing.Flags? && KeepsRows(listing)
    ensures View(t, listing) <= View(t', listing)
    ensures forall k, k' | k in View(t, listing) && k' in View(t', listing) && k' !in View(t, listing) :: k < k'
  {
    forall k' | k' in View(t', listing) ensures k' in View(t, listing) || k' >= t.epoch {
      var id :| id in t'.flags && id.org == listing.org && t'.flags[id].rowSeq == k';
    }
    forall k | k in View(t, listing) ensures k in View(t', listing) {
      var id :| id in t.flags && id.org == listing.org && t.flags[id].rowSeq == k;
      assert id in t'.flags;
    }
  }

  lemma ReceiptViewGrows(t: Tables, t': Tables, listing: Listing)
    requires TablesInv(t) && GrowsUpward(t, t') && listing.Receipts?
    ensures View(t, listing) <= View(t', listing)
    ensures forall k, k' | k in View(t, listing) && k' in View(t', listing) && k' !in View(t, listing) :: k < k'
  {
    forall k' | k' in View(t', listing) ensures k' in View(t, listing) || k' > t.sequence {
      var i :| 0 <= i < |t'.receipts| && ListsReceipt(listing, t'.receipts[i]) && t'.receipts[i].rowSeq == k';
      if i < |t.receipts| {
        assert t'.receipts[i] == t.receipts[i];
      }
    }
    forall k | k in View(t, listing) ensures k in View(t', listing) {
      var i :| 0 <= i < |t.receipts| && ListsReceipt(listing, t.receipts[i]) && t.receipts[i].rowSeq == k;
      assert t'.receipts[i] == t.receipts[i];
    }
  }

  lemma {:induction false} ViewNumbers(sha: Domain.Sha256, actions: seq<Action>, listing: Listing)
    ensures TablesInv(Execute(sha, actions).tables)
    ensures RowNumbers(View(Execute(sha, actions).tables, listing))
  {
    ExecutionInv(sha, actions);
  }

  lemma {:induction false} ViewsNumbered(sha: Domain.Sha256, actions: seq<Action>, moments: seq<nat>, listing: Listing)
    requires Moments(moments, actions)
    ensures forall v | v in Views(sha, actions, moments, listing) :: RowNumbers(v)
  {
    var views := Views(sha, actions, moments, listing);
    forall v | v in views ensures RowNumbers(v) {
      var i :| 0 <= i < |views| && views[i] == v;
      ViewNumbers(sha, actions[..moments[i]], listing);
    }
  }

  lemma {:induction false} ViewsAppendOnly(sha: Domain.Sha256, actions: seq<Action>, moments: seq<nat>,
                                           listing: Listing)
    requires Moments(moments, actions) && KeepsRows(listing)
    ensures AppendOnly(Views(sha, actions, moments, listing))
  {
    var views := Views(sha, actions, moments, listing);
    forall i, j | 0 <= i <= j < |views|
      ensures views[i] <= views[j]
      ensures forall k, k' | k in views[i] && k' in views[j] && k' !in views[i] :: k < k'
    {
      var later := actions[..moments[j]];
      assert later[..moments[i]] == actions[..moments[i]];
      D1RunGrowsUpward(sha, later, moments[i]);
      ViewNumbers(sha, later, listing);
      ViewNumbers(sha, actions[..moments[i]], listing);
      ViewGrows(Execute(sha, actions[..moments[i]]).tables, Execute(sha, later).tables, listing);
    }
  }

  /** The store that the tables represent at moment `i`. */
  function StoreAt(sha: Domain.Sha256, actions: seq<Action>, moments: seq<nat>, i: nat): Store
    requires Moments(moments, actions) && i < |moments|
  {
    Abs(Execute(sha, actions[..moments[i]]).tables)
  }

  lemma {:induction false} ViewAtMeans(sha: Domain.Sha256, actions: seq<Action>, moments: seq<nat>, listing: Listing,
                                       i: nat, k: int)
    requires Moments(moments, actions) && i < |moments|
    ensures k in Views(sha, actions, moments, listing)[i] <==> HasRow(StoreAt(sha, actions, moments, i), listing, k)
  {
    ViewNumbers(sha, actions[..moments[i]], listing);
    ViewMeans(Execute(sha, actions[..moments[i]]).tables, listing, k);
  }

  /**
    A complete scan of receipts, or of flags with archived ones, page after page
    while any clients commit: strictly increasing, and exactly the rows that
    match when the last page is served.
   */
  lemma {:induction false} D1ScanIsExact(sha: Domain.Sha256, actions: seq<Action>, moments: seq<nat>, listing: Listing,
                                         limit: int)
    requires Moments(moments, actions) && moments != [] && KeepsRows(listing)
    ensures var views := Views(sha, actions, moments, listing);
            && (forall v | v in views :: RowNumbers(v))
            && (EndsWith(views, None, limit) ==>
                  && Increasing(Follow(views, None, limit))
                  && ReturnsExactly(Follow(views, None, limit), StoreAt(sha, actions, moments, |moments| - 1), listing))
  {
    var views := Views(sha, actions, moments, listing);
    ViewsNumbered(sha, actions, moments, listing);
    ViewsAppendOnly(sha, actions, moments, listing);
    if EndsWith(views, None, limit) {
      assert views[|views| - 1] in views;
      FollowIncreasing(views, None, limit);
      ScanIsExact(views, None, limit);
      forall k
        ensures k in Follow(views, None, limit)
                <==> HasRow(StoreAt(sha, actions, moments, |moments| - 1), listing, k)
      {
        ViewAtMeans(sha, actions, moments, listing, |moments| - 1, k);
      }
    }
  }

  // ---------------------------------------------------------------- live flags

  /** Between two moments of a run rows stay, and an archived flag stays archived. */
  lemma {:induction false} RowsStay(sha: Domain.Sha256, actions: seq<Action>, moments: seq<nat>, i: nat, j: nat)
    requires Moments(moments, actions) && i <= j < |moments|
    ensures Extends(StoreAt(sha, actions, moments, i), StoreAt(sha, actions, moments, j))
  {
    var early, late := actions[..moments[i]], actions[..moments[j]];
    assert late[..moments[i]] == early;
    var s, s' := Execute(sha, early), Execute(sha, late);
    ExecutionInv(sha, early);
    ExecutionInv(sha, late);
    RunIsLater(sha, late, moments[i]);
    assert s'.log[..|s.log|] == s.log;
    Grows(sha, s'.log, |s.log|, |s'.log|);
    AtEnd(sha, s'.log);
  }

  /** A flag that is there at the start and live at the end is listed all the time. */
  lemma {:induction false} LiveThroughout(sha: Domain.Sha256, actions: seq<Action>, moments: seq<nat>, org: Text,
                                          id: FlagId, i: nat)
    requires Moments(moments, actions) && i < |moments| && id in StoreAt(sha, actions, moments, 0).flags
    requires StoreAt(sha, actions, moments, 0).flags[id].org == org
    requires id in StoreAt(sha, actions, moments, |moments| - 1).flags
    requires !StoreAt(sha, actions, moments, |moments| - 1).flags[id].archived
    ensures StoreAt(sha, actions, moments, 0).flags[id].rowSeq in Views(sha, actions, moments, Flags(org, false))[i]
  {
    RowsStay(sha, actions, moments, 0, i);
    RowsStay(sha, actions, moments, i, |moments| - 1);
    var first, here := StoreAt(sha, actions, moments, 0), StoreAt(sha, actions, moments, i);
    FlagsKeepOrganization(sha, actions, moments, 0, id);
    FlagsKeepOrganization(sha, actions, moments, i, id);
    assert FlagEvolves(first.flags[id], here.flags[id]);
    assert HasFlag(here.flags, org, false, first.flags[id].rowSeq);
    ViewAtMeans(sha, actions, moments, Flags(org, false), i, first.flags[id].rowSeq);
  }

  lemma {:induction false} FlagsKeepOrganization(sha: Domain.Sha256, actions: seq<Action>, moments: seq<nat>, i: nat,
                                                 id: FlagId)
    requires Moments(moments, actions) && i < |moments| && id in StoreAt(sha, actions, moments, i).flags
    ensures StoreAt(sha, actions, moments, i).flags[id].org == id.org
  {
    ExecutionInv(sha, actions[..moments[i]]);
  }

  /**
    A complete scan of live flags: strictly increasing; every flag that is there
    when the scan starts and live when it ends is returned; and every row that is
    returned was a live flag of the organization when a page was served.
   */
  lemma {:induction false} D1LiveFlagScan(sha: Domain.Sha256, actions: seq<Action>, moments: seq<nat>, org: Text,
                                          limit: int)
    requires Moments(moments, actions) && moments != []
    ensures var views := Views(sha, actions, moments, Flags(org, false));
            var first, last := StoreAt(sha, actions, moments, 0), StoreAt(sha, actions, moments, |moments| - 1);
            && (forall v | v in views :: RowNumbers(v))
            && (EndsWith(views, None, limit) ==>
                  && Increasing(Follow(views, None, limit))
                  && (forall id | id in first.flags && first.flags[id].org == org && id in last.flags
                      && !last.flags[id].archived ::
                        first.flags[id].rowSeq in Follow(views, None, limit))
                  && (forall k | k in Follow(views, None, limit) ::
                        exists i: nat :: i < |moments|
                          && HasFlag(StoreAt(sha, actions, moments, i).flags, org, false, k)))
  {
    var views := Views(sha, actions, moments, Flags(org, false));
    ViewsNumbered(sha, actions, moments, Flags(org, false));
    if EndsWith(views, None, limit) {
      FollowIncreasing(views, None, limit);
      var first, last := StoreAt(sha, actions, moments, 0), StoreAt(sha, actions, moments, |moments| - 1);
      forall id | id in first.flags && first.flags[id].org == org && id in last.flags && !last.flags[id].archived
        ensures first.flags[id].rowSeq in Follow(views, None, limit)
      {
        forall i: nat | i < |views| ensures first.flags[id].rowSeq in views[i] {
          LiveThroughout(sha, actions, moments, org, id, i);
        }
        assert views[0] in views && first.flags[id].rowSeq in views[0];
        FollowKeepsPresentRows(views, None, limit, first.flags[id].rowSeq);
      }
      forall k | k in Follow(views, None, limit)
        ensures exists i: nat :: i < |moments| && HasFlag(StoreAt(sha, actions, moments, i).flags, org, false, k)
      {
        FollowOnlyServed(views, None, limit, k);
        var i: nat :| i < |views| && k in views[i];
        ViewAtMeans(sha, actions, moments, Flags(org, false), i, k);
      }
    }
  }
}
