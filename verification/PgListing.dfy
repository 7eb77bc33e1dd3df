/**
  Scans of the PostgreSQL tables while transactions commit. Committed rows stay,
  so a scan returns every row that is there when it starts; but numbers are not
  committed in order, and a row that appears behind the cursor is skipped.
 */
module PgListing {
  import opened Results
  import opened Text
  import opened Domain
  import opened SequentialStore
  import opened Invariants
  import opened History
  import opened PgTransactions
  import opened PgMachine
  import opened PgTheorems
  import opened PgNumbers
  import opened Paging

  /** The row numbers a listing sees. */
  function View(store: Store, listing: Listing): set<int> {
    match listing
    case Flags(org, includeArchived) =>
      set id | id in store.flags && id.org == org && (includeArchived || !store.flags[id].archived)
        :: store.flags[id].rowSeq
    case Receipts(_, _, _) =>
      set i | 0 <= i < |store.receipts| && ListsReceipt(listing, store.receipts[i]) :: store.receipts[i].rowSeq
  }

  /** They are the numbers of exactly the rows that match. */
  lemma ViewMeans(store: Store, listing: Listing, k: int)
    requires FlagsInv(store)
    ensures k in View(store, listing) <==> HasRow(store, listing, k)
  {
    assert forall id | id in store.flags :: store.flags[id].org == id.org;
  }

  /** Moments of a run, in order. */
  predicate Moments(moments: seq<nat>, actions: seq<Action>) {
    && (forall i | 0 <= i < |moments| :: moments[i] <= |actions|)
    && forall i, j | 0 <= i <= j < |moments| :: moments[i] <= moments[j]
  }

  /** What a listing shows at these moments. */
  function Views(sha: Sha256, actions: seq<Action>, moments: seq<nat>, listing: Listing): seq<set<int>>
    requires Moments(moments, actions)
  {
    seq(|moments|, i requires 0 <= i < |moments| => View(Execute(sha, actions[..moments[i]]).tables.store, listing))
  }

  lemma FlagViewGrows(a: Store, b: Store, listing: Listing)
    requires Extends(a, b) && listing.Flags? && KeepsRows(listing)
    ensures View(a, listing) <= View(b, listing)
  {
    forall k | k in View(a, listing) ensures k in View(b, listing) {
      var id :| id in a.flags && id.org == listing.org && a.flags[id].rowSeq == k;
      assert FlagEvolves(a.flags[id], b.flags[id]);
    }
  }

  lemma ReceiptViewGrows(a: Store, b: Store, listing: Listing)
    requires a.receipts <= b.receipts && listing.Receipts?
    ensures View(a, listing) <= View(b, listing)
  {
    forall k | k in View(a, listing) ensures k in View(b, listing) {
      var i :| 0 <= i < |a.receipts| && ListsReceipt(listing, a.receipts[i]) && a.receipts[i].rowSeq == k;
      assert b.receipts[i] == a.receipts[i];
    }
  }

  /** Between two moments of a run committed rows stay and keep their numbers. */
  lemma {:induction false} CommittedRowsStay(sha: Sha256, actions: seq<Action>, n: nat)
    requires n <= |actions|
    ensures Extends(Execute(sha, actions[..n]).tables.store, Execute(sha, actions).tables.store)
  {
    var s, s' := Execute(sha, actions[..n]), Execute(sha, actions);
    ExecutionInv(sha, actions[..n]);
    ExecutionInv(sha, actions);
    RunIsLater(sha, actions, n);
    assert s'.log[..|s.log|] == s.log;
    Grows(sha, s'.log, |s.log|, |s'.log|);
    AtEnd(sha, s'.log);
  }

  lemma {:induction false} ViewNumbers(sha: Sha256, actions: seq<Action>, listing: Listing)
    ensures RowNumbers(View(Execute(sha, actions).tables.store, listing))
  {
    PgRowNumbersAreUnique(sha, actions);
  }

  lemma {:induction false} ViewsNumbered(sha: Sha256, actions: seq<Action>, moments: seq<nat>, listing: Listing)
    requires Moments(moments, actions)
    ensures forall v | v in Views(sha, actions, moments, listing) :: RowNumbers(v)
  {
    var views := Views(sha, actions, moments, listing);
    forall v | v in views ensures RowNumbers(v) {
      var i :| 0 <= i < |views| && views[i] == v;
      ViewNumbers(sha, actions[..moments[i]], listing);
    }
  }

  /** The committed rows at moment `i`. */
  function StoreAt(sha: Sha256, actions: seq<Action>, moments: seq<nat>, i: nat): Store
    requires Moments(moments, actions) && i < |moments|
  {
    Execute(sha, actions[..moments[i]]).tables.store
  }

  lemma {:induction false} RowsStay(sha: Sha256, actions: seq<Action>, moments: seq<nat>, i: nat, j: nat)
    requires Moments(moments, actions) && i <= j < |moments|
    ensures Extends(StoreAt(sha, actions, moments, i), StoreAt(sha, actions, moments, j))
  {
    var later := actions[..moments[j]];
    assert later[..moments[i]] == actions[..moments[i]];
    CommittedRowsStay(sha, later, moments[i]);
  }

  lemma {:induction false} ViewsGrow(sha: Sha256, actions: seq<Action>, moments: seq<nat>, listing: Listing)
    requires Moments(moments, actions) && KeepsRows(listing)
    ensures Growing(Views(sha, actions, moments, listing))
  {
    var views := Views(sha, actions, moments, listing);
    forall i, j | 0 <= i <= j < |views| ensures views[i] <= views[j] {
      RowsStay(sha, actions, moments, i, j);
      if listing.Flags? {
        FlagViewGrows(StoreAt(sha, actions, moments, i), StoreAt(sha, actions, moments, j), listing);
      } else {
        ReceiptViewGrows(StoreAt(sha, actions, moments, i), StoreAt(sha, actions, moments, j), listing);
      }
    }
  }

  lemma {:induction false} ViewAtMeans(sha: Sha256, actions: seq<Action>, moments: seq<nat>, listing: Listing, i: nat,
                                       k: int)
    requires Moments(moments, actions) && i < |moments|
    ensures k in Views(sha, actions, moments, listing)[i] <==> HasRow(StoreAt(sha, actions, moments, i), listing, k)
  {
    ExecutionInv(sha, actions[..moments[i]]);
    ViewMeans(StoreAt(sha, actions, moments, i), listing, k);
  }

  lemma SameAsLastView(views: seq<set<int>>, limit: int, store: Store, listing: Listing)
    requires (forall v | v in views :: RowNumbers(v)) && views != []
    requires forall k :: k in views[|views| - 1] <==> HasRow(store, listing, k)
    ensures ReturnsExactly(Follow(views, None, limit), store, listing) <==> ExactScan(views, None, limit)
  {
    assert views[|views| - 1] in views;
  }

  lemma {:induction false} ReturnsExactlyIff(sha: Sha256, actions: seq<Action>, moments: seq<nat>, listing: Listing,
                                             limit: int)
    requires Moments(moments, actions) && moments != [] && KeepsRows(listing)
    requires forall v | v in Views(sha, actions, moments, listing) :: RowNumbers(v)
    requires EndsWith(Views(sha, actions, moments, listing), None, limit)
    ensures var views := Views(sha, actions, moments, listing);
            ReturnsExactly(Follow(views, None, limit), StoreAt(sha, actions, moments, |moments| - 1), listing)
            <==> NothingBehind(views, None, limit)
  {
    var views, last := Views(sha, actions, moments, listing), StoreAt(sha, actions, moments, |moments| - 1);
    ViewsGrow(sha, actions, moments, listing);
    forall k ensures k in views[|views| - 1] <==> HasRow(last, listing, k) {
      ViewAtMeans(sha, actions, moments, listing, |moments| - 1, k);
    }
    SameAsLastView(views, limit, last, listing);
    ScanIsExactIff(views, None, limit);
  }

  /**
    A complete scan of receipts, or of flags with archived ones, while
    transactions commit: strictly increasing, with every row that matches at its
    start, and exact if and only if no row is committed behind the cursor.
   */
  lemma {:induction false} PgScanIsExactIff(sha: Sha256, actions: seq<Action>, moments: seq<nat>, listing: Listing,
                                            limit: int)
    requires Moments(moments, actions) && moments != [] && KeepsRows(listing)
    ensures var views := Views(sha, actions, moments, listing);
            && (forall v | v in views :: RowNumbers(v))
            && (EndsWith(views, None, limit) ==>
                  && Increasing(Follow(views, None, limit))
                  && (forall k | HasRow(StoreAt(sha, actions, moments, 0), listing, k) ::
                        k in Follow(views, None, limit))
                  && (ReturnsExactly(Follow(views, None, limit), StoreAt(sha, actions, moments, |moments| - 1), listing)
                      <==> NothingBehind(views, None, limit)))
  {
    var views := Views(sha, actions, moments, listing);
    ViewsNumbered(sha, actions, moments, listing);
    if EndsWith(views, None, limit) {
      FollowIncreasing(views, None, limit);
      ReturnsExactlyIff(sha, actions, moments, listing, limit);
      ViewsGrow(sha, actions, moments, listing);
      forall k | HasRow(StoreAt(sha, actions, moments, 0), listing, k) ensures k in Follow(views, None, limit) {
        ViewAtMeans(sha, actions, moments, listing, 0, k);
        assert views[0] in views && forall i | 0 <= i < |views| :: k in views[i];
        FollowKeepsPresentRows(views, None, limit, k);
      }
    }
  }

  // ---------------------------------------------------------------- live flags

  /** A flag that is there at the start and live at the end is listed all the time. */
  lemma {:induction false} LiveThroughout(sha: Sha256, actions: seq<Action>, moments: seq<nat>, org: Text, id: FlagId,
                                          i: nat)
    requires Moments(moments, actions) && i < |moments| && id in StoreAt(sha, actions, moments, 0).flags
    requires StoreAt(sha, actions, moments, 0).flags[id].org == org
    requires id in StoreAt(sha, actions, moments, |moments| - 1).flags
    requires !StoreAt(sha, actions, moments, |moments| - 1).flags[id].archived
    ensures StoreAt(sha, actions, moments, 0).flags[id].rowSeq in Views(sha, actions, moments, Flags(org, false))[i]
  {
    RowsStay(sha, actions, moments, 0, i);
    RowsStay(sha, actions, moments, i, |moments| - 1);
    var first, here := StoreAt(sha, actions, moments, 0), StoreAt(sha, actions, moments, i);
    FlagsKeepOrganization(sha, actions, moments, 0, id);
    FlagsKeepOrganization(sha, actions, moments, i, id);
    assert FlagEvolves(first.flags[id], here.flags[id]);
    assert HasFlag(here.flags, org, false, first.flags[id].rowSeq);
    ViewAtMeans(sha, actions, moments, Flags(org, false), i, first.flags[id].rowSeq);
  }

  lemma {:induction false} FlagsKeepOrganization(sha: Sha256, actions: seq<Action>, moments: seq<nat>, i: nat,
                                                 id: FlagId)
    requires Moments(moments, actions) && i < |moments| && id in StoreAt(sha, actions, moments, i).flags
    ensures StoreAt(sha, actions, moments, i).flags[id].org == id.org
  {
    ExecutionInv(sha, actions[..moments[i]]);
  }

  /**
    A complete scan of live flags: strictly increasing; every flag that is there
    when the scan starts and live when it ends is returned; and every row that is
    returned was a live flag of the organization when a page was served.
   */
  lemma {:induction false} PgLiveFlagScan(sha: Sha256, actions: seq<Action>, moments: seq<nat>, org: Text, limit: int)
    requires Moments(moments, actions) && moments != []
    ensures var views := Views(sha, actions, moments, Flags(org, false));
            var first, last := StoreAt(sha, actions, moments, 0), StoreAt(sha, actions, moments, |moments| - 1);
            && (forall v | v in views :: RowNumbers(v))
            && (EndsWith(views, None, limit) ==>
                  && Increasing(Follow(views, None, limit))
                  && (forall id | id in first.flags && first.flags[id].org == org && id in last.flags
                      && !last.flags[id].archived ::
                        first.flags[id].rowSeq in Follow(views, None, limit))
                  && (forall k | k in Follow(views, None, limit) ::
                        exists i: nat :: i < |moments|
                          && HasFlag(StoreAt(sha, actions, moments, i).flags, org, false, k)))
  {
    var views := Views(sha, actions, moments, Flags(org, false));
    ViewsNumbered(sha, actions, moments, Flags(org, false));
    if EndsWith(views, None, limit) {
      FollowIncreasing(views, None, limit);
      var first, last := StoreAt(sha, actions, moments, 0), StoreAt(sha, actions, moments, |moments| - 1);
      forall id | id in first.flags && first.flags[id].org == org && id in last.flags && !last.flags[id].archived
        ensures first.flags[id].rowSeq in Follow(views, None, limit)
      {
        forall i: nat | i < |views| ensures first.flags[id].rowSeq in views[i] {
          LiveThroughout(sha, actions, moments, org, id, i);
        }
        assert views[0] in views && first.flags[id].rowSeq in views[0];
        FollowKeepsPresentRows(views, None, limit, first.flags[id].rowSeq);
      }
      forall k | k in Follow(views, None, limit)
        ensures exists i: nat :: i < |moments| && HasFlag(StoreAt(sha, actions, moments, i).flags, org, false, k)
      {
        FollowOnlyServed(views, None, limit, k);
        var i: nat :| i < |views| && k in views[i];
        ViewAtMeans(sha, actions, moments, Flags(org, false), i, k);
      }
    }
  }
}
