/**
 * The rejected-receipts banner of src/App.jsx: how many receipts are
 * rejected, when the banner is raised, and how dismissing it (with the
 * button or by opening the receipts tab) records the instant it was seen
 * in the browser's storage.
 */
module Banner {
  import opened Wrappers
  import opened Arrays
  import opened Records
  import opened Text

  const EXPENSES_TAB: string := "gastos"
  const FIRST_TAB: string := "millas"

  predicate IsRejected(e: Expense) {
    e.status == "rejected"
  }

  function Rejected(): Expense -> bool {
    (e: Expense) => IsRejected(e)
  }

  /** The number `rejectedCount` returns: the length of the rejected receipts. */
  function RejectedCount(expenses: seq<Expense>): (n: nat)
    ensures n <= |expenses|
  {
    |Filter(expenses, Rejected())|
  }

  /** No receipt counts exactly when none is rejected; the count adds up over concatenation. */
  lemma RejectedCountSpec(expenses: seq<Expense>, more: seq<Expense>)
    ensures RejectedCount(expenses) == 0 <==> forall e :: e in expenses ==> !IsRejected(e)
    ensures RejectedCount(expenses + more) == RejectedCount(expenses) + RejectedCount(more)
  {
    FilterMembers(expenses, Rejected());
    FilterAppend(expenses, more, Rejected());
    if RejectedCount(expenses) != 0 {
      assert Filter(expenses, Rejected())[0] in Filter(expenses, Rejected());
    }
  }

  /** `(e.reviewedAt?.seconds || 0) * 1000`: the review instant, 0 when missing. */
  function ReviewMs(e: Expense): int {
    e.reviewedAt.GetOr(0) * 1000
  }

  /** The review is later than the last time the banner was seen (never when that is NaN). */
  predicate ReviewedSince(e: Expense, seenAt: Option<int>) {
    seenAt.Some? && ReviewMs(e) > seenAt.value
  }

  /** `rejected.some(...)`: some rejected receipt was reviewed since the banner was seen. */
  function HasNewRejection(expenses: seq<Expense>, seenAt: Option<int>): (b: bool)
    decreases |expenses|
  {
    if expenses == [] then false
    else
      var last := expenses[|expenses| - 1];
      HasNewRejection(expenses[..|expenses| - 1], seenAt) || (IsRejected(last) && ReviewedSince(last, seenAt))
  }

  /** HasNewRejection holds exactly when some receipt is rejected and reviewed since. */
  lemma {:induction false} HasNewRejectionSpec(expenses: seq<Expense>, seenAt: Option<int>)
    ensures HasNewRejection(expenses, seenAt) <==>
              exists i :: 0 <= i < |expenses| && IsRejected(expenses[i]) && ReviewedSince(expenses[i], seenAt)
    decreases |expenses|
  {
    if expenses != [] {
      var init := expenses[..|expenses| - 1];
      HasNewRejectionSpec(init, seenAt);
      if exists i :: 0 <= i < |init| && IsRejected(init[i]) && ReviewedSince(init[i], seenAt) {
        var i :| 0 <= i < |init| && IsRejected(init[i]) && ReviewedSince(init[i], seenAt);
        assert expenses[i] == init[i];
      }
      if exists i :: 0 <= i < |expenses| && IsRejected(expenses[i]) && ReviewedSince(expenses[i], seenAt) {
        var i :| 0 <= i < |expenses| && IsRejected(expenses[i]) && ReviewedSince(expenses[i], seenAt);
        if i < |init| {
          assert init[i] == expenses[i];
        }
      }
    }
  }

  /** Once the banner was seen after every review, nothing is new. */
  lemma NothingNewAfterDismiss(expenses: seq<Expense>, nowMs: int)
    requires forall e :: e in expenses ==> ReviewMs(e) <= nowMs
    ensures !HasNewRejection(expenses, Some(nowMs))
  {
    HasNewRejectionSpec(expenses, Some(nowMs));
    forall i | 0 <= i < |expenses|
      ensures !ReviewedSince(expenses[i], Some(nowMs))
    {
      assert expenses[i] in expenses;
    }
  }

  /** `parseInt(localStorage.getItem('lastRejectedSeenAt') || '0')`; None is NaN. */
  function InitialSeenAt(stored: Option<string>): (r: Option<int>)
    ensures stored.None? ==> r == Some(0)
  {
    var text := if stored.Some? && stored.value != "" then stored.value else "0";
    var n := ParseInt(text);
    if n.Some? then Some(n.value) else None
  }

  /** The instant a dismissal stores is the instant read back at the next start. */
  lemma StoredSeenAtRoundTrip(nowMs: nat)
    ensures InitialSeenAt(Some(NatToDecimal(nowMs))) == Some(nowMs)
  {
    var d := NatToDecimal(nowMs);
    ParseIntDigits(d);
    DecimalRoundTrip(nowMs);
  }

  /** The banner's part of the application state. */
  class BannerState {
    var activeTab: string
    var showRejectedBanner: bool
    var lastRejectedSeenAt: Option<int>
    var storedSeenAt: Option<string>     // localStorage 'lastRejectedSeenAt'

    constructor(stored: Option<string>)
      ensures activeTab == FIRST_TAB && !showRejectedBanner
      ensures lastRejectedSeenAt == InitialSeenAt(stored) && storedSeenAt == stored
    {
      activeTab := FIRST_TAB;
      showRejectedBanner := false;
      lastRejectedSeenAt := InitialSeenAt(stored);
      storedSeenAt := stored;
    }

    /**
     * The `rejectedCount` memo: count the rejected receipts and raise the
     * banner when one is new and the receipts tab is not open. It never
     * lowers the banner.
     */
    method RefreshRejected(expenses: seq<Expense>) returns (count: nat)
      modifies this`showRejectedBanner
      ensures count == RejectedCount(expenses)
      ensures showRejectedBanner ==
                (old(showRejectedBanner)
                 || (HasNewRejection(expenses, lastRejectedSeenAt) && activeTab != EXPENSES_TAB))
    {
      var rejected := Filter(expenses, Rejected());
      if HasNewRejection(expenses, lastRejectedSeenAt) && activeTab != EXPENSES_TAB {
        showRejectedBanner := true;
      }
      count := |rejected|;
    }

    /** `dismissBanner`: remember now as the last time seen, store it, hide the banner. */
    method DismissBanner(nowMs: nat)
      modifies this`lastRejectedSeenAt, this`storedSeenAt, this`showRejectedBanner
      ensures lastRejectedSeenAt == Some(nowMs) && storedSeenAt == Some(NatToDecimal(nowMs))
      ensures !showRejectedBanner
    {
      lastRejectedSeenAt := Some(nowMs);
      storedSeenAt := Some(NatToDecimal(nowMs));
      showRejectedBanner := false;
    }

    /** A tab change; the effect on `activeTab` dismisses the banner when the receipts tab opens. */
    method SwitchTab(tab: string, nowMs: nat)
      modifies this`activeTab, this`lastRejectedSeenAt, this`storedSeenAt, this`showRejectedBanner
      ensures activeTab == tab
      ensures tab != old(activeTab) && tab == EXPENSES_TAB ==>
                && lastRejectedSeenAt == Some(nowMs) && storedSeenAt == Some(NatToDecimal(nowMs))
                && !showRejectedBanner
      ensures !(tab != old(activeTab) && tab == EXPENSES_TAB) ==>
                && lastRejectedSeenAt == old(lastRejectedSeenAt) && storedSeenAt == old(storedSeenAt)
                && showRejectedBanner == old(showRejectedBanner)
    {
      if tab != activeTab {
        activeTab := tab;
        if tab == EXPENSES_TAB {
          DismissBanner(nowMs);
        }
      }
    }

    /** The banner is drawn while it is raised and some receipt is rejected. */
    predicate BannerShown(expenses: seq<Expense>)
      reads this`showRejectedBanner
    {
      showRejectedBanner && RejectedCount(expenses) > 0
    }
  }
}
