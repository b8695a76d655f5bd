/**
 * The receipts page: the list of the last thirty days' receipts, newest
 * first and at most fifty; the label shown for a receipt's status; and the
 * document updates written when the user sends a clarification or a
 * corrected photo.
 */
module Expenses {
  import opened Wrappers
  import opened Arrays
  import opened Records
  import opened Text

  /** Thirty days in milliseconds. */
  const WINDOW_MS: int := 30 * 24 * 60 * 60 * 1000

  /** The most receipts the list shows. */
  const MAX_SHOWN: nat := 50

  /** Seconds added to "now" for a receipt without an upload time, so that it sorts first. */
  const MISSING_AHEAD: real := 10000.0

  // ------------------------------------------------------------ the list

  /** The upload instant the window uses: seconds × 1000 when they are truthy, else now. */
  function UploadTime(e: Expense, nowMs: int): int {
    if e.uploadedAt.Some? && e.uploadedAt.value != 0 then e.uploadedAt.value * 1000 else nowMs
  }

  predicate IsRecent(e: Expense, nowMs: int) {
    UploadTime(e, nowMs) >= nowMs - WINDOW_MS
  }

  function Recent(nowMs: int): Expense -> bool {
    (e: Expense) => IsRecent(e, nowMs)
  }

  /** The sort key: the upload seconds, or now / 1000 + 10000 when they are missing (`??`). */
  function UploadKey(nowMs: int): Expense -> SortKey {
    (e: Expense) => match e.uploadedAt
         case Some(s) => Val(s as real)
         case None => Val(nowMs as real / 1000.0 + MISSING_AHEAD)
  }

  /**
   * `weeklyExpenses`: no list gives nothing; otherwise the receipts uploaded
   * within the last thirty days, sorted by upload time descending, first 50.
   */
  function WeeklyExpenses(expenses: Option<seq<Expense>>, nowMs: int): (r: seq<Expense>)
    ensures expenses.None? ==> r == []
    ensures |r| <= MAX_SHOWN
  {
    match expenses
    case None => []
    case Some(xs) => Take(SortDesc(Filter(xs, Recent(nowMs)), UploadKey(nowMs)), MAX_SHOWN)
  }

  lemma PrefixMultiset<T>(xs: seq<T>, n: nat)
    requires n <= |xs|
    ensures multiset(xs[..n]) <= multiset(xs)
  {
    assert xs == xs[..n] + xs[n..];
  }

  /** The list is sorted newest first (the slice of a sorted list is sorted). */
  lemma WeeklyExpensesSorted(expenses: seq<Expense>, nowMs: int)
    ensures SortedDesc(WeeklyExpenses(Some(expenses), nowMs), UploadKey(nowMs))
  {
    var sorted := SortDesc(Filter(expenses, Recent(nowMs)), UploadKey(nowMs));
    var r := WeeklyExpenses(Some(expenses), nowMs);
    assert r == sorted[..|r|];
    forall k | 0 <= k < |r| - 1
      ensures AtLeast(UploadKey(nowMs)(r[k]), UploadKey(nowMs)(r[k + 1]))
    {
      assert r[k] == sorted[k] && r[k + 1] == sorted[k + 1];
    }
  }

  /**
   * The list holds the recent receipts, each at most as often as they occur:
   * all of them when there are at most fifty, and exactly fifty otherwise.
   */
  lemma WeeklyExpensesCount(expenses: seq<Expense>, nowMs: int)
    ensures var r := WeeklyExpenses(Some(expenses), nowMs);
            var recent := Filter(expenses, Recent(nowMs));
            && multiset(r) <= multiset(recent)
            && (|recent| <= MAX_SHOWN ==> multiset(r) == multiset(recent))
            && (|recent| > MAX_SHOWN ==> |r| == MAX_SHOWN)
  {
    var recent := Filter(expenses, Recent(nowMs));
    var sorted := SortDesc(recent, UploadKey(nowMs));
    var r := WeeklyExpenses(Some(expenses), nowMs);
    assert r == sorted[..|r|];
    PrefixMultiset(sorted, |r|);
  }

  /**
   * The list holds the newest receipts: a recent receipt left out (one more
   * time than it is shown) is no newer than any receipt shown.
   */
  lemma WeeklyExpensesNewest(expenses: seq<Expense>, nowMs: int, e: Expense, k: nat)
    requires var r := WeeklyExpenses(Some(expenses), nowMs);
             multiset(r)[e] < multiset(Filter(expenses, Recent(nowMs)))[e] && k < |r|
    ensures var r := WeeklyExpenses(Some(expenses), nowMs);
            AtLeast(UploadKey(nowMs)(r[k]), UploadKey(nowMs)(e))
  {
    var recent := Filter(expenses, Recent(nowMs));
    var sorted := SortDesc(recent, UploadKey(nowMs));
    var r := WeeklyExpenses(Some(expenses), nowMs);
    assert r == sorted[..|r|];
    PrefixKeepsGreatest(sorted, UploadKey(nowMs), |r|, e, k);
  }

  /** Every receipt in the list is a receipt of the input uploaded within the window. */
  lemma WeeklyExpensesMembers(expenses: seq<Expense>, nowMs: int, e: Expense)
    requires e in WeeklyExpenses(Some(expenses), nowMs)
    ensures e in expenses && IsRecent(e, nowMs)
  {
    var recent := Filter(expenses, Recent(nowMs));
    WeeklyExpensesCount(expenses, nowMs);
    assert e in multiset(WeeklyExpenses(Some(expenses), nowMs));
    assert e in multiset(recent);
    FilterMembers(expenses, Recent(nowMs));
  }

  /**
   * When no receipt was uploaded in the future, the receipts without an
   * upload time come before every receipt that has one.
   */
  lemma MissingUploadTimeFirst(expenses: seq<Expense>, nowMs: int, i: nat, j: nat)
    requires forall e :: e in expenses && e.uploadedAt.Some? ==> e.uploadedAt.value * 1000 <= nowMs
    requires i < j < |WeeklyExpenses(Some(expenses), nowMs)|
    requires WeeklyExpenses(Some(expenses), nowMs)[j].uploadedAt.None?
    ensures WeeklyExpenses(Some(expenses), nowMs)[i].uploadedAt.None?
  {
    var r := WeeklyExpenses(Some(expenses), nowMs);
    WeeklyExpensesSorted(expenses, nowMs);
    SortedDescPairs(r, UploadKey(nowMs), i, j);
    WeeklyExpensesMembers(expenses, nowMs, r[i]);
  }

  // ------------------------------------------------------------ labels

  /** The label shown under a receipt. */
  function StatusLabel(status: string): (shown: string)
    ensures shown == "Aprobado" <==> status == "approved"
    ensures shown == "Rechazado" <==> status == "rejected"
    ensures shown == "En Revisi\U{00F3}n" <==> status != "approved" && status != "rejected"
  {
    if status == "approved" then "Aprobado"
    else if status == "rejected" then "Rechazado"
    else "En Revisi\U{00F3}n"
  }

  // ------------------------------------------------------------ updates

  /**
   * `handleSendAclaracion`: a blank text sends nothing; otherwise the receipt
   * gets the text as typed, goes back to pending review and is stamped with
   * the server time; nothing else about it changes.
   */
  function SendClarification(e: Expense, text: string, serverTime: int): (r: Option<Expense>)
    ensures r.None? <==> IsBlank(text)
    ensures r.Some? ==> r.value.status == "pending" && r.value.clientAclaracion == Some(text)
                        && r.value.updatedAt == Some(serverTime)
    ensures r.Some? ==> r.value.(status := e.status, clientAclaracion := e.clientAclaracion,
                                 updatedAt := e.updatedAt) == e
  {
    if IsBlank(text) then None
    else Some(e.(clientAclaracion := Some(text), status := "pending", updatedAt := Some(serverTime)))
  }

  /** `fotos_recibos/<uid>/<Date.now()>_correccion.jpg`. */
  function CorrectionPath(uid: string, nowMs: nat): string {
    "fotos_recibos/" + uid + "/" + NatToDecimal(nowMs) + "_correccion.jpg"
  }

  /** What a correction does: the receipt as updated, and the old photo it deletes. */
  datatype Correction = Correction(updated: Option<Expense>, deleted: Option<string>)

  /**
   * `handleCorrectionUpload`. `photo` is the captured data URL (None when the
   * capture was cancelled), `downloadUrl` the URL of the uploaded photo (None
   * when the upload failed) and `writeOk` the outcome of the document update.
   * Once the upload succeeds the old photo, if any, is deleted; when the
   * update also succeeds the receipt shows the new photo at the new path,
   * is pending review again and has no rejection reason.
   */
  function Correct(viewing: Option<Expense>, photo: Option<string>, downloadUrl: Option<string>,
                   writeOk: bool, uid: string, nowMs: nat, serverTime: int): (r: Correction)
    ensures r.updated.Some? <==> viewing.Some? && photo.Some? && photo.value != "" && downloadUrl.Some? && writeOk
    ensures r.deleted.Some? <==> viewing.Some? && photo.Some? && photo.value != "" && downloadUrl.Some?
                                 && viewing.value.storagePath != ""
    ensures r.deleted.Some? ==> r.deleted.value == viewing.value.storagePath
    ensures r.updated.Some? ==>
              && r.updated.value.status == "pending" && r.updated.value.rejectionReason.None?
              && r.updated.value.imageUrl == downloadUrl.value
              && r.updated.value.storagePath == CorrectionPath(uid, nowMs)
              && r.updated.value.updatedAt == Some(serverTime)
    ensures r.updated.Some? ==>
              var e := viewing.value;
              r.updated.value.(imageUrl := e.imageUrl, storagePath := e.storagePath, status := e.status,
                               rejectionReason := e.rejectionReason, updatedAt := e.updatedAt) == e
  {
    if viewing.None? || photo.None? || photo.value == "" || downloadUrl.None? then Correction(None, None)
    else
      var e := viewing.value;
      var deleted := if e.storagePath != "" then Some(e.storagePath) else None;
      if !writeOk then Correction(None, deleted)
      else
        Correction(Some(e.(imageUrl := downloadUrl.value, storagePath := CorrectionPath(uid, nowMs),
                           status := "pending", rejectionReason := None, updatedAt := Some(serverTime))),
                   deleted)
  }

  /** Corrections made at different instants write their photos to different paths. */
  lemma CorrectionPathInjective(uid: string, t1: nat, t2: nat)
    requires CorrectionPath(uid, t1) == CorrectionPath(uid, t2)
    ensures t1 == t2
  {
    DecimalTextInjective("fotos_recibos/" + uid + "/", t1, t2, "_correccion.jpg");
  }
}
