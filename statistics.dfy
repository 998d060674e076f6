/**
 * The statistics page: relative times, the recent-clicks panel of an
 * expanded row, and the page state (the loaded listing, the expanded row and
 * the delete dialog) over the store.
 */
module Statistics {
  import opened Wrappers
  import opened Text
  import opened UrlStorage

  const MsPerMinute := 60000
  const MsPerHour := 3600000
  const MsPerDay := 86400000
  const RecentLimit := 10

  // ---------------------------------------------------------------- getTimeAgo

  datatype TimeUnit = Minute | Hour | Day

  /** The shape of a relative time: "Just now" or a whole number of one unit. */
  datatype TimeAgo = JustNow | Ago(amount: nat, unit: TimeUnit)

  function UnitMs(u: TimeUnit): nat {
    match u
    case Minute => MsPerMinute
    case Hour => MsPerHour
    case Day => MsPerDay
  }

  function UnitName(u: TimeUnit): string {
    match u
    case Minute => "minute"
    case Hour => "hour"
    case Day => "day"
  }

  /**
   * The bucketing of `getTimeAgo`: whole minutes, whole hours of those and
   * whole days of those, each by `Math.floor` (Dafny's division by a
   * positive divisor rounds down too), reporting the largest positive one.
   */
  function ClassifyTimeAgo(diffMs: int): TimeAgo {
    var mins := diffMs / MsPerMinute;
    var hours := mins / 60;
    var days := hours / 24;
    if days > 0 then Ago(days, Day)
    else if hours > 0 then Ago(hours, Hour)
    else if mins > 0 then Ago(mins, Minute)
    else JustNow
  }

  lemma FloorOfFloor(x: int)
    ensures (x / MsPerMinute) / 60 == x / MsPerHour
    ensures ((x / MsPerMinute) / 60) / 24 == x / MsPerDay
  {
    var m := x / MsPerMinute;
    var h := m / 60;
    var d := h / 24;
    assert x == MsPerMinute * m + x % MsPerMinute;
    assert m == 60 * h + m % 60;
    assert h == 24 * d + h % 24;
    assert x == MsPerHour * h + (MsPerMinute * (m % 60) + x % MsPerMinute);
    assert 0 <= MsPerMinute * (m % 60) + x % MsPerMinute < MsPerHour;
    assert x == MsPerDay * d + (MsPerHour * (h % 24) + MsPerMinute * (m % 60) + x % MsPerMinute);
  }

  /**
   * What the bucketing means: under a minute (a future time included) is
   * "Just now"; otherwise the amount is the number of whole units elapsed,
   * in the largest unit of which at least one has elapsed.
   */
  lemma {:induction false} TimeAgoMeaning(diffMs: int)
    ensures ClassifyTimeAgo(diffMs) == JustNow <==> diffMs < MsPerMinute
    ensures ClassifyTimeAgo(diffMs).Ago? ==>
              var t := ClassifyTimeAgo(diffMs);
              && t.amount >= 1
              && t.amount * UnitMs(t.unit) <= diffMs < (t.amount + 1) * UnitMs(t.unit)
              && (t.unit == Minute ==> diffMs < MsPerHour)
              && (t.unit == Hour ==> MsPerHour <= diffMs < MsPerDay)
              && (t.unit == Day ==> MsPerDay <= diffMs)
  {
    FloorOfFloor(diffMs);
    var t := ClassifyTimeAgo(diffMs);
    if t.Ago? {
      var n, u := t.amount, UnitMs(t.unit);
      assert n == diffMs / u;
      assert diffMs == u * n + diffMs % u;
    }
  }

  /** The text `getTimeAgo` renders: "1 hour ago", "3 days ago", "Just now". */
  function RenderTimeAgo(t: TimeAgo): string {
    match t
    case JustNow => "Just now"
    case Ago(n, u) => NatToDecimal(n) + " " + UnitName(u) + (if n > 1 then "s" else "") + " ago"
  }

  /** `getTimeAgo(date)` read at time `now`, both in milliseconds. */
  function GetTimeAgo(now: int, date: int): string {
    RenderTimeAgo(ClassifyTimeAgo(now - date))
  }

  /** "Just now" is shown exactly when less than a minute has passed, and a count always starts with its digits. */
  lemma GetTimeAgoJustNow(now: int, date: int)
    ensures GetTimeAgo(now, date) == "Just now" <==> now - date < MsPerMinute
    ensures now - date >= MsPerMinute ==> IsDecimalDigit(GetTimeAgo(now, date)[0])
  {
    TimeAgoMeaning(now - date);
    var t := ClassifyTimeAgo(now - date);
    if t.Ago? {
      var s := GetTimeAgo(now, date);
      assert s[0] == NatToDecimal(t.amount)[0];
      assert s[0] != 'J';
    }
  }

  lemma TimeAgoExamples()
    ensures GetTimeAgo(MsPerHour, 0) == "1 hour ago"
    ensures GetTimeAgo(3 * MsPerDay + 5, 0) == "3 days ago"
    ensures GetTimeAgo(0, MsPerDay) == "Just now"
  {
    TimeAgoMeaning(MsPerHour);
    TimeAgoMeaning(3 * MsPerDay + 5);
    assert ClassifyTimeAgo(MsPerHour) == Ago(1, Hour);
    assert ClassifyTimeAgo(3 * MsPerDay + 5) == Ago(3, Day);
  }

  // ---------------------------------------------------------------- the clicks panel

  function Reverse<T>(s: seq<T>): (r: seq<T>)
    ensures |r| == |s|
    ensures forall i :: 0 <= i < |s| ==> r[i] == s[|s| - 1 - i]
  {
    if s == [] then [] else Reverse(s[1..]) + [s[0]]
  }

  /** `clicks.slice(-10).reverse()`. */
  function RecentClicks(clicks: seq<Click>): seq<Click> {
    Reverse(Last(clicks, RecentLimit))
  }

  /** At most ten clicks are shown, the newest first. */
  lemma RecentClicksSpec(clicks: seq<Click>)
    ensures |RecentClicks(clicks)| == if |clicks| < RecentLimit then |clicks| else RecentLimit
    ensures forall i :: 0 <= i < |RecentClicks(clicks)| ==> RecentClicks(clicks)[i] == clicks[|clicks| - 1 - i]
  {
    var tail := Last(clicks, RecentLimit);
    forall i | 0 <= i < |tail| ensures RecentClicks(clicks)[i] == clicks[|clicks| - 1 - i] {
      assert tail[|tail| - 1 - i] == clicks[|clicks| - |tail| + (|tail| - 1 - i)];
    }
  }

  /** What `renderClickDetails` shows. */
  datatype ClickPanel = NoClicksYet | ClickList(shown: seq<Click>, footerTotal: Option<nat>)

  function RenderClickDetails(clicks: seq<Click>): ClickPanel {
    if |clicks| == 0 then NoClicksYet
    else ClickList(RecentClicks(clicks), if |clicks| > RecentLimit then Some(|clicks|) else None)
  }

  function FooterText(total: nat): string {
    "Showing last 10 clicks. Total: " + NatToDecimal(total)
  }

  /** The placeholder is shown exactly for no clicks, the footer exactly for more than ten. */
  lemma ClickPanelSpec(clicks: seq<Click>)
    ensures RenderClickDetails(clicks).NoClicksYet? <==> clicks == []
    ensures RenderClickDetails(clicks).ClickList? ==>
              && (RenderClickDetails(clicks).footerTotal.Some? <==> |clicks| > RecentLimit)
              && (RenderClickDetails(clicks).footerTotal.Some? ==> RenderClickDetails(clicks).footerTotal.value == |clicks|)
              && 1 <= |RenderClickDetails(clicks).shown| <= RecentLimit
              && RenderClickDetails(clicks).shown[0] == clicks[|clicks| - 1]
  {
    RecentClicksSpec(clicks);
  }

  // ---------------------------------------------------------------- the page state

  /** Row identifiers: the `id` a record is given at creation (`Date.now() + Math.random()`). */
  type RowId = real

  class StatisticsView {
    const store: Store
    var urls: seq<Listing>
    var expandedRow: Option<RowId>
    var deleteOpen: bool
    var deleteTarget: Option<Listing>

    ghost predicate Valid()
      reads this, store
    {
      store.Valid()
    }

    constructor (store: Store)
      requires store.Valid()
      ensures Valid() && this.store == store
      ensures urls == [] && expandedRow == None && !deleteOpen && deleteTarget == None
    {
      this.store := store;
      urls, expandedRow := [], None;
      deleteOpen, deleteTarget := false, None;
    }

    /** `loadUrls()`: the listing of the store as it is now. */
    method LoadUrls(now: int)
      requires Valid()
      modifies this
      ensures Valid()
      ensures |urls| == |store.urls| && Codes(urls) == store.urls.Keys && DistinctCodes(urls)
      ensures EntriesMatch(urls, store.urls, store.clicks, now) && SortedByCreatedDesc(urls)
      ensures expandedRow == old(expandedRow) && deleteOpen == old(deleteOpen) && deleteTarget == old(deleteTarget)
    {
      urls := store.GetAllUrls(now);
    }

    /**
     * The mount effect: the listing is loaded first and the expired records
     * are removed after, so the page shows the records as they were before
     * the clean-up.
     */
    method Mount(loadNow: int, clearNow: int)
      requires Valid()
      modifies this, store
      ensures Valid()
      ensures |urls| == |old(store.urls)| && Codes(urls) == old(store.urls).Keys && DistinctCodes(urls)
      ensures EntriesMatch(urls, old(store.urls), old(store.clicks), loadNow) && SortedByCreatedDesc(urls)
      ensures store.urls == old(store.urls) - ExpiredCodes(old(store.urls), clearNow)
      ensures store.clicks == old(store.clicks) - ExpiredCodes(old(store.urls), clearNow)
      ensures expandedRow == old(expandedRow) && deleteOpen == old(deleteOpen) && deleteTarget == old(deleteTarget)
    {
      LoadUrls(loadNow);
      var _ := store.ClearExpiredUrls(clearNow);
    }

    /** `handleRowExpand(urlId)`: toggles the row; a single row at most is expanded. */
    method HandleRowExpand(urlId: RowId)
      requires Valid()
      modifies this
      ensures Valid()
      ensures expandedRow == if old(expandedRow) == Some(urlId) then None else Some(urlId)
      ensures urls == old(urls) && deleteOpen == old(deleteOpen) && deleteTarget == old(deleteTarget)
    {
      expandedRow := if expandedRow == Some(urlId) then None else Some(urlId);
    }

    /** `handleDelete(url)`: opens the confirmation dialog for that entry. */
    method HandleDelete(url: Listing)
      requires Valid()
      modifies this
      ensures Valid()
      ensures deleteOpen && deleteTarget == Some(url)
      ensures urls == old(urls) && expandedRow == old(expandedRow)
    {
      deleteOpen, deleteTarget := true, Some(url);
    }

    /** `confirmDelete()`: deletes the dialog's entry, reloads and closes; does nothing without an entry. */
    method ConfirmDelete(now: int)
      requires Valid()
      modifies this, store
      ensures Valid()
      ensures expandedRow == old(expandedRow)
      ensures old(deleteTarget).None? ==>
                && urls == old(urls) && deleteOpen == old(deleteOpen) && deleteTarget == None
                && store.urls == old(store.urls) && store.clicks == old(store.clicks)
      ensures old(deleteTarget).Some? ==>
                var sc := old(deleteTarget).value.record.shortcode;
                && store.urls == old(store.urls) - {sc}
                && store.clicks == old(store.clicks) - {sc}
                && |urls| == |store.urls| && Codes(urls) == store.urls.Keys && sc !in Codes(urls)
                && EntriesMatch(urls, store.urls, store.clicks, now) && SortedByCreatedDesc(urls)
                && !deleteOpen && deleteTarget == None
    {
      if deleteTarget.Some? {
        var _ := store.DeleteUrl(deleteTarget.value.record.shortcode);
        LoadUrls(now);
        deleteOpen, deleteTarget := false, None;
      }
    }
  }
}
