/**
 * The profile screen's rescan arithmetic: the heights a full and a quick rescan rewind to,
 * the distances shown for them, and the height the UTXO refresh starts from.
 */
module Profile {
  import opened Wrappers
  import opened Text

  /** A week of 75-second blocks, in the source's integer arithmetic. */
  const ONE_WEEK: int := 60 * 60 * 24 / 75 * 7

  /** The quick rescan's fixed lookback. */
  const QUICK_RESCAN_BLOCKS: int := 8064

  function Max(a: int, b: int): (r: int)
    ensures r >= a && r >= b && (r == a || r == b)
  {
    if a >= b then a else b
  }

  /** Kotlin's `Long.toInt()`: keeps the low 32 bits, read as two's complement. */
  function ToInt32(x: int): (r: int)
    ensures IsInt(r)
    ensures IsInt(x) ==> r == x
    ensures (r - x) % 0x1_0000_0000 == 0
  {
    (x - INT_MIN) % 0x1_0000_0000 + INT_MIN
  }

  /** `fullRescan`: rewinds to the birthday, when the synchronizer knows one. */
  function FullRescanTarget(latestBirthdayHeight: Option<int>): (target: Option<int>)
    ensures target == latestBirthdayHeight
  {
    latestBirthdayHeight
  }

  /** `quickRescan`: a week back from the latest height, never before activation. */
  function QuickRescanTarget(latestHeight: Option<int>, saplingActivationHeight: int): (target: Option<int>)
    ensures target.Some? <==> latestHeight.Some?
    ensures target.Some? ==> target.value >= saplingActivationHeight
    ensures target.Some? ==> target.value >= latestHeight.value - QUICK_RESCAN_BLOCKS
    ensures target.Some? ==>
      (target.value == saplingActivationHeight || target.value == latestHeight.value - QUICK_RESCAN_BLOCKS)
  {
    match latestHeight
    case Some(h) => Some(Max(h - QUICK_RESCAN_BLOCKS, saplingActivationHeight))
    case None => None
  }

  /** `fullScanDistance`: from the birthday to the latest height, never negative. */
  function FullScanDistance(latestHeight: Option<int>, latestBirthdayHeight: Option<int>): (r: int)
    ensures r >= 0
    ensures latestHeight.None? || latestBirthdayHeight.None? ==> r == 0
    ensures latestHeight.Some? && latestBirthdayHeight.Some? ==>
      r == Max(latestHeight.value - latestBirthdayHeight.value, 0)
  {
    if latestHeight.Some? && latestBirthdayHeight.Some? then
      Max(latestHeight.value - latestBirthdayHeight.value, 0)
    else 0
  }

  /** The distance shown for a full rescan is the distance to the height it rewinds to. */
  lemma FullScanDistanceMatchesRescan(latest: int, latestBirthdayHeight: Option<int>)
    requires FullRescanTarget(latestBirthdayHeight).Some?
    ensures FullScanDistance(Some(latest), latestBirthdayHeight)
      == Max(latest - FullRescanTarget(latestBirthdayHeight).value, 0)
  {
  }

  /** The height `quickScanDistance` asks the synchronizer to round to a rewind height. */
  function QuickScanRequestHeight(latestHeight: Option<int>, saplingActivationHeight: int): (h: int)
    ensures h >= saplingActivationHeight
    ensures latestHeight.None? ==> h == saplingActivationHeight
    ensures latestHeight.Some? ==> h == Max(latestHeight.value - ONE_WEEK, saplingActivationHeight)
  {
    Max(latestHeight.GetOr(saplingActivationHeight) - ONE_WEEK, saplingActivationHeight)
  }

  /**
   * `quickScanDistance`: from the nearest rewind height (given by `getNearestRewindHeight`)
   * to the latest height, truncated to 32 bits and then clamped at zero.
   */
  function QuickScanDistance(latestHeight: Option<int>, saplingActivationHeight: int,
    nearestRewindHeight: int -> int): (r: int)
    ensures 0 <= r <= INT_MAX
    ensures var d := latestHeight.GetOr(0) - nearestRewindHeight(QuickScanRequestHeight(latestHeight, saplingActivationHeight));
      IsInt(d) ==> r == Max(d, 0)
  {
    var height := QuickScanRequestHeight(latestHeight, saplingActivationHeight);
    var nearest := nearestRewindHeight(height);
    Max(ToInt32(latestHeight.GetOr(0) - nearest), 0)
  }

  /**
   * With a known latest height the quick distance is measured from the same week-back height
   * the quick rescan rewinds to (before the synchronizer rounds it).
   */
  lemma QuickScanMatchesQuickRescan(latest: int, saplingActivationHeight: int)
    ensures ONE_WEEK == QUICK_RESCAN_BLOCKS
    ensures QuickRescanTarget(Some(latest), saplingActivationHeight)
      == Some(QuickScanRequestHeight(Some(latest), saplingActivationHeight))
  {
  }

  /** The height `fetchUtxos` refreshes from: the stored birthday, else activation. */
  function UtxoRefreshHeight(storedBirthday: Option<int>, saplingActivationHeight: int): (h: int)
    ensures storedBirthday.Some? ==> h == storedBirthday.value
    ensures storedBirthday.None? ==> h == saplingActivationHeight
  {
    storedBirthday.GetOr(saplingActivationHeight)
  }

  /** `fetchUtxos`: the count `refreshUtxos` reports from that height, 0 for none. */
  function FetchUtxos(storedBirthday: Option<int>, saplingActivationHeight: int,
    refreshUtxos: int -> Option<int>): (r: int)
    ensures var found := refreshUtxos(UtxoRefreshHeight(storedBirthday, saplingActivationHeight));
      (found.None? ==> r == 0) && (found.Some? ==> r == found.value)
  {
    refreshUtxos(UtxoRefreshHeight(storedBirthday, saplingActivationHeight)).GetOr(0)
  }
}
