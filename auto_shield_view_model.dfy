/**
 * The auto-shielding screens: which pending transactions still count as unconfirmed or
 * unmined, how many confirmations each still needs, the three balances right-aligned for
 * display, and the one-time "shielding achievement" flag.
 */
module AutoShield {
  import opened Wrappers
  import opened Sdk

  /** Confirmations a transaction needs before it stops counting as pending. */
  const CONFIRMATIONS_REQUIRED: int := 10

  /** `isConfirmed`: mined, with strictly more than ten confirmations at the network height. */
  predicate IsConfirmed(tx: PendingTransaction, networkBlockHeight: int) {
    tx.flags.isMined && networkBlockHeight - tx.minedHeight + 1 > CONFIRMATIONS_REQUIRED
  }

  /** Kotlin's `filter`, keeping order. */
  function Filter<T(!new)>(s: seq<T>, keep: T -> bool): (r: seq<T>)
    ensures |r| <= |s|
    ensures forall x :: x in r <==> x in s && keep(x)
  {
    if |s| == 0 then []
    else
      var rest := Filter(s[1..], keep);
      assert forall x :: x in s <==> x == s[0] || x in s[1..];
      if keep(s[0]) then [s[0]] + rest else rest
  }

  /** A kept element occurs in the filtered list as often as in the list, a dropped one never. */
  lemma {:induction false} FilterMultiplicity<T(!new)>(s: seq<T>, keep: T -> bool, x: T)
    ensures multiset(Filter(s, keep))[x] == if keep(x) then multiset(s)[x] else 0
  {
    if |s| > 0 {
      FilterMultiplicity(s[1..], keep, x);
      assert s == [s[0]] + s[1..];
    }
  }

  /** The pending transactions not yet confirmed at the network height. */
  function Unconfirmed(pending: seq<PendingTransaction>, networkBlockHeight: int): (r: seq<PendingTransaction>)
    ensures |r| <= |pending|
    ensures forall t :: t in r <==> t in pending && !IsConfirmed(t, networkBlockHeight)
  {
    Filter(pending, (t: PendingTransaction) => !IsConfirmed(t, networkBlockHeight))
  }

  /** The pending transactions submitted but not yet mined. */
  function Unmined(pending: seq<PendingTransaction>): (r: seq<PendingTransaction>)
    ensures |r| <= |pending|
    ensures forall t :: t in r <==> t in pending && t.flags.isSubmitSuccess && !t.flags.isMined
  {
    Filter(pending, (t: PendingTransaction) => t.flags.isSubmitSuccess && !t.flags.isMined)
  }

  /** Non-increasing order. */
  predicate SortedDescending(s: seq<int>) {
    forall i, j :: 0 <= i < j < |s| ==> s[i] >= s[j]
  }

  /** Inserts `x` into a non-increasing sequence. */
  function Insert(x: int, s: seq<int>): (r: seq<int>)
    requires SortedDescending(s)
    ensures SortedDescending(r)
    ensures multiset(r) == multiset(s) + multiset{x}
    ensures |r| == |s| + 1
  {
    if |s| == 0 then [x]
    else if x >= s[0] then
      ConsSorted(x, s);
      [x] + s
    else
      var rest := Insert(x, s[1..]);
      assert s == [s[0]] + s[1..];
      HeadBoundsRest(s, rest, x);
      ConsSorted(s[0], rest);
      [s[0]] + rest
  }

  /** A head no smaller than the first element of a non-increasing sequence keeps it non-increasing. */
  lemma ConsSorted(h: int, t: seq<int>)
    requires SortedDescending(t) && (|t| > 0 ==> h >= t[0])
    ensures SortedDescending([h] + t)
  {
    var u := [h] + t;
    forall i, j | 0 <= i < j < |u| ensures u[i] >= u[j] {
      assert u[j] == t[j - 1];
      if i > 0 { assert u[i] == t[i - 1]; }
    }
  }

  /** What follows the head of a non-increasing sequence, with a smaller `x` added, starts no higher than the head. */
  lemma HeadBoundsRest(s: seq<int>, rest: seq<int>, x: int)
    requires SortedDescending(s) && |s| > 0 && x < s[0]
    requires multiset(rest) == multiset(s[1..]) + multiset{x}
    ensures |rest| > 0 ==> s[0] >= rest[0]
  {
    if |rest| > 0 {
      assert rest[0] in multiset(rest);
      if rest[0] != x {
        assert rest[0] in multiset(s[1..]);
        assert rest[0] in s[1..];
      }
    }
  }

  /** Kotlin's `sortedDescending`. */
  function SortDescending(s: seq<int>): (r: seq<int>)
    ensures SortedDescending(r)
    ensures multiset(r) == multiset(s)
    ensures |r| == |s|
  {
    if |s| == 0 then []
    else
      assert s == [s[0]] + s[1..];
      Insert(s[0], SortDescending(s[1..]))
  }

  predicate Positive(n: int) { n > 0 }

  /** Confirmations each transaction still needs, in list order. */
  function Needed(txs: seq<PendingTransaction>, latestHeight: int, required: int): (r: seq<int>)
    ensures |r| == |txs|
    ensures forall k :: 0 <= k < |txs| ==> r[k] == required - (latestHeight - txs[k].minedHeight + 1)
  {
    if |txs| == 0 then []
    else [required - (latestHeight - txs[0].minedHeight + 1)] + Needed(txs[1..], latestHeight, required)
  }

  /** The status screen's model. */
  datatype StatusModel = StatusModel(
    pendingUnconfirmed: seq<PendingTransaction>,
    pendingUnmined: seq<PendingTransaction>,
    pendingBalance: int,
    latestHeight: int)
  {
    predicate HasUnconfirmed() { |pendingUnconfirmed| > 0 }
    predicate HasUnmined() { |pendingUnmined| > 0 }
    predicate HasPendingBalance() { pendingBalance > 0 }

    /**
     * `remainingConfirmations`: for each unconfirmed transaction the confirmations still
     * needed, keeping the positive ones, largest first.
     */
    function RemainingConfirmations(latestHeight: int, confirmationsRequired: int): (r: seq<int>)
      ensures SortedDescending(r)
      ensures |r| <= |pendingUnconfirmed|
      ensures forall k :: 0 <= k < |r| ==> r[k] > 0
    {
      var positive := Filter(Needed(pendingUnconfirmed, latestHeight, confirmationsRequired), Positive);
      var r := SortDescending(positive);
      SortKeepsElements(positive);
      assert forall k :: 0 <= k < |r| ==> r[k] in r;
      r
    }
  }

  /** Sorting keeps the same elements. */
  lemma SortKeepsElements(s: seq<int>)
    ensures forall x :: x in SortDescending(s) <==> x in s
  {
    var r := SortDescending(s);
    forall x ensures x in r <==> x in s {
      assert x in multiset(r) <==> x in multiset(s);
    }
  }

  /** Each remaining count is the count still needed by one of the unconfirmed transactions. */
  lemma RemainingComesFromUnconfirmed(m: StatusModel, latestHeight: int, confirmationsRequired: int, k: int)
    requires 0 <= k < |m.RemainingConfirmations(latestHeight, confirmationsRequired)|
    ensures var r := m.RemainingConfirmations(latestHeight, confirmationsRequired);
      exists t :: t in m.pendingUnconfirmed && r[k] == confirmationsRequired - (latestHeight - t.minedHeight + 1)
  {
    var txs := m.pendingUnconfirmed;
    var needed := Needed(txs, latestHeight, confirmationsRequired);
    var positive := Filter(needed, Positive);
    var r := m.RemainingConfirmations(latestHeight, confirmationsRequired);
    SortKeepsElements(positive);
    assert r[k] in positive;
    var j :| 0 <= j < |needed| && needed[j] == r[k];
    assert txs[j] in txs;
  }

  /** Each unconfirmed transaction that still needs confirmations contributes its count. */
  lemma UnconfirmedContributes(m: StatusModel, latestHeight: int, confirmationsRequired: int, t: PendingTransaction)
    requires t in m.pendingUnconfirmed && confirmationsRequired - (latestHeight - t.minedHeight + 1) > 0
    ensures confirmationsRequired - (latestHeight - t.minedHeight + 1)
      in m.RemainingConfirmations(latestHeight, confirmationsRequired)
  {
    var txs := m.pendingUnconfirmed;
    var needed := Needed(txs, latestHeight, confirmationsRequired);
    var positive := Filter(needed, Positive);
    SortKeepsElements(positive);
    var j :| 0 <= j < |txs| && txs[j] == t;
    assert needed[j] in needed;
  }

  /**
   * The `statuses` mapping as written: the positional call passes the unmined list as
   * `pendingUnconfirmed` and the unconfirmed list as `pendingUnmined`.
   */
  function StatusesAsWritten(balance: Option<WalletBalance>, pending: seq<PendingTransaction>,
    networkBlockHeight: int): (m: StatusModel)
    ensures m.pendingUnconfirmed == Unmined(pending)
    ensures m.pendingUnmined == Unconfirmed(pending, networkBlockHeight)
  {
    var unconfirmed := Unconfirmed(pending, networkBlockHeight);
    var unmined := Unmined(pending);
    var pendingBalance := if balance.Some? then balance.value.SdkPending() else 0;
    StatusModel(unmined, unconfirmed, pendingBalance, networkBlockHeight)
  }

  /**
   * A transaction mined at the current height has one confirmation, yet as written the
   * screen reports nothing unconfirmed and shows it as unmined.
   */
  lemma StatusesAsWrittenSwapsLists()
    ensures var tx := PendingTransaction(1, 5000, Address("t1"), 100, None, None,
        TxFlags(false, true, true, true, false, false, false, false));
      var m := StatusesAsWritten(None, [tx], 100);
      !IsConfirmed(tx, 100) && !m.HasUnconfirmed() && m.HasUnmined()
  {
    var tx := PendingTransaction(1, 5000, Address("t1"), 100, None, None,
      TxFlags(false, true, true, true, false, false, false, false));
    assert tx in Unconfirmed([tx], 100);
    assert Unmined([tx]) == [];
  }

  /**
   * The `statuses` mapping with each list in its own slot: the transactions not confirmed
   * at the network height, the submitted but unmined ones, and the SDK's pending part of
   * the shielded balance (0 when there is none).
   */
  function Statuses(balance: Option<WalletBalance>, pending: seq<PendingTransaction>,
    networkBlockHeight: int): (m: StatusModel)
    ensures forall t :: t in m.pendingUnconfirmed <==> t in pending && !IsConfirmed(t, networkBlockHeight)
    ensures forall t :: t in m.pendingUnmined <==> t in pending && t.flags.isSubmitSuccess && !t.flags.isMined
    ensures m.pendingBalance == if balance.Some? then balance.value.total - balance.value.available else 0
    ensures m.latestHeight == networkBlockHeight
  {
    var unconfirmed := Unconfirmed(pending, networkBlockHeight);
    var unmined := Unmined(pending);
    var pendingBalance := if balance.Some? then balance.value.SdkPending() else 0;
    StatusModel(unconfirmed, unmined, pendingBalance, networkBlockHeight)
  }

  /** With the lists in place, "has unconfirmed" and "has unmined" mean what they say. */
  lemma StatusFlags(balance: Option<WalletBalance>, pending: seq<PendingTransaction>, networkBlockHeight: int)
    ensures var m := Statuses(balance, pending, networkBlockHeight);
      && (m.HasUnconfirmed() <==> exists t :: t in pending && !IsConfirmed(t, networkBlockHeight))
      && (m.HasUnmined() <==> exists t :: t in pending && t.flags.isSubmitSuccess && !t.flags.isMined)
      && (m.HasPendingBalance() <==> balance.Some? && balance.value.total > balance.value.available)
  {
    var m := Statuses(balance, pending, networkBlockHeight);
    if |m.pendingUnconfirmed| > 0 {
      assert m.pendingUnconfirmed[0] in m.pendingUnconfirmed;
    }
    if |m.pendingUnmined| > 0 {
      assert m.pendingUnmined[0] in m.pendingUnmined;
    }
  }

  /**
   * A mined transaction with exactly ten confirmations is still unconfirmed (the test is
   * strict) but needs no further confirmation, so it adds nothing to the remaining counts.
   */
  lemma TenConfirmationsEdge(tx: PendingTransaction, networkBlockHeight: int)
    requires tx.flags.isMined && networkBlockHeight - tx.minedHeight + 1 == CONFIRMATIONS_REQUIRED
    ensures !IsConfirmed(tx, networkBlockHeight)
    ensures StatusModel([tx], [], 0, networkBlockHeight)
      .RemainingConfirmations(networkBlockHeight, CONFIRMATIONS_REQUIRED) == []
  {
    assert Needed([tx], networkBlockHeight, CONFIRMATIONS_REQUIRED) == [0];
    assert Filter([0], Positive) == [];
    assert SortDescending([]) == [];
  }

  /** A run of `n` spaces. */
  function Spaces(n: nat): (r: string)
    ensures |r| == n && forall k :: 0 <= k < n ==> r[k] == ' '
  {
    if n == 0 then "" else Spaces(n - 1) + " "
  }

  /** `pad`: spaces in front of the balance up to `maxLength` characters. */
  method Pad(balance: string, maxLength: int) returns (r: string)
    ensures r == Spaces(if maxLength > |balance| then maxLength - |balance| else 0) + balance
    ensures maxLength >= |balance| ==> |r| == maxLength
  {
    var diffLength := maxLength - |balance|;
    var sb := "";
    var i := 0;
    while i < diffLength
      invariant 0 <= i <= (if diffLength > 0 then diffLength else 0)
      invariant sb == Spaces(i)
    {
      sb := sb + " ";
      i := i + 1;
    }
    r := sb + balance;
  }

  /** The balance screen's model: three display strings right-aligned to a common width. */
  datatype BalanceModel = BalanceModel(
    balanceShielded: string,
    balanceTransparent: string,
    balanceTotal: string,
    canAutoShield: bool,
    maxLength: int,
    paddedShielded: string,
    paddedTransparent: string,
    paddedTotal: string)

  function AvailableOrZero(b: Option<WalletBalance>): int {
    if b.Some? then b.value.available else 0
  }

  /**
   * The `BalanceModel` constructor. `toDisplay` is the SDK's zatoshi-to-ZEC text
   * conversion, applied to an absent or present amount.
   */
  method NewBalanceModel(orchard: Option<WalletBalance>, sapling: Option<WalletBalance>,
    transparent: Option<WalletBalance>, toDisplay: Option<int> -> string) returns (m: BalanceModel)
    ensures m.balanceShielded == toDisplay(if sapling.Some? then Some(sapling.value.available) else None)
    ensures m.balanceTransparent == toDisplay(if transparent.Some? then Some(transparent.value.available) else None)
    ensures m.balanceTotal == toDisplay(Some(AvailableOrZero(sapling) + AvailableOrZero(transparent)))
    ensures m.canAutoShield <==> transparent.Some? && transparent.value.available > 0
    ensures m.maxLength >= |m.balanceShielded| && m.maxLength >= |m.balanceTransparent| && m.maxLength >= |m.balanceTotal|
    ensures m.maxLength == |m.balanceShielded| || m.maxLength == |m.balanceTransparent| || m.maxLength == |m.balanceTotal|
    ensures |m.paddedShielded| == m.maxLength && |m.paddedTransparent| == m.maxLength && |m.paddedTotal| == m.maxLength
    ensures m.paddedShielded == Spaces(m.maxLength - |m.balanceShielded|) + m.balanceShielded
    ensures m.paddedTransparent == Spaces(m.maxLength - |m.balanceTransparent|) + m.balanceTransparent
    ensures m.paddedTotal == Spaces(m.maxLength - |m.balanceTotal|) + m.balanceTotal
  {
    var shielded := toDisplay(if sapling.Some? then Some(sapling.value.available) else None);
    var transparentText := toDisplay(if transparent.Some? then Some(transparent.value.available) else None);
    var total := toDisplay(Some(AvailableOrZero(sapling) + AvailableOrZero(transparent)));
    var canAutoShield := AvailableOrZero(transparent) > 0;
    var maxLength := |shielded|;
    if |transparentText| > maxLength {
      maxLength := |transparentText|;
    }
    if |total| > maxLength {
      maxLength := |total|;
    }
    var paddedShielded := Pad(shielded, maxLength);
    var paddedTransparent := Pad(transparentText, maxLength);
    var paddedTotal := Pad(total, maxLength);
    m := BalanceModel(shielded, transparentText, total, canAutoShield, maxLength,
      paddedShielded, paddedTransparent, paddedTotal);
  }

  /** The view model: the last balance model built and the stored achievement flag. */
  class AutoShieldViewModel {
    var latestBalance: Option<BalanceModel>
    /** The `EASTER_EGG_TRIGGERED_SHIELDING` preference; absent reads as false. */
    var shieldingTriggered: bool

    constructor(storedFlag: bool)
      ensures latestBalance.None? && shieldingTriggered == storedFlag
    {
      latestBalance := None;
      shieldingTriggered := storedFlag;
    }

    /** One emission of `balances`: builds the model and remembers it as the latest. */
    method OnBalances(orchard: Option<WalletBalance>, sapling: Option<WalletBalance>,
      transparent: Option<WalletBalance>, toDisplay: Option<int> -> string) returns (m: BalanceModel)
      modifies this
      ensures latestBalance == Some(m)
      ensures m.balanceShielded == toDisplay(if sapling.Some? then Some(sapling.value.available) else None)
      ensures m.balanceTransparent == toDisplay(if transparent.Some? then Some(transparent.value.available) else None)
      ensures m.balanceTotal == toDisplay(Some(AvailableOrZero(sapling) + AvailableOrZero(transparent)))
      ensures m.canAutoShield <==> transparent.Some? && transparent.value.available > 0
      ensures m.maxLength >= |m.balanceShielded| && m.maxLength >= |m.balanceTransparent| && m.maxLength >= |m.balanceTotal|
      ensures m.maxLength == |m.balanceShielded| || m.maxLength == |m.balanceTransparent| || m.maxLength == |m.balanceTotal|
      ensures m.paddedShielded == Spaces(m.maxLength - |m.balanceShielded|) + m.balanceShielded
      ensures m.paddedTransparent == Spaces(m.maxLength - |m.balanceTransparent|) + m.balanceTransparent
      ensures m.paddedTotal == Spaces(m.maxLength - |m.balanceTotal|) + m.balanceTotal
      ensures shieldingTriggered == old(shieldingTriggered)
    {
      m := NewBalanceModel(orchard, sapling, transparent, toDisplay);
      latestBalance := Some(m);
    }

    /** `updateAutoshieldAchievement`: true the first time only; the flag is set afterwards. */
    method UpdateAutoshieldAchievement() returns (firstTime: bool)
      modifies this
      ensures firstTime <==> !old(shieldingTriggered)
      ensures shieldingTriggered
      ensures latestBalance == old(latestBalance)
    {
      var existingValue := shieldingTriggered;
      if !existingValue {
        shieldingTriggered := true;
        return true;
      } else {
        return false;
      }
    }
  }

  /** After one update, every later update reports that it is not the first time. */
  method AchievementOnlyOnce(vm: AutoShieldViewModel) returns (first: bool, second: bool)
    modifies vm
    ensures first <==> !old(vm.shieldingTriggered)
    ensures !second
  {
    first := vm.UpdateAutoshieldAchievement();
    second := vm.UpdateAutoshieldAchievement();
  }
}
