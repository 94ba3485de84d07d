/**
 * The home screen: the amount the user types on the keypad, reduced one key at a time to
 * a decimal string, and the screen model derived from the synchronizer's status,
 * balances and block-processor progress at each emission.
 */
module Home {
  import opened Wrappers
  import opened Text
  import opened Sdk
  import Send

  /** The decimal separator of the keypad. */
  const DECIMAL: char := '.'

  // ---------------------------------------------------------------------------------
  // The typed-amount reducer
  // ---------------------------------------------------------------------------------

  /**
   * One step of the `typedChars.scan` reducer. `backspace` is the first character of the
   * keypad's backspace label; `'0'` on `"0"`, backspace on `"0"` and a second separator
   * change nothing, backspace removes the last character (leaving `"0"` rather than
   * nothing), a first character replaces a lone `"0"`, and once eight characters follow the
   * separator further keys are ignored.
   */
  function Reduce(acc: string, c: char, backspace: char): (r: string)
    ensures |r| > 0
  {
    if (acc == "0" && c == '0') || (c == backspace && acc == "0") || (c == DECIMAL && DECIMAL in acc) then acc
    else if c == backspace && |acc| <= 1 then "0"
    else if c == backspace then acc[..|acc| - 1]
    else if acc == "0" && c != DECIMAL then [c]
    else if DECIMAL in acc && |acc| - IndexOfChar(acc, DECIMAL) > 8 then acc
    else acc + [c]
  }

  /** Backspace leaves `"0"` alone, turns one character into `"0"` and drops the last one otherwise. */
  lemma BackspaceBehaviour(acc: string, backspace: char)
    requires backspace != DECIMAL
    ensures acc == "0" ==> Reduce(acc, backspace, backspace) == "0"
    ensures |acc| <= 1 ==> Reduce(acc, backspace, backspace) == "0"
    ensures |acc| > 1 ==> Reduce(acc, backspace, backspace) == acc[..|acc| - 1]
  {
  }

  /** From `"0"`, the key `'0'` changes nothing and any other key but the separator replaces the zero. */
  lemma LeadingZeroReplaced(c: char, backspace: char)
    requires c != DECIMAL && c != backspace
    ensures c == '0' ==> Reduce("0", c, backspace) == "0"
    ensures Reduce("0", c, backspace) == [c]
  {
  }

  /** At most one separator. */
  predicate AtMostOneDecimal(s: string) {
    forall i, j :: 0 <= i < j < |s| ==> !(s[i] == DECIMAL && s[j] == DECIMAL)
  }

  /** At most eight characters after a separator. */
  predicate FractionFits(s: string) {
    forall i :: 0 <= i < |s| && s[i] == DECIMAL ==> |s| - i - 1 <= 8
  }

  /** A leading zero is the whole string or is followed by the separator. */
  predicate NoLeadingZero(s: string) {
    |s| > 1 && s[0] == '0' ==> s[1] == DECIMAL
  }

  /** What the reducer keeps true of the typed amount. */
  predicate WellTyped(s: string) {
    |s| > 0 && AtMostOneDecimal(s) && FractionFits(s) && NoLeadingZero(s)
  }

  /** Every step of the reducer keeps the amount well typed. */
  lemma ReducePreserves(acc: string, c: char, backspace: char)
    requires WellTyped(acc) && backspace != DECIMAL
    ensures WellTyped(Reduce(acc, c, backspace))
  {
    var r := Reduce(acc, c, backspace);
    if (acc == "0" && c == '0') || (c == backspace && acc == "0") || (c == DECIMAL && DECIMAL in acc) {
    } else if c == backspace && |acc| <= 1 {
    } else if c == backspace {
      assert forall i :: 0 <= i < |r| ==> r[i] == acc[i];
    } else if acc == "0" && c != DECIMAL {
    } else if DECIMAL in acc && |acc| - IndexOfChar(acc, DECIMAL) > 8 {
    } else {
      assert forall i :: 0 <= i < |acc| ==> r[i] == acc[i];
      if DECIMAL in acc {
        var d := IndexOfChar(acc, DECIMAL);
        forall i | 0 <= i < |r| && r[i] == DECIMAL ensures |r| - i - 1 <= 8 {
          if i < |acc| {
            assert acc[i] == DECIMAL && acc[d] == DECIMAL;
            assert !(i < d) && !(d < i);
          }
        }
        assert c != DECIMAL;
      }
    }
  }

  /** `scan`: the initial amount followed by the amount after each typed key. */
  function Scan(init: string, keys: seq<char>, backspace: char): (r: seq<string>)
    ensures |r| == |keys| + 1 && r[0] == init
    ensures forall k :: 0 <= k < |keys| ==> r[k + 1] == Reduce(r[k], keys[k], backspace)
    decreases |keys|
  {
    if |keys| == 0 then [init]
    else [init] + Scan(Reduce(init, keys[0], backspace), keys[1..], backspace)
  }

  /**
   * Every amount the keypad emits, from the initial `"0"` on, is non-empty, has at most one
   * separator and at most eight fractional characters, and has no zero before a digit.
   */
  lemma {:induction false} ScanWellTyped(init: string, keys: seq<char>, backspace: char)
    requires WellTyped(init) && backspace != DECIMAL
    ensures forall k :: 0 <= k < |keys| + 1 ==> WellTyped(Scan(init, keys, backspace)[k])
    decreases |keys|
  {
    if |keys| > 0 {
      var next := Reduce(init, keys[0], backspace);
      ReducePreserves(init, keys[0], backspace);
      ScanWellTyped(next, keys[1..], backspace);
      var r := Scan(init, keys, backspace);
      assert r[1..] == Scan(next, keys[1..], backspace);
      forall k | 0 <= k < |keys| + 1 ensures WellTyped(r[k]) {
        if k > 0 {
          assert r[k] == r[1..][k - 1];
        }
      }
    }
  }

  /** The initial amount `"0"` is well typed, so every emitted amount is. */
  lemma InitialAmountWellTyped()
    ensures WellTyped("0")
  {
  }

  // ---------------------------------------------------------------------------------
  // The screen model
  // ---------------------------------------------------------------------------------

  /** Kotlin's `roundToInt` on a finite value: half rounds up. */
  function Round(x: real): int {
    (x + 0.5).Floor
  }

  /**
   * `downloadProgress` / `scanProgress`: the percentage of the range processed. An empty
   * range is complete; otherwise the processed count is clamped at 0, the percentage capped
   * at 100 and rounded. A missing height or range bound counts as 0.
   */
  function Progress(height: Option<int>, range: Option<BlockRange>): (r: int)
    ensures 0 <= r <= 100
    ensures range.Some? && range.value.IsEmpty() ==> r == 100
    ensures range.Some? && !range.value.IsEmpty() && height.GetOr(0) >= range.value.endInclusive ==> r == 100
    ensures range.Some? && !range.value.IsEmpty() && height.GetOr(0) < range.value.start ==> r == 0
  {
    if range.Some? && range.value.IsEmpty() then 100
    else
      var start := if range.Some? then range.value.start else 0;
      var end := if range.Some? then range.value.endInclusive else 0;
      var processed := height.GetOr(0) - start + 1;
      var clamped := if processed < 0 then 0 else processed;
      var den := end - start + 1;
      ScaleComplete(clamped, den);
      CappedRound(clamped as real / den as real * 100.0)
  }

  lemma ScaleComplete(a: int, den: int)
    requires a >= 0 && den > 0
    ensures a as real / den as real * 100.0 >= 0.0
    ensures a >= den ==> a as real / den as real * 100.0 >= 100.0
  {
    if a >= den {
      assert a as real / den as real >= 1.0;
    }
  }

  /** `coerceAtMost(100f).roundToInt()` */
  function CappedRound(percent: real): (r: int)
    ensures percent >= 0.0 ==> 0 <= r <= 100
    ensures percent >= 100.0 ==> r == 100
    ensures percent == 0.0 ==> r == 0
  {
    Round(if percent > 100.0 then 100.0 else percent)
  }

  lemma CappedRoundMonotone(p1: real, p2: real)
    requires p1 <= p2
    ensures CappedRound(p1) <= CappedRound(p2)
  {
  }

  lemma ScaleMonotone(a: int, b: int, den: int)
    requires a <= b && den > 0
    ensures a as real / den as real * 100.0 <= b as real / den as real * 100.0
  {
  }

  /** Progress never goes down as the processed height grows. */
  lemma ProgressMonotone(h1: int, h2: int, range: Option<BlockRange>)
    requires h1 <= h2
    ensures Progress(Some(h1), range) <= Progress(Some(h2), range)
  {
    if !(range.Some? && range.value.IsEmpty()) {
      var start := if range.Some? then range.value.start else 0;
      var end := if range.Some? then range.value.endInclusive else 0;
      var den := (end - start + 1) as real;
      var c1 := if h1 - start + 1 < 0 then 0 else h1 - start + 1;
      var c2 := if h2 - start + 1 < 0 then 0 else h2 - start + 1;
      ScaleMonotone(c1, c2, end - start + 1);
      CappedRoundMonotone(c1 as real / den * 100.0, c2 as real / den * 100.0);
    }
  }

  /** `totalProgress`: 40% download and 60% scan, each capped at complete. */
  function TotalProgress(downloadProgress: int, scanProgress: int): (r: real)
    ensures 0.0 <= r <= 1.0
    ensures downloadProgress >= 100 && scanProgress >= 100 ==> r == 1.0
    ensures downloadProgress <= 0 && scanProgress <= 0 ==> r == 0.0
  {
    var d := downloadProgress as real / 100.0;
    var s := scanProgress as real / 100.0;
    var downloadWeighted := 0.40 * (if d > 1.0 then 1.0 else d);
    var scanWeighted := 0.60 * (if s > 1.0 then 1.0 else s);
    (if downloadWeighted < 0.0 then 0.0 else downloadWeighted) + (if scanWeighted < 0.0 then 0.0 else scanWeighted)
  }

  /** `unminedCount`: pending transactions submitted but not yet mined. */
  function UnminedCount(pending: seq<PendingTransaction>): (r: nat)
    ensures r <= |pending|
    ensures r == 0 <==> forall k :: 0 <= k < |pending| ==>
      !(pending[k].flags.isSubmitSuccess && !pending[k].flags.isMined)
  {
    if |pending| == 0 then 0
    else
      var rest := UnminedCount(pending[1..]);
      assert forall k :: 1 <= k < |pending| ==> pending[1..][k - 1] == pending[k];
      (if pending[0].flags.isSubmitSuccess && !pending[0].flags.isMined then 1 else 0) + rest
  }

  /** Counting a list in two parts adds the counts. */
  lemma {:induction false} UnminedCountAppend(a: seq<PendingTransaction>, b: seq<PendingTransaction>)
    ensures UnminedCount(a + b) == UnminedCount(a) + UnminedCount(b)
    decreases |a|
  {
    if |a| > 0 {
      assert (a + b)[1..] == a[1..] + b;
      UnminedCountAppend(a[1..], b);
    } else {
      assert a + b == b;
    }
  }

  /** The home screen's model at one emission. */
  datatype UiModel = UiModel(
    status: Status,
    processorInfo: ProcessorInfo,
    orchardBalance: Option<WalletBalance>,
    saplingBalance: Option<WalletBalance>,
    transparentBalance: Option<WalletBalance>,
    pendingSend: string,
    unminedCount: int)
  {
    /** The shielded available balance, 0 when unknown. */
    function SaplingAvailable(): int {
      if saplingBalance.Some? then saplingBalance.value.available else 0
    }

    /**
     * `hasFunds` as written: the shielded available balance, in zatoshi, is compared with
     * the miner's fee converted to ZEC (0.00001).
     */
    predicate HasFundsAsWritten() {
      SaplingAvailable() as real > MINERS_FEE as real / ZATOSHI_PER_ZEC as real
    }

    /** `hasFunds` with both sides in zatoshi: the shielded balance exceeds the miner's fee. */
    predicate HasFunds() {
      SaplingAvailable() > MINERS_FEE
    }

    predicate HasSaplingBalance() {
      (if saplingBalance.Some? then saplingBalance.value.total else 0) > 0
    }

    /** `hasAutoshieldFunds`: the transparent available balance reaches the threshold of one ZEC. */
    predicate HasAutoshieldFunds() {
      (if transparentBalance.Some? then transparentBalance.value.available else 0) >= ZATOSHI_PER_ZEC
    }

    predicate IsSynced() { status == Synced }

    /** `isSendEnabled` as written: synced, with funds in the as-written sense. */
    predicate IsSendEnabled() { IsSynced() && HasFundsAsWritten() }

    /** `isSendEnabled` with the corrected funds check. */
    predicate IsSendEnabledCorrected() { IsSynced() && HasFunds() }

    function DownloadProgress(): int {
      Progress(processorInfo.lastDownloadedHeight, processorInfo.lastDownloadRange)
    }

    function ScanProgress(): int {
      Progress(processorInfo.lastScannedHeight, processorInfo.lastScanRange)
    }

    function Total(): real {
      TotalProgress(DownloadProgress(), ScanProgress())
    }
  }

  /**
   * As written, the fee is compared in ZEC against a zatoshi amount, so any positive
   * shielded balance counts as funds.
   */
  lemma HasFundsAsWrittenIff(m: UiModel)
    ensures m.HasFundsAsWritten() <==> m.saplingBalance.Some? && m.saplingBalance.value.available >= 1
  {
    var a := m.SaplingAvailable();
    if a >= 1 {
      assert a as real >= 1.0;
    } else {
      assert a as real <= 0.0;
    }
  }

  /** As written, sending is enabled when synced with any positive shielded balance. */
  lemma IsSendEnabledIff(m: UiModel)
    ensures m.IsSendEnabled() <==>
      m.status == Synced && m.saplingBalance.Some? && m.saplingBalance.value.available >= 1
  {
    HasFundsAsWrittenIff(m);
  }

  /** A synced wallet holding one zatoshi has sending enabled, yet the send form refuses it as below the fee. */
  lemma OneZatoshiEnablesSend(addressValid: bool, amount: Option<int>, max: Option<int>, memoToSend: string)
    ensures var m := UiModel(Synced, ProcessorInfo(None, None, None, None, None), None,
      Some(WalletBalance(1, 1)), None, "0", 0);
      var i := Send.SendInput(addressValid, amount, Some(m.SaplingAvailable()), max, memoToSend);
      m.IsSendEnabled() && !m.IsSendEnabledCorrected() && Send.Fails(Send.FundsBelowFee, i)
  {
    var m := UiModel(Synced, ProcessorInfo(None, None, None, None, None), None,
      Some(WalletBalance(1, 1)), None, "0", 0);
    IsSendEnabledIff(m);
  }

  /** A balance of one zatoshi cannot pay the fee, yet the as-written check counts it as funds. */
  lemma OneZatoshiCountsAsFunds()
    ensures var m := UiModel(Synced, ProcessorInfo(None, None, None, None, None), None,
      Some(WalletBalance(1, 1)), None, "0", 0);
      m.HasFundsAsWritten() && m.SaplingAvailable() < MINERS_FEE && !m.HasFunds()
  {
    var m := UiModel(Synced, ProcessorInfo(None, None, None, None, None), None,
      Some(WalletBalance(1, 1)), None, "0", 0);
    HasFundsAsWrittenIff(m);
  }

  /**
   * With funds (in the corrected sense) the send form's checks on the available balance
   * pass: it is known, not zero and not below the fee; and sending is enabled exactly when
   * synced with such a balance.
   */
  lemma HasFundsPassesBalanceChecks(m: UiModel, addressValid: bool, amount: Option<int>, max: Option<int>,
    memoToSend: string)
    requires m.HasFunds()
    ensures var i := Send.SendInput(addressValid, amount, Some(m.SaplingAvailable()), max, memoToSend);
      !Send.Fails(Send.FundsUnknown, i) && !Send.Fails(Send.NoFundsAvailable, i) && !Send.Fails(Send.FundsBelowFee, i)
    ensures m.IsSendEnabledCorrected() <==> m.status == Synced
  {
  }

  /** The overall progress of any model lies between nothing and complete. */
  lemma TotalProgressBounded(m: UiModel)
    ensures 0.0 <= m.Total() <= 1.0
    ensures 0 <= m.DownloadProgress() <= 100 && 0 <= m.ScanProgress() <= 100
  {
  }

  /** The model emitted before the synchronizer's first values arrive (`onStart`). */
  function InitialUiModel(): (m: UiModel)
    ensures m.status == Disconnected && m.pendingSend == "0" && m.unminedCount == 0
    ensures m.orchardBalance.None? && m.saplingBalance.None? && m.transparentBalance.None?
    ensures !m.IsSendEnabled() && !m.HasAutoshieldFunds()
  {
    UiModel(Disconnected, ProcessorInfo(None, None, None, None, None), None, None, None, "0", 0)
  }

  /** The model built from one combined emission of the synchronizer's flows. */
  function ToUiModel(status: Status, info: ProcessorInfo, orchard: Option<WalletBalance>,
    sapling: Option<WalletBalance>, transparent: Option<WalletBalance>, pendingSend: string,
    pending: seq<PendingTransaction>): (m: UiModel)
    ensures m.status == status && m.processorInfo == info && m.pendingSend == pendingSend
    ensures m.orchardBalance == orchard && m.saplingBalance == sapling && m.transparentBalance == transparent
    ensures 0 <= m.unminedCount <= |pending|
    ensures m.unminedCount == 0 <==> forall k :: 0 <= k < |pending| ==>
      !(pending[k].flags.isSubmitSuccess && !pending[k].flags.isMined)
  {
    UiModel(status, info, orchard, sapling, transparent, pendingSend, UnminedCount(pending))
  }
}
