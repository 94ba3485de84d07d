/**
 * The send flow: the form fields of the send screens, the ordered validation of a send
 * request, the memo that is built and handed to the SDK, the analytics reported for user
 * input and failures, and the table of latency metrics that pairs the lifecycle steps of a
 * pending transaction (initialized, created, submitted, mined).
 */
module Send {
  import opened Wrappers
  import opened Text
  import opened Sdk
  import opened Report
  import MemoUtil

  // ---------------------------------------------------------------------------------
  // Memo assembly
  // ---------------------------------------------------------------------------------

  /** `createMemoToSend`: the memo, followed by the reply-to trailer when the address is included. */
  function CreateMemoToSend(memo: string, includeFromAddress: bool, fromAddress: string): (r: string)
    ensures !includeFromAddress ==> r == memo
    ensures includeFromAddress ==>
      r == memo + "\n" + MemoUtil.INCLUDE_MEMO_PREFIX_STANDARD + "\n" + fromAddress
  {
    if includeFromAddress then memo + "\n" + MemoUtil.INCLUDE_MEMO_PREFIX_STANDARD + "\n" + fromAddress
    else memo
  }

  /**
   * A memo built with the sender's address is read back by the reply-to lookup as that
   * address, provided the validator accepts it, it does not start with whitespace and it
   * does not itself contain the standard prefix.
   */
  lemma IncludedAddressIsRecovered(memo: string, fromAddress: string, isValidAddress: string -> bool)
    requires |memo| + |fromAddress| + 11 >= MemoUtil.MIN_MEMO_LENGTH
    requires isValidAddress(fromAddress) && |fromAddress| > 0 && !IsWhitespace(fromAddress[0])
    requires forall o :: 0 <= o < |fromAddress| ==>
      !MemoUtil.RegionMatchesIgnoreCase(fromAddress, o, MemoUtil.INCLUDE_MEMO_PREFIX_STANDARD)
    ensures MemoUtil.FindAddressInMemo(Some(CreateMemoToSend(memo, true, fromAddress)), isValidAddress)
      == Some(fromAddress)
  {
    MemoUtil.StandardTrailerIsFound(memo, fromAddress, isValidAddress);
  }

  /** Kotlin's `chunked(size)`: consecutive pieces of `size` characters, the last one shorter. */
  function Chunked(s: string, size: int): (r: seq<string>)
    requires size > 0
    ensures forall k :: 0 <= k < |r| ==> 0 < |r[k]| <= size
    ensures |s| == 0 <==> |r| == 0
    decreases |s|
  {
    if |s| == 0 then []
    else if |s| <= size then [s]
    else [s[..size]] + Chunked(s[size..], size)
  }

  /** The pieces of `chunked` joined together give back the string. */
  function Concat(parts: seq<string>): string {
    if |parts| == 0 then "" else parts[0] + Concat(parts[1..])
  }

  lemma {:induction false} ChunkedConcat(s: string, size: int)
    requires size > 0
    ensures Concat(Chunked(s, size)) == s
    decreases |s|
  {
    if |s| == 0 {
    } else if |s| <= size {
      assert Concat([s]) == s + Concat([]);
    } else {
      ChunkedConcat(s[size..], size);
      var r := Chunked(s, size);
      assert r[1..] == Chunked(s[size..], size);
      assert s == s[..size] + s[size..];
    }
  }

  /**
   * The memo handed to `sendToAddress`: the first chunk of `MAX_MEMO_SIZE` characters,
   * or "" when there is none.
   */
  function SentMemo(memoToSend: string): (r: string)
    ensures r == memoToSend[..if |memoToSend| < MAX_MEMO_SIZE then |memoToSend| else MAX_MEMO_SIZE]
  {
    var chunks := Chunked(memoToSend, MAX_MEMO_SIZE);
    if |chunks| == 0 then "" else chunks[0]
  }

  // ---------------------------------------------------------------------------------
  // Validation
  // ---------------------------------------------------------------------------------

  /** The checks of `validate`, one per error message it can emit. */
  datatype Check = AddressInvalid | AmountBelowMinimum | FundsUnknown | NoFundsAvailable
    | FundsBelowFee | AmountAboveMax | MemoTooLong

  /** The checks in the order `validate` tries them. */
  const CHECK_ORDER: seq<Check> := [AddressInvalid, AmountBelowMinimum, FundsUnknown,
    NoFundsAvailable, FundsBelowFee, AmountAboveMax, MemoTooLong]

  /**
   * What `validate` looks at: the validator's verdict on the recipient, the typed amount,
   * the available and maximum balances, and the memo that would be sent.
   */
  datatype SendInput = SendInput(addressValid: bool, amount: Option<int>, available: Option<int>,
    max: Option<int>, memoToSend: string)

  /** One check fails on this input. */
  predicate Fails(c: Check, i: SendInput) {
    match c
    case AddressInvalid => !i.addressValid
    case AmountBelowMinimum => i.amount.Some? && i.amount.value < 1
    case FundsUnknown => i.available.None?
    case NoFundsAvailable => i.available == Some(0)
    case FundsBelowFee => i.available.Some? && 0 < i.available.value < MINERS_FEE
    case AmountAboveMax => i.max.Some? && i.amount.Some? && i.amount.value > i.max.value
    case MemoTooLong => |i.memoToSend| > MAX_MEMO_SIZE
  }

  /** Reference definition: the first check of `order` that fails. */
  function FirstFailing(order: seq<Check>, i: SendInput): (r: Option<Check>)
    ensures r.Some? ==> r.value in order && Fails(r.value, i)
    ensures r.None? <==> forall k :: 0 <= k < |order| ==> !Fails(order[k], i)
  {
    if |order| == 0 then None
    else if Fails(order[0], i) then Some(order[0])
    else FirstFailing(order[1..], i)
  }

  /**
   * `validate`: the error of the first failing check, or null when every check passes.
   * A missing amount never fails the amount checks.
   */
  function Validate(i: SendInput): (r: Option<Check>)
    ensures r.Some? ==> Fails(r.value, i)
    ensures i.amount.None? ==> r != Some(AmountBelowMinimum) && r != Some(AmountAboveMax)
  {
    if !i.addressValid then Some(AddressInvalid)
    else if i.amount.Some? && i.amount.value < 1 then Some(AmountBelowMinimum)
    else if i.available.None? then Some(FundsUnknown)
    else if i.available.value == 0 then Some(NoFundsAvailable)
    else if i.available.value > 0 && i.available.value < MINERS_FEE then Some(FundsBelowFee)
    else if i.max.Some? && i.amount.Some? && i.amount.value > i.max.value then Some(AmountAboveMax)
    else if |i.memoToSend| > MAX_MEMO_SIZE then Some(MemoTooLong)
    else None
  }

  lemma FirstFailingCons(c: Check, rest: seq<Check>, i: SendInput)
    ensures FirstFailing([c] + rest, i) == if Fails(c, i) then Some(c) else FirstFailing(rest, i)
  {
    assert ([c] + rest)[1..] == rest;
  }

  /** `validate` reports exactly the first failing check in the documented order. */
  lemma ValidateIsFirstFailing(i: SendInput)
    ensures Validate(i) == FirstFailing(CHECK_ORDER, i)
  {
    FirstFailingCons(MemoTooLong, [], i);
    FirstFailingCons(AmountAboveMax, [MemoTooLong], i);
    FirstFailingCons(FundsBelowFee, [AmountAboveMax, MemoTooLong], i);
    FirstFailingCons(NoFundsAvailable, [FundsBelowFee, AmountAboveMax, MemoTooLong], i);
    FirstFailingCons(FundsUnknown, [NoFundsAvailable, FundsBelowFee, AmountAboveMax, MemoTooLong], i);
    FirstFailingCons(AmountBelowMinimum,
      [FundsUnknown, NoFundsAvailable, FundsBelowFee, AmountAboveMax, MemoTooLong], i);
    FirstFailingCons(AddressInvalid,
      [AmountBelowMinimum, FundsUnknown, NoFundsAvailable, FundsBelowFee, AmountAboveMax, MemoTooLong], i);
  }

  /** `validate` emits null exactly when no check fails. */
  lemma ValidatePassesIff(i: SendInput)
    ensures Validate(i).None? <==> forall c: Check :: !Fails(c, i)
  {
    if Validate(i).None? {
      forall c: Check ensures !Fails(c, i) {
        match c
        case AddressInvalid =>
        case AmountBelowMinimum =>
        case FundsUnknown =>
        case NoFundsAvailable =>
        case FundsBelowFee =>
        case AmountAboveMax =>
        case MemoTooLong =>
      }
    }
  }

  /** A request that passes validation sends its memo untruncated. */
  lemma ValidMemoIsSentWhole(i: SendInput)
    requires Validate(i).None?
    ensures SentMemo(i.memoToSend) == i.memoToSend
  {
    assert !Fails(MemoTooLong, i);
  }

  // ---------------------------------------------------------------------------------
  // Analytics reported while sending
  // ---------------------------------------------------------------------------------

  /**
   * `reportUserInputIssues`: the issues sent to feedback, in order. The third amount branch
   * compares a boxed amount with a long, which is never equal, so it never fires.
   */
  function ReportUserInputIssues(toAddress: string, fromAddress: string, amount: Option<int>,
    memoToSend: string): (r: seq<Issue>)
    ensures SelfSend in r <==> toAddress == fromAddress
    ensures TinyAmount in r <==> amount.GetOr(0) < MINERS_FEE
    ensures forall k :: 0 <= k < |r| ==> r[k] != MinimumAmount
    ensures TruncatedMemo(|memoToSend|) in r <==> |memoToSend| > MAX_MEMO_SIZE
    ensures LargeMemo(|memoToSend|) in r <==>
      (|memoToSend| <= MAX_MEMO_SIZE && |memoToSend| as real > 0.96 * MAX_MEMO_SIZE as real)
    ensures |r| <= 3
  {
    var self := if toAddress == fromAddress then [SelfSend] else [];
    var a := amount.GetOr(0);
    var size := if a < MINERS_FEE then [TinyAmount] else if a < 100 then [MicroAmount] else [];
    var n := |memoToSend|;
    var memo := if n > MAX_MEMO_SIZE then [TruncatedMemo(n)]
      else if n as real > 0.96 * MAX_MEMO_SIZE as real then [LargeMemo(n)] else [];
    self + size + memo
  }

  /** With the fee above 100 zatoshi, the "micro amount" branch is unreachable too. */
  lemma NoMicroAmountIssue(toAddress: string, fromAddress: string, amount: Option<int>, memoToSend: string)
    ensures MicroAmount !in ReportUserInputIssues(toAddress, fromAddress, amount, memoToSend)
  {
  }

  /** What `reportFailures` sends: a funnel step, and for failures also a non-fatal error. */
  datatype Event = Funnel(step: SendStep) | NonFatal(error: TxError)

  /** `reportFailures`: cancellation, then encoding failure, then submit failure. */
  function ReportFailures(tx: Option<PendingTransaction>): (r: seq<Event>)
    ensures tx.None? ==> r == []
    ensures tx.Some? && tx.value.flags.isCancelled ==> r == [Funnel(Cancelled)]
    ensures tx.Some? && !tx.value.flags.isCancelled && tx.value.flags.isFailedEncoding ==>
      r == [Funnel(ErrorEncoding(tx.value.errorCode, tx.value.errorMessage)),
            NonFatal(TxEncodeError(tx.value.errorCode, tx.value.errorMessage))]
    ensures (tx.Some? && !tx.value.flags.isCancelled && !tx.value.flags.isFailedEncoding
      && tx.value.flags.isFailedSubmit) ==>
      r == [Funnel(ErrorSubmitting(tx.value.errorCode, tx.value.errorMessage)),
            NonFatal(TxSubmitError(tx.value.errorCode, tx.value.errorMessage))]
    ensures r == [] <==> (tx.None? ||
      (!tx.value.flags.isCancelled && !tx.value.flags.isFailedEncoding && !tx.value.flags.isFailedSubmit))
  {
    match tx
    case None => []
    case Some(t) =>
      if t.flags.isCancelled then [Funnel(Cancelled)]
      else if t.flags.isFailedEncoding then
        [Funnel(ErrorEncoding(t.errorCode, t.errorMessage)), NonFatal(TxEncodeError(t.errorCode, t.errorMessage))]
      else if t.flags.isFailedSubmit then
        [Funnel(ErrorSubmitting(t.errorCode, t.errorMessage)), NonFatal(TxSubmitError(t.errorCode, t.errorMessage))]
      else []
  }

  // ---------------------------------------------------------------------------------
  // Latency metrics
  // ---------------------------------------------------------------------------------

  /**
   * A timed metric: its key, its description and the time points marked so far. It starts
   * at the first point and ends at the last.
   */
  datatype TimeMetric = TimeMetric(key: string, description: string, times: seq<int>) {
    function EndTime(): (r: Option<int>)
      ensures r.Some? <==> |times| > 0
      ensures r.Some? ==> r.value == times[|times| - 1]
    {
      if |times| == 0 then None else Some(times[|times| - 1])
    }

    function ElapsedTime(): (r: Option<int>)
      ensures r.Some? <==> |times| > 0
      ensures r.Some? ==> r.value == times[|times| - 1] - times[0]
    {
      if |times| == 0 then None else Some(times[|times| - 1] - times[0])
    }

    function MarkTime(now: int): (r: TimeMetric)
      ensures r.key == key && r.description == description && r.times == times + [now]
      ensures r.EndTime() == Some(now)
    {
      TimeMetric(key, description, times + [now])
    }
  }

  /** `+type`: a fresh metric of that type, marked once. */
  function Fresh(t: MetricType, now: int): (r: TimeMetric)
    ensures r.key == t.Key() && r.times == [now] && r.ElapsedTime() == Some(0)
  {
    TimeMetric(t.Key(), t.Description(), []).MarkTime(now)
  }

  /** `toMetricIdFor`: "{txId}.{key}". */
  function MetricIdFor(txId: int, key: string): (r: string)
    ensures StartsWith(r, IntToString(txId) + ".") && r[|IntToString(txId)| + 1..] == key
  {
    IntToString(txId) + "." + key
  }

  /** `toRelatedMetricId`: the id under which the start of a paired metric is kept. */
  function RelatedMetricId(metricId: string): (r: string)
    ensures |r| == |metricId| + 8 && r[..|metricId|] == metricId
  {
    metricId + ".related"
  }

  /** `toTxId`: the text before the first '.', read as a long; None where `toLong` throws. */
  function ToTxId(metricId: string): (r: Option<int>)
    ensures r.Some? ==> IsLong(r.value)
  {
    ToLongOrNull(BeforeFirst(metricId, '.'))
  }

  /** The transaction id is recovered from any metric id built for it. */
  lemma ToTxIdRoundTrip(txId: int, key: string)
    requires IsLong(txId)
    ensures ToTxId(MetricIdFor(txId, key)) == Some(txId)
  {
    var d := IntToString(txId);
    var m := MetricIdFor(txId, key);
    assert m == d + ("." + key);
    BeforeFirstOfPrefix(d, "." + key, '.');
    ParseSignedOfIntToString(txId, LONG_MIN, LONG_MAX);
  }

  /** Helper: `BeforeFirst` stops at the separator that follows a separator-free prefix. */
  lemma BeforeFirstOfPrefix(a: string, b: string, c: char)
    requires c !in a && |b| > 0 && b[0] == c
    ensures BeforeFirst(a + b, c) == a
  {
    var s := a + b;
    assert s[..|a|] == a;
    assert s[|a|] == c;
    assert forall j :: 0 <= j < |a| ==> s[j] == a[j];
  }

  /** Metric ids for one transaction are equal only for equal keys. */
  lemma MetricIdInjective(txId: int, k1: string, k2: string)
    ensures MetricIdFor(txId, k1) == MetricIdFor(txId, k2) <==> k1 == k2
  {
    if MetricIdFor(txId, k1) == MetricIdFor(txId, k2) {
      var n := |IntToString(txId)| + 1;
      assert MetricIdFor(txId, k1)[n..] == k1;
    }
  }

  /**
   * `Pair.by`: pairs a start metric with the end of an interval. Without a start entry (or
   * one with no time point) nothing is stored and the result is null. Otherwise the end
   * metric starts at the start's end time and ends now; it is stored under its own id and
   * the start is stored under the related id.
   */
  function PairMetrics(metrics: map<string, TimeMetric>, first: MetricType, second: MetricType,
    txId: int, now: int): (r: (map<string, TimeMetric>, Option<string>))
    ensures var startId := MetricIdFor(txId, first.Key());
      startId !in metrics ==> r == (metrics, None)
    ensures var startId := MetricIdFor(txId, first.Key());
      r.1.Some? <==> startId in metrics && metrics[startId].EndTime().Some?
    ensures r.1.None? ==> r.0 == metrics
    ensures r.1.Some? ==> var endId := r.1.value; var start := metrics[MetricIdFor(txId, first.Key())];
      && endId == MetricIdFor(txId, second.Key())
      && r.0.Keys == metrics.Keys + {endId, RelatedMetricId(endId)}
      && r.0[endId].key == second.Key() && r.0[endId].description == second.Description()
      && start.EndTime().Some? && r.0[endId].times == [start.EndTime().value, now]
      && r.0[RelatedMetricId(endId)] == start
      && forall k :: k in metrics && k != endId && k != RelatedMetricId(endId) ==> r.0[k] == metrics[k]
  {
    var startId := MetricIdFor(txId, first.Key());
    if startId !in metrics then (metrics, None)
    else
      var start := metrics[startId];
      match start.EndTime()
      case None => (metrics, None)
      case Some(startEnd) =>
        var endMetric := TimeMetric(second.Key(), second.Description(), [startEnd]).MarkTime(now);
        var endId := MetricIdFor(txId, endMetric.key);
        (metrics[endId := endMetric][RelatedMetricId(endId) := start], Some(endId))
  }

  /** What `report` did: nothing, reported the metric, or reported it and then threw in `toTxId`. */
  datatype ReportOutcome = NotReported | Reported(metric: TimeMetric) | ReportedThenFailed(metric: TimeMetric)

  /**
   * `report`: a metric whose elapsed time is positive is reported; then, when it completes
   * a start metric, that start entry and the relation are removed, and a mined metric is
   * removed itself. The removals are done at once (the source runs them in a coroutine).
   */
  function ReportMetrics(metrics: map<string, TimeMetric>, metricId: Option<string>)
    : (r: (map<string, TimeMetric>, ReportOutcome))
    ensures metricId.None? || metricId.value !in metrics ==> r == (metrics, NotReported)
    ensures metricId.Some? && metricId.value in metrics && metrics[metricId.value].ElapsedTime().GetOr(0) <= 0
      ==> r == (metrics, NotReported)
    ensures metricId.Some? && metricId.value in metrics && metrics[metricId.value].ElapsedTime().GetOr(0) > 0
      ==> !r.1.NotReported? && r.1.metric == metrics[metricId.value]
    ensures r.1.ReportedThenFailed? <==>
      (metricId.Some? && metricId.value in metrics && metrics[metricId.value].ElapsedTime().GetOr(0) > 0
       && RelatedMetricId(metricId.value) in metrics && ToTxId(metricId.value).None?)
    ensures r.1.NotReported? || r.1.ReportedThenFailed? ==> r.0 == metrics
    ensures r.0.Keys <= metrics.Keys
    ensures forall k :: k in r.0 ==> r.0[k] == metrics[k]
    ensures r.1.Reported? ==> (metricId.Some? && metricId.value in metrics && r.1.metric == metrics[metricId.value]
      && metrics[metricId.value].ElapsedTime().GetOr(0) > 0)
  {
    if metricId.None? || metricId.value !in metrics then (metrics, NotReported)
    else
      var id := metricId.value;
      var metric := metrics[id];
      if metric.ElapsedTime().GetOr(0) <= 0 then (metrics, NotReported)
      else
        var relatedId := RelatedMetricId(id);
        var txId := ToTxId(id);
        if relatedId in metrics && txId.None? then (metrics, ReportedThenFailed(metric))
        else
          var afterRelated :=
            if relatedId in metrics then metrics - {MetricIdFor(txId.value, metrics[relatedId].key), relatedId}
            else metrics;
          var afterSelf := if metric.key == TransactionMined.Key() then afterRelated - {id} else afterRelated;
          (afterSelf, Reported(metric))
  }

  /** Exactly the consumed start entry, the relation and (for mined) the metric itself go. */
  lemma ReportRemovesExactly(metrics: map<string, TimeMetric>, id: string, txId: int)
    requires id in metrics && metrics[id].ElapsedTime().GetOr(0) > 0
    requires ToTxId(id) == Some(txId)
    ensures var r := ReportMetrics(metrics, Some(id)); var relatedId := RelatedMetricId(id);
      var gone := (if relatedId in metrics then {MetricIdFor(txId, metrics[relatedId].key), relatedId} else {})
        + (if metrics[id].key == TransactionMined.Key() then {id} else {});
      r.1 == Reported(metrics[id]) && r.0.Keys == metrics.Keys - gone
  {
  }

  /**
   * Pairing, reporting the pair and pairing again: once the interval is reported, its start
   * entry is gone, so a repeated pairing for the same transaction stores nothing.
   */
  lemma {:induction false} RepeatedPairFindsNoStart(metrics: map<string, TimeMetric>, first: MetricType,
    second: MetricType, txId: int, now: int, later: int)
    requires IsLong(txId) && first != second
    requires var startId := MetricIdFor(txId, first.Key());
      startId in metrics && metrics[startId].key == first.Key() && metrics[startId].EndTime().Some?
      && now > metrics[startId].EndTime().value
    ensures var p := PairMetrics(metrics, first, second, txId, now);
      p.1.Some? &&
      var q := ReportMetrics(p.0, p.1);
      q.1.Reported? && PairMetrics(q.0, first, second, txId, later) == (q.0, None)
  {
    PairThenReportDropsStart(metrics, first, second, txId, now);
  }

  /** Reporting a fresh pair removes the metric it started from. */
  lemma PairThenReportDropsStart(metrics: map<string, TimeMetric>, first: MetricType,
    second: MetricType, txId: int, now: int)
    requires IsLong(txId) && first != second
    requires var startId := MetricIdFor(txId, first.Key());
      startId in metrics && metrics[startId].key == first.Key() && metrics[startId].EndTime().Some?
      && now > metrics[startId].EndTime().value
    ensures var p := PairMetrics(metrics, first, second, txId, now);
      p.1.Some? &&
      var q := ReportMetrics(p.0, p.1);
      q.1.Reported? && MetricIdFor(txId, first.Key()) !in q.0
  {
    var startId := MetricIdFor(txId, first.Key());
    var start := metrics[startId];
    var p := PairMetrics(metrics, first, second, txId, now);
    var endId := p.1.value;
    assert p.0[endId].ElapsedTime() == Some(now - start.EndTime().value);
    ToTxIdRoundTrip(txId, second.Key());
    assert RelatedMetricId(endId) in p.0;
    assert p.0[RelatedMetricId(endId)].key == first.Key();
  }

  /**
   * One `updateMetrics` step on the table: mined pairs submitted with mined, submit success
   * pairs created with submitted, created pairs initialized with created, creating stores a
   * fresh "initialized" metric (overwriting any entry there); the resulting id is reported.
   */
  function UpdateMetricsStep(metrics: map<string, TimeMetric>, tx: Option<PendingTransaction>, now: int)
    : (r: map<string, TimeMetric>)
    ensures tx.None? ==> r == metrics
    ensures tx.Some? && tx.value.flags.isMined ==>
      var p := PairMetrics(metrics, TransactionSubmitted, TransactionMined, tx.value.id, now);
      r == ReportMetrics(p.0, p.1).0
    ensures tx.Some? && !tx.value.flags.isMined && tx.value.flags.isSubmitSuccess ==>
      var p := PairMetrics(metrics, TransactionCreated, TransactionSubmitted, tx.value.id, now);
      r == ReportMetrics(p.0, p.1).0
    ensures tx.Some? && !tx.value.flags.isMined && !tx.value.flags.isSubmitSuccess && tx.value.flags.isCreated ==>
      var p := PairMetrics(metrics, TransactionInitialized, TransactionCreated, tx.value.id, now);
      r == ReportMetrics(p.0, p.1).0
    ensures (tx.Some? && !tx.value.flags.isMined && !tx.value.flags.isSubmitSuccess && !tx.value.flags.isCreated
      && tx.value.flags.isCreating) ==>
      r == metrics[MetricIdFor(tx.value.id, TransactionInitialized.Key()) := Fresh(TransactionInitialized, now)]
    ensures (tx.Some? && !tx.value.flags.isMined && !tx.value.flags.isSubmitSuccess && !tx.value.flags.isCreated
      && !tx.value.flags.isCreating) ==> r == metrics
  {
    match tx
    case None => metrics
    case Some(t) =>
      if t.flags.isMined then
        var p := PairMetrics(metrics, TransactionSubmitted, TransactionMined, t.id, now);
        ReportMetrics(p.0, p.1).0
      else if t.flags.isSubmitSuccess then
        var p := PairMetrics(metrics, TransactionCreated, TransactionSubmitted, t.id, now);
        ReportMetrics(p.0, p.1).0
      else if t.flags.isCreated then
        var p := PairMetrics(metrics, TransactionInitialized, TransactionCreated, t.id, now);
        ReportMetrics(p.0, p.1).0
      else if t.flags.isCreating then
        var id := MetricIdFor(t.id, TransactionInitialized.Key());
        var stored := metrics[id := Fresh(TransactionInitialized, now)];
        ReportMetrics(stored, Some(id)).0
      else ReportMetrics(metrics, None).0
  }

  /**
   * A mined step whose submission was timed reports the interval and leaves nothing of it
   * behind: the submitted start, the relation and the mined metric are all removed.
   */
  lemma MinedStepClearsInterval(metrics: map<string, TimeMetric>, tx: PendingTransaction, now: int)
    requires IsLong(tx.id) && tx.flags.isMined
    requires var startId := MetricIdFor(tx.id, TransactionSubmitted.Key());
      startId in metrics && metrics[startId].key == TransactionSubmitted.Key() && metrics[startId].EndTime().Some?
      && now > metrics[startId].EndTime().value
    ensures var r := UpdateMetricsStep(metrics, Some(tx), now); var endId := MetricIdFor(tx.id, TransactionMined.Key());
      MetricIdFor(tx.id, TransactionSubmitted.Key()) !in r && endId !in r && RelatedMetricId(endId) !in r
  {
    PairThenReportDropsStart(metrics, TransactionSubmitted, TransactionMined, tx.id, now);
    var p := PairMetrics(metrics, TransactionSubmitted, TransactionMined, tx.id, now);
    ToTxIdRoundTrip(tx.id, TransactionMined.Key());
    ReportRemovesExactly(p.0, p.1.value, tx.id);
  }

  /** The send view model: the form fields and the metric table it mutates. */
  class SendViewModel {
    var fromAddress: string
    var toAddress: string
    var memo: string
    var zatoshiAmount: Option<int>
    var includeFromAddress: bool
    var metrics: map<string, TimeMetric>

    constructor()
      ensures fromAddress == "" && toAddress == "" && memo == "" && zatoshiAmount.None?
      ensures !includeFromAddress && metrics == map[]
    {
      fromAddress := "";
      toAddress := "";
      memo := "";
      zatoshiAmount := None;
      includeFromAddress := false;
      metrics := map[];
    }

    /** `isShielded`: the recipient is a shielded address. */
    function IsShielded(): (r: bool)
      reads this
      ensures r <==> |toAddress| > 0 && toAddress[0] == 'z'
    {
      StartsWith(toAddress, "z")
    }

    /** The memo `send` and `validate` build from the current fields. */
    function MemoToSend(): string
      reads this
    {
      CreateMemoToSend(memo, includeFromAddress, fromAddress)
    }

    /**
     * The `includeFromAddress` setter: turning it on needs a non-empty `fromAddress`;
     * otherwise `require` throws and the field keeps its value.
     */
    method SetIncludeFromAddress(value: bool) returns (ok: bool)
      modifies this
      ensures ok <==> !value || |fromAddress| > 0
      ensures includeFromAddress == (if ok then value else old(includeFromAddress))
      ensures includeFromAddress && !old(includeFromAddress) ==> |fromAddress| > 0
      ensures fromAddress == old(fromAddress) && toAddress == old(toAddress) && memo == old(memo)
      ensures zatoshiAmount == old(zatoshiAmount) && metrics == old(metrics)
    {
      ok := !value || |fromAddress| > 0;
      if ok {
        includeFromAddress := value;
      }
    }

    /** `reset`: clears the form; the metric table is kept. */
    method Reset()
      modifies this
      ensures fromAddress == "" && toAddress == "" && memo == "" && zatoshiAmount.None? && !includeFromAddress
      ensures MemoToSend() == ""
      ensures metrics == old(metrics)
    {
      fromAddress := "";
      toAddress := "";
      memo := "";
      zatoshiAmount := None;
      includeFromAddress := false;
    }

    /** `TimeMetric.by`: stores the metric under its id for the transaction. */
    method StoreBy(metric: TimeMetric, txId: int) returns (metricId: string)
      modifies this
      ensures metricId == MetricIdFor(txId, metric.key)
      ensures metrics == old(metrics)[metricId := metric]
      ensures fromAddress == old(fromAddress) && toAddress == old(toAddress) && memo == old(memo)
      ensures zatoshiAmount == old(zatoshiAmount) && includeFromAddress == old(includeFromAddress)
    {
      metricId := MetricIdFor(txId, metric.key);
      metrics := metrics[metricId := metric];
    }

    /** `Pair.by` on the table. */
    method PairBy(first: MetricType, second: MetricType, txId: int, now: int) returns (r: Option<string>)
      modifies this
      ensures (metrics, r) == PairMetrics(old(metrics), first, second, txId, now)
      ensures fromAddress == old(fromAddress) && toAddress == old(toAddress) && memo == old(memo)
      ensures zatoshiAmount == old(zatoshiAmount) && includeFromAddress == old(includeFromAddress)
    {
      var startId := MetricIdFor(txId, first.Key());
      if startId !in metrics {
        return None;
      }
      var start := metrics[startId];
      var startEnd := start.EndTime();
      if startEnd.None? {
        return None;
      }
      var endMetric := TimeMetric(second.Key(), second.Description(), [startEnd.value]).MarkTime(now);
      var endId := StoreBy(endMetric, txId);
      metrics := metrics[RelatedMetricId(endId) := start];
      return Some(endId);
    }

    /** `report` on the table. */
    method Report(metricId: Option<string>) returns (outcome: ReportOutcome)
      modifies this
      ensures (metrics, outcome) == ReportMetrics(old(metrics), metricId)
      ensures fromAddress == old(fromAddress) && toAddress == old(toAddress) && memo == old(memo)
      ensures zatoshiAmount == old(zatoshiAmount) && includeFromAddress == old(includeFromAddress)
    {
      if metricId.None? || metricId.value !in metrics {
        return NotReported;
      }
      var id := metricId.value;
      var metric := metrics[id];
      if metric.ElapsedTime().GetOr(0) <= 0 {
        return NotReported;
      }
      var relatedId := RelatedMetricId(id);
      if relatedId in metrics {
        var txId := ToTxId(id);
        if txId.None? {
          return ReportedThenFailed(metric);
        }
        var relatedMetric := metrics[relatedId];
        ghost var before := metrics;
        metrics := metrics - {MetricIdFor(txId.value, relatedMetric.key)};
        metrics := metrics - {relatedId};
        assert metrics == before - {MetricIdFor(txId.value, relatedMetric.key), relatedId};
      }
      if metric.key == TransactionMined.Key() {
        metrics := metrics - {id};
      }
      return Reported(metric);
    }

    /** `updateMetrics`: one lifecycle update of a pending transaction. */
    method UpdateMetrics(tx: Option<PendingTransaction>, now: int)
      modifies this
      ensures metrics == UpdateMetricsStep(old(metrics), tx, now)
      ensures fromAddress == old(fromAddress) && toAddress == old(toAddress) && memo == old(memo)
      ensures zatoshiAmount == old(zatoshiAmount) && includeFromAddress == old(includeFromAddress)
    {
      if tx.None? {
        return;
      }
      var t := tx.value;
      var metricId: Option<string>;
      if t.flags.isMined {
        metricId := PairBy(TransactionSubmitted, TransactionMined, t.id, now);
      } else if t.flags.isSubmitSuccess {
        metricId := PairBy(TransactionCreated, TransactionSubmitted, t.id, now);
      } else if t.flags.isCreated {
        metricId := PairBy(TransactionInitialized, TransactionCreated, t.id, now);
      } else if t.flags.isCreating {
        var id := StoreBy(Fresh(TransactionInitialized, now), t.id);
        metricId := Some(id);
      } else {
        metricId := None;
      }
      var _ := Report(metricId);
    }
  }
}
