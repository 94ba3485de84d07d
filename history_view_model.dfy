/**
 * The transaction detail screen: whether a cleared transaction was received or sent, how
 * confirmed it is, the amounts and labels shown for each direction, and the transaction id
 * written as reversed hexadecimal.
 */
module History {
  import opened Wrappers
  import opened Text
  import opened Sdk
  import MemoUtil

  // ---------------------------------------------------------------------------------
  // Transaction id
  // ---------------------------------------------------------------------------------

  predicate IsLowerHexDigit(c: char) {
    '0' <= c <= '9' || 'a' <= c <= 'f'
  }

  /** The lowercase hex digit of a value below 16. */
  function HexDigit(d: int): (c: char)
    requires 0 <= d < 16
    ensures IsLowerHexDigit(c)
  {
    if d < 10 then ('0' as int + d) as char else ('a' as int + d - 10) as char
  }

  /** `String.format("%02x", b)` for a byte read as unsigned. */
  function HexByte(b: Byte): (r: string)
    ensures |r| == 2 && IsLowerHexDigit(r[0]) && IsLowerHexDigit(r[1])
  {
    [HexDigit(b as int / 16), HexDigit(b as int % 16)]
  }

  /** The bytes from last to first, two lowercase hex digits each. */
  function HexReversed(bytes: seq<Byte>): (r: string)
    ensures |r| == 2 * |bytes|
  {
    if |bytes| == 0 then ""
    else HexByte(bytes[|bytes| - 1]) + HexReversed(bytes[..|bytes| - 1])
  }

  /** `toTxId`: null for a missing id, else the id's bytes in reverse order, in hex. */
  method ToTxId(tx: Option<seq<Byte>>) returns (r: Option<string>)
    ensures tx.None? <==> r.None?
    ensures tx.Some? ==> r == Some(HexReversed(tx.value))
  {
    if tx.None? {
      return None;
    }
    var bytes := tx.value;
    var sb := "";
    var i := |bytes| - 1;
    while i >= 0
      invariant -1 <= i < |bytes|
      invariant sb == HexReversed(bytes[i + 1..])
    {
      HexReversedPrefix(bytes, i);
      sb := sb + HexByte(bytes[i]);
      i := i - 1;
    }
    assert bytes[0..] == bytes;
    return Some(sb);
  }

  /** Appending the byte before a suffix extends the reversed text of that suffix. */
  lemma HexReversedPrefix(bytes: seq<Byte>, i: int)
    requires 0 <= i < |bytes|
    ensures HexReversed(bytes[i..]) == HexReversed(bytes[i + 1..]) + HexByte(bytes[i])
  {
    var rest := bytes[i + 1..];
    assert bytes[i..] == [bytes[i]] + rest;
    HexReversedCons(bytes[i], rest);
  }

  lemma {:induction false} HexReversedCons(b: Byte, rest: seq<Byte>)
    ensures HexReversed([b] + rest) == HexReversed(rest) + HexByte(b)
    decreases |rest|
  {
    var s := [b] + rest;
    if |rest| == 0 {
      assert s[..0] == [];
    } else {
      assert s[..|s| - 1] == [b] + rest[..|rest| - 1];
      HexReversedCons(b, rest[..|rest| - 1]);
    }
  }

  /** The id text holds lowercase hex digits only. */
  lemma {:induction false} HexReversedIsHex(bytes: seq<Byte>)
    ensures forall k :: 0 <= k < |HexReversed(bytes)| ==> IsLowerHexDigit(HexReversed(bytes)[k])
    decreases |bytes|
  {
    if |bytes| > 0 {
      HexReversedIsHex(bytes[..|bytes| - 1]);
    }
  }

  /** The value of one hex digit. */
  function HexValue(c: char): (v: int)
    ensures 0 <= v < 16
  {
    if '0' <= c <= '9' then c as int - '0' as int
    else if 'a' <= c <= 'f' then c as int - 'a' as int + 10
    else 0
  }

  lemma HexValueOfDigit(d: int)
    requires 0 <= d < 16
    ensures HexValue(HexDigit(d)) == d
  {
  }

  /** Reference decoder: reads two hex digits per byte, last byte first. */
  function ParseHexReversed(s: string): (r: seq<Byte>)
    requires |s| % 2 == 0
    decreases |s|
  {
    if |s| == 0 then []
    else ParseHexReversed(s[2..]) + [(HexValue(s[0]) * 16 + HexValue(s[1])) as Byte]
  }

  /** The hex text determines the bytes: decoding it gives them back. */
  lemma {:induction false} HexReversedRoundTrip(bytes: seq<Byte>)
    ensures ParseHexReversed(HexReversed(bytes)) == bytes
    decreases |bytes|
  {
    if |bytes| > 0 {
      var last := bytes[|bytes| - 1];
      var init := bytes[..|bytes| - 1];
      var s := HexReversed(bytes);
      assert s == HexByte(last) + HexReversed(init);
      assert s[2..] == HexReversed(init);
      HexReversedRoundTrip(init);
      var hi, lo := last as int / 16, last as int % 16;
      assert s[0] == HexDigit(hi) && s[1] == HexDigit(lo);
      HexValueOfDigit(hi);
      HexValueOfDigit(lo);
      assert (hi * 16 + lo) as Byte == last;
      assert bytes == init + [last];
    }
  }

  // ---------------------------------------------------------------------------------
  // Classification and confirmation
  // ---------------------------------------------------------------------------------

  predicate HasToAddress(tx: ConfirmedTransaction) {
    tx.toAddress.Some? && |tx.toAddress.value| > 0
  }

  /**
   * `isInbound`: false for a transaction with a recipient address; true for one without,
   * with a positive value and mined; unknown otherwise.
   */
  function IsInbound(tx: Option<ConfirmedTransaction>): (r: Option<bool>)
    ensures tx.Some? && HasToAddress(tx.value) ==> r == Some(false)
    ensures tx.Some? && !HasToAddress(tx.value) && tx.value.value > 0 && tx.value.minedHeight > 0 ==> r == Some(true)
    ensures r.None? <==> tx.None? || (!HasToAddress(tx.value) && (tx.value.value <= 0 || tx.value.minedHeight <= 0))
  {
    if tx.Some? && HasToAddress(tx.value) then Some(false)
    else if tx.Some? && !HasToAddress(tx.value) && tx.value.value > 0 && tx.value.minedHeight > 0 then Some(true)
    else None
  }

  /** The detail confirmation states (each a string resource, the second with its count). */
  datatype Confirmation = Pending | Confirmed | Confirming(count: int) | CountUnavailable

  /** The quotient of a non-negative number by a positive one brackets it from below. */
  lemma QuotientBrackets(n: int, b: int)
    requires n >= 0 && b > 0
    ensures 0 <= n / b && (n / b) * b <= n < (n / b) * b + b
  {
  }

  /**
   * Division of a long by a positive long, truncating toward zero as the JVM does: the
   * quotient has the sign of the dividend and the remainder `a - q * b` lies strictly
   * within one divisor of zero, on the dividend's side.
   */
  function TruncDiv(a: int, b: int): (q: int)
    requires b > 0
    ensures a >= 0 ==> q >= 0 && 0 <= a - q * b < b
    ensures a < 0 ==> q <= 0 && -b < a - q * b <= 0
  {
    var n := if a >= 0 then a else -a;
    QuotientBrackets(n, b);
    if a >= 0 then n / b else -(n / b)
  }

  /** Two quotients leaving remainders in the same window of width `b` are equal. */
  lemma QuotientUnique(a: int, b: int, lo: int, x: int, y: int)
    requires b > 0
    requires lo <= a - x * b < lo + b && lo <= a - y * b < lo + b
    ensures x == y
  {
    if x < y {
      MultiplesApart(x, y, b);
      assert false;
    } else if y < x {
      MultiplesApart(y, x, b);
      assert false;
    }
  }

  /** Multiples of different quotients lie at least one divisor apart. */
  lemma MultiplesApart(x: int, y: int, b: int)
    requires x < y && b > 0
    ensures y * b - x * b >= b
  {
    MultipleAtLeast(y - x, b);
    assert y * b - x * b == (y - x) * b;
  }

  /** A positive multiple of a positive number is at least that number. */
  lemma {:induction false} MultipleAtLeast(k: int, b: int)
    requires k >= 1 && b > 0
    ensures k * b >= b
  {
    if k > 1 {
      MultipleAtLeast(k - 1, b);
      assert k * b == (k - 1) * b + b;
    }
  }

  /** Truncation agrees with Euclidean division exactly on non-negative dividends and on multiples. */
  lemma TruncDivAgainstEuclidean(a: int, b: int)
    requires b > 0
    ensures TruncDiv(a, b) == a / b <==> a >= 0 || a % b == 0
  {
    var q := TruncDiv(a, b);
    var e := a / b;
    assert a - e * b == a % b && 0 <= a % b < b;
    if a >= 0 {
      QuotientUnique(a, b, 0, q, e);
    } else if a % b == 0 {
      QuotientUnique(a, b, 1 - b, q, e);
    }
  }

  /** About 25 blocks, in seconds as the source writes it. */
  const SUFFICIENTLY_OLD_THRESHOLD: int := 75 * 1000 * 25

  /**
   * `isSufficientlyOld`: mined after activation, with block time less than the threshold
   * before the clock (`nowMillis`, the value of `System.currentTimeMillis`).
   */
  predicate IsSufficientlyOld(tx: ConfirmedTransaction, nowMillis: int, saplingActivationHeight: int) {
    tx.minedHeight > saplingActivationHeight
    && TruncDiv(nowMillis, 1000) - tx.blockTimeInSeconds < SUFFICIENTLY_OLD_THRESHOLD
  }

  /** The confirmation logic of `toUiModel` for a present transaction. */
  function ConfirmationOf(tx: ConfirmedTransaction, latestHeight: Option<int>, saplingActivationHeight: int,
    nowMillis: int): (r: Confirmation)
    ensures tx.blockTimeInSeconds == 0 <==> r == Pending
    ensures r.Confirming? ==> latestHeight.Some? && r.count == latestHeight.value - tx.minedHeight + 1 && r.count < 10
  {
    var mined := tx.blockTimeInSeconds != 0;
    if mined then
      var hasLatestHeight := latestHeight.Some? && latestHeight.value > saplingActivationHeight;
      if tx.minedHeight > 0 && hasLatestHeight then
        var confirmations := latestHeight.value - tx.minedHeight + 1;
        if confirmations >= 10 then Confirmed else Confirming(confirmations)
      else if !hasLatestHeight && IsSufficientlyOld(tx, nowMillis, saplingActivationHeight) then Confirmed
      else CountUnavailable
    else Pending
  }

  /**
   * With the latest height known (above activation) and the block mined, the count of
   * confirmations decides: confirmed from ten on, "confirming" below.
   */
  lemma ConfirmationWithLatestHeight(tx: ConfirmedTransaction, latest: int, saplingActivationHeight: int, nowMillis: int)
    requires tx.blockTimeInSeconds != 0 && latest > saplingActivationHeight && tx.minedHeight > 0
    ensures var count := latest - tx.minedHeight + 1;
      var r := ConfirmationOf(tx, Some(latest), saplingActivationHeight, nowMillis);
      (r == Confirmed <==> count >= 10) && (count < 10 ==> r == Confirming(count))
  {
  }

  /**
   * Otherwise a mined transaction is confirmed only when the latest height is unknown and
   * it is sufficiently old; in every other case its count is unavailable.
   */
  lemma ConfirmationWithoutCount(tx: ConfirmedTransaction, latestHeight: Option<int>,
    saplingActivationHeight: int, nowMillis: int)
    requires tx.blockTimeInSeconds != 0
    requires !(tx.minedHeight > 0 && latestHeight.Some? && latestHeight.value > saplingActivationHeight)
    ensures var r := ConfirmationOf(tx, latestHeight, saplingActivationHeight, nowMillis);
      var hasLatestHeight := latestHeight.Some? && latestHeight.value > saplingActivationHeight;
      (r == Confirmed <==> !hasLatestHeight && IsSufficientlyOld(tx, nowMillis, saplingActivationHeight))
      && (r != Confirmed ==> r == CountUnavailable)
  {
  }

  /** The screen never passes a latest height, so it never shows a "confirming" count. */
  lemma NoCountWithoutLatestHeight(tx: ConfirmedTransaction, saplingActivationHeight: int, nowMillis: int)
    ensures !ConfirmationOf(tx, None, saplingActivationHeight, nowMillis).Confirming?
  {
  }

  // ---------------------------------------------------------------------------------
  // The detail model
  // ---------------------------------------------------------------------------------

  /** The string resources the detail model shows. */
  datatype Label = StoryInbound | StoryInboundTotal | StoryOutbound | StoryOutboundTotal
    | StoryToShielded | StoryFromShielded

  const FEE_TEXT: string := "+ 0.00001 network fee"

  /**
   * The detail model. Amounts are kept in zatoshi (the screen formats them as ZEC); an
   * absent label or amount is the empty text of the source's defaults. The formatted
   * height, timestamp and icon rotation are not modelled.
   */
  datatype UiModel = UiModel(
    topLabel: Option<Label>,
    topValue: Option<int>,
    bottomLabel: Option<Label>,
    bottomValue: Option<int>,
    fee: Option<string>,
    source: Option<Label>,
    memo: Option<string>,
    address: Option<string>,
    isInbound: Option<bool>,
    isMined: bool,
    confirmation: Option<Confirmation>,
    txId: Option<string>)

  /**
   * `toUiModel`. The memo is the transaction's decoded memo text; the reply-to address of
   * an inbound transaction comes from `findAddressInMemo` as written, which never finds one,
   * so an inbound transaction shows no address.
   */
  function ToUiModel(tx: Option<ConfirmedTransaction>, latestHeight: Option<int>, saplingActivationHeight: int,
    nowMillis: int, isValidAddress: string -> bool): (m: UiModel)
    ensures m.isInbound == IsInbound(tx)
    ensures m.isMined <==> tx.Some? && tx.value.minedHeight > saplingActivationHeight
    ensures tx.None? ==> m.txId.None? && m.confirmation.None? && m.topValue.None? && m.memo.None?
    ensures tx.Some? ==> m.confirmation == Some(ConfirmationOf(tx.value, latestHeight, saplingActivationHeight, nowMillis))
    ensures tx.Some? ==> m.topValue == Some(tx.value.value)
    ensures tx.Some? && tx.value.rawTransactionId.Some? ==> m.txId == Some(HexReversed(tx.value.rawTransactionId.value))
    ensures tx.Some? && tx.value.rawTransactionId.None? ==> m.txId.None?
    ensures m.memo.Some? <==> tx.Some? && tx.value.memo.Some? && |tx.value.memo.value| > 0
    ensures m.memo.Some? ==> m.memo == tx.value.memo
    ensures m.isInbound == Some(false) ==>
      (m.topLabel == Some(StoryOutbound) && m.bottomLabel == Some(StoryOutboundTotal)
       && m.bottomValue == Some(tx.value.value + MINERS_FEE) && m.fee == Some(FEE_TEXT)
       && m.source == Some(StoryFromShielded) && m.address == tx.value.toAddress)
    ensures m.isInbound == Some(true) ==>
      (m.topLabel == Some(StoryInbound) && m.bottomLabel == Some(StoryInboundTotal)
       && m.bottomValue == Some(tx.value.value) && m.fee.None? && m.source == Some(StoryToShielded)
       && m.address.None?)
    ensures m.isInbound.None? ==>
      (m.topLabel.None? && m.bottomLabel.None? && m.bottomValue.None?
       && m.fee.None? && m.source.None? && m.address.None?)
  {
    var inbound := IsInbound(tx);
    var txId := if tx.Some? && tx.value.rawTransactionId.Some? then Some(HexReversed(tx.value.rawTransactionId.value)) else None;
    var mined := tx.Some? && tx.value.minedHeight > saplingActivationHeight;
    var topValue := if tx.Some? then Some(tx.value.value) else None;
    var memo := if tx.Some? && tx.value.memo.Some? && |tx.value.memo.value| > 0 then tx.value.memo else None;
    var confirmation := if tx.Some? then Some(ConfirmationOf(tx.value, latestHeight, saplingActivationHeight, nowMillis)) else None;
    var base := UiModel(None, topValue, None, None, None, None, memo, None, inbound, mined, confirmation, txId);
    match inbound
    case Some(true) =>
      MemoUtil.FindAddressInMemoAsWrittenIsAlwaysNull(tx.value.memo, isValidAddress);
      base.(topLabel := Some(StoryInbound), bottomLabel := Some(StoryInboundTotal),
        bottomValue := Some(tx.value.value), source := Some(StoryToShielded),
        address := MemoUtil.FindAddressInMemoAsWritten(tx.value.memo, isValidAddress))
    case Some(false) =>
      base.(topLabel := Some(StoryOutbound), bottomLabel := Some(StoryOutboundTotal),
        bottomValue := Some(tx.value.value + MINERS_FEE), fee := Some(FEE_TEXT),
        source := Some(StoryFromShielded), address := tx.value.toAddress)
    case None => base
  }

  /** An outbound transaction's total is its value plus the miner's fee shown in the fee text. */
  lemma OutboundTotalIncludesFee(tx: ConfirmedTransaction, latestHeight: Option<int>, saplingActivationHeight: int,
    nowMillis: int, isValidAddress: string -> bool)
    requires HasToAddress(tx)
    ensures var m := ToUiModel(Some(tx), latestHeight, saplingActivationHeight, nowMillis, isValidAddress);
      m.bottomValue.Some? && m.topValue.Some? && m.bottomValue.value - m.topValue.value == MINERS_FEE
      && m.address == tx.toAddress
  {
  }
}
