/**
 * Small extension helpers: splitting a string into near-equal chunks, the pending part
 * of a balance, a boolean-to-text switch and two exception wrappers.
 */
module Extensions {
  import opened Wrappers
  import opened Sdk

  /** Why `distribute` can fail: `roundToInt` of NaN throws when `chunks` is 0. */
  datatype DistributeError = RoundingNaN

  /** Where chunk `i` starts when the first `extra` chunks are one character longer. */
  function ChunkStart(i: int, whole: int, extra: int): int {
    if i < extra then i * (whole + 1) else i * whole + extra
  }

  /** The parts handed to the callback, concatenated in call order. */
  function Joined(calls: seq<(int, string)>): string {
    if |calls| == 0 then "" else Joined(calls[..|calls| - 1]) + calls[|calls| - 1].1
  }

  /** Appending one call appends its part to the joined text. */
  lemma JoinedSnoc(calls: seq<(int, string)>, call: (int, string))
    ensures Joined(calls + [call]) == Joined(calls) + call.1
  {
    assert (calls + [call])[..|calls|] == calls;
  }

  /** Chunk `i` is `whole + 1` long before `extra`, `whole` long from there on. */
  lemma ChunkStep(i: int, whole: int, extra: int)
    requires 0 <= i && 0 <= whole && 0 <= extra
    ensures ChunkStart(i + 1, whole, extra) ==
      ChunkStart(i, whole, extra) + (if i < extra then whole + 1 else whole)
  {
    if i < extra {
      assert (i + 1) * (whole + 1) == i * (whole + 1) + (whole + 1);
      if i + 1 == extra {
        assert (i + 1) * (whole + 1) == (i + 1) * whole + extra;
      }
    } else {
      assert (i + 1) * whole == i * whole + whole;
    }
  }

  /** Every chunk start up to `chunks` lies inside a string of `chunks * whole + extra` chars. */
  lemma ChunkStartBound(i: int, chunks: int, whole: int, extra: int)
    requires 0 <= i <= chunks && 0 <= whole && 0 <= extra < chunks
    ensures 0 <= ChunkStart(i, whole, extra) <= chunks * whole + extra
    ensures i == chunks ==> ChunkStart(i, whole, extra) == chunks * whole + extra
  {
    assert i * whole <= chunks * whole by {
      assert (chunks - i) * whole >= 0;
      assert chunks * whole - i * whole == (chunks - i) * whole;
    }
    if i < extra {
      assert i * (whole + 1) == i * whole + i;
    }
  }

  /** The quotient and remainder split a length into `chunks` equal parts and a rest. */
  lemma DivModParts(n: int, chunks: int)
    requires 0 <= n && 0 < chunks
    ensures n == chunks * (n / chunks) + n % chunks && 0 <= n % chunks < chunks && 0 <= n / chunks
  {
  }

  /** One step of `distribute`: the next chunk lies inside the string and has its length. */
  lemma NextChunk(n: int, chunks: int, whole: int, extra: int, i: int)
    requires 0 <= i < chunks && 0 <= whole && 0 <= extra < chunks && n == chunks * whole + extra
    ensures 0 <= ChunkStart(i, whole, extra) <= ChunkStart(i + 1, whole, extra) <= n
    ensures ChunkStart(i + 1, whole, extra) - ChunkStart(i, whole, extra) ==
      whole + (if i < extra then 1 else 0)
  {
    ChunkStep(i, whole, extra);
    ChunkStartBound(i, chunks, whole, extra);
    ChunkStartBound(i + 1, chunks, whole, extra);
  }

  /** Handing over the next slice extends the joined text to the slice's end. */
  lemma JoinedSlice(calls: seq<(int, string)>, s: string, i: int, from: int, to: int)
    requires 0 <= from <= to <= |s| && Joined(calls) == s[..from]
    ensures Joined(calls + [(i, s[from..to])]) == s[..to]
  {
    JoinedSnoc(calls, (i, s[from..to]));
    assert s[..to] == s[..from] + s[from..to];
  }

  /**
   * `String.distribute`: calls the callback `chunks` times, with each zero-based index and
   * its part; the returned sequence lists those calls in order. The float arithmetic of the
   * source is taken as exact, so the part length is `|s| / chunks` and the first
   * `|s| % chunks` parts carry one extra character.
   */
  method Distribute(s: string, chunks: int) returns (r: Result<seq<(int, string)>, DistributeError>)
    ensures chunks == 0 <==> r.Failure?
    ensures chunks < 0 ==> r == Success([])
    ensures chunks > 0 ==> r.Success? && |r.value| == chunks
    ensures chunks > 0 ==> forall i :: 0 <= i < chunks ==> r.value[i].0 == i
    ensures chunks > 0 ==> Joined(r.value) == s
    ensures chunks > 0 ==> forall i :: 0 <= i < chunks ==>
      |r.value[i].1| == |s| / chunks + (if i < |s| % chunks then 1 else 0)
  {
    if chunks == 0 {
      return Failure(RoundingNaN);
    }
    if chunks < 0 {
      // `repeat` with a negative count runs no iteration
      return Success([]);
    }
    var whole := |s| / chunks;
    var extra := |s| % chunks;
    DivModParts(|s|, chunks);
    var calls: seq<(int, string)> := [];
    var i := 0;
    var from := 0;
    while i < chunks
      invariant 0 <= i <= chunks
      invariant |calls| == i
      invariant from == ChunkStart(i, whole, extra)
      invariant 0 <= from <= |s|
      invariant Joined(calls) == s[..from]
      invariant forall k :: 0 <= k < i ==> calls[k].0 == k && |calls[k].1| == whole + (if k < extra then 1 else 0)
    {
      NextChunk(|s|, chunks, whole, extra, i);
      var to := ChunkStart(i + 1, whole, extra);
      var part := s[from..to];
      JoinedSlice(calls, s, i, from, to);
      calls := calls + [(i, part)];
      i := i + 1;
      from := to;
    }
    ChunkStartBound(chunks, chunks, whole, extra);
    assert s[..from] == s;
    return Success(calls);
  }

  /** `WalletBalance.pending`: what is not yet available, never negative. */
  function Pending(b: WalletBalance): (r: int)
    ensures r >= 0 && r >= b.total - b.available
    ensures r == 0 || r == b.total - b.available
    ensures b.available <= b.total ==> r + b.available == b.total
  {
    if b.total - b.available < 0 then 0 else b.total - b.available
  }

  /** `Boolean.asString`: one of two texts, chosen by the flag. */
  function AsString(b: bool, ifTrue: string, ifFalse: string): (r: string)
    ensures r == ifTrue || r == ifFalse
    ensures ifTrue != ifFalse ==> (r == ifTrue <==> b)
  {
    if b then ifTrue else ifFalse
  }

  /**
   * `tryWithWarning`: the block's outcome is given as a value. A value is passed through,
   * a thrown error becomes null (the warning log line is not modelled).
   */
  function TryWithWarning<R, E>(outcome: Result<R, E>): (r: Option<R>)
    ensures r.Some? <==> outcome.Success?
    ensures r.Some? ==> r.value == outcome.value
  {
    match outcome
    case Success(v) => Some(v)
    case Failure(_) => None
  }

  /** `failWith`: a value is passed through, any thrown error is replaced by `specific`. */
  function FailWith<R, E>(specific: E, outcome: Result<R, E>): (r: Result<R, E>)
    ensures r.Success? <==> outcome.Success?
    ensures r.Success? ==> r.value == outcome.value
    ensures r.Failure? ==> r.error == specific
  {
    match outcome
    case Success(v) => Success(v)
    case Failure(_) => Failure(specific)
  }
}
