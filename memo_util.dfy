/**
 * Recovering a reply-to address from a transaction memo: the wallet tries a list of
 * recognized prefixes, takes the text after the last case-insensitive occurrence of each,
 * and keeps the first candidate that is not blank and that the address validator accepts.
 */
module MemoUtil {
  import opened Wrappers
  import opened Text

  /** The prefix this wallet writes when the user includes their address in a memo. */
  const INCLUDE_MEMO_PREFIX_STANDARD: string := "Reply-To:"

  /** The prefixes recognized when reading memos, most preferred first. */
  const INCLUDE_MEMO_PREFIXES_RECOGNIZED: seq<string> :=
    [INCLUDE_MEMO_PREFIX_STANDARD, "reply-to", "reply to:", "reply to", "sent from:", "sent from"]

  /** A t-address has at least 35 characters; shorter memos are not searched. */
  const MIN_MEMO_LENGTH: int := 35

  /** `prefix` matches `s` at index `i`, ignoring (ASCII) case. */
  predicate RegionMatchesIgnoreCase(s: string, i: int, prefix: string) {
    0 <= i && i + |prefix| <= |s| && EqualsIgnoreCase(s[i..i + |prefix|], prefix)
  }

  /** The greatest `i <= from` at which `prefix` matches, or -1. */
  function LastMatchAtOrBefore(s: string, prefix: string, from: int): (r: int)
    requires -1 <= from < |s|
    ensures -1 <= r <= from
    ensures r >= 0 ==> RegionMatchesIgnoreCase(s, r, prefix)
    ensures forall j :: r < j <= from ==> !RegionMatchesIgnoreCase(s, j, prefix)
    decreases from + 1
  {
    if from < 0 then -1
    else if RegionMatchesIgnoreCase(s, from, prefix) then from
    else LastMatchAtOrBefore(s, prefix, from - 1)
  }

  /**
   * Kotlin's `s.lastIndexOf(prefix, ignoreCase = true)`: the search starts at the last
   * index of `s`, so the last match at or before `|s| - 1`, or -1.
   */
  function LastIndexOfIgnoreCase(s: string, prefix: string): (r: int)
    ensures -1 <= r < |s|
    ensures r >= 0 ==> RegionMatchesIgnoreCase(s, r, prefix)
    ensures forall j :: r < j < |s| ==> !RegionMatchesIgnoreCase(s, j, prefix)
  {
    LastMatchAtOrBefore(s, prefix, |s| - 1)
  }

  /**
   * The private `substringAfterLast`: the text after the last case-insensitive occurrence
   * of `prefix`, with its leading whitespace trimmed, or "" when `prefix` does not occur.
   */
  function SubstringAfterLast(s: string, prefix: string): (r: string)
    ensures (forall j :: 0 <= j < |s| ==> !RegionMatchesIgnoreCase(s, j, prefix)) ==> r == ""
    ensures var i := LastIndexOfIgnoreCase(s, prefix);
      i >= 0 ==> r == TrimStart(s[i + |prefix|..])
  {
    var i := LastIndexOfIgnoreCase(s, prefix);
    if i == -1 then "" else TrimStart(s[i + |prefix|..])
  }

  /** A candidate the search keeps: accepted by the validator and not blank. */
  predicate Acceptable(candidate: string, isValidAddress: string -> bool) {
    isValidAddress(candidate) && !IsBlank(candidate)
  }

  /** Kotlin's `firstOrNull { !it.isNullOrBlank() }` over the validated candidates. */
  function FirstNonBlank(candidates: seq<string>): (r: Option<string>)
    ensures r.None? <==> forall k :: 0 <= k < |candidates| ==> IsBlank(candidates[k])
  {
    if |candidates| == 0 then None
    else if !IsBlank(candidates[0]) then Some(candidates[0])
    else FirstNonBlank(candidates[1..])
  }

  //
  // As written: the helper is applied to each prefix itself
  //

  /** The candidates of `findAddressInMemo` as written: `it.substringAfterLast(it)` for each prefix `it`. */
  function CandidatesAsWritten(prefixes: seq<string>, isValidAddress: string -> bool): seq<string> {
    if |prefixes| == 0 then []
    else
      var maybe := SubstringAfterLast(prefixes[0], prefixes[0]);
      (if isValidAddress(maybe) then [maybe] else []) + CandidatesAsWritten(prefixes[1..], isValidAddress)
  }

  /** `findAddressInMemo` as written. */
  function FindAddressInMemoAsWritten(memo: Option<string>, isValidAddress: string -> bool): Option<string> {
    if memo.None? || |memo.value| < MIN_MEMO_LENGTH then None
    else FirstNonBlank(CandidatesAsWritten(INCLUDE_MEMO_PREFIXES_RECOGNIZED, isValidAddress))
  }

  /** A non-empty string, searched for itself, leaves nothing after it. */
  lemma SubstringAfterItself(p: string)
    requires |p| > 0
    ensures SubstringAfterLast(p, p) == ""
  {
    assert RegionMatchesIgnoreCase(p, 0, p) by { assert p[0..|p|] == p; }
    var i := LastIndexOfIgnoreCase(p, p);
    assert i == 0;
  }

  lemma {:induction false} CandidatesAsWrittenAreEmpty(prefixes: seq<string>, isValidAddress: string -> bool)
    requires forall k :: 0 <= k < |prefixes| ==> |prefixes[k]| > 0
    ensures forall k :: 0 <= k < |CandidatesAsWritten(prefixes, isValidAddress)| ==>
      CandidatesAsWritten(prefixes, isValidAddress)[k] == ""
  {
    if |prefixes| > 0 {
      SubstringAfterItself(prefixes[0]);
      CandidatesAsWrittenAreEmpty(prefixes[1..], isValidAddress);
    }
  }

  /** As written, no memo ever yields an address. */
  lemma FindAddressInMemoAsWrittenIsAlwaysNull(memo: Option<string>, isValidAddress: string -> bool)
    ensures FindAddressInMemoAsWritten(memo, isValidAddress) == None
  {
    CandidatesAsWrittenAreEmpty(INCLUDE_MEMO_PREFIXES_RECOGNIZED, isValidAddress);
  }

  //
  // Corrected: the helper is applied to the memo
  //

  /** The text after each prefix in the memo, in list order. */
  function CandidatesIn(memo: string, prefixes: seq<string>): (r: seq<string>)
    ensures |r| == |prefixes|
  {
    if |prefixes| == 0 then [] else [SubstringAfterLast(memo, prefixes[0])] + CandidatesIn(memo, prefixes[1..])
  }

  /** Candidate `k` is the text after the last occurrence of prefix `k`. */
  lemma {:induction false} CandidateAt(memo: string, prefixes: seq<string>, k: int)
    requires 0 <= k < |prefixes|
    ensures CandidatesIn(memo, prefixes)[k] == SubstringAfterLast(memo, prefixes[k])
  {
    if k > 0 {
      CandidateAt(memo, prefixes[1..], k - 1);
    }
  }

  /** The first candidate, in list order from index `from` on, that is acceptable. */
  function FirstAcceptable(candidates: seq<string>, isValidAddress: string -> bool, from: nat): (r: Option<string>)
    requires from <= |candidates|
    ensures r.Some? ==> Acceptable(r.value, isValidAddress)
    ensures r.Some? ==> exists k :: (from <= k < |candidates| && r.value == candidates[k] &&
      forall j :: from <= j < k ==> !Acceptable(candidates[j], isValidAddress))
    ensures r.None? <==> forall k :: from <= k < |candidates| ==> !Acceptable(candidates[k], isValidAddress)
    decreases |candidates| - from
  {
    if from == |candidates| then None
    else if Acceptable(candidates[from], isValidAddress) then Some(candidates[from])
    else FirstAcceptable(candidates, isValidAddress, from + 1)
  }

  /**
   * `findAddressInMemo` with the helper applied to the memo, over a list of prefixes: null
   * for a missing or short memo, else the first acceptable candidate in prefix order, where
   * candidate `k` is the text after the last occurrence of prefix `k` (see `CandidateAt`).
   */
  function FindAddressAmong(memo: Option<string>, prefixes: seq<string>, isValidAddress: string -> bool): (r: Option<string>)
    ensures memo.None? || |memo.value| < MIN_MEMO_LENGTH ==> r.None?
    ensures r.Some? ==> Acceptable(r.value, isValidAddress)
    ensures r.Some? ==> var candidates := CandidatesIn(memo.value, prefixes);
      exists k :: 0 <= k < |prefixes| && r.value == candidates[k] &&
        forall j :: 0 <= j < k ==> !Acceptable(candidates[j], isValidAddress)
    ensures memo.Some? && |memo.value| >= MIN_MEMO_LENGTH ==>
      var candidates := CandidatesIn(memo.value, prefixes);
      (r.None? <==> forall k :: 0 <= k < |prefixes| ==> !Acceptable(candidates[k], isValidAddress))
  {
    if memo.None? || |memo.value| < MIN_MEMO_LENGTH then None
    else
      var candidates := CandidatesIn(memo.value, prefixes);
      assert |candidates| == |prefixes|;
      var r := FirstAcceptable(candidates, isValidAddress, 0);
      assert r.Some? ==> exists k :: 0 <= k < |prefixes| && r.value == CandidatesIn(memo.value, prefixes)[k];
      r
  }

  /** `findAddressInMemo`, over the recognized prefixes. */
  function FindAddressInMemo(memo: Option<string>, isValidAddress: string -> bool): Option<string> {
    FindAddressAmong(memo, INCLUDE_MEMO_PREFIXES_RECOGNIZED, isValidAddress)
  }

  /** A match needs the first characters to agree once case is folded. */
  lemma FirstCharMismatch(s: string, i: int, prefix: string)
    requires 0 <= i < |s| && |prefix| > 0 && LowerChar(s[i]) != LowerChar(prefix[0])
    ensures !RegionMatchesIgnoreCase(s, i, prefix)
  {
    if i + |prefix| <= |s| {
      assert Lower(s[i..i + |prefix|])[0] == LowerChar(s[i]);
    }
  }

  /** A match inside the second part of a concatenation is a match in that part. */
  lemma RegionInSuffix(a: string, b: string, j: int, prefix: string)
    requires |a| <= j
    ensures RegionMatchesIgnoreCase(a + b, j, prefix) <==> RegionMatchesIgnoreCase(b, j - |a|, prefix)
  {
    if j + |prefix| <= |a + b| {
      assert (a + b)[j..j + |prefix|] == b[j - |a|..j - |a| + |prefix|];
    }
  }

  /** None of the characters after the standard prefix's first, nor the newline, folds to its first. */
  lemma TrailerTailChars(k: int)
    requires 1 <= k <= |INCLUDE_MEMO_PREFIX_STANDARD|
    ensures LowerChar((INCLUDE_MEMO_PREFIX_STANDARD + "\n")[k]) != LowerChar(INCLUDE_MEMO_PREFIX_STANDARD[0])
  {
  }

  /** After the standard prefix starts at `at`, no later index of the memo starts it again. */
  lemma NoLaterStandardPrefix(head: string, address: string, j: int)
    requires forall o :: 0 <= o < |address| ==> !RegionMatchesIgnoreCase(address, o, INCLUDE_MEMO_PREFIX_STANDARD)
    requires |head| < j < |head + INCLUDE_MEMO_PREFIX_STANDARD + "\n" + address|
    ensures !RegionMatchesIgnoreCase(head + INCLUDE_MEMO_PREFIX_STANDARD + "\n" + address, j, INCLUDE_MEMO_PREFIX_STANDARD)
  {
    var p := INCLUDE_MEMO_PREFIX_STANDARD;
    var trailer := head + p + "\n";
    var m := trailer + address;
    var at := |head|;
    if j < |trailer| {
      assert m[j] == (p + "\n")[j - at] by {
        assert m == head + (p + "\n") + address;
      }
      TrailerTailChars(j - at);
      FirstCharMismatch(m, j, p);
    } else {
      RegionInSuffix(trailer, address, j, p);
    }
  }

  /** In `head`, the standard prefix, a newline and `address`, the last match is the one after `head`. */
  lemma LastStandardPrefixAfterHead(head: string, address: string)
    requires forall o :: 0 <= o < |address| ==> !RegionMatchesIgnoreCase(address, o, INCLUDE_MEMO_PREFIX_STANDARD)
    ensures LastIndexOfIgnoreCase(head + INCLUDE_MEMO_PREFIX_STANDARD + "\n" + address, INCLUDE_MEMO_PREFIX_STANDARD) == |head|
  {
    var p := INCLUDE_MEMO_PREFIX_STANDARD;
    var m := head + p + "\n" + address;
    var at := |head|;
    assert m[at..at + |p|] == p;
    assert RegionMatchesIgnoreCase(m, at, p);
    forall j | at < j < |m| ensures !RegionMatchesIgnoreCase(m, j, p) {
      NoLaterStandardPrefix(head, address, j);
    }
  }

  /** The text after the standard trailer's prefix is the address that follows it. */
  lemma StandardTrailerCandidate(head: string, address: string)
    requires |address| > 0 && !IsWhitespace(address[0])
    requires forall o :: 0 <= o < |address| ==> !RegionMatchesIgnoreCase(address, o, INCLUDE_MEMO_PREFIX_STANDARD)
    ensures SubstringAfterLast(head + INCLUDE_MEMO_PREFIX_STANDARD + "\n" + address, INCLUDE_MEMO_PREFIX_STANDARD) == address
  {
    var p := INCLUDE_MEMO_PREFIX_STANDARD;
    var m := head + p + "\n" + address;
    LastStandardPrefixAfterHead(head, address);
    TextAfterMiddle(head, p, "\n" + address);
    assert m == head + p + ("\n" + address);
    AfterLineBreak(m, p, |head|, address);
  }

  /** What follows `a` and `b` in `a + b + c` is `c`. */
  lemma TextAfterMiddle(a: string, b: string, c: string)
    ensures (a + b + c)[|a| + |b|..] == c
  {
  }

  /** When the last match is followed by a newline and then `rest`, which starts with no blank, `rest` is what follows it. */
  lemma AfterLineBreak(m: string, prefix: string, at: int, rest: string)
    requires LastIndexOfIgnoreCase(m, prefix) == at >= 0
    requires at + |prefix| <= |m| && m[at + |prefix|..] == "\n" + rest
    requires |rest| > 0 && !IsWhitespace(rest[0])
    ensures SubstringAfterLast(m, prefix) == rest
  {
    TrimStartSkipsOne('\n', rest);
  }

  /** A memo ending in the standard trailer and a valid address yields that address. */
  lemma StandardTrailerIsFound(body: string, address: string, isValidAddress: string -> bool)
    requires |body + "\n" + INCLUDE_MEMO_PREFIX_STANDARD + "\n" + address| >= MIN_MEMO_LENGTH
    requires isValidAddress(address) && |address| > 0 && !IsWhitespace(address[0])
    requires forall o :: 0 <= o < |address| ==> !RegionMatchesIgnoreCase(address, o, INCLUDE_MEMO_PREFIX_STANDARD)
    ensures FindAddressInMemo(Some(body + "\n" + INCLUDE_MEMO_PREFIX_STANDARD + "\n" + address), isValidAddress) == Some(address)
  {
    var m := body + "\n" + INCLUDE_MEMO_PREFIX_STANDARD + "\n" + address;
    assert m == (body + "\n") + INCLUDE_MEMO_PREFIX_STANDARD + "\n" + address;
    StandardTrailerCandidate(body + "\n", address);
    CandidateAt(m, INCLUDE_MEMO_PREFIXES_RECOGNIZED, 0);
    assert !IsBlank(address);
    assert Acceptable(SubstringAfterLast(m, INCLUDE_MEMO_PREFIXES_RECOGNIZED[0]), isValidAddress);
  }
}
