/** Reading an address out of a scanned QR code. */
module Scan {
  import opened Wrappers
  import opened Text

  const URI_PREFIX: string := "zcash:"

  /**
   * The address candidate: with the `zcash:` prefix, the text after it up to the first
   * `'?'` (or to the end); without it, the code unchanged.
   */
  function Candidate(qrCode: string): (r: string)
    ensures !StartsWith(qrCode, URI_PREFIX) ==> r == qrCode
    ensures StartsWith(qrCode, URI_PREFIX) ==> '?' !in r
    ensures StartsWith(qrCode, URI_PREFIX) ==> exists j :: 6 <= j <= |qrCode| && r == qrCode[6..j]
  {
    if StartsWith(qrCode, URI_PREFIX) then
      var q := IndexOfChar(qrCode, '?');
      var e := if q == -1 then |qrCode| else q;
      assert e >= 6 by {
        if q != -1 {
          assert qrCode[q] == '?';
          assert qrCode[..6] == URI_PREFIX;
          assert forall k :: 0 <= k < 6 ==> qrCode[k] == URI_PREFIX[k] && qrCode[k] != '?';
        }
      }
      assert forall k :: 6 <= k < e ==> qrCode[k] == qrCode[..e][k];
      qrCode[6..e]
    else qrCode
  }

  /** After the prefix the candidate reaches the first `'?'`, or the end when there is none. */
  lemma CandidateEnds(qrCode: string)
    requires StartsWith(qrCode, URI_PREFIX)
    ensures '?' !in qrCode ==> Candidate(qrCode) == qrCode[6..]
    ensures '?' in qrCode ==> Candidate(qrCode) == qrCode[6..IndexOfChar(qrCode, '?')]
  {
  }

  /** The prefix alone, or followed at once by a query, gives the empty candidate. */
  lemma EmptyCandidates(rest: string)
    ensures Candidate(URI_PREFIX) == ""
    ensures Candidate(URI_PREFIX + "?" + rest) == ""
  {
    var s := URI_PREFIX + "?" + rest;
    assert StartsWith(s, URI_PREFIX) by { assert s[..6] == URI_PREFIX; }
    assert IndexOfChar(s, '?') == 6 by {
      assert s[6] == '?';
      assert '?' !in s[..6] by { assert s[..6] == URI_PREFIX; }
    }
    assert '?' !in URI_PREFIX;
  }

  /** `parse`: the candidate when the validator accepts it, else null. */
  function Parse(qrCode: string, isValidAddress: string -> bool): (r: Option<string>)
    ensures r.None? <==> !isValidAddress(Candidate(qrCode))
    ensures r.Some? ==> r.value == Candidate(qrCode)
  {
    var address := Candidate(qrCode);
    if !isValidAddress(address) then None else Some(address)
  }
}
