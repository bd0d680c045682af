/** The part of JavaScript string semantics the core relies on: `String.prototype.trim`,
    which removes leading and trailing white space and line terminators. */
module JsString {

  /** ECMAScript WhiteSpace and LineTerminator code points (sections 12.2 and 12.3 of
      ECMA-262). No proof in this module depends on which characters are in this set. */
  predicate IsWs(c: char)
  {
    || c == '\t' || c == '\n' || c == '\U{000B}' || c == '\U{000C}' || c == '\r'
    || c == ' ' || c == '\U{00A0}' || c == '\U{1680}'
    || ('\U{2000}' <= c <= '\U{200A}')
    || c == '\U{2028}' || c == '\U{2029}' || c == '\U{202F}' || c == '\U{205F}'
    || c == '\U{3000}' || c == '\U{FEFF}'
  }

  /** Every character of `s` is white space (vacuously true of the empty string). */
  predicate AllWs(s: string)
  {
    forall i :: 0 <= i < |s| ==> IsWs(s[i])
  }

  /** `s` neither begins nor ends with white space. */
  predicate NoEdgeWs(s: string)
  {
    s == [] || (!IsWs(s[0]) && !IsWs(s[|s| - 1]))
  }

  /** Scanning forward from `i`: the first index at or after `i` that does not hold white
      space, or `|s|` when there is none. */
  function SkipLeadingWs(s: string, i: nat): (k: nat)
    requires i <= |s|
    ensures i <= k <= |s|
    ensures forall j :: i <= j < k ==> IsWs(s[j])
    ensures k == |s| || !IsWs(s[k])
    decreases |s| - i
  {
    if i < |s| && IsWs(s[i]) then SkipLeadingWs(s, i + 1) else i
  }

  /** Scanning backward from `j` down to `lo`: the end of the last character in
      `s[lo..j]` that is not white space, or `lo` when there is none. */
  function SkipTrailingWs(s: string, lo: nat, j: nat): (k: nat)
    requires lo <= j <= |s|
    ensures lo <= k <= j
    ensures forall m :: k <= m < j ==> IsWs(s[m])
    ensures k == lo || !IsWs(s[k - 1])
    decreases j
  {
    if lo < j && IsWs(s[j - 1]) then SkipTrailingWs(s, lo, j - 1) else j
  }

  /** `String.prototype.trim`. The result has no white space at either end, and it is
      empty exactly when `s` is all white space. */
  function Trim(s: string): (r: string)
    ensures |r| <= |s|
    ensures NoEdgeWs(r)
    ensures r == [] <==> AllWs(s)
  {
    var lo := SkipLeadingWs(s, 0);
    var hi := SkipTrailingWs(s, lo, |s|);
    assert hi == lo ==> AllWs(s) by {
      if hi == lo {
        forall m | 0 <= m < |s| ensures IsWs(s[m]) {
        }
      }
    }
    s[lo..hi]
  }

  /** `Trim` only removes white space: its result is a slice of `s`, and everything before
      and after that slice is white space. */
  lemma TrimRemovesOnlyWs(s: string) returns (lo: nat, hi: nat)
    ensures lo <= hi <= |s|
    ensures Trim(s) == s[lo..hi]
    ensures AllWs(s[..lo]) && AllWs(s[hi..])
  {
    lo := SkipLeadingWs(s, 0);
    hi := SkipTrailingWs(s, lo, |s|);
    assert forall j :: 0 <= j < lo ==> s[..lo][j] == s[j];
    assert forall j :: 0 <= j < |s| - hi ==> s[hi..][j] == s[hi + j];
  }

  /** `trim` is characterised by its slice: whenever `s[lo..hi]` has only white space
      before and after it and none at its own ends, it is exactly `Trim(s)`. */
  lemma TrimIsCanonicalSlice(s: string, lo: nat, hi: nat)
    requires lo <= hi <= |s|
    requires AllWs(s[..lo]) && AllWs(s[hi..])
    requires NoEdgeWs(s[lo..hi])
    ensures Trim(s) == s[lo..hi]
  {
    assert forall j :: 0 <= j < lo ==> IsWs(s[j]) by {
      forall j | 0 <= j < lo ensures IsWs(s[j]) {
        assert s[..lo][j] == s[j];
      }
    }
    assert forall j :: hi <= j < |s| ==> IsWs(s[j]) by {
      forall j | hi <= j < |s| ensures IsWs(s[j]) {
        assert s[hi..][j - hi] == s[j];
      }
    }
    if lo == hi {
      assert AllWs(s);
    } else {
      assert !IsWs(s[lo]) && !IsWs(s[hi - 1]) by {
        assert s[lo..hi][0] == s[lo];
        assert s[lo..hi][hi - lo - 1] == s[hi - 1];
      }
      var lo' := SkipLeadingWs(s, 0);
      assert lo' == lo;
      var hi' := SkipTrailingWs(s, lo, |s|);
      assert hi' == hi;
    }
  }

  /** Trimming twice is the same as trimming once. */
  lemma TrimIdempotent(s: string)
    ensures Trim(Trim(s)) == Trim(s)
  {
    var r := Trim(s);
    assert r[..0] == [] && r[|r|..] == [];
    assert r[0..|r|] == r;
    TrimIsCanonicalSlice(r, 0, |r|);
  }
}
