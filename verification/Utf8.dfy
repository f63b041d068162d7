/** UTF-8 well-formedness (section 4 of RFC 3629), and where a string may be cut. */
module Utf8 {
  import opened Machine

  predicate Continuation(b: byte) { 0x80 <= b <= 0xBF }

  /** Length of the well-formed character at the front, if there is one. */
  function CharLen(b: seq<byte>): Option<nat> {
    if b == [] then None
    else if b[0] <= 0x7F then Some(1)
    else if |b| < 2 || !Continuation(b[1]) then None
    else if 0xC2 <= b[0] <= 0xDF then Some(2)
    else if |b| < 3 || !Continuation(b[2]) then None
    else if (b[0] == 0xE0 && 0xA0 <= b[1]) || 0xE1 <= b[0] <= 0xEC || (b[0] == 0xED && b[1] <= 0x9F)
        || 0xEE <= b[0] <= 0xEF then Some(3)
    else if |b| < 4 || !Continuation(b[3]) then None
    else if (b[0] == 0xF0 && 0x90 <= b[1]) || 0xF1 <= b[0] <= 0xF3 || (b[0] == 0xF4 && b[1] <= 0x8F) then Some(4)
    else None
  }

  lemma CharLenFacts(b: seq<byte>)
    ensures CharLen(b).Some? ==>
              var k := CharLen(b).value;
              && 1 <= k <= |b| && !Continuation(b[0])
              && (forall i :: 0 < i < k ==> Continuation(b[i]))
  {
  }

  /** Only the character itself matters. */
  lemma CharLenOfPrefix(b: seq<byte>, i: nat)
    requires i <= |b|
    ensures CharLen(b).Some? && CharLen(b).value <= i ==> CharLen(b[..i]) == CharLen(b)
    ensures CharLen(b[..i]).Some? ==> CharLen(b[..i]) == CharLen(b)
  {
  }

  predicate IsUtf8(b: seq<byte>)
    decreases |b|
  {
    b == [] || (CharLen(b).Some? && 1 <= CharLen(b).value <= |b| && IsUtf8(b[CharLen(b).value..]))
  }

  /** A string, as its bytes. */
  type Str = b: seq<byte> | IsUtf8(b) witness []

  /** `is_char_boundary`: an end, or a byte that starts a character. */
  predicate IsCharBoundary(b: seq<byte>, i: nat)
    requires i <= |b|
  {
    i == 0 || i == |b| || !Continuation(b[i])
  }

  /** A string may be cut exactly at its character boundaries. */
  lemma {:induction false} CutIffBoundary(b: seq<byte>, i: nat)
    requires IsUtf8(b) && i <= |b|
    ensures IsUtf8(b[..i]) <==> IsCharBoundary(b, i)
    decreases |b|
  {
    if 0 < i < |b| {
      var k := CharLen(b).value;
      CharLenFacts(b);
      CharLenOfPrefix(b, i);
      if i >= k {
        CutIffBoundary(b[k..], i - k);
        assert b[..i][k..] == b[k..][..i - k];
      }
    } else {
      assert b[..|b|] == b && b[..0] == [];
    }
  }

  /** The last boundary at or before n. */
  function CutAt(b: seq<byte>, n: nat): (c: nat)
    requires n <= |b|
    ensures c <= n && IsCharBoundary(b, c)
    ensures forall m :: c < m <= n ==> !IsCharBoundary(b, m)
    decreases n
  {
    if n == 0 || IsCharBoundary(b, n) then n else CutAt(b, n - 1)
  }

  /** Stepping back to the boundary yields the longest prefix that is a string and no longer than n. */
  lemma LongestCut(b: seq<byte>, n: nat)
    requires IsUtf8(b) && n <= |b|
    ensures IsUtf8(b[..CutAt(b, n)])
    ensures forall m :: 0 <= m <= n && IsUtf8(b[..m]) ==> m <= CutAt(b, n)
  {
    CutIffBoundary(b, CutAt(b, n));
    forall m | 0 <= m <= n && IsUtf8(b[..m]) ensures m <= CutAt(b, n) {
      CutIffBoundary(b, m);
    }
  }
}
