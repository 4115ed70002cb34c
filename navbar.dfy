/** The navigation bar's display of the connected account: the first six
    characters of the address, an ellipsis, and the characters from index 38
    on, as JavaScript's `String.prototype.substring` computes them. */
module Navbar {

  function Min(a: int, b: int): int { if a <= b then a else b }

  function Max(a: int, b: int): int { if a <= b then b else a }

  /** `s.substring(indexStart, indexEnd)` in JavaScript: both indexes are
      clamped to `[0, |s|]`, and they are swapped when the start lies after
      the end. The result is the characters of `s` from the smaller clamped
      index up to, not including, the larger one. */
  function Substring(s: string, indexStart: int, indexEnd: int): (r: string)
    ensures
      var lo := Min(Min(Max(indexStart, 0), |s|), Min(Max(indexEnd, 0), |s|));
      var hi := Max(Min(Max(indexStart, 0), |s|), Min(Max(indexEnd, 0), |s|));
      && 0 <= lo <= hi <= |s|
      && |r| == hi - lo
      && forall i :: 0 <= i < |r| ==> r[i] == s[lo + i]
  {
    var a := Min(Max(indexStart, 0), |s|);
    var b := Min(Max(indexEnd, 0), |s|);
    if a <= b then s[a..b] else s[b..a]
  }

  /** The order of the two indexes does not matter. */
  lemma SubstringSwap(s: string, i: int, j: int)
    ensures Substring(s, i, j) == Substring(s, j, i)
  {
    var r, t := Substring(s, i, j), Substring(s, j, i);
    assert |r| == |t|;
    assert forall k :: 0 <= k < |r| ==> r[k] == t[k];
  }

  /** Indexes out of range act as the nearest end of the string: a negative
      index as 0 and one past the length as the length. */
  lemma SubstringClamps(s: string, i: int, j: int)
    ensures Substring(s, i, j) == Substring(s, Min(Max(i, 0), |s|), Min(Max(j, 0), |s|))
  {
  }

  /** `formatAddress(address)`: the empty string for a missing address,
      otherwise `address.substring(0, 6) + "..." + address.substring(38)`
      (`substring` with one argument runs to the end of the string). */
  function FormatAddress(address: string): (r: string)
    ensures address == [] ==> r == []
    ensures address != [] ==>
      && |r| == Min(6, |address|) + 3 + Max(0, |address| - 38)
      && r[..Min(6, |address|)] == address[..Min(6, |address|)]
      && r[Min(6, |address|)..Min(6, |address|) + 3] == "..."
      && r[Min(6, |address|) + 3..] == address[Min(38, |address|)..]
  {
    if address == [] then []
    else Substring(address, 0, 6) + "..." + Substring(address, 38, |address|)
  }

  /** A wallet address of forty hex digits after `0x` (42 characters)
      shows as its first six characters, `...` and its last four. */
  lemma FormatFullAddress(address: string)
    requires |address| == 42
    ensures |FormatAddress(address)| == 13
    ensures FormatAddress(address) == address[..6] + "..." + address[38..]
  {
    var r := FormatAddress(address);
    assert r[..6] == address[..6];
    assert r[6..9] == "...";
    assert r[9..] == address[38..];
    assert r == r[..6] + r[6..9] + r[9..];
  }

  /** An address of at most 38 characters keeps its first six characters
      (all of it when shorter) followed by `...` and nothing else. */
  lemma FormatShortAddress(address: string)
    requires 0 < |address| <= 38
    ensures FormatAddress(address) == address[..Min(6, |address|)] + "..."
  {
    var r := FormatAddress(address);
    var n := Min(6, |address|);
    assert r == r[..n] + r[n..n + 3];
  }
}
