/** Bytes, optional values and the two failures the adapter experiment distinguishes. */
module Bytes {
  type byte = b: int | 0 <= b < 256

  type Bytes = seq<byte>

  datatype Option<+T> = None | Some(value: T)

  /** `Unavailable` and `ResourceExceeded` of core.py; `Rejected` is a failed assertion or constraint. */
  datatype Failure = Unavailable | ResourceExceeded | Rejected

  datatype Result<+T> = Ok(value: T) | Err(error: Failure)

  const COLON: byte := 58

  predicate IsDigit(b: byte) {
    48 <= b <= 57
  }

  predicate Distinct<T(==)>(s: seq<T>) {
    forall i, j :: 0 <= i < j < |s| ==> s[i] != s[j]
  }

  function Min(a: nat, b: nat): nat {
    if a < b then a else b
  }

  function Ascii(s: string): (r: Bytes)
    requires forall i :: 0 <= i < |s| ==> s[i] < 128 as char
    ensures |r| == |s| && forall i :: 0 <= i < |s| ==> r[i] == s[i] as int
  {
    seq(|s|, i requires 0 <= i < |s| => s[i] as int)
  }

  lemma Regroup(a: Bytes, b: Bytes, c: Bytes)
    ensures (a + b) + c == a + (b + c)
  {}

  /** A slice of a slice. */
  lemma SubSlice(full: Bytes, at: nat, size: nat, pos: nat, n: nat)
    requires at + size <= |full| && pos + n <= size
    ensures full[at..at + size][pos..pos + n] == full[at + pos..at + pos + n]
  {
    var x, y := full[at..at + size][pos..pos + n], full[at + pos..at + pos + n];
    assert |x| == |y|;
    forall i | 0 <= i < n ensures x[i] == y[i] {
      assert x[i] == full[at..at + size][pos + i];
    }
  }
}
