/** What several of the models share. */
module Basics {
  const NCPU: nat := 4
  const PGSIZE: nat := 4096
  const TWO16: nat := 0x1_0000
  const TWO32: nat := 0x1_0000_0000

  type Byte = b: nat | b < 256

  datatype Option<+T> = None | Some(value: T)

  function Min(a: int, b: int): int { if a < b then a else b }

  function Max(a: int, b: int): int { if a < b then b else a }

  ghost predicate NoDup<T>(q: seq<T>) {
    forall i, j :: 0 <= i < j < |q| ==> q[i] != q[j]
  }

  /** `s` with `d` written over it from position `at` on. */
  function Splice<T>(s: seq<T>, at: nat, d: seq<T>): (r: seq<T>)
    requires at + |d| <= |s|
    ensures |r| == |s|
  {
    s[..at] + d + s[at + |d|..]
  }
}
