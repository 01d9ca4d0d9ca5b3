/** Octets, octet strings and the few sequence facts that several modules share. */
module Bytes {
  type byte = n: int | 0 <= n < 0x100
  type bytes = seq<byte>

  datatype Option<+T> = None | Some(value: T)

  /** The octets of an ASCII text. */
  function Text(s: string): (b: bytes)
    ensures |b| == |s|
  {
    seq(|s|, i requires 0 <= i < |s| => s[i] as int % 0x100)
  }

  lemma Assoc<T>(a: seq<T>, b: seq<T>, c: seq<T>)
    ensures a + (b + c) == (a + b) + c
  {}

  lemma DropDrop<T>(s: seq<T>, k: nat)
    requires 1 <= k + 1 <= |s|
    ensures s[1..][k..] == s[k + 1..]
  {}

  lemma ConsTail<T>(x: T, s: seq<T>)
    ensures ([x] + s)[1..] == s
  {}

  /** All chunks, in the order they were delivered. */
  function Concat(chunks: seq<bytes>): bytes {
    if chunks == [] then [] else chunks[0] + Concat(chunks[1..])
  }
}
