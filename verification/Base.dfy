/** The values every part of the model shares: paths, file contents, content
    hashes and the revisions a file's history is made of. */
module Base {

  datatype Option<+T> = None | Some(value: T)

  type Byte = b: int | 0 <= b < 256
  type Bytes = seq<Byte>

  /** Paths are relative to the project root, '/' separated. */
  type Path = string

  /** The hexadecimal SHA-256 of a content; "" stands for no content at all. */
  type Hash = string

  const NO_HASH: Hash := ""

  const MAX_INT64 := 0x7FFF_FFFF_FFFF_FFFF

  datatype Label =
    | FirstSeen
    | Modify
    | Delete
    | PreRestore
    | Restore
    | Unknown(text: string)

  /** The content signal of a revision. Lines written before the signal existed
      carry none; `delta` is None when the predecessor carried none. */
  datatype Signal =
    | NoSignal
    | Signal(lines: int, bytes: int, delta: Option<int>, start: Bytes)

  datatype Revision = Revision(ts: int, hash: Hash, kind: Label, signal: Signal)

  function Last<T>(s: seq<T>): Option<T> {
    if s == [] then None else Some(s[|s| - 1])
  }

  /** The index of the first x in s, or |s|. */
  function IndexOf<T(==)>(s: seq<T>, x: T): (i: nat)
    ensures i <= |s| && (i < |s| ==> s[i] == x) && (forall k :: 0 <= k < i ==> s[k] != x)
  {
    if s == [] || s[0] == x then 0
    else
      var i := IndexOf(s[1..], x);
      assert forall k :: 0 <= k < i ==> s[k + 1] == s[1..][k];
      i + 1
  }

  /** a is a final stretch of b. */
  ghost predicate IsSuffix<T>(a: seq<T>, b: seq<T>) {
    |a| <= |b| && a == b[|b| - |a|..]
  }
}
