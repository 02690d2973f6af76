/** Byte contents of files and what read, write and truncate mean on them. */
module FileContents {
  newtype byte = x: int | 0 <= x < 256

  type Bytes = seq<byte>

  type FileId = string

  datatype Option<+T> = None | Some(value: T)

  function Min(a: int, b: int): int {
    if a <= b then a else b
  }

  function Max(a: int, b: int): int {
    if a >= b then a else b
  }

  function Power(base: nat, n: nat): nat {
    if n == 0 then 1 else base * Power(base, n - 1)
  }

  /** The bytes of `content` from `offset`, at most `length` of them; none past the end. */
  function Slice(content: Bytes, offset: nat, length: nat): Bytes {
    if offset >= |content| then [] else content[offset..Min(offset + length, |content|)]
  }

  function Zeros(n: nat): Bytes {
    seq(n, _ => 0)
  }

  /** ftruncate: cut, or extend with zeros. */
  function Resize(content: Bytes, length: nat): (r: Bytes)
    ensures |r| == length
    ensures forall i :: 0 <= i < length ==> r[i] == if i < |content| then content[i] else 0
  {
    if length <= |content| then content[..length] else content + Zeros(length - |content|)
  }

  /** A write at an offset: a gap past the end is filled with zeros, and an empty write
      changes nothing. */
  function WriteAt(content: Bytes, offset: nat, data: Bytes): (r: Bytes)
    ensures data == [] ==> r == content
    ensures data != [] ==> |r| == Max(|content|, offset + |data|)
    ensures data != [] ==> (forall i :: 0 <= i < |r| ==>
      r[i] == (if offset <= i < offset + |data| then data[i - offset]
               else if i < |content| then content[i] else 0))
  {
    if data == [] then content
    else Resize(content, offset) + data + (if offset + |data| < |content| then content[offset + |data|..] else [])
  }

  /** A slice has the bytes of its range, as many of them as there are. */
  lemma SliceBytes(content: Bytes, offset: nat, length: nat, i: nat)
    ensures |Slice(content, offset, length)| == Max(0, Min(length, |content| - offset))
    ensures i < |Slice(content, offset, length)| ==> Slice(content, offset, length)[i] == content[offset + i]
  {}

  /** What was written is read back. */
  lemma ReadBack(content: Bytes, offset: nat, data: Bytes)
    requires data != []
    ensures Slice(WriteAt(content, offset, data), offset, |data|) == data
  {}
}
