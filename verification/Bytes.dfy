/** Bytes and byte strings, shared by the modules that handle raw stream data. */
module Bytes {
  import opened Seqs

  newtype byte = x: int | 0 <= x < 256

  type bytes = seq<byte>

  const LF: byte := 10
  const CR: byte := 13

  /** The concatenation of a list of byte strings, oldest first. */
  function Flatten(chunks: seq<bytes>): bytes {
    if chunks == [] then [] else chunks[0] + Flatten(chunks[1..])
  }

  lemma {:induction false} FlattenConcat(a: seq<bytes>, b: seq<bytes>)
    ensures Flatten(a + b) == Flatten(a) + Flatten(b)
  {
    if a == [] {
      assert a + b == b;
    } else {
      FlattenConcat(a[1..], b);
      assert (a + b)[0] == a[0] && (a + b)[1..] == a[1..] + b;
      Associate(a[0], Flatten(a[1..]), Flatten(b));
    }
  }

  lemma FlattenSnoc(a: seq<bytes>, c: bytes)
    ensures Flatten(a + [c]) == Flatten(a) + c
  {
    FlattenConcat(a, [c]);
    assert [c][1..] == [];
    assert Flatten([c]) == c + Flatten([c][1..]);
  }
}
