/** The address hash of the allocation table (runtime/src/chplmem.c:37-46).
    The hash runs over the raw bytes of the pointer value, so it depends on
    the platform's byte order and on whether `char` is signed; the model
    takes those bytes as a sequence of `char` values. */
module MemHash {
  import opened CTypes

  const HASHSIZE: nat := 1019

  /** The value of `hashValue` after folding in `bytes` left to right:
      `hashValue = *fakeCharPtr + 31 * hashValue` in `unsigned`
      arithmetic, where a negative `char` converts modulo 2^32. */
  function HashValue(bytes: seq<int>): (h: nat)
    ensures h < UINT_MOD
  {
    if bytes == [] then 0
    else (bytes[|bytes| - 1] + 31 * HashValue(bytes[..|bytes| - 1])) % UINT_MOD
  }

  /** `hash`: the loop over the pointer's bytes, then `% HASHSIZE`. */
  method Hash(bytes: seq<int>) returns (h: nat)
    ensures h == HashValue(bytes) % HASHSIZE
    ensures h < HASHSIZE
  {
    var hashValue := 0;
    for i := 0 to |bytes|
      invariant hashValue == HashValue(bytes[..i])
    {
      assert bytes[..i + 1][..i] == bytes[..i];
      hashValue := (bytes[i] + 31 * hashValue) % UINT_MOD;
    }
    assert bytes[..|bytes|] == bytes;
    h := hashValue % HASHSIZE;
  }
}
