/** The image loader of main.py: the bytes of a program image become a word memory, two
    little-endian bytes per word, keyed by word index. */
module Loader {
  import opened Base

  newtype byte = x: int | 0 <= x < 256

  /** `struct.unpack("<H", ...)`: the unsigned 16-bit word of a low and a high byte. */
  function Le16(lo: byte, hi: byte): (w: nat)
    ensures w < 65536
    ensures w % 256 == lo as nat && w / 256 == hi as nat
  {
    lo as nat + 256 * hi as nat
  }

  /** The two bytes a 16-bit word is stored as, low byte first. */
  function Bytes(w: nat): (r: seq<byte>)
    requires w < 65536
    ensures |r| == 2 && Le16(r[0], r[1]) == w
  {
    [(w % 256) as byte, (w / 256) as byte]
  }

  /** An image of words, as the file would hold them. */
  function Encode(words: seq<nat>): (r: seq<byte>)
    requires forall i :: 0 <= i < |words| ==> words[i] < 65536
    ensures |r| == 2 * |words|
    ensures forall k :: 0 <= k < |words| ==> Le16(r[2 * k], r[2 * k + 1]) == words[k]
  {
    if words == [] then []
    else
      var rest := Encode(words[1..]);
      assert forall k :: 1 <= k < |words| ==> Le16(rest[2 * (k - 1)], rest[2 * (k - 1) + 1]) == words[k];
      Bytes(words[0]) + rest
  }

  /** `m` is the memory of `image`: its keys are exactly the word indices 0 .. n-1 of an image
      of 2n bytes, and each word is the little-endian pair at bytes 2k and 2k+1. */
  ghost predicate IsMemoryOf(image: seq<byte>, m: map<nat, nat>)
    requires |image| % 2 == 0
  {
    && (forall k: nat :: k in m <==> k < |image| / 2)
    && (forall k: nat :: k in m ==> m[k] == Le16(image[2 * k], image[2 * k + 1]))
  }

  /** The `for idx in range(0, len(image), 2)` loop (main.py:15-18). An odd final byte makes
      `struct.unpack` fail on a one-byte slice, and no memory results. */
  method Load(image: seq<byte>) returns (r: Option<map<nat, nat>>)
    ensures r.None? <==> |image| % 2 == 1
    ensures r.Some? ==> IsMemoryOf(image, r.value)
  {
    var memory: map<nat, nat> := map[];
    var idx := 0;
    while idx < |image|
      invariant 0 <= idx <= |image| && idx % 2 == 0
      invariant forall k: nat :: k in memory <==> k < idx / 2
      invariant forall k: nat :: k in memory ==> 2 * k + 1 < |image| && memory[k] == Le16(image[2 * k], image[2 * k + 1])
      decreases |image| - idx
    {
      if idx + 2 > |image| {
        assert idx == |image| - 1;
        return None;
      }
      memory := memory[idx / 2 := Le16(image[idx], image[idx + 1])];
      idx := idx + 2;
    }
    return Some(memory);
  }

  /** Every loaded word lies in 0..65535, so a word above 32775 in an image is possible and
      decodes as an invalid operand. */
  lemma LoadedWordsAre16Bit(image: seq<byte>, m: map<nat, nat>)
    requires |image| % 2 == 0 && IsMemoryOf(image, m)
    ensures forall k :: k in m ==> m[k] < 65536
  {
  }

  /** Loading the encoding of a word list gives back that list, keyed by position. */
  lemma LoadEncodeRoundTrip(words: seq<nat>, m: map<nat, nat>)
    requires forall i :: 0 <= i < |words| ==> words[i] < 65536
    requires IsMemoryOf(Encode(words), m)
    ensures forall k: nat :: k in m <==> k < |words|
    ensures forall k: nat :: k < |words| ==> m[k] == words[k]
  {
  }

  /** The memory of an image is unique, so `Load` is determined by its contract. */
  lemma MemoryOfIsUnique(image: seq<byte>, m1: map<nat, nat>, m2: map<nat, nat>)
    requires |image| % 2 == 0 && IsMemoryOf(image, m1) && IsMemoryOf(image, m2)
    ensures m1 == m2
  {
    assert m1.Keys == m2.Keys;
  }
}
