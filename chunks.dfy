// `boltons.iterutils.chunked(src, size)` and the `range(0, len, size)`
// slicing loops: consecutive pieces of a list, all of `size` elements but
// the last.
module Chunks {

  function Chunked<T>(s: seq<T>, size: nat): (r: seq<seq<T>>)
    requires size > 0
    decreases |s|
  {
    if s == [] then []
    else if |s| <= size then [s]
    else [s[..size]] + Chunked(s[size..], size)
  }

  function Flatten<T>(parts: seq<seq<T>>): seq<T>
  {
    if parts == [] then [] else parts[0] + Flatten(parts[1..])
  }

  /** The pieces put back together give the list; every piece holds
      between one and `size` elements, and only the last may be short. */
  lemma {:induction false} ChunkedFacts<T>(s: seq<T>, size: nat)
    requires size > 0
    ensures Flatten(Chunked(s, size)) == s
    ensures forall k :: 0 <= k < |Chunked(s, size)| ==> 0 < |Chunked(s, size)[k]| <= size
    ensures forall k :: 0 <= k < |Chunked(s, size)| - 1 ==> |Chunked(s, size)[k]| == size
    decreases |s|
  {
    if s != [] && |s| > size {
      ChunkedFacts(s[size..], size);
      var rest := Chunked(s[size..], size);
      assert Chunked(s, size) == [s[..size]] + rest;
      assert Flatten(Chunked(s, size)) == s[..size] + Flatten(rest) by {
        assert ([s[..size]] + rest)[1..] == rest;
      }
      assert s[..size] + s[size..] == s;
    }
  }

  /** There are `ceil(|s| / size)` pieces: enough to hold the list, and
      one fewer would not be. */
  lemma {:induction false} ChunkCount<T>(s: seq<T>, size: nat)
    requires size > 0
    ensures s == [] <==> |Chunked(s, size)| == 0
    ensures s != [] ==> (|Chunked(s, size)| - 1) * size < |s| <= |Chunked(s, size)| * size
    decreases |s|
  {
    if s != [] && |s| > size {
      ChunkCount(s[size..], size);
      var n := |Chunked(s[size..], size)|;
      assert |Chunked(s, size)| == n + 1;
      assert (n - 1) * size == n * size - size;
      assert (n + 1) * size == n * size + size;
    }
  }
}
