/** The session delegate's `taskData` buffer as a value. */
module Chunks {
  import opened Types

  /** The chunks, in arrival order, joined into one body. */
  function Concat(cs: seq<Bytes>): (r: Bytes)
    ensures cs == [] ==> r == []
  {
    if cs == [] then [] else cs[0] + Concat(cs[1..])
  }

  /** The buffer after receiving `cs` from an empty (nil) buffer: nil while no chunk arrived. */
  function Buffered(cs: seq<Bytes>): (r: Option<Bytes>)
    ensures r.None? <==> cs == []
  {
    if cs == [] then None else Some(Concat(cs))
  }

  /** `taskData = taskData ?? NSMutableData()` followed by `appendData(c)`. */
  function AppendChunk(b: Option<Bytes>, c: Bytes): (r: Option<Bytes>)
    ensures r.Some? && |r.value| == (if b.Some? then |b.value| else 0) + |c|
    ensures b.Some? ==> r.value[..|b.value|] == b.value
    ensures r.value[|r.value| - |c|..] == c
  {
    Some((if b.Some? then b.value else []) + c)
  }

  lemma {:induction false} ConcatSnoc(cs: seq<Bytes>, c: Bytes)
    ensures Concat(cs + [c]) == Concat(cs) + c
    decreases |cs|
  {
    if cs == [] {
      assert [] + [c] == [c];
    } else {
      assert (cs + [c])[1..] == cs[1..] + [c];
      ConcatSnoc(cs[1..], c);
    }
  }

  /** Appending one chunk to the buffer of `cs` gives the buffer of `cs + [c]`. */
  lemma BufferedSnoc(cs: seq<Bytes>, c: Bytes)
    ensures AppendChunk(Buffered(cs), c) == Buffered(cs + [c])
  {
    ConcatSnoc(cs, c);
  }

  /** The total number of bytes in the chunks. */
  function TotalLength(cs: seq<Bytes>): (r: nat)
  {
    if cs == [] then 0 else |cs[0]| + TotalLength(cs[1..])
  }

  lemma {:induction false} ConcatLength(cs: seq<Bytes>)
    ensures |Concat(cs)| == TotalLength(cs)
    decreases |cs|
  {
    if cs != [] {
      ConcatLength(cs[1..]);
    }
  }
}
