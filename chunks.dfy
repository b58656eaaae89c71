/**
 * Byte streams as the transport hands them over: a finite sequence of
 * chunks delivered in order, followed (or not) by the end-of-stream signal.
 */
module Chunks {

  newtype byte = x: int | 0 <= x < 256

  type Bytes = seq<byte>

  /**
   * What the fetch executer does with one URI: either it throws before
   * writing anything (`Thrown`), or it writes `chunks` into the sink it was
   * given, one after the other, and then signals `finish` when `finishes`
   * holds. A transport failure is a delivery that never finishes.
   */
  datatype Delivery =
    | Delivery(chunks: seq<Bytes>, finishes: bool)
    | Thrown(error: string)

  /** The chunks the executer wrote into the sink: none when it threw. */
  function Delivered(d: Delivery): seq<Bytes>
  {
    if d.Thrown? then [] else d.chunks
  }

  /** The executer signalled `finish` on the sink. */
  predicate Finished(d: Delivery)
  {
    d.Delivery? && d.finishes
  }

  /** The parts joined end to end, in arrival order, starting from the empty sequence. */
  function Concat<T>(parts: seq<seq<T>>): seq<T>
  {
    if |parts| == 0 then [] else Concat(parts[..|parts| - 1]) + parts[|parts| - 1]
  }

  /** Joining one more part extends the joined text by exactly that part. */
  lemma ConcatSnoc<T>(parts: seq<seq<T>>, last: seq<T>)
    ensures Concat(parts + [last]) == Concat(parts) + last
  {
    assert (parts + [last])[..|parts|] == parts;
  }

  /** Joining is compatible with splitting the list of parts anywhere. */
  lemma {:induction false} ConcatAppend<T>(p: seq<seq<T>>, q: seq<seq<T>>)
    ensures Concat(p + q) == Concat(p) + Concat(q)
    decreases |q|
  {
    if |q| == 0 {
      assert p + q == p;
    } else {
      var q' := q[..|q| - 1];
      assert p + q == (p + q') + [q[|q| - 1]];
      ConcatSnoc(p + q', q[|q| - 1]);
      ConcatAppend(p, q');
      ConcatSnoc(q', q[|q| - 1]);
      assert q == q' + [q[|q| - 1]];
    }
  }

  /** Each byte chunk turned into text on its own, as `chunk.toString()` does. */
  function Decoded(chunks: seq<Bytes>, decode: Bytes -> string): (texts: seq<string>)
    ensures |texts| == |chunks|
    ensures forall i :: 0 <= i < |chunks| ==> texts[i] == decode(chunks[i])
  {
    seq(|chunks|, i requires 0 <= i < |chunks| => decode(chunks[i]))
  }
}
