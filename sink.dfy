/**
 * The verifying sink (`createUriContentStreamHandler`): a writable stream
 * that appends every chunk to the destination file and feeds it to one hash
 * object per checksum, and on finish compares the digests in checksum order,
 * deleting the file at the first mismatch.
 */
module Sink {

  import opened Wrappers
  import opened Chunks
  import opened Resolver

  /** A hash object made by `crypto.createHash(algo)`, as the bytes passed to `update` so far. */
  datatype Accumulator = Accumulator(algo: string, fed: Bytes)

  /** The comparison `digest != checksum.sum` fails exactly when the sum is that digest. */
  predicate Matches(actual: string, expected: Option<string>)
  {
    expected == Some(actual)
  }

  /** The first index, in checksum order, whose digest differs from its expected sum. */
  function FirstMismatch(actual: seq<string>, expected: seq<Option<string>>): (r: Option<nat>)
    requires |actual| == |expected|
    ensures r.Some? ==> r.value < |actual| && !Matches(actual[r.value], expected[r.value])
    ensures r.Some? ==> forall j :: 0 <= j < r.value ==> Matches(actual[j], expected[j])
    ensures r.None? <==> forall j :: 0 <= j < |actual| ==> Matches(actual[j], expected[j])
  {
    if |actual| == 0 then None
    else if !Matches(actual[0], expected[0]) then Some(0)
    else match FirstMismatch(actual[1..], expected[1..])
      case None => None
      case Some(k) => Some(k + 1)
  }

  /** How many digests the finish handler compares: up to and including the first mismatch, else all. */
  function Compared(actual: seq<string>, expected: seq<Option<string>>): nat
    requires |actual| == |expected|
  {
    match FirstMismatch(actual, expected)
    case None => |actual|
    case Some(k) => k + 1
  }

  /** The digest of `content` under each algorithm, in order. */
  function DigestsOf(algos: seq<string>, content: Bytes, digest: (string, Bytes) -> string): (ds: seq<string>)
    ensures |ds| == |algos|
    ensures forall i :: 0 <= i < |algos| ==> ds[i] == digest(algos[i], content)
  {
    seq(|algos|, i requires 0 <= i < |algos| => digest(algos[i], content))
  }

  /**
   * The stream handler for one download. `digest(algo, bytes)` is the hex
   * digest a fresh hash object for `algo` gives after being fed `bytes`;
   * `file` and `present` stand for the destination file.
   */
  class VerifyingSink {
    const checksums: seq<Checksum>
    const digest: (string, Bytes) -> string
    const hashes: array<Accumulator>
    /** The algorithm of each hash object, fixed when the handler is created. */
    ghost const algos: seq<string>

    /** What has been written to the destination file. */
    var file: Bytes
    /** Whether the destination file exists. */
    var present: bool
    /** Whether the finish handler has run (and closed the file stream). */
    var ended: bool
    /** The chunks written so far, in arrival order. */
    ghost var received: seq<Bytes>

    ghost predicate Valid()
      reads this, hashes
    {
      && hashes.Length == |checksums| == |algos|
      && (forall i :: 0 <= i < hashes.Length ==> hashes[i] == Accumulator(algos[i], Concat(received)))
      && file == Concat(received)
    }

    /** The digest every hash object gives for the bytes received so far. */
    ghost function Digests(): (ds: seq<string>)
      reads this
    {
      DigestsOf(algos, Concat(received), digest)
    }

    /** Opens (creates or truncates) the destination file and makes one hash object per checksum. */
    constructor (checksums: seq<Checksum>, digest: (string, Bytes) -> string)
      ensures Valid() && fresh(hashes)
      ensures this.checksums == checksums && this.digest == digest && algos == Algos(checksums)
      ensures received == [] && file == [] && present && !ended
    {
      var hs := new Accumulator[|checksums|];
      for i := 0 to |checksums|
        invariant forall j :: 0 <= j < i ==> hs[j] == Accumulator(checksums[j].algo, [])
      {
        hs[i] := Accumulator(checksums[i].algo, []);
      }
      this.checksums := checksums;
      this.digest := digest;
      this.hashes := hs;
      this.algos := Algos(checksums);
      file := [];
      present := true;
      ended := false;
      received := [];
    }

    /** The `write` callback: append the chunk to the file, then feed it to every hash object in order. */
    method Write(chunk: Bytes)
      requires Valid() && !ended
      modifies this, hashes
      ensures Valid()
      ensures received == old(received) + [chunk]
      ensures file == old(file) + chunk
      ensures forall i :: 0 <= i < hashes.Length ==> hashes[i].fed == old(hashes[i].fed) + chunk
      ensures present == old(present) && !ended
    {
      ConcatSnoc(received, chunk);
      file := file + chunk;
      for i := 0 to |checksums|
        modifies hashes
        invariant forall j :: 0 <= j < i ==> hashes[j] == Accumulator(algos[j], Concat(received + [chunk]))
        invariant forall j :: i <= j < hashes.Length ==> hashes[j] == old(hashes[j])
      {
        hashes[i] := hashes[i].(fed := hashes[i].fed + chunk);
      }
      received := received + [chunk];
    }

    /**
     * The `finish` handler: close the file stream, then compare the digests
     * in checksum order; at the first one that differs from its sum, delete
     * the file and stop comparing.
     */
    method Finish() returns (compared: nat)
      requires Valid() && !ended
      modifies this`ended, this`present
      ensures Valid() && ended
      ensures compared == Compared(Digests(), Sums(checksums))
      ensures present == (old(present) && FirstMismatch(Digests(), Sums(checksums)).None?)
    {
      ended := true;
      ghost var ds, sums := Digests(), Sums(checksums);
      var i := 0;
      while i < |checksums|
        invariant 0 <= i <= |checksums|
        invariant forall j :: 0 <= j < i ==> Matches(ds[j], sums[j])
      {
        var d := digest(hashes[i].algo, hashes[i].fed);
        if Some(d) != checksums[i].sum {
          present := false;
          MismatchShortCircuits(ds, sums, i);
          return i + 1;
        }
        i := i + 1;
      }
      return |checksums|;
    }
  }

  /**
   * A mismatch at index `k` after matching digests decides the outcome:
   * whatever the later digests are, exactly `k + 1` are compared and the file is deleted.
   */
  lemma MismatchShortCircuits(digests: seq<string>, sums: seq<Option<string>>, k: nat)
    requires |digests| == |sums| && k < |digests|
    requires forall j :: 0 <= j < k ==> Matches(digests[j], sums[j])
    requires !Matches(digests[k], sums[k])
    ensures FirstMismatch(digests, sums) == Some(k) && Compared(digests, sums) == k + 1
  {
    var m := FirstMismatch(digests, sums);
    assert m.Some?;
    assert !(m.value < k) && !(k < m.value);
  }
}
