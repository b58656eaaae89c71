/**
 * The entry point (`get`): resolve every checksum descriptor, wait for all
 * of them, and only then download the file through a verifying sink.
 */
module Download {

  import opened Wrappers
  import opened Chunks
  import opened Resolver
  import opened Sink

  /** A call of the fetch executer: for a checksum file, or for the file itself. */
  datatype Request = ChecksumFile(uri: string) | Primary(uri: string)

  /** Where one run of `get` comes to rest. */
  datatype Phase =
    | Rejected(reason: string)  // a descriptor was refused: the reason is logged, nothing is downloaded
    | Resolving                 // a checksum file never finished: the download never starts
    | Downloading               // the download never finished: the file stays, unverified
    | Aborted(error: string)    // the executer threw: the empty file stays, unverified
    | Verified                  // every digest matched: the file is kept
    | Mismatch(index: nat)      // the digest at `index` was the first to differ: the file is deleted

  /** `Q.all` over the descriptor promises, in terms of how each one settles. */
  function All(statuses: seq<Status>): (r: Status)
    ensures r.Refused? <==> exists i :: 0 <= i < |statuses| && statuses[i].Refused?
    ensures r.Refused? ==> exists i :: 0 <= i < |statuses| && statuses[i] == r &&
                              forall j :: 0 <= j < i ==> !statuses[j].Refused?
    ensures r == Waiting <==> (forall i :: 0 <= i < |statuses| ==> !statuses[i].Refused?) &&
                              exists i :: 0 <= i < |statuses| && statuses[i] == Waiting
    ensures r == Accepted <==> forall i :: 0 <= i < |statuses| ==> statuses[i] == Accepted
  {
    if |statuses| == 0 then Accepted
    else match statuses[0]
      case Refused(_) => statuses[0]
      case Waiting => var rest := All(statuses[1..]); if rest.Refused? then rest else Waiting
      case Accepted => All(statuses[1..])
  }

  /** The resolution of each descriptor, from its `uri` and `sum` before `get` ran. */
  function Resolutions(uris: seq<Option<string>>, sums: seq<Option<string>>, srcFilename: string,
                       net: string -> Delivery, decode: Bytes -> string): (rs: seq<Resolution>)
    requires |uris| == |sums|
    ensures |rs| == |uris|
    ensures forall i :: 0 <= i < |uris| ==> rs[i] == Resolve(uris[i], sums[i], srcFilename, net, decode)
  {
    seq(|uris|, i requires 0 <= i < |uris| => Resolve(uris[i], sums[i], srcFilename, net, decode))
  }

  /** How each resolution settles, in descriptor order. */
  function Statuses(rs: seq<Resolution>): (ss: seq<Status>)
    ensures |ss| == |rs| && forall i :: 0 <= i < |rs| ==> ss[i] == rs[i].status
  {
    seq(|rs|, i requires 0 <= i < |rs| => rs[i].status)
  }

  /** The `sum` each descriptor is left with, in descriptor order. */
  function ResolvedSums(rs: seq<Resolution>): (sums: seq<Option<string>>)
    ensures |sums| == |rs| && forall i :: 0 <= i < |rs| ==> sums[i] == rs[i].sum
  {
    seq(|rs|, i requires 0 <= i < |rs| => rs[i].sum)
  }

  /** The checksum files fetched while resolving, in descriptor order. */
  function Requests(rs: seq<Resolution>): seq<Request>
  {
    if |rs| == 0 then []
    else
      var last := rs[|rs| - 1];
      Requests(rs[..|rs| - 1]) + if last.request.Some? then [ChecksumFile(last.request.value)] else []
  }

  /**
   * Where a download through a verifying sink comes to rest: unfinished, or
   * verified, or failed at the first digest that differs from its sum.
   */
  function Verdict(algos: seq<string>, sums: seq<Option<string>>, primary: Delivery,
                   digest: (string, Bytes) -> string): Phase
    requires |algos| == |sums|
  {
    match primary
    case Thrown(error) => Aborted(error)
    case Delivery(chunks, finishes) =>
      if !finishes then Downloading
      else match FirstMismatch(DigestsOf(algos, Concat(chunks), digest), sums)
        case None => Verified
        case Some(k) => Mismatch(k)
  }

  /**
   * Where `get` comes to rest, given the descriptors' resolutions, their
   * algorithms, and what the executer delivers for the file itself.
   */
  function Outcome(rs: seq<Resolution>, algos: seq<string>, primary: Delivery,
                   digest: (string, Bytes) -> string): Phase
    requires |algos| == |rs|
  {
    var gate := All(Statuses(rs));
    if gate.Refused? then Rejected(gate.reason)
    else if gate == Waiting then Resolving
    else Verdict(algos, ResolvedSums(rs), primary, digest)
  }

  /** `options.checksums`, with `undefined`/`null` read as no checksums. */
  function List(checksums: Option<seq<Checksum>>): seq<Checksum>
  {
    if checksums.Some? then checksums.value else []
  }

  /** No descriptor object appears twice. */
  predicate Distinct(cs: seq<Checksum>)
  {
    forall i, j :: 0 <= i < j < |cs| ==> cs[i] != cs[j]
  }

  /**
   * The loop of `get` that creates one promise per descriptor: each
   * descriptor is resolved in place, in order, and the checksum files are
   * requested in descriptor order.
   */
  method ResolveAll(cs: seq<Checksum>, srcFilename: string, net: string -> Delivery, decode: Bytes -> string)
    returns (statuses: seq<Status>, requests: seq<Request>)
    requires Distinct(cs)
    modifies cs
    ensures var rs := Resolutions(old(Uris(cs)), old(Sums(cs)), srcFilename, net, decode);
            && statuses == Statuses(rs) && requests == Requests(rs)
            && forall i :: 0 <= i < |cs| ==>
                 cs[i].sum == rs[i].sum && cs[i].uri == old(cs[i].uri) && cs[i].algo == old(cs[i].algo)
  {
    ghost var uris0, sums0 := Uris(cs), Sums(cs);
    ghost var rs := Resolutions(uris0, sums0, srcFilename, net, decode);
    statuses, requests := [], [];
    for i := 0 to |cs|
      modifies cs`sum
      invariant statuses == Statuses(rs[..i])
      invariant requests == Requests(rs[..i])
      invariant forall j :: 0 <= j < i ==> cs[j].sum == rs[j].sum
      invariant forall j :: i <= j < |cs| ==> cs[j].sum == sums0[j]
    {
      statuses, requests := ResolveNext(cs[i], i, rs, srcFilename, net, decode, statuses, requests);
    }
    assert rs[..|cs|] == rs;
  }

  /** One turn of that loop: resolve descriptor `i` and record its status and its request. */
  method ResolveNext(c: Checksum, i: nat, ghost rs: seq<Resolution>, srcFilename: string,
                     net: string -> Delivery, decode: Bytes -> string,
                     statuses: seq<Status>, requests: seq<Request>)
    returns (statuses': seq<Status>, requests': seq<Request>)
    requires i < |rs| && rs[i] == Resolve(c.uri, c.sum, srcFilename, net, decode)
    requires statuses == Statuses(rs[..i]) && requests == Requests(rs[..i])
    modifies c`sum
    ensures statuses' == Statuses(rs[..i + 1]) && requests' == Requests(rs[..i + 1])
    ensures c.sum == rs[i].sum
  {
    var status, request := ResolveChecksum(c, srcFilename, net, decode);
    PrefixStep(rs, i);
    statuses' := statuses + [status];
    requests' := requests;
    if request.Some? {
      requests' := requests + [ChecksumFile(request.value)];
    }
  }

  /** Taking one more resolution into account extends the statuses and the requests by its own. */
  lemma PrefixStep(rs: seq<Resolution>, i: nat)
    requires i < |rs|
    ensures Statuses(rs[..i + 1]) == Statuses(rs[..i]) + [rs[i].status]
    ensures Requests(rs[..i + 1]) ==
              Requests(rs[..i]) + if rs[i].request.Some? then [ChecksumFile(rs[i].request.value)] else []
  {
    assert rs[..i + 1][..i] == rs[..i];
  }

  /** The executer writing the delivered chunks into the sink, one after the other. */
  method Pipe(sink: VerifyingSink, chunks: seq<Bytes>)
    requires sink.Valid() && !sink.ended
    modifies sink, sink.hashes
    ensures sink.Valid() && !sink.ended && sink.present == old(sink.present)
    ensures sink.received == old(sink.received) + chunks
    ensures sink.file == old(sink.file) + Concat(chunks)
  {
    for i := 0 to |chunks|
      invariant sink.Valid() && !sink.ended && sink.present == old(sink.present)
      invariant sink.received == old(sink.received) + chunks[..i]
    {
      assert old(sink.received) + chunks[..i + 1] == (old(sink.received) + chunks[..i]) + [chunks[i]];
      sink.Write(chunks[i]);
    }
    assert chunks[..|chunks|] == chunks;
    ConcatAppend(old(sink.received), chunks);
  }

  /**
   * The fulfilment handler of `get`: create a verifying sink over the
   * resolved checksums and have the executer deliver `srcUri` into it.
   */
  method PerformDownload(srcUri: string, cs: seq<Checksum>, net: string -> Delivery,
                         digest: (string, Bytes) -> string)
    returns (phase: Phase, sink: VerifyingSink)
    ensures fresh(sink) && fresh(sink.hashes) && sink.Valid() && sink.checksums == cs
    ensures sink.received == Delivered(net(srcUri)) && sink.file == Concat(Delivered(net(srcUri)))
    ensures sink.ended == Finished(net(srcUri))
    ensures phase == Verdict(Algos(cs), Sums(cs), net(srcUri), digest)
    ensures sink.present == !phase.Mismatch?
  {
    sink := new VerifyingSink(cs, digest);
    var d := net(srcUri);
    if d.Thrown? {
      return Aborted(d.error), sink;
    }
    Pipe(sink, d.chunks);
    if !d.finishes {
      return Downloading, sink;
    }
    phase := Settle(sink, d.chunks);
  }

  /** The finish handler of a sink that received `chunks`: where the download comes to rest. */
  method Settle(sink: VerifyingSink, chunks: seq<Bytes>) returns (phase: Phase)
    requires sink.Valid() && !sink.ended && sink.present && sink.received == chunks
    modifies sink`ended, sink`present
    ensures sink.Valid() && sink.ended
    ensures phase == Verdict(sink.algos, Sums(sink.checksums), Delivery(chunks, true), sink.digest)
    ensures sink.present == !phase.Mismatch?
  {
    var compared := sink.Finish();
    if sink.present {
      phase := Verified;
    } else {
      phase := Mismatch(compared - 1);
    }
  }

  /**
   * `get(options)`: resolves every descriptor of `checksums` in place, then,
   * once all of them are fulfilled, has the executer deliver `srcUri`
   * through a new verifying sink. `srcFilename` is the base name of
   * `srcUri`; `net`, `decode` and `digest` stand for the executer,
   * `chunk.toString()` and the hash library.
   */
  method Get(srcUri: string, srcFilename: string, checksums: Option<seq<Checksum>>,
             net: string -> Delivery, decode: Bytes -> string, digest: (string, Bytes) -> string)
    returns (phase: Phase, requests: seq<Request>, sink: VerifyingSink?)
    requires Distinct(List(checksums))
    modifies List(checksums)
    ensures var cs := List(checksums);
            var rs := Resolutions(old(Uris(cs)), old(Sums(cs)), srcFilename, net, decode);
            && (forall i :: 0 <= i < |cs| ==>
                  cs[i].sum == rs[i].sum && cs[i].uri == old(cs[i].uri) && cs[i].algo == old(cs[i].algo))
            && phase == Outcome(rs, old(Algos(cs)), net(srcUri), digest)
            && (All(Statuses(rs)) == Accepted <==> sink != null)
            && (sink == null ==> requests == Requests(rs))
            && (sink != null ==>
                  && requests == Requests(rs) + [Primary(srcUri)]
                  && fresh(sink) && sink.Valid() && sink.checksums == cs
                  && sink.received == Delivered(net(srcUri))
                  && sink.file == Concat(Delivered(net(srcUri)))
                  && sink.ended == Finished(net(srcUri))
                  && sink.present == !phase.Mismatch?)
  {
    var cs := List(checksums);
    ghost var algos0 := Algos(cs);
    ghost var rs := Resolutions(Uris(cs), Sums(cs), srcFilename, net, decode);
    var statuses;
    statuses, requests := ResolveAll(cs, srcFilename, net, decode);
    assert Algos(cs) == algos0;
    assert Sums(cs) == ResolvedSums(rs);
    var gate := All(statuses);
    if gate.Refused? {
      return Rejected(gate.reason), requests, null;
    }
    if gate == Waiting {
      return Resolving, requests, null;
    }
    requests := requests + [Primary(srcUri)];
    phase, sink := PerformDownload(srcUri, cs, net, digest);
  }

  // ---------------------------------------------------------------------
  // properties of the whole run
  // ---------------------------------------------------------------------

  /**
   * If any descriptor is refused, the run is rejected with the reason of
   * the first refused descriptor and the download never starts.
   */
  lemma RefusalStopsDownload(rs: seq<Resolution>, algos: seq<string>, primary: Delivery,
                             digest: (string, Bytes) -> string, i: nat)
    requires |algos| == |rs| && i < |rs| && rs[i].status.Refused?
    requires forall j :: 0 <= j < i ==> !rs[j].status.Refused?
    ensures Outcome(rs, algos, primary, digest) == Rejected(rs[i].status.reason)
  {
    var ss := Statuses(rs);
    var gate := All(ss);
    assert ss[i].Refused?;
    var k :| 0 <= k < |ss| && ss[k] == gate && forall j :: 0 <= j < k ==> !ss[j].Refused?;
    assert !(k < i) && !(i < k);
  }

  /** A checksum file that never finishes, with no refusal, keeps the run waiting before the download. */
  lemma PendingChecksumStopsDownload(rs: seq<Resolution>, algos: seq<string>, primary: Delivery,
                                     digest: (string, Bytes) -> string, i: nat)
    requires |algos| == |rs| && i < |rs| && rs[i].status == Waiting
    requires forall j :: 0 <= j < |rs| ==> !rs[j].status.Refused?
    ensures Outcome(rs, algos, primary, digest) == Resolving
  {
    assert Statuses(rs)[i] == Waiting;
  }

  /** With no descriptors the file is downloaded and, once the stream finishes, always kept. */
  lemma NoChecksumsVerified(primary: Delivery, digest: (string, Bytes) -> string)
    ensures Outcome([], [], primary, digest) ==
              if primary.Thrown? then Aborted(primary.error)
              else if primary.finishes then Verified
              else Downloading
  {
  }

  /**
   * Once every descriptor is fulfilled, an executer that throws for the file
   * itself aborts the run with its error, before any digest is compared.
   */
  lemma ThrowingDownloadAborts(rs: seq<Resolution>, algos: seq<string>, primary: Delivery,
                               digest: (string, Bytes) -> string)
    requires |algos| == |rs|
    requires forall i :: 0 <= i < |rs| ==> rs[i].status == Accepted
    requires primary.Thrown?
    ensures Outcome(rs, algos, primary, digest) == Aborted(primary.error)
  {
    assert All(Statuses(rs)) == Accepted;
  }

  /**
   * A run ends `Verified` exactly when every descriptor resolved, the
   * download finished, and the content's digest under every algorithm
   * equals the descriptor's resolved sum.
   */
  lemma VerifiedIffAllMatch(rs: seq<Resolution>, algos: seq<string>, primary: Delivery,
                            digest: (string, Bytes) -> string)
    requires |algos| == |rs|
    ensures Outcome(rs, algos, primary, digest) == Verified <==>
              && (forall i :: 0 <= i < |rs| ==> rs[i].status == Accepted)
              && Finished(primary)
              && forall i :: 0 <= i < |rs| ==> rs[i].sum == Some(digest(algos[i], Concat(Delivered(primary))))
  {
    var ds := DigestsOf(algos, Concat(Delivered(primary)), digest);
    var sums := ResolvedSums(rs);
    if forall i :: 0 <= i < |rs| ==> rs[i].status == Accepted {
      assert All(Statuses(rs)) == Accepted;
      if Finished(primary) && forall i :: 0 <= i < |rs| ==> rs[i].sum == Some(digest(algos[i], Concat(Delivered(primary)))) {
        assert forall j :: 0 <= j < |ds| ==> Matches(ds[j], sums[j]);
      }
    }
  }

  /**
   * A run ends in `Mismatch(k)` exactly when everything resolved, the
   * download finished, the digests before `k` matched and the one at `k` did not.
   */
  lemma MismatchAtFirstDifference(rs: seq<Resolution>, algos: seq<string>, primary: Delivery,
                                  digest: (string, Bytes) -> string, k: nat)
    requires |algos| == |rs|
    ensures Outcome(rs, algos, primary, digest) == Mismatch(k) <==>
              && (forall i :: 0 <= i < |rs| ==> rs[i].status == Accepted)
              && Finished(primary) && k < |rs|
              && (forall j :: 0 <= j < k ==> rs[j].sum == Some(digest(algos[j], Concat(Delivered(primary)))))
              && rs[k].sum != Some(digest(algos[k], Concat(Delivered(primary))))
  {
    var ds := DigestsOf(algos, Concat(Delivered(primary)), digest);
    var sums := ResolvedSums(rs);
    if && (forall i :: 0 <= i < |rs| ==> rs[i].status == Accepted)
       && Finished(primary) && k < |rs|
       && (forall j :: 0 <= j < k ==> rs[j].sum == Some(digest(algos[j], Concat(Delivered(primary)))))
       && rs[k].sum != Some(digest(algos[k], Concat(Delivered(primary))))
    {
      assert All(Statuses(rs)) == Accepted;
      MismatchShortCircuits(ds, sums, k);
    }
  }
}
