/**
 * Checksum descriptor resolution (`createChecksumPromiseForUri`): a
 * descriptor `{ uri, sum, algo }` either carries its expected digest inline
 * or names a checksum file whose line for the downloaded file gives it.
 */
module Resolver {

  import opened Wrappers
  import opened Chunks
  import opened Text

  const BothProvided: string := "Either provide a checksum uri or a checksum directly, but not both."
  const NeitherProvided: string := "Neither checksum uri nor checksum string provided."

  /** JavaScript truthiness of an optional string field: present and not the empty string. */
  predicate Truthy(v: Option<string>)
  {
    v.Some? && v.value != ""
  }

  /**
   * A checksum descriptor. Resolution overwrites `sum` in place and the
   * promise resolves with the descriptor object itself.
   */
  class Checksum {
    var uri: Option<string>
    var sum: Option<string>
    var algo: string

    constructor (uri: Option<string>, sum: Option<string>, algo: string)
      ensures this.uri == uri && this.sum == sum && this.algo == algo
    {
      this.uri := uri;
      this.sum := sum;
      this.algo := algo;
    }
  }

  /** How the promise for one descriptor settles: fulfilled, rejected with a reason, or never. */
  datatype Status = Accepted | Refused(reason: string) | Waiting

  /**
   * Everything resolving one descriptor does: how its promise settles, the
   * descriptor's `sum` afterwards, and the URI handed to the executer, if any.
   */
  datatype Resolution = Resolution(status: Status, sum: Option<string>, request: Option<string>)

  /** The `uri` of each checksum object, in order. */
  function Uris(checksums: seq<Checksum>): (uris: seq<Option<string>>)
    reads checksums
    ensures |uris| == |checksums|
    ensures forall i :: 0 <= i < |checksums| ==> uris[i] == checksums[i].uri
  {
    seq(|checksums|, i requires 0 <= i < |checksums| reads checksums => checksums[i].uri)
  }

  /** The `sum` of each checksum object, in order. */
  function Sums(checksums: seq<Checksum>): (sums: seq<Option<string>>)
    reads checksums
    ensures |sums| == |checksums|
    ensures forall i :: 0 <= i < |checksums| ==> sums[i] == checksums[i].sum
  {
    seq(|checksums|, i requires 0 <= i < |checksums| reads checksums => checksums[i].sum)
  }

  /** The `algo` of each checksum object, in order. */
  function Algos(checksums: seq<Checksum>): (algos: seq<string>)
    reads checksums
    ensures |algos| == |checksums|
    ensures forall i :: 0 <= i < |checksums| ==> algos[i] == checksums[i].algo
  {
    seq(|checksums|, i requires 0 <= i < |checksums| reads checksums => checksums[i].algo)
  }

  // ---------------------------------------------------------------------
  // the checksum-file scan
  // ---------------------------------------------------------------------

  /** The index of the last line that mentions `name`, if there is one. */
  function LastMatch(lines: seq<string>, name: string): (r: Option<nat>)
    ensures r.Some? ==> r.value < |lines| && Contains(lines[r.value], name)
    ensures r.Some? ==> forall j :: r.value < j < |lines| ==> !Contains(lines[j], name)
    ensures r.None? ==> forall j :: 0 <= j < |lines| ==> !Contains(lines[j], name)
  {
    if |lines| == 0 then None
    else if Contains(lines[|lines| - 1], name) then Some(|lines| - 1)
    else LastMatch(lines[..|lines| - 1], name)
  }

  /** The digest a matching line carries: the line without the file name, trimmed. */
  function DigestOfLine(line: string, name: string): string
  {
    Trim(RemoveFirst(line, name))
  }

  /**
   * What `sum` holds after the scan over `lines` has run: the digest of the
   * last line that mentions `name`, or `unmatched` (the value `sum` had
   * before the scan) when no line does.
   */
  function Scan(lines: seq<string>, name: string, unmatched: string): string
  {
    match LastMatch(lines, name)
    case None => unmatched
    case Some(j) => DigestOfLine(lines[j], name)
  }

  /** Scanning one more line either takes that line's digest or leaves the scan as it was. */
  lemma ScanStep(lines: seq<string>, i: nat, name: string, unmatched: string)
    requires i < |lines|
    ensures Scan(lines[..i + 1], name, unmatched) ==
              if Contains(lines[i], name) then DigestOfLine(lines[i], name) else Scan(lines[..i], name, unmatched)
  {
    assert lines[..i + 1][..i] == lines[..i];
    assert lines[..i + 1][i] == lines[i];
  }

  /** The expected digest a checksum file `text` gives for the file `name`. */
  function ExpectedSum(text: string, name: string): string
  {
    Scan(Split(text, Newline), name, text)
  }

  // ---------------------------------------------------------------------
  // resolution
  // ---------------------------------------------------------------------

  /**
   * The resolution of the descriptor `{ uri, sum }` for the downloaded file
   * `srcFilename`, when the executer delivers `net(u)` for a URI `u` and
   * `decode` turns one byte chunk into text.
   */
  function Resolve(uri: Option<string>, sum: Option<string>, srcFilename: string,
                   net: string -> Delivery, decode: Bytes -> string): Resolution
  {
    if Truthy(uri) && Truthy(sum) then
      Resolution(Refused(BothProvided), sum, None)
    else if Truthy(uri) then
      Fetched(uri.value, net(uri.value), srcFilename, decode)
    else if Truthy(sum) then
      Resolution(Accepted, sum, None)
    else
      Resolution(Refused(NeitherProvided), sum, None)
  }

  /**
   * The resolution of a remote descriptor whose checksum file at `uri` is
   * delivered as `d`: `sum` is reset to the empty string before the
   * executer runs, so a throw rejects with `sum` empty.
   */
  function Fetched(uri: string, d: Delivery, srcFilename: string, decode: Bytes -> string): Resolution
  {
    match d
    case Thrown(error) => Resolution(Refused(error), Some(""), Some(uri))
    case Delivery(chunks, finishes) =>
      var text := Concat(Decoded(chunks, decode));
      if finishes then Resolution(Accepted, Some(ExpectedSum(text, srcFilename)), Some(uri))
      else Resolution(Waiting, Some(text), Some(uri))
  }

  /**
   * Resolves `c` in place: rejects it when it has both a URI and a sum or
   * neither, accepts an inline sum as it is, and for a remote descriptor
   * reads the checksum file into `c.sum` and, once the file has finished,
   * scans it. An executer that throws rejects the descriptor with its error,
   * after `sum` has been reset to the empty string.
   */
  method ResolveChecksum(c: Checksum, srcFilename: string, net: string -> Delivery, decode: Bytes -> string)
    returns (status: Status, request: Option<string>)
    modifies c`sum
    ensures Resolution(status, c.sum, request) == Resolve(old(c.uri), old(c.sum), srcFilename, net, decode)
    ensures c.uri == old(c.uri) && c.algo == old(c.algo)
  {
    if Truthy(c.uri) && Truthy(c.sum) {
      return Refused(BothProvided), None;
    }
    if Truthy(c.uri) {
      request := Some(c.uri.value);
      var d := net(c.uri.value);
      if d.Thrown? {
        c.sum := Some("");
        return Refused(d.error), request;
      }
      ReadChecksumFile(c, d.chunks, decode);
      if !d.finishes {
        return Waiting, request;
      }
      ScanChecksumFile(c, srcFilename);
      return Accepted, request;
    }
    if Truthy(c.sum) {
      return Accepted, None;
    }
    return Refused(NeitherProvided), None;
  }

  /** The `write` callback of the checksum-file stream: `sum` starts empty and each chunk's text is appended. */
  method ReadChecksumFile(c: Checksum, chunks: seq<Bytes>, decode: Bytes -> string)
    modifies c`sum
    ensures c.sum == Some(Concat(Decoded(chunks, decode)))
    ensures c.uri == old(c.uri) && c.algo == old(c.algo)
  {
    ghost var texts := Decoded(chunks, decode);
    c.sum := Some("");
    for i := 0 to |chunks|
      invariant c.sum == Some(Concat(texts[..i]))
    {
      ConcatSnoc(texts[..i], texts[i]);
      assert texts[..i + 1] == texts[..i] + [texts[i]];
      c.sum := Some(c.sum.value + decode(chunks[i]));
    }
    assert texts[..|chunks|] == texts;
  }

  /**
   * The `finish` handler of the checksum-file stream: every line that
   * mentions the file name overwrites `sum` with its digest, so the last
   * such line wins and `sum` keeps the whole text when none does.
   */
  method ScanChecksumFile(c: Checksum, srcFilename: string)
    requires c.sum.Some?
    modifies c`sum
    ensures c.sum == Some(ExpectedSum(old(c.sum).value, srcFilename))
    ensures c.uri == old(c.uri) && c.algo == old(c.algo)
  {
    var text := c.sum.value;
    var lines := Split(text, Newline);
    for i := 0 to |lines|
      invariant c.sum == Some(Scan(lines[..i], srcFilename, text))
    {
      ScanStep(lines, i, srcFilename, text);
      var matches := Contains(lines[i], srcFilename);
      var digest := DigestOfLine(lines[i], srcFilename);
      if matches {
        c.sum := Some(digest);
      }
    }
    assert lines[..|lines|] == lines;
  }

  // ---------------------------------------------------------------------
  // properties of resolution
  // ---------------------------------------------------------------------

  /** A descriptor with both a URI and a sum is rejected, unchanged, and nothing is fetched for it. */
  lemma ConflictRefused(uri: Option<string>, sum: Option<string>, srcFilename: string,
                        net: string -> Delivery, decode: Bytes -> string)
    requires Truthy(uri) && Truthy(sum)
    ensures Resolve(uri, sum, srcFilename, net, decode) == Resolution(Refused(BothProvided), sum, None)
  {
  }

  /** A descriptor with only a sum resolves at once with its sum unchanged and no fetch. */
  lemma InlineAccepted(uri: Option<string>, sum: Option<string>, srcFilename: string,
                       net: string -> Delivery, decode: Bytes -> string)
    requires !Truthy(uri) && Truthy(sum)
    ensures Resolve(uri, sum, srcFilename, net, decode) == Resolution(Accepted, sum, None)
  {
  }

  /** A descriptor with neither a URI nor a sum is rejected and nothing is fetched for it. */
  lemma MissingRefused(uri: Option<string>, sum: Option<string>, srcFilename: string,
                       net: string -> Delivery, decode: Bytes -> string)
    requires !Truthy(uri) && !Truthy(sum)
    ensures Resolve(uri, sum, srcFilename, net, decode) == Resolution(Refused(NeitherProvided), sum, None)
  {
  }

  /**
   * A remote descriptor fetches its URI exactly once; until the checksum
   * file has finished its promise stays pending with `sum` holding the text
   * received so far, every chunk in arrival order; once it has finished,
   * `sum` is the digest scanned out of that text. An executer that throws
   * rejects the descriptor with its error and leaves `sum` empty.
   */
  lemma RemoteFetched(uri: Option<string>, sum: Option<string>, srcFilename: string,
                      net: string -> Delivery, decode: Bytes -> string)
    requires Truthy(uri) && !Truthy(sum)
    ensures var r := Resolve(uri, sum, srcFilename, net, decode);
            && r.request == Some(uri.value)
            && (net(uri.value).Thrown? ==> r.status == Refused(net(uri.value).error) && r.sum == Some(""))
            && (r.status == Accepted <==> Finished(net(uri.value)))
            && (r.status == Waiting <==> net(uri.value).Delivery? && !net(uri.value).finishes)
            && (r.status == Waiting ==> r.sum == Some(Concat(Decoded(net(uri.value).chunks, decode))))
            && (r.status == Accepted ==>
                  r.sum == Some(ExpectedSum(Concat(Decoded(net(uri.value).chunks, decode)), srcFilename)))
  {
  }

  /**
   * When several lines of the checksum file mention the file name, the
   * expected digest comes from the last of them: that line with the first
   * occurrence of the name cut out, trimmed.
   */
  lemma LastMatchingLineWins(text: string, name: string, i: nat)
    requires i < |Split(text, Newline)|
    requires Contains(Split(text, Newline)[i], name)
    requires forall j :: i < j < |Split(text, Newline)| ==> !Contains(Split(text, Newline)[j], name)
    ensures ExpectedSum(text, name) == DigestOfLine(Split(text, Newline)[i], name)
  {
    LastMatchIs(Split(text, Newline), name, i);
  }

  /** A matching line with no matching line after it is the last match. */
  lemma LastMatchIs(lines: seq<string>, name: string, i: nat)
    requires i < |lines| && Contains(lines[i], name)
    requires forall j :: i < j < |lines| ==> !Contains(lines[j], name)
    ensures LastMatch(lines, name) == Some(i)
  {
    var m := LastMatch(lines, name);
    assert m.Some?;
    assert !(m.value < i) && !(i < m.value);
  }

  /** When no line mentions the file name, `sum` stays the whole checksum file, not the empty string. */
  lemma UnmatchedKeepsText(text: string, name: string)
    requires forall j :: 0 <= j < |Split(text, Newline)| ==> !Contains(Split(text, Newline)[j], name)
    ensures ExpectedSum(text, name) == text
  {
  }

  /**
   * A checksum file listing the downloaded file twice, in the
   * `<digest>  <file name>` layout, gives the digest of the second entry,
   * provided that digest does not itself mention the file name.
   */
  lemma LaterEntryWins(d1: string, d2: string, name: string)
    requires Newline !in d1 && Newline !in d2 && Newline !in name
    requires ' ' !in name && !Contains(d2, name)
    requires |d2| > 0 && !IsSpace(d2[0]) && !IsSpace(d2[|d2| - 1])
    ensures ExpectedSum(d1 + "  " + name + "\n" + d2 + "  " + name + "\n", name) == d2
  {
    var first, second := d1 + "  " + name, d2 + "  " + name;
    var text := d1 + "  " + name + "\n" + d2 + "  " + name + "\n";
    assert text == first + [Newline] + second + [Newline];
    TwoLines(first, second);
    assert !OccursAt(d2, name, 0);
    assert OccursAt(second, name, |d2| + 2);
    assert !OccursAt("", name, 0);
    assert LastMatch([first, second, ""], name) == Some(1);
    DigestBeforeName(d2, name);
  }

  /** Two newline-terminated lines split into those lines and an empty last piece. */
  lemma TwoLines(first: string, second: string)
    requires Newline !in first && Newline !in second
    ensures Split(first + [Newline] + second + [Newline], Newline) == [first, second, ""]
  {
    var lines := [first, second, ""];
    assert lines[1..] == [second, ""] && lines[1..][1..] == [""];
    assert Join([second, ""], Newline) == second + [Newline];
    assert Join(lines, Newline) == first + [Newline] + second + [Newline];
    SplitJoin(lines, Newline);
  }

  /**
   * On a line `<digest>  <name>`, where the name holds no space and the
   * digest does not mention the name, the digest is what is left.
   */
  lemma DigestBeforeName(digest: string, name: string)
    requires ' ' !in name && !Contains(digest, name)
    requires |digest| > 0 && !IsSpace(digest[0]) && !IsSpace(digest[|digest| - 1])
    ensures DigestOfLine(digest + "  " + name, name) == digest
  {
    var line := digest + "  " + name;
    assert !OccursAt(digest, name, 0);
    assert OccursAt(line, name, |digest| + 2);
    forall j: nat | j < |digest| + 2 ensures !OccursAt(line, name, j) {
      if j + |name| <= |digest| {
        assert line[j..j + |name|] == digest[j..j + |name|];
        assert !OccursAt(digest, name, j);
      } else if j + |name| <= |line| {
        var p := if j < |digest| then |digest| else j;
        assert line[j..j + |name|][p - j] == line[p] == ' ';
      }
    }
    assert RemoveFirst(line, name) == digest + "  ";
    TrimAround("", digest, "  ");
    assert "" + digest + "  " == digest + "  ";
  }

  /**
   * The checksum file `abc123  file.tar.gz`, `def456  file.tar.gz` gives
   * `def456` for `file.tar.gz`.
   */
  lemma TwoMatchingLines()
    ensures ExpectedSum("abc123  file.tar.gz\ndef456  file.tar.gz\n", "file.tar.gz") == "def456"
  {
    SampleChecksumFile();
    LaterEntryWins("abc123", "def456", "file.tar.gz");
  }

  /** The sample file text, assembled from its two entries. */
  lemma SampleChecksumFile()
    ensures "abc123" + "  " + "file.tar.gz" + "\n" + "def456" + "  " + "file.tar.gz" + "\n"
         == "abc123  file.tar.gz\ndef456  file.tar.gz\n"
  {
  }

  /** Trimming a word that neither starts nor ends with white space, between white space, gives the word. */
  lemma TrimAround(pre: string, word: string, post: string)
    requires forall k :: 0 <= k < |pre| ==> IsSpace(pre[k])
    requires forall k :: 0 <= k < |post| ==> IsSpace(post[k])
    requires |word| > 0 && !IsSpace(word[0]) && !IsSpace(word[|word| - 1])
    ensures Trim(pre + word + post) == word
  {
    var s := pre + word + post;
    var r := Trim(s);
    var a: nat :| SliceWithin(s, r, a);
    assert s[|pre|] == word[0] && s[|pre| + |word| - 1] == word[|word| - 1];
    assert a == |pre| && a + |r| == |pre| + |word|;
    assert s[a..a + |r|] == word;
  }

  /**
   * A remote descriptor that resolved to a non-empty digest now has both a
   * URI and a sum, so resolving the same object a second time is rejected.
   */
  lemma ResolvedRemoteRefusedOnReuse(uri: Option<string>, sum: Option<string>, srcFilename: string,
                                     net: string -> Delivery, decode: Bytes -> string)
    requires Truthy(uri) && !Truthy(sum)
    requires Truthy(Resolve(uri, sum, srcFilename, net, decode).sum)
    ensures var r := Resolve(uri, sum, srcFilename, net, decode);
            Resolve(uri, r.sum, srcFilename, net, decode).status == Refused(BothProvided)
  {
  }
}
