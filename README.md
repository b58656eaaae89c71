# verified-file, modelled in Dafny

`verified-file` downloads a file and checks its digests while it is being
written. A caller of `get` names the file to fetch and gives a list of
checksum descriptors `{ uri, sum, algo }`. Each descriptor carries either an
inline digest (`sum`) or the location of a checksum file (`uri`). A checksum
file is a text whose lines look like `<digest>  <file name>`.

This model covers the three parts of `index.js` that do the work:

- **Resolving a descriptor** (`createChecksumPromiseForUri`, module
  `Resolver`):
  - A descriptor with both a URI and a sum is rejected, and so is one with
    neither.
  - An inline sum is accepted as it is.
  - For a remote descriptor, the checksum file is fetched and its decoded
    chunks are appended to the descriptor's `sum`, in place. When the file
    has finished, it is split into lines. The last line that mentions the
    downloaded file's base name gives the digest: that line with the first
    occurrence of the name removed, then trimmed.
  - An executer that throws rejects the descriptor with its error, after
    `sum` has already been reset to the empty string.
  - `Checksum` is a class whose `sum` field the methods overwrite. Each
    method is proved against a pure function:
    - `ResolveChecksum` against `Resolve`;
    - `ReadChecksumFile` against `Concat(Decoded(chunks, decode))`;
    - `ScanChecksumFile` against `ExpectedSum`, which is built on `Scan`.
- **The verifying sink** (`createUriContentStreamHandler`, module `Sink`):
  - Every chunk is written to the destination file and fed to one hash
    accumulator per descriptor. The accumulators are held in an `array`,
    updated in a loop.
  - When the stream finishes, the sink compares the digests with the
    resolved sums in descriptor order. It stops at the first mismatch and
    deletes the file.
- **`get`** (module `Download`):
  - Every descriptor is resolved, in order. `Q.all` either rejects with the
    first refusal, stays pending, or fulfils.
  - Only once it fulfils is the file itself fetched, through a new verifying
    sink. If the executer throws for the file, the sink has already created
    an empty destination file. That file stays, and nothing is verified.

Parts the model cannot see are parameters:

- the fetch executer is `net: string -> Delivery`. A `Delivery` either says
  that the executer threw, or gives the chunks it hands over and whether the
  stream finishes;
- `chunk.toString()` is `decode`;
- the hash library is `digest(algo, bytes)`, giving the hex digest;
- the base name that `index.js` derives from `srcUri` is `srcFilename`.

Behaviours of `index.js` worth knowing:

- **No matching line.** When no line of a checksum file mentions the file
  name, the descriptor's `sum` keeps the whole text of the file
  (`Resolver.UnmatchedKeepsText`). This is in line with the code's own
  comment: the sum is set to the content of the URI resource.
- **The last matching line wins.** When several lines mention the file
  name, the expected digest comes from the *last* of them
  (`Resolver.LastMatchingLineWins`, `Resolver.TwoMatchingLines`).
- **Streams that never finish.** A checksum file whose stream never
  finishes leaves its descriptor's promise pending, so the download never
  starts. A download whose stream never finishes leaves no promise pending,
  because `get` holds none for it. Its `'finish'` handler simply never runs,
  and the partial file stays, unverified (`Downloading`). No cleanup happens
  in either case.
- **Descriptors are changed in place.** Suppose a remote descriptor was
  resolved by an earlier `get` and left with a non-empty `sum`. Passing
  that same object to `get` again rejects it with the "both provided"
  reason (`Resolver.ResolvedRemoteRefusedOnReuse`). The first run leaves
  `sum` empty when the checksum file is empty, or when the matching line
  holds nothing but the name. Such a descriptor is fetched again.

## Model

| member | source | states |
|---|---|---|
| Resolver.ResolveChecksum | index.js:15-57 | resolves one descriptor in place: its status, the checksum-file request it makes and the new `sum` are those of `Resolve` on the descriptor's `uri` and `sum` before the call; `uri` and `algo` are untouched |
| Resolver.ConflictRefused | index.js:16-20 | a descriptor whose `uri` and `sum` are both truthy is rejected with "Either provide a checksum uri or a checksum directly, but not both.", fetches nothing and keeps its `sum` |
| Resolver.RemoteFetched | index.js:22-46 | a descriptor with a truthy `uri` and no truthy `sum` fetches its URI once; an executer that throws rejects it with its error and leaves `sum` empty; it is fulfilled exactly when the checksum file finishes, with `sum` the digest scanned from the decoded text; until then it is pending, with `sum` holding the concatenation of the decoded chunks received so far |
| Resolver.InlineAccepted | index.js:48-52 | a descriptor with only a truthy `sum` is fulfilled unchanged and fetches nothing |
| Resolver.MissingRefused | index.js:54-56 | a descriptor with neither is rejected with "Neither checksum uri nor checksum string provided." and fetches nothing |
| Resolver.ReadChecksumFile | index.js:25-32 | `sum` is reset to the empty string, then each chunk's decoded text is appended in arrival order, so `sum` ends up as the concatenation of all of them |
| Resolver.ScanChecksumFile | index.js:33-43 | the line loop leaves `sum` equal to `ExpectedSum` of the text it started from: each matching line overwrites `sum`, and no other line does |
| Resolver.LastMatch | index.js:37-41 | the index it returns is a line that contains the name, with no later line containing it; it returns none exactly when no line contains the name |
| Resolver.ScanStep | index.js:37-41 | one more loop iteration: a matching line replaces the result with its digest, and any other line leaves the result unchanged |
| Resolver.LastMatchIs | index.js:37-41 | a line that contains the name, with no later line containing it, is the last match |
| Resolver.LastMatchingLineWins | index.js:36-41 | the expected sum is the digest of the last line of the file that mentions the file name |
| Resolver.UnmatchedKeepsText | index.js:29-42 | when no line mentions the file name, the expected sum is the whole text of the checksum file |
| Resolver.DigestBeforeName | index.js:39 | for a line `<digest>  <name>`, where the name holds no space and the digest does not mention the name, removing the name and trimming gives back the digest |
| Resolver.TwoLines | index.js:36 | splitting `a\nb\n` on newlines gives `a`, `b` and a trailing empty line |
| Resolver.TrimAround | index.js:39 | trimming removes exactly the surrounding whitespace of a word |
| Resolver.LaterEntryWins | index.js:36-41 | in a checksum file with two entries for the same name, the second entry's digest is the expected sum, provided that digest does not mention the name |
| Resolver.TwoMatchingLines | index.js:36-41 | `"abc123  file.tar.gz\ndef456  file.tar.gz\n"` yields `"def456"` for `file.tar.gz` |
| Resolver.ResolvedRemoteRefusedOnReuse | index.js:16-29 | once a remote descriptor has resolved to a non-empty sum, resolving the same descriptor again is rejected because it now has both a URI and a sum |
| Text.Split | index.js:36 | `split('\n')`: at least one piece, and no piece contains the separator |
| Text.JoinSplit | index.js:36 | joining the pieces of a split with the separator gives back the original text |
| Text.SplitJoin | index.js:36 | splitting the join of separator-free pieces gives back those pieces |
| Text.SplitWithoutSeparator | index.js:36 | a text without the separator splits into itself alone |
| Text.SplitAfterPiece | index.js:36 | splitting `a + sep + b`, with `a` separator-free, gives `a` followed by the pieces of `b` |
| Text.IndexOfFrom | index.js:39 | the first position at or after `from` where the pattern occurs, or none when it occurs nowhere from there on |
| Text.IndexOf | index.js:38-39 | the first position where the pattern occurs, or none when it occurs nowhere |
| Text.ContainsIffOccurs | index.js:38 | the line test holds exactly when the file name occurs somewhere in the line |
| Text.RemoveFirst | index.js:39 | `replace(name, '')`: the text is unchanged when the name does not occur; otherwise exactly the first occurrence is cut out, and the text around it is kept |
| Text.TrimStart | index.js:39 | drops leading whitespace only: the result is a suffix that starts with a non-space, or is empty |
| Text.TrimEnd | index.js:39 | drops trailing whitespace only: the result is a prefix that ends with a non-space, or is empty |
| Text.Trim | index.js:39 | `trim()`: the result is a slice of the input with only whitespace cut from either end, and it neither starts nor ends with whitespace |
| Chunks.ConcatSnoc | index.js:29 | appending one more chunk extends the concatenation by that chunk |
| Chunks.ConcatAppend | index.js:70-77 | concatenating two runs of chunks is the concatenation of each run, one after the other |
| Sink.VerifyingSink.constructor | index.js:59-67 | the sink opens an empty, present destination file and creates one empty hash accumulator per descriptor, for that descriptor's algorithm |
| Sink.VerifyingSink.Write | index.js:70-77 | the chunk is appended to the destination file and fed to every accumulator; all accumulators still hold exactly the content received so far |
| Sink.VerifyingSink.Finish | index.js:79-92 | after the stream ends, the file stays present exactly when every descriptor's digest matches its resolved sum; the comparison stops right after the first mismatch |
| Sink.FirstMismatch | index.js:82-91 | the first index whose digest differs from its sum, with every earlier one matching; none exactly when every digest matches |
| Sink.MismatchShortCircuits | index.js:82-91 | when the digests before `k` match and the one at `k` does not, the first mismatch is `k` and `k + 1` digests are compared |
| Download.All | index.js:104-115 | `Q.all`: it rejects exactly when some descriptor is refused, with the reason of the first refused one; it stays pending exactly when none is refused and some is pending; it fulfils exactly when every descriptor is fulfilled |
| Download.ResolveAll | index.js:97-102 | every descriptor is resolved in place, in order; the checksum files are requested in descriptor order |
| Download.ResolveNext | index.js:99-101 | one turn of the loop: the descriptor's new `sum` is its resolution, and the statuses and requests grow by its own |
| Download.PrefixStep | index.js:99-101 | resolving one more descriptor appends its status and its request |
| Download.Pipe | index.js:107-111 | the executer's chunks are written into the sink in order; its content becomes the old content followed by them |
| Download.PerformDownload | index.js:104-111 | the file is fetched through a fresh sink; the sink holds exactly what the executer wrote (nothing if it threw); the phase is `Verdict` on the descriptors' algorithms and sums, and the file is deleted exactly on a mismatch |
| Download.Settle | index.js:79-92 | the finish handler's outcome on a sink that received the given chunks: verified or mismatch at the first differing digest, and the file is present exactly when no digest differs |
| Download.Get | index.js:96-116 | every descriptor's new `sum` is its resolution; the file is fetched (and a sink created) exactly when `Q.all` fulfils; the requests are the checksum files in order, then the file itself; the phase is `Outcome` of the resolutions |
| Download.RefusalStopsDownload | index.js:104-115 | a refused descriptor makes the run rejected with the reason of the first refused descriptor |
| Download.PendingChecksumStopsDownload | index.js:104 | with nothing refused, a checksum file that never finishes keeps the run from downloading |
| Download.NoChecksumsVerified | index.js:97-102 | with no descriptors the file is downloaded and, once its stream finishes, kept; an executer that throws aborts the run with its error |
| Download.ThrowingDownloadAborts | index.js:104-111 | once every descriptor is fulfilled, an executer that throws for the file aborts the run with its error, and no digest is compared |
| Download.VerifiedIffAllMatch | index.js:79-111 | a run ends verified exactly when every descriptor was fulfilled, the download finished and every resolved sum equals the content's digest under that descriptor's algorithm |
| Download.MismatchAtFirstDifference | index.js:79-111 | a run ends in mismatch at `k` exactly when everything resolved, the download finished, the digests before `k` matched and the one at `k` did not |

## Left out

- Hashing (`crypto.createHash`, `update`, `digest('hex')`) is the parameter `digest(algo, bytes)`. An accumulator records the bytes it was fed. An unknown algorithm name, which throws in `crypto`, is not modelled.
- File system: the destination file is the sink's `file` and `present` fields. Writes are modelled as synchronous. `fsOut.end()` and `unlinkSync` are not ordered against the stream's own flushing. Errors opening or writing the file are not modelled.
- The fetch executer is the parameter `net`. Its options are not modelled.
- Transport failures: a checksum-file delivery that stops without ending the stream leaves its descriptor's promise pending (`Resolving`). A download that stops leaves the finish handler unrun and the partial file unverified (`Downloading`). A stream that simply stops raises no error.
- A missing `options.uriRequest` is not modelled for the download of the file itself. There the property lookup fails before the sink is created. For a checksum file, the same failure is a throwing executer.
- Stream errors are not modelled. An executer that emits `'error'` on one of the writable streams, or destroys it with an error, raises an uncaught exception in Node because no listener is registered.
- Promise scheduling is sequential in the model. `Q.all` rejects with the first refused descriptor by index. Every refusal, whether by validation or by a throwing executer, is settled before `Q.all` subscribes to the promises, and it subscribes in index order.
- Resolver.LastMatch: the line test is a literal substring test, while the source builds `new RegExp(srcFilename)`. The dot and other regular-expression metacharacters in a file name, and names that are invalid patterns and throw, are not modelled.
- `url.parse`, `path.basename` and `path.parse`, which derive the file name from `srcUri`, are not modelled: the name is the parameter `srcFilename`.
- `chunk.toString()` is the parameter `decode`, applied to each chunk on its own, as the source does. A multi-byte character split across chunks is whatever `decode` makes of it.
- Console logging is left out.
- `options.destUri` is not modelled: the sink has one destination file.
- Only strings or absence are modelled as descriptor `uri` and `sum` values. Other JavaScript values and their truthiness are not modelled.
- Download.Get: requires that no descriptor object appears twice in `checksums`. Aliased descriptors, which the source would mutate twice, are not modelled.
- Download.ResolveAll: has the same requirement as `Download.Get`, that no descriptor object appears twice, and leaves aliased descriptors out for the same reason.
- `createUriContentStreamHandler` with `checksums` undefined is not modelled: `get` always passes an array.
