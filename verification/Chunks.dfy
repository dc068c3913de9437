/// The chunk manifest of an artifact, the range server that answers chunk requests, and the choice
/// of a peer (src/app/p2p_chunks.go and src/app/p2p_libp2p_transport.go).
///
/// `hash` stands for the hexadecimal SHA-256 of some bytes.
module Chunks {
  import opened Text

  type Bytes = seq<bv8>

  const DEFAULT_CHUNK_SIZE := 8 * 1024 * 1024

  datatype Chunk = Chunk(index: int, offset: int, size: int, sha: string)

  datatype Manifest = Manifest(
    artifactId: string, artifactName: string, totalSize: int, chunkSize: int, totalChunks: int, sha: string,
    chunks: seq<Chunk>)

  // ---------------------------------------------------------------- digests

  function Fold(s: string): string {
    ToLower(AsciiLower, s)
  }

  /// The comparison with a hexadecimal digest: on such a text only ASCII letters fold.
  predicate SameDigest(a: string, b: string) {
    EqualFold(AsciiLower, a, b)
  }

  predicate LowerHex(s: string) {
    s != "" && forall i | 0 <= i < |s| :: '0' <= s[i] <= '9' || 'a' <= s[i] <= 'f'
  }

  /// hex.EncodeToString
  ghost predicate HexDigests(hash: Bytes -> string) {
    forall x: Bytes :: LowerHex(hash(x))
  }

  /// No other bytes share the digest of `x`.
  ghost predicate NoCollision(hash: Bytes -> string, x: Bytes) {
    forall y: Bytes :: hash(y) == hash(x) ==> y == x
  }

  lemma HexIsClean(s: string)
    requires LowerHex(s)
    ensures Fold(s) == s && Trim(s) == s && !Blank(s)
  {
    TrimOfTrimmed(s);
  }

  // ---------------------------------------------------------------- the manifest

  /// The chunks cut `total` bytes into pieces of `size` bytes, only the last one shorter.
  predicate Tiles(chunks: seq<Chunk>, size: int, total: int) {
    && size > 0
    && (forall i | 0 <= i < |chunks| :: chunks[i].index == i && 0 < chunks[i].size <= size)
    && (forall i | 0 <= i < |chunks| - 1 :: chunks[i].size == size)
    && (forall i | 0 < i < |chunks| :: chunks[i].offset == chunks[i - 1].offset + chunks[i - 1].size)
    && (if chunks == [] then total == 0
        else chunks[0].offset == 0 && chunks[|chunks| - 1].offset + chunks[|chunks| - 1].size == total)
  }

  predicate Within(chunk: Chunk, file: Bytes) {
    0 <= chunk.offset && 0 <= chunk.size && chunk.offset + chunk.size <= |file|
  }

  function Piece(file: Bytes, chunk: Chunk): Bytes
    requires Within(chunk, file)
  {
    file[chunk.offset..chunk.offset + chunk.size]
  }

  ghost predicate Describes(hash: Bytes -> string, m: Manifest, file: Bytes) {
    && m.totalSize == |file| && m.totalChunks == |m.chunks| && m.sha == hash(file)
    && Tiles(m.chunks, m.chunkSize, |file|)
    && PiecesHashed(hash, m.chunks, file)
  }

  ghost predicate PiecesHashed(hash: Bytes -> string, chunks: seq<Chunk>, file: Bytes) {
    forall i | 0 <= i < |chunks| :: Within(chunks[i], file) && chunks[i].sha == hash(Piece(file, chunks[i]))
  }

  lemma ExtendTiling(chunks: seq<Chunk>, size: int, offset: int, n: int, sha: string)
    requires Tiles(chunks, size, offset) && 0 < n <= size
    requires chunks != [] ==> chunks[|chunks| - 1].size == size
    ensures Tiles(chunks + [Chunk(|chunks|, offset, n, sha)], size, offset + n)
  {
  }

  lemma ExtendPieces(hash: Bytes -> string, chunks: seq<Chunk>, file: Bytes, chunk: Chunk)
    requires PiecesHashed(hash, chunks, file) && Within(chunk, file) && chunk.sha == hash(Piece(file, chunk))
    ensures PiecesHashed(hash, chunks + [chunk], file)
  {
  }

  lemma SliceStep(file: Bytes, offset: int, n: int)
    requires 0 <= offset && 0 <= n && offset + n <= |file|
    ensures file[..offset] + file[offset..offset + n] == file[..offset + n]
  {
  }

  /// The chunks so far cut the first `offset` bytes, which have been fed to the file hash.
  ghost predicate Cut(hash: Bytes -> string, file: Bytes, chunks: seq<Chunk>, hashed: Bytes, size: int, offset: int) {
    0 <= offset <= |file| && hashed == file[..offset] && Tiles(chunks, size, offset) && PiecesHashed(hash, chunks, file)
  }

  lemma CutStep(hash: Bytes -> string, file: Bytes, chunks: seq<Chunk>, hashed: Bytes, size: int, offset: int, n: int)
    requires Cut(hash, file, chunks, hashed, size, offset) && 0 < n <= size && offset + n <= |file|
    requires chunks != [] ==> chunks[|chunks| - 1].size == size
    ensures var data := file[offset..offset + n];
            Cut(hash, file, chunks + [Chunk(|chunks|, offset, n, hash(data))], hashed + data, size, offset + n)
  {
    var chunk := Chunk(|chunks|, offset, n, hash(file[offset..offset + n]));
    ExtendTiling(chunks, size, offset, n, chunk.sha);
    ExtendPieces(hash, chunks, file, chunk);
    SliceStep(file, offset, n);
  }

  /// buildChunkManifest over a file that is read completely. `hashed` is what the running file hash
  /// has been fed.
  method BuildChunkManifest(hash: Bytes -> string, file: Bytes, artifactId: string, name: string, chunkSize: int)
    returns (m: Manifest)
    ensures Describes(hash, m, file)
    ensures m.chunkSize == if chunkSize <= 0 then DEFAULT_CHUNK_SIZE else chunkSize
    ensures m.artifactId == artifactId && m.artifactName == name
  {
    var size := if chunkSize <= 0 then DEFAULT_CHUNK_SIZE else chunkSize;
    var chunks, hashed := CutFile(hash, file, size);
    m := Manifest(artifactId, name, |file|, size, |chunks|, hash(hashed), chunks);
  }

  /// Its read loop
  method CutFile(hash: Bytes -> string, file: Bytes, size: int) returns (chunks: seq<Chunk>, hashed: Bytes)
    requires size > 0
    ensures hashed == file && Tiles(chunks, size, |file|) && PiecesHashed(hash, chunks, file)
  {
    chunks, hashed := [], [];
    var offset := 0;
    while true
      invariant offset <= |file| && Cut(hash, file, chunks, hashed, size, offset)
      invariant chunks != [] ==> chunks[|chunks| - 1].size == size
      decreases |file| - offset
    {
      // io.ReadFull fills the buffer or stops at the end of the file
      var n := if |file| - offset < size then |file| - offset else size;
      if n == 0 {
        break;
      }
      var data := file[offset..offset + n];
      CutStep(hash, file, chunks, hashed, size, offset, n);
      hashed := hashed + data;
      chunks := chunks + [Chunk(|chunks|, offset, n, hash(data))];
      offset := offset + n;
      if n < size {
        break;
      }
    }
    assert offset == |file|;
    assert file[..|file|] == file;
  }

  lemma {:induction false} OffsetIsMultiple(chunks: seq<Chunk>, size: int, total: int, i: nat)
    requires Tiles(chunks, size, total) && i < |chunks|
    ensures chunks[i].offset == i * size
  {
    if i > 0 {
      OffsetIsMultiple(chunks, size, total, i - 1);
    }
  }

  /// The number of chunks is the least that covers the file.
  lemma ChunkCount(chunks: seq<Chunk>, size: int, total: int)
    requires Tiles(chunks, size, total)
    ensures |chunks| * size >= total
    ensures chunks != [] ==> (|chunks| - 1) * size < total
  {
    if chunks != [] {
      OffsetIsMultiple(chunks, size, total, |chunks| - 1);
    }
  }

  lemma MulMonotone(x: int, y: int, s: int)
    requires x <= y && s > 0
    ensures x * s <= y * s
  {
    assert (y - x) * s >= 0;
    assert (y - x) * s == y * s - x * s;
  }

  lemma AtMostAsMany(a: nat, b: nat, size: int, total: int)
    requires size > 0 && total <= a * size && (b > 0 ==> (b - 1) * size < total)
    ensures b <= a
  {
    if b > 0 && a <= b - 1 {
      MulMonotone(a, b - 1, size);
    }
  }

  /// A file has one tiling: the manifest's geometry is determined by the size and the chunk size.
  lemma TilingIsUnique(a: seq<Chunk>, b: seq<Chunk>, size: int, total: int)
    requires Tiles(a, size, total) && Tiles(b, size, total)
    ensures |a| == |b|
    ensures forall i | 0 <= i < |a| :: a[i].index == b[i].index && a[i].offset == b[i].offset && a[i].size == b[i].size
  {
    ChunkCount(a, size, total);
    ChunkCount(b, size, total);
    AtMostAsMany(|a|, |b|, size, total);
    AtMostAsMany(|b|, |a|, size, total);
    forall i | 0 <= i < |a| ensures a[i].offset == b[i].offset && a[i].size == b[i].size {
      OffsetIsMultiple(a, size, total, i);
      OffsetIsMultiple(b, size, total, i);
    }
  }

  // ---------------------------------------------------------------- the range server

  datatype Served = Served(start: int, end: int, data: Bytes) | RangeError

  /// Position p is asked for; a negative end asks for everything.
  predicate Requested(p: int, rangeStart: int, rangeEnd: int) {
    rangeStart <= p && (rangeEnd < 0 || p <= rangeEnd)
  }

  /// The answer to a range request: exactly the requested positions of the file, or an error when
  /// the file has none of them.
  function Serve(file: Bytes, rangeStart: int, rangeEnd: int): (r: Served)
    ensures r.RangeError? <==> forall p | 0 <= p < |file| :: !Requested(p, rangeStart, rangeEnd)
    ensures r.Served? ==>
              && 0 <= r.start <= r.end < |file| && r.data == file[r.start..r.end + 1]
              && forall p | 0 <= p < |file| :: Requested(p, rangeStart, rangeEnd) <==> r.start <= p <= r.end
  {
    var lo := if rangeStart < 0 then 0 else rangeStart;
    var hi := if rangeEnd < 0 || rangeEnd >= |file| then |file| - 1 else rangeEnd;
    if lo > hi then RangeError
    else
      assert Requested(lo, rangeStart, rangeEnd);
      Served(lo, hi, file[lo..hi + 1])
  }

  /// handleStreamArtifactGet, from the request's range to the bytes written
  method HandleArtifactGet(file: Bytes, reqStart: int, reqEnd: int) returns (r: Served)
    ensures r == Serve(file, reqStart, reqEnd)
  {
    var totalSize := |file|;
    var rangeStart, rangeEnd := reqStart, reqEnd;
    if rangeStart < 0 {
      rangeStart := 0;
    }
    if rangeEnd < 0 || rangeEnd >= totalSize {
      rangeEnd := totalSize - 1;
    }
    if rangeStart > rangeEnd {
      return RangeError;
    }
    var chunkLen := rangeEnd - rangeStart + 1;
    // Seek to rangeStart, then copy at most chunkLen bytes
    var tail := file[rangeStart..];
    var data := if chunkLen < |tail| then tail[..chunkLen] else tail;
    assert data == file[rangeStart..rangeEnd + 1];
    r := Served(rangeStart, rangeEnd, data);
  }

  /// The request that libp2pDownloadChunk makes for a chunk
  function Request(chunk: Chunk): (int, int) {
    (chunk.offset, chunk.offset + chunk.size - 1)
  }

  /// Every chunk's request passes the clamping unchanged and is answered with the chunk's bytes.
  lemma ChunkRequestServed(hash: Bytes -> string, m: Manifest, file: Bytes, i: nat)
    requires Describes(hash, m, file) && i < |m.chunks|
    ensures var (s, e) := Request(m.chunks[i]); Serve(file, s, e) == Served(s, e, Piece(file, m.chunks[i]))
  {
  }

  /// The bytes that the server sends for a chunk's request
  function Answer(file: Bytes, chunk: Chunk): Bytes {
    match Serve(file, Request(chunk).0, Request(chunk).1)
    case Served(_, _, data) => data
    case RangeError => []
  }

  /// The answers to the first k requests, in index order
  function ServedInOrder(file: Bytes, chunks: seq<Chunk>, k: nat): Bytes
    requires k <= |chunks|
  {
    if k == 0 then [] else ServedInOrder(file, chunks, k - 1) + Answer(file, chunks[k - 1])
  }

  lemma NextOffset(hash: Bytes -> string, m: Manifest, file: Bytes, i: nat)
    requires Describes(hash, m, file) && i < |m.chunks|
    ensures m.chunks[i].offset == if i == 0 then 0 else m.chunks[i - 1].offset + m.chunks[i - 1].size
    ensures Within(m.chunks[i], file)
  {
  }

  /// Where chunk k starts, or the file ends
  function StartOf(m: Manifest, k: nat): int
    requires k <= |m.chunks|
  {
    if k == 0 then 0 else m.chunks[k - 1].offset + m.chunks[k - 1].size
  }

  lemma AnswerIsPiece(hash: Bytes -> string, m: Manifest, file: Bytes, k: nat)
    requires Describes(hash, m, file) && k < |m.chunks|
    ensures Within(m.chunks[k], file) && Answer(file, m.chunks[k]) == Piece(file, m.chunks[k])
  {
    ChunkRequestServed(hash, m, file, k);
  }

  lemma {:induction false} ServedPrefix(hash: Bytes -> string, m: Manifest, file: Bytes, k: nat)
    requires Describes(hash, m, file) && k <= |m.chunks|
    ensures 0 <= StartOf(m, k) <= |file| && ServedInOrder(file, m.chunks, k) == file[..StartOf(m, k)]
  {
    if k > 0 {
      ServedPrefix(hash, m, file, k - 1);
      PrefixGrows(hash, m, file, k - 1);
    }
  }

  lemma PrefixGrows(hash: Bytes -> string, m: Manifest, file: Bytes, k: nat)
    requires Describes(hash, m, file) && k < |m.chunks| && 0 <= StartOf(m, k) <= |file|
    ensures 0 <= StartOf(m, k + 1) <= |file|
    ensures file[..StartOf(m, k)] + Answer(file, m.chunks[k]) == file[..StartOf(m, k + 1)]
  {
    AnswerIsPiece(hash, m, file, k);
    NextOffset(hash, m, file, k);
    SliceStep(file, m.chunks[k].offset, m.chunks[k].size);
  }

  /// Asking a server for every chunk in order gives the file back.
  lemma ServedChunksAreTheFile(hash: Bytes -> string, m: Manifest, file: Bytes)
    requires Describes(hash, m, file)
    ensures ServedInOrder(file, m.chunks, |m.chunks|) == file
  {
    ServedPrefix(hash, m, file, |m.chunks|);
    assert file[..|file|] == file;
  }

  /// The request for the whole file succeeds exactly when the file is not empty.
  lemma WholeFileRequest(file: Bytes)
    ensures Serve(file, 0, -1) == if file == [] then RangeError else Served(0, |file| - 1, file)
  {
    assert file[0..|file|] == file;
  }

  // ---------------------------------------------------------------- the scheduler

  function Errors(counts: map<string, nat>, peer: string): nat {
    if peer in counts then counts[peer] else 0
  }

  predicate Fewest(counts: map<string, nat>, peers: seq<string>, k: int) {
    0 <= k < |peers| && forall j | 0 <= j < |peers| :: Errors(counts, peers[k]) <= Errors(counts, peers[j])
  }

  /// The round-robin peer if no peer has fewer errors, else the first peer with the fewest.
  predicate Picked(counts: map<string, nat>, chunkIdx: nat, peers: seq<string>, k: int) {
    && Fewest(counts, peers, k)
    && (|| k == chunkIdx % |peers|
        || (!Fewest(counts, peers, chunkIdx % |peers|) && forall j | 0 <= j < k :: !Fewest(counts, peers, j)))
  }

  lemma PickedIsUnique(counts: map<string, nat>, chunkIdx: nat, peers: seq<string>, k: int, l: int)
    requires peers != [] && Picked(counts, chunkIdx, peers, k) && Picked(counts, chunkIdx, peers, l)
    ensures k == l
  {
  }

  /// The first of the first n peers that has the fewest errors among them
  function FirstFewest(counts: map<string, nat>, peers: seq<string>, n: nat): (k: nat)
    requires 0 < n <= |peers|
    ensures k < n
    ensures forall j | 0 <= j < n :: Errors(counts, peers[k]) <= Errors(counts, peers[j])
    ensures forall j | 0 <= j < k :: Errors(counts, peers[k]) < Errors(counts, peers[j])
  {
    if n == 1 then 0
    else
      var k := FirstFewest(counts, peers, n - 1);
      if Errors(counts, peers[n - 1]) < Errors(counts, peers[k]) then n - 1 else k
  }

  function PickIndex(counts: map<string, nat>, chunkIdx: nat, peers: seq<string>): (k: nat)
    requires peers != []
    ensures Picked(counts, chunkIdx, peers, k)
  {
    var best := FirstFewest(counts, peers, |peers|);
    if Errors(counts, peers[chunkIdx % |peers|]) == Errors(counts, peers[best]) then chunkIdx % |peers| else best
  }

  class ChunkScheduler {
    var errorCounts: map<string, nat>

    constructor ()
      ensures errorCounts == map[]
    {
      errorCounts := map[];
    }

    /// pickPeer
    method PickPeer(chunkIdx: nat, peers: seq<string>) returns (best: string)
      requires peers != []
      ensures best == peers[PickIndex(errorCounts, chunkIdx, peers)]
    {
      if |peers| == 1 {
        return peers[0];
      }
      ghost var k := chunkIdx % |peers|;
      best := peers[chunkIdx % |peers|];
      var bestErr := Errors(errorCounts, best);
      for i := 0 to |peers|
        invariant 0 <= k < |peers| && best == peers[k] && bestErr == Errors(errorCounts, best)
        invariant forall j | 0 <= j < i :: bestErr <= Errors(errorCounts, peers[j])
        invariant bestErr <= Errors(errorCounts, peers[chunkIdx % |peers|])
        invariant k != chunkIdx % |peers| ==>
                    && k < i && bestErr < Errors(errorCounts, peers[chunkIdx % |peers|])
                    && forall j | 0 <= j < k :: bestErr < Errors(errorCounts, peers[j])
      {
        var e := Errors(errorCounts, peers[i]);
        if e < bestErr {
          bestErr := e;
          best := peers[i];
          k := i;
        }
      }
      PickedIsUnique(errorCounts, chunkIdx, peers, k, PickIndex(errorCounts, chunkIdx, peers));
    }

    /// recordError
    method RecordError(peer: string)
      modifies this
      ensures errorCounts == old(errorCounts)[peer := Errors(old(errorCounts), peer) + 1]
    {
      errorCounts := errorCounts[peer := Errors(errorCounts, peer) + 1];
    }
  }
}
