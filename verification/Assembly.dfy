/// What follows the worker pool in downloadChunkedLibp2p (src/app/p2p_chunks.go): the parts are
/// concatenated into a .partial file, the whole is hashed and checked, and the file is renamed into
/// place. Then whole downloads, and sequences of downloads that resume one another.
module Assembly {
  import opened Text
  import opened Wrappers
  import opened Chunks
  import opened Swarm
  import opened SwarmLaws

  /// The download's directory: the .parts directory, the .partial file and the target
  datatype Disk = Disk(parts: map<nat, Bytes>, partial: Option<Bytes>, target: Option<Bytes>)

  /// The file operations that fail. `unread` and `unwritten` are the chunks whose os.ReadFile or
  /// write fails; `kept` are the parts that a failing os.RemoveAll leaves behind; `stays` tells
  /// whether the .partial file survives the clean-up of a failed assembly, with `junk` as contents.
  datatype Faults = Faults(
    create: bool, unread: set<nat>, unwritten: set<nat>, close: bool, rename: bool,
    kept: set<nat>, stays: bool, junk: Bytes)

  datatype AssemblyError = NotCreated | PartFailed(index: nat) | NotClosed | WrongDigest | NotRenamed

  /// The concatenation of the first k part files
  function Joined(parts: map<nat, Bytes>, k: nat): Bytes
    requires forall i: nat | i < k :: i in parts
  {
    if k == 0 then [] else Joined(parts, k - 1) + parts[k - 1]
  }

  predicate AllThere(parts: map<nat, Bytes>, k: nat) {
    forall i: nat | i < k :: i in parts
  }

  /// The test before the rename: a blank digest in the manifest switches it off.
  predicate FinalCheck(hash: Bytes -> string, m: Manifest, data: Bytes) {
    Trim(m.sha) == "" || SameDigest(hash(data), m.sha)
  }

  predicate NoFault(f: Faults, n: nat) {
    !f.create && !f.close && !f.rename && (forall i: nat | i < n :: i !in f.unread && i !in f.unwritten)
  }

  class Workspace {
    var parts: map<nat, Bytes>
    var partial: Option<Bytes>
    var target: Option<Bytes>

    constructor (d: Disk)
      ensures View() == d
    {
      parts, partial, target := d.parts, d.partial, d.target;
    }

    ghost function View(): Disk
      reads this
    {
      Disk(parts, partial, target)
    }

    /// The copy loop. `bad` is the part it stops at, n if none.
    method CopyParts(n: nat, f: Faults) returns (bad: nat, out: Bytes, hashed: Bytes, totalBytes: int)
      ensures bad == FirstBad(parts, f, n) && AllThere(parts, bad)
      ensures out == hashed == Joined(parts, bad) && totalBytes == |out|
    {
      out, hashed, totalBytes := [], [], 0;
      for i := 0 to n
        invariant AllThere(parts, i) && i <= FirstBad(parts, f, n)
        invariant out == hashed == Joined(parts, i) && totalBytes == |out|
      {
        if i !in parts || i in f.unread || i in f.unwritten {
          FirstBadIs(parts, f, n, i);
          return i, out, hashed, totalBytes;
        }
        FirstBadAfter(parts, f, n, i);
        var data := parts[i];
        out := out + data;
        hashed := hashed + data;
        totalBytes := totalBytes + |data|;
      }
      bad := n;
    }

    /// From os.Create to the end of downloadChunkedLibp2p. The target is replaced, by the joined
    /// parts, exactly when every file operation works, every part is there and the final check
    /// passes; otherwise nothing but the .partial file changes.
    method AssembleChunks(hash: Bytes -> string, m: Manifest, f: Faults) returns (r: Result<int, AssemblyError>)
      modifies this
      ensures r.Ok? <==>
                && NoFault(f, |m.chunks|) && AllThere(old(parts), |m.chunks|)
                && FinalCheck(hash, m, Joined(old(parts), |m.chunks|))
      ensures r.Ok? ==>
                && AllThere(old(parts), |m.chunks|)
                && target == Some(Joined(old(parts), |m.chunks|)) && r.value == |Joined(old(parts), |m.chunks|)|
                && partial == None
                && (forall i | i in parts :: i in old(parts) && i in f.kept && parts[i] == old(parts)[i])
      ensures r.Err? ==> target == old(target) && parts == old(parts)
      ensures (r, View()) == Assemble(hash, m, old(View()), f)
    {
      if f.create {
        return Err(NotCreated);
      }
      var bad, out, hashed, totalBytes := CopyParts(|m.chunks|, f);
      if bad < |m.chunks| {
        partial := if f.stays then Some(f.junk) else None;
        return Err(PartFailed(bad));
      }
      partial := if f.stays then Some(f.junk) else None;
      if f.close {
        return Err(NotClosed);
      }
      if Trim(m.sha) != "" && !SameDigest(hash(hashed), m.sha) {
        return Err(WrongDigest);
      }
      if f.rename {
        return Err(NotRenamed);
      }
      partial, target := None, Some(out);
      parts := map i | i in parts && i in f.kept :: parts[i];
      return Ok(totalBytes);
    }
  }

  /// The first part that cannot be copied, or n
  function FirstBad(parts: map<nat, Bytes>, f: Faults, n: nat): (k: nat)
    ensures k <= n
    ensures forall i: nat | i < k :: i in parts && i !in f.unread && i !in f.unwritten
    ensures k < n ==> k !in parts || k in f.unread || k in f.unwritten
  {
    if n == 0 then 0
    else
      var k := FirstBad(parts, f, n - 1);
      if k < n - 1 then k
      else if n - 1 in parts && n - 1 !in f.unread && n - 1 !in f.unwritten then n else n - 1
  }

  lemma FirstBadIs(parts: map<nat, Bytes>, f: Faults, n: nat, i: nat)
    requires i < n && i <= FirstBad(parts, f, n) && (i !in parts || i in f.unread || i in f.unwritten)
    ensures FirstBad(parts, f, n) == i
  {
  }

  lemma FirstBadAfter(parts: map<nat, Bytes>, f: Faults, n: nat, i: nat)
    requires i < n && i <= FirstBad(parts, f, n) && i in parts && i !in f.unread && i !in f.unwritten
    ensures FirstBad(parts, f, n) >= i + 1
  {
  }

  /// The assembly as a function of the disk
  function Assemble(hash: Bytes -> string, m: Manifest, d: Disk, f: Faults): (Result<int, AssemblyError>, Disk) {
    var n := |m.chunks|;
    var k := FirstBad(d.parts, f, n);
    var scrapped := d.(partial := if f.stays then Some(f.junk) else None);
    if f.create then (Err(NotCreated), d)
    else if k < n then (Err(PartFailed(k)), scrapped)
    else if f.close then (Err(NotClosed), scrapped)
    else if !FinalCheck(hash, m, Joined(d.parts, n)) then (Err(WrongDigest), scrapped)
    else if f.rename then (Err(NotRenamed), scrapped)
    else
      (Ok(|Joined(d.parts, n)|),
       Disk(map i | i in d.parts && i in f.kept :: d.parts[i], None, Some(Joined(d.parts, n))))
  }

  // ---------------------------------------------------------------- one download

  /// A call of downloadChunkedLibp2p: it gives up before the pool starts, or it runs the pool until
  /// the collecting loop ends and then assembles.
  datatype Attempt =
    | NotStarted
    | Attempted(peers: seq<string>, es: seq<Event>, end: State, faults: Faults)

  function JobOf(hash: Bytes -> string, m: Manifest, peers: seq<string>): Job {
    Job(hash, peers, m.chunks)
  }

  ghost predicate Possible(hash: Bytes -> string, m: Manifest, d: Disk, a: Attempt) {
    a.Attempted? ==>
      var job := JobOf(hash, m, a.peers);
      a.peers != [] && Run(job, Init(job, d.parts), a.es, a.end) && Collected(a.end)
  }

  predicate NoFailure(s: State) {
    forall j | 0 <= j < |s.received| :: !s.received[j].failed
  }

  /// The result of an attempt (None: an error) and the disk it leaves
  function Outcome(hash: Bytes -> string, m: Manifest, d: Disk, a: Attempt): (Option<int>, Disk) {
    match a
    case NotStarted => (None, d)
    case Attempted(_, _, end, faults) =>
      var after := d.(parts := end.parts);
      if !NoFailure(end) then (None, after)
      else
        match Assemble(hash, m, after, faults)
        case (Ok(n), d') => (Some(n), d')
        case (Err(_), d') => (None, d')
  }

  lemma DescribedJob(hash: Bytes -> string, m: Manifest, file: Bytes, peers: seq<string>)
    requires HexDigests(hash) && Describes(hash, m, file)
    ensures CleanDigests(JobOf(hash, m, peers))
    ensures Fold(m.sha) == m.sha == Trim(m.sha) && m.sha != ""
  {
    HexIsClean(m.sha);
    forall i | 0 <= i < |m.chunks| ensures Trim(m.chunks[i].sha) == m.chunks[i].sha {
      HexIsClean(hash(Piece(file, m.chunks[i])));
    }
  }

  /// An assembly that succeeds has passed the final check on the joined parts.
  lemma AssembledIsExact(hash: Bytes -> string, m: Manifest, file: Bytes, d: Disk, f: Faults)
    requires HexDigests(hash) && m.sha == hash(file) && NoCollision(hash, file)
    ensures var (r, d') := Assemble(hash, m, d, f);
            if r.Ok? then d'.target == Some(file) && r.value == |file|
            else d'.target == d.target && d'.parts == d.parts
  {
    if Assemble(hash, m, d, f).0.Ok? {
      HexIsClean(m.sha);
      HexIsClean(hash(Joined(d.parts, |m.chunks|)));
    }
  }

  /// Whatever the peers answered, whatever part files were left over and however the goroutines were
  /// scheduled: a download that succeeds leaves exactly the file the manifest describes, and returns
  /// its size. A download that fails leaves the target as it was.
  lemma DownloadIsExact(hash: Bytes -> string, m: Manifest, file: Bytes, d: Disk, a: Attempt)
    requires HexDigests(hash) && Describes(hash, m, file) && NoCollision(hash, file)
    requires Possible(hash, m, d, a)
    ensures var (r, d') := Outcome(hash, m, d, a);
            if r.Some? then d'.target == Some(file) && r.value == |file| else d'.target == d.target
  {
    if a.Attempted? {
      AssembledIsExact(hash, m, file, d.(parts := a.end.parts), a.faults);
    }
  }

  /// A part that passes its digest check is the chunk's piece of the file.
  lemma MatchedPart(hash: Bytes -> string, m: Manifest, file: Bytes, parts: map<nat, Bytes>, i: nat)
    requires HexDigests(hash) && Describes(hash, m, file) && i < |m.chunks|
    requires NoCollision(hash, Piece(file, m.chunks[i])) && PartMatches(JobOf(hash, m, []), parts, i)
    ensures parts[i] == Piece(file, m.chunks[i])
  {
    HexIsClean(hash(parts[i]));
    HexIsClean(hash(Piece(file, m.chunks[i])));
  }

  /// Matching parts join to the file.
  lemma {:induction false} MatchingPartsJoin(
    hash: Bytes -> string, m: Manifest, file: Bytes, parts: map<nat, Bytes>, k: nat)
    requires HexDigests(hash) && Describes(hash, m, file) && k <= |m.chunks|
    requires forall i | 0 <= i < |m.chunks| :: i in parts && parts[i] == Piece(file, m.chunks[i])
    ensures AllThere(parts, k) && Joined(parts, k) == ServedInOrder(file, m.chunks, k)
  {
    if k > 0 {
      MatchingPartsJoin(hash, m, file, parts, k - 1);
      ChunkRequestServed(hash, m, file, k - 1);
    }
  }

  lemma AssemblyOfMatchingParts(hash: Bytes -> string, m: Manifest, file: Bytes, d: Disk, f: Faults)
    requires HexDigests(hash) && Describes(hash, m.(sha := hash(file)), file)
    requires forall i | 0 <= i < |m.chunks| :: i in d.parts && d.parts[i] == Piece(file, m.chunks[i])
    ensures var (r, d') := Assemble(hash, m, d, f);
            && (r.Ok? <==> NoFault(f, |m.chunks|) && FinalCheck(hash, m, file))
            && (r.Ok? ==> d'.target == Some(file) && r.value == |file|)
  {
    var full := m.(sha := hash(file));
    MatchingPartsJoin(hash, full, file, d.parts, |m.chunks|);
    ServedChunksAreTheFile(hash, full, file);
    assert Joined(d.parts, |m.chunks|) == file;
  }

  /// The per-chunk checks suffice. Whatever file digest the manifest carries (a blank one switches the
  /// final check off), a download succeeds exactly when for every chunk some event of the run read a matching
  /// part or stored a reply with its digest, the file operations work and the file digest, if any, is the
  /// file's; and then the target is exactly the file.
  lemma VerifiedPartsSucceed(hash: Bytes -> string, m: Manifest, file: Bytes, d: Disk, a: Attempt)
    requires HexDigests(hash) && Describes(hash, m.(sha := hash(file)), file)
    requires forall i | 0 <= i < |m.chunks| :: NoCollision(hash, Piece(file, m.chunks[i]))
    requires a.Attempted? && Possible(hash, m, d, a)
    ensures var (r, d') := Outcome(hash, m, d, a);
            && (r.Some? <==> && AllSettled(JobOf(hash, m, a.peers), Init(JobOf(hash, m, a.peers), d.parts), a.es)
                             && NoFault(a.faults, |m.chunks|) && (Trim(m.sha) == "" || CaseAside(hash(file), m.sha)))
            && (r.Some? ==> d'.target == Some(file) && r.value == |file|)
  {
    NoFailureIff(JobOf(hash, m, a.peers), d.parts, a.es, a.end);
    if NoFailure(a.end) {
      var full := m.(sha := hash(file));
      DescribedJob(hash, full, file, a.peers);
      AllPartsMatch(JobOf(hash, m, a.peers), d.parts, a.es, a.end);
      forall i | 0 <= i < |m.chunks| ensures i in a.end.parts && a.end.parts[i] == Piece(file, m.chunks[i]) {
        SamePart(hash, m, a.peers, [], a.end.parts, i);
        MatchedPart(hash, full, file, a.end.parts, i);
      }
      AssemblyOfMatchingParts(hash, m, file, d.(parts := a.end.parts), a.faults);
    }
  }

  /// Every part is read where it is there, and every request is answered with the chunk's piece of the file.
  ghost predicate ServedRun(m: Manifest, file: Bytes, es: seq<Event>) {
    && AllReadable(es)
    && forall k | 0 <= k < |es| && es[k].Fetch? && es[k].i < |m.chunks| && Within(m.chunks[es[k].i], file) ::
         es[k].reply == Reply.Answer(Piece(file, m.chunks[es[k].i]))
  }

  lemma ServedIsHonest(hash: Bytes -> string, m: Manifest, file: Bytes, peers: seq<string>, es: seq<Event>)
    requires HexDigests(hash) && Describes(hash, m, file) && ServedRun(m, file, es)
    ensures Honest(JobOf(hash, m, peers), es)
  {
    forall k | 0 <= k < |es| && es[k].Fetch? && es[k].i < |m.chunks|
      ensures es[k].reply == Reply.Answer(Piece(file, m.chunks[es[k].i]))
      ensures Trim(m.chunks[es[k].i].sha) == hash(Piece(file, m.chunks[es[k].i])) {
      HexIsClean(hash(Piece(file, m.chunks[es[k].i])));
    }
  }

  /// Honest peers suffice: from any leftover disk and under any scheduling, a download whose parts can be read,
  /// whose requests are answered with the chunks' bytes and whose file operations work returns the size of the
  /// file and leaves it at the target.
  lemma ServedDownloadSucceeds(hash: Bytes -> string, m: Manifest, file: Bytes, d: Disk, a: Attempt)
    requires HexDigests(hash) && Describes(hash, m, file)
    requires forall i | 0 <= i < |m.chunks| :: NoCollision(hash, Piece(file, m.chunks[i]))
    requires a.Attempted? && Possible(hash, m, d, a) && ServedRun(m, file, a.es) && NoFault(a.faults, |m.chunks|)
    ensures var (r, d') := Outcome(hash, m, d, a); r == Some(|file|) && d'.target == Some(file)
  {
    ServedIsHonest(hash, m, file, a.peers, a.es);
    HonestRunHasNoFailure(JobOf(hash, m, a.peers), d.parts, a.es, a.end);
    NoFailureIff(JobOf(hash, m, a.peers), d.parts, a.es, a.end);
    HexIsClean(hash(file));
    VerifiedPartsSucceed(hash, m, file, d, a);
  }

  lemma SamePart(hash: Bytes -> string, m: Manifest, p: seq<string>, q: seq<string>, parts: map<nat, Bytes>, i: nat)
    requires i < |m.chunks|
    ensures PartMatches(JobOf(hash, m, p), parts, i) <==> PartMatches(JobOf(hash, m, q), parts, i)
  {
  }

  // ---------------------------------------------------------------- sequences of downloads

  ghost predicate AllPossible(hash: Bytes -> string, m: Manifest, d: Disk, attempts: seq<Attempt>)
    decreases |attempts|
  {
    attempts == [] ||
    (Possible(hash, m, d, attempts[0]) && AllPossible(hash, m, Outcome(hash, m, d, attempts[0]).1, attempts[1..]))
  }

  function DiskAfter(hash: Bytes -> string, m: Manifest, d: Disk, attempts: seq<Attempt>): Disk
    decreases |attempts|
  {
    if attempts == [] then d else DiskAfter(hash, m, Outcome(hash, m, d, attempts[0]).1, attempts[1..])
  }

  /// Every attempt fails, and reads the part files it finds.
  ghost predicate AllFailReadable(hash: Bytes -> string, m: Manifest, d: Disk, attempts: seq<Attempt>)
    decreases |attempts|
  {
    attempts == [] ||
    (&& Outcome(hash, m, d, attempts[0]).0.None?
     && (attempts[0].Attempted? ==> AllReadable(attempts[0].es))
     && AllFailReadable(hash, m, Outcome(hash, m, d, attempts[0]).1, attempts[1..]))
  }

  predicate Good(hash: Bytes -> string, m: Manifest, d: Disk, i: nat)
    requires i < |m.chunks|
  {
    PartMatches(JobOf(hash, m, []), d.parts, i)
  }

  lemma FailedAttemptKeeps(hash: Bytes -> string, m: Manifest, file: Bytes, d: Disk, a: Attempt, i: nat)
    requires HexDigests(hash) && Describes(hash, m, file) && i < |m.chunks|
    requires Possible(hash, m, d, a) && Outcome(hash, m, d, a).0.None? && Good(hash, m, d, i)
    requires a.Attempted? ==> AllReadable(a.es)
    ensures Good(hash, m, Outcome(hash, m, d, a).1, i)
    ensures a.Attempted? ==> i !in a.end.contacted
  {
    if a.Attempted? {
      var job := JobOf(hash, m, a.peers);
      DescribedJob(hash, m, file, a.peers);
      SamePart(hash, m, a.peers, [], d.parts, i);
      SamePart(hash, m, a.peers, [], a.end.parts, i);
      ReadableRun(job, Init(job, d.parts), a.es, a.end, i);
      GoodPartsStay(job, Init(job, d.parts), a.es, a.end, i);
      FailureKeepsParts(hash, m, d, a);
    }
  }

  lemma FailureKeepsParts(hash: Bytes -> string, m: Manifest, d: Disk, a: Attempt)
    requires a.Attempted? && Outcome(hash, m, d, a).0.None?
    ensures Outcome(hash, m, d, a).1.parts == a.end.parts
  {
  }

  /// Resuming loses nothing: a part that matches before any number of failed downloads of the same
  /// manifest still matches after them.
  lemma {:induction false} ProgressIsKept(
    hash: Bytes -> string, m: Manifest, file: Bytes, d: Disk, attempts: seq<Attempt>, i: nat)
    requires HexDigests(hash) && Describes(hash, m, file) && i < |m.chunks|
    requires AllPossible(hash, m, d, attempts) && AllFailReadable(hash, m, d, attempts) && Good(hash, m, d, i)
    ensures Good(hash, m, DiskAfter(hash, m, d, attempts), i)
    decreases |attempts|
  {
    if attempts != [] {
      FailedAttemptKeeps(hash, m, file, d, attempts[0], i);
      ProgressIsKept(hash, m, file, Outcome(hash, m, d, attempts[0]).1, attempts[1..], i);
    }
  }

  /// Over any sequence of downloads, failed or not, the target is what it was or exactly the file.
  lemma {:induction false} TargetIsOldOrExact(
    hash: Bytes -> string, m: Manifest, file: Bytes, d: Disk, attempts: seq<Attempt>)
    requires HexDigests(hash) && Describes(hash, m, file) && NoCollision(hash, file)
    requires AllPossible(hash, m, d, attempts)
    ensures DiskAfter(hash, m, d, attempts).target in {d.target, Some(file)}
    decreases |attempts|
  {
    if attempts != [] {
      DownloadIsExact(hash, m, file, d, attempts[0]);
      TargetIsOldOrExact(hash, m, file, Outcome(hash, m, d, attempts[0]).1, attempts[1..]);
    }
  }
}
