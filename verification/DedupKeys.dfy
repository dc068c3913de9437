/// When two replication jobs share a dedup key (src/app/p2p_replication.go, dedupKey). The key joins the
/// normalized peer, artifact and checksum with bars.
module DedupKeys {
  import opened Text
  import opened Replication

  function Normal(lower: char -> char, s: string): string {
    ToLower(lower, Trim(s))
  }

  /// The same peer, artifact and checksum, up to case and surrounding blanks
  predicate SameTarget(lower: char -> char, x: Job, y: Job) {
    && Normal(lower, x.peer) == Normal(lower, y.peer)
    && Normal(lower, x.artifact) == Normal(lower, y.artifact)
    && Normal(lower, x.checksum) == Normal(lower, y.checksum)
  }

  /// No path separators and no "..", as in sanitizeArtifactName
  predicate Flat(s: string) {
    forall i | 0 <= i < |s| :: s[i] != '/' && s[i] != '\\' && (s[i] == '.' && i + 1 < |s| ==> s[i + 1] != '.')
  }

  /// The names that sanitizeArtifactName lets through
  predicate IsName(s: string) {
    s != "" && s != "." && Flat(s)
  }

  /// A job that enqueueReplicationJob does not refuse
  predicate Acceptable(lower: char -> char, x: Job) {
    Normal(lower, x.peer) != "" && IsName(Normal(lower, x.artifact)) && Normal(lower, x.checksum) != ""
  }

  /// What holds of any table of lower-case letters
  ghost predicate LowersOnce(lower: char -> char) {
    && (forall c: char :: lower(lower(c)) == lower(c) && (IsSpace(lower(c)) <==> IsSpace(c)))
    && lower('|') == '|'
  }

  // ---------------------------------------------------------------- parts and cuts

  predicate Part(lower: char -> char, s: string) {
    Trimmed(s) && forall i | 0 <= i < |s| :: lower(s[i]) == s[i]
  }

  function Joined(p: string, a: string, c: string): string {
    p + "|" + a + "|" + c
  }

  /// Two bars of the key with something in front, a name in between and something behind
  predicate NameBetween(key: string, i: int, j: int) {
    0 < i < j < |key| - 1 && key[i] == '|' && key[j] == '|' && IsName(key[i + 1..j])
  }

  /// Cut there, the key gives three parts without surrounding blanks.
  predicate Cuts(key: string, i: int, j: int) {
    NameBetween(key, i, j) && Trimmed(key[..i]) && Trimmed(key[i + 1..j]) && Trimmed(key[j + 1..])
  }

  lemma JoinedCuts(p: string, a: string, c: string)
    ensures var key, i, j := Joined(p, a, c), |p|, |p| + 1 + |a|;
            && |key| == j + 1 + |c| && key[i] == '|' && key[j] == '|'
            && key[..i] == p && key[i + 1..j] == a && key[j + 1..] == c
  {
  }

  lemma CutJoins(key: string, i: int, j: int)
    requires Cuts(key, i, j)
    ensures Joined(key[..i], key[i + 1..j], key[j + 1..]) == key
  {
  }

  lemma FixedInJoined(lower: char -> char, p: string, a: string, c: string)
    requires lower('|') == '|' && Part(lower, p) && Part(lower, a) && Part(lower, c)
    ensures forall k | 0 <= k < |Joined(p, a, c)| :: lower(Joined(p, a, c)[k]) == Joined(p, a, c)[k]
  {
    var key := Joined(p, a, c);
    forall k | 0 <= k < |key| ensures lower(key[k]) == key[k] {
      assert key[k] in p || key[k] == '|' || key[k] in a || key[k] in c;
    }
  }

  lemma OtherCut(
    lower: char -> char, p: string, a: string, c: string, i: int, j: int) returns (q: string, b: string, d: string)
    requires lower('|') == '|' && Part(lower, p) && Part(lower, a) && Part(lower, c)
    requires Cuts(Joined(p, a, c), i, j) && (i != |p| || j != |p| + 1 + |a|)
    ensures Part(lower, q) && Part(lower, b) && Part(lower, d) && q != "" && IsName(b) && d != ""
    ensures Joined(q, b, d) == Joined(p, a, c) && (q != p || b != a)
  {
    var key := Joined(p, a, c);
    FixedInJoined(lower, p, a, c);
    CutJoins(key, i, j);
    q, b, d := key[..i], key[i + 1..j], key[j + 1..];
  }

  lemma SameLengthsSameParts(p: string, a: string, c: string, q: string, b: string, d: string)
    requires Joined(p, a, c) == Joined(q, b, d) && |p| == |q| && |a| == |b|
    ensures p == q && a == b && c == d
  {
    JoinedCuts(p, a, c);
    JoinedCuts(q, b, d);
  }

  // ---------------------------------------------------------------- shared keys

  lemma KeyIsJoined(lower: char -> char, x: Job)
    ensures DedupKey(lower, x) == Joined(Normal(lower, x.peer), Normal(lower, x.artifact), Normal(lower, x.checksum))
  {
  }

  lemma NormalIsPart(lower: char -> char, s: string)
    requires LowersOnce(lower)
    ensures Part(lower, Normal(lower, s))
  {
    TrimIsTrimmed(s);
    LowerIsPart(lower, Trim(s));
  }

  lemma LowerIsPart(lower: char -> char, t: string)
    requires LowersOnce(lower) && Trimmed(t)
    ensures Part(lower, ToLower(lower, t))
  {
  }

  lemma PartIsNormal(lower: char -> char, s: string)
    requires Part(lower, s)
    ensures Normal(lower, s) == s
  {
    TrimOfTrimmed(s);
  }

  lemma JobOfParts(lower: char -> char, q: string, b: string, d: string)
    requires Part(lower, q) && Part(lower, b) && Part(lower, d)
    ensures DedupKey(lower, Job(b, d, q, "")) == Joined(q, b, d)
    ensures Normal(lower, q) == q && Normal(lower, b) == b && Normal(lower, d) == d
  {
    PartIsNormal(lower, q);
    PartIsNormal(lower, b);
    PartIsNormal(lower, d);
  }

  /// Some cut of the key of x other than the one dedupKey made
  ghost predicate CutsElsewhere(lower: char -> char, x: Job) {
    var i0 := |Normal(lower, x.peer)|;
    var j0 := i0 + 1 + |Normal(lower, x.artifact)|;
    exists i, j :: Cuts(DedupKey(lower, x), i, j) && (i != i0 || j != j0)
  }

  lemma SharedKeyCuts(lower: char -> char, x: Job, y: Job)
    requires LowersOnce(lower) && Acceptable(lower, y) && DedupKey(lower, x) == DedupKey(lower, y)
    requires !SameTarget(lower, x, y)
    ensures CutsElsewhere(lower, x)
  {
    var q, b, d := Normal(lower, y.peer), Normal(lower, y.artifact), Normal(lower, y.checksum);
    NormalIsPart(lower, y.peer);
    NormalIsPart(lower, y.artifact);
    NormalIsPart(lower, y.checksum);
    KeyIsJoined(lower, x);
    KeyIsJoined(lower, y);
    JoinedCuts(q, b, d);
    assert Cuts(DedupKey(lower, x), |q|, |q| + 1 + |b|);
    if |q| == |Normal(lower, x.peer)| && |b| == |Normal(lower, x.artifact)| {
      SameLengthsSameParts(Normal(lower, x.peer), Normal(lower, x.artifact), Normal(lower, x.checksum), q, b, d);
      assert false;
    }
  }

  lemma CutShares(lower: char -> char, x: Job) returns (y: Job)
    requires LowersOnce(lower) && CutsElsewhere(lower, x)
    ensures Acceptable(lower, y) && DedupKey(lower, y) == DedupKey(lower, x) && !SameTarget(lower, x, y)
  {
    var p, a, c := Normal(lower, x.peer), Normal(lower, x.artifact), Normal(lower, x.checksum);
    NormalIsPart(lower, x.peer);
    NormalIsPart(lower, x.artifact);
    NormalIsPart(lower, x.checksum);
    KeyIsJoined(lower, x);
    var i, j :| Cuts(DedupKey(lower, x), i, j) && (i != |p| || j != |p| + 1 + |a|);
    var q, b, d := OtherCut(lower, p, a, c, i, j);
    JobOfParts(lower, q, b, d);
    y := Job(b, d, q, "");
  }

  /// For every job: an acceptable one for another target has its key exactly when the key can be cut at
  /// another pair of bars.
  lemma KeyIsSharedIff(lower: char -> char, x: Job)
    requires LowersOnce(lower)
    ensures (exists y :: Acceptable(lower, y) && DedupKey(lower, y) == DedupKey(lower, x) && !SameTarget(lower, x, y))
       <==> CutsElsewhere(lower, x)
  {
    if y :| Acceptable(lower, y) && DedupKey(lower, y) == DedupKey(lower, x) && !SameTarget(lower, x, y) {
      SharedKeyCuts(lower, x, y);
    }
    if CutsElsewhere(lower, x) {
      var y := CutShares(lower, x);
    }
  }

  // ---------------------------------------------------------------- parts without blanks

  predicate NoSpace(s: string) {
    forall i | 0 <= i < |s| :: !IsSpace(s[i])
  }

  /// In the peer, behind a bar that is not its first character: a name up to the next bar, or a last piece
  /// that the artifact completes to a name
  predicate PeerPiece(p: string, t: int, u: int) {
    0 < t < u <= |p| && p[t] == '|' && Flat(p[t + 1..u]) && (u == |p| || (p[u] == '|' && IsName(p[t + 1..u])))
  }

  /// In the checksum, before a bar that is not its last character: a name behind the bar before, or a first
  /// piece that completes the artifact to a name
  predicate ChecksumPiece(c: string, t: int, u: int) {
    0 <= t <= u < |c| - 1 && c[u] == '|' && Flat(c[t..u]) && (t == 0 || (c[t - 1] == '|' && IsName(c[t..u])))
  }

  /// In the artifact, a bar with a name before it or behind it
  predicate ArtifactBar(a: string, t: int) {
    0 <= t < |a| && a[t] == '|' && (IsName(a[..t]) || IsName(a[t + 1..]))
  }

  ghost predicate Loose(p: string, a: string, c: string) {
    (exists t, u :: PeerPiece(p, t, u)) || (exists t :: ArtifactBar(a, t)) || (exists t, u :: ChecksumPiece(c, t, u))
  }

  lemma FlatPieces(s: string, i: int, j: int, t: int, u: int)
    requires 0 <= i <= t <= u <= j <= |s| && Flat(s[i..j])
    ensures Flat(s[t..u])
  {
    var whole, piece := s[i..j], s[t..u];
    assert forall k | 0 <= k < |piece| :: piece[k] == whole[t - i + k];
  }

  lemma FlatAround(s: string, r: string)
    requires Flat(s) && Flat(r)
    ensures IsName(s + "|" + r)
  {
    var w := s + "|" + r;
    assert forall k | 0 <= k < |s| :: w[k] == s[k];
    assert w[|s|] == '|';
    assert forall k | |s| < k < |w| :: w[k] == r[k - |s| - 1];
  }

  lemma JoinedAt(p: string, a: string, c: string)
    ensures forall k | 0 <= k < |p| :: Joined(p, a, c)[k] == p[k]
    ensures forall k | 0 <= k < |a| :: Joined(p, a, c)[|p| + 1 + k] == a[k]
    ensures forall k | 0 <= k < |c| :: Joined(p, a, c)[|p| + |a| + 2 + k] == c[k]
  {
  }

  /// Stretches of the key that lie in one part, or reach into the artifact from another
  lemma PeerStretch(p: string, a: string, c: string, i: int, j: int)
    requires 0 <= i <= j <= |p|
    ensures Joined(p, a, c)[i..j] == p[i..j] && Joined(p, a, c)[i..|p| + 1 + |a|] == p[i..] + "|" + a
  {
  }

  lemma ArtifactStretch(p: string, a: string, c: string, i: int, j: int)
    requires 0 <= i <= j <= |a|
    ensures Joined(p, a, c)[|p| + 1 + i..|p| + 1 + j] == a[i..j]
  {
  }

  lemma ChecksumStretch(p: string, a: string, c: string, i: int, j: int)
    requires 0 <= i <= j <= |c|
    ensures Joined(p, a, c)[|p| + |a| + 2 + i..|p| + |a| + 2 + j] == c[i..j]
    ensures Joined(p, a, c)[|p| + 1..|p| + |a| + 2 + j] == a + "|" + c[..j]
  {
  }

  lemma CutInPeer(p: string, a: string, c: string, i: int, j: int)
    requires NameBetween(Joined(p, a, c), i, j) && i < |p|
    ensures exists t, u :: PeerPiece(p, t, u)
  {
    var u := if j < |p| then j else |p|;
    JoinedAt(p, a, c);
    PeerStretch(p, a, c, i + 1, u);
    FlatPieces(Joined(p, a, c), i + 1, j, i + 1, u);
    assert PeerPiece(p, i, u);
  }

  lemma CutInChecksum(key: string, at: int, c: string, i: int, u: int)
    requires 0 < at <= |key| && key[at..] == c && key[at - 1] == '|' && 0 <= u
    requires NameBetween(key, i, at + u)
    ensures exists t, u :: ChecksumPiece(c, t, u)
  {
    var t := if i < at then 0 else i + 1 - at;
    assert c[u] == key[at + u] && (t > 0 ==> c[t - 1] == key[at + t - 1]);
    assert c[t..u] == key[at + t..at + u];
    FlatPieces(key, i + 1, at + u, at + t, at + u);
    assert ChecksumPiece(c, t, u);
  }

  /// A cut in the artifact, between t and u of it or the bars around it
  lemma CutInArtifact(p: string, a: string, c: string, t: int, u: int)
    requires NameBetween(Joined(p, a, c), |p| + t, |p| + 1 + u) && 0 <= t && u <= |a| && (t > 0 || u < |a|) && IsName(a)
    ensures exists t :: ArtifactBar(a, t)
  {
    JoinedAt(p, a, c);
    ArtifactStretch(p, a, c, t, u);
    assert a[..|a|] == a && a[0..u] == a[..u] && a[t..|a|] == a[t..];
    if u < |a| {
      FlatPieces(a, 0, |a|, 0, u);
      assert ArtifactBar(a, u);
    } else {
      assert ArtifactBar(a, t - 1);
    }
  }

  /// A place to cut other than the one dedupKey made
  predicate Elsewhere(p: string, a: string, c: string, i: int, j: int) {
    NameBetween(Joined(p, a, c), i, j) && (i != |p| || j != |p| + 1 + |a|)
  }

  lemma PeerPieceCuts(p: string, a: string, c: string, t: int, u: int) returns (i: int, j: int)
    requires PeerPiece(p, t, u) && IsName(a) && c != ""
    ensures Elsewhere(p, a, c, i, j)
  {
    JoinedCuts(p, a, c);
    JoinedAt(p, a, c);
    PeerStretch(p, a, c, t + 1, u);
    FlatAround(p[t + 1..u], a);
    i, j := t, if u < |p| then u else |p| + 1 + |a|;
  }

  lemma ChecksumPieceCuts(p: string, a: string, c: string, t: int, u: int) returns (i: int, j: int)
    requires ChecksumPiece(c, t, u) && IsName(a) && p != ""
    ensures Elsewhere(p, a, c, i, j)
  {
    JoinedCuts(p, a, c);
    JoinedAt(p, a, c);
    ChecksumStretch(p, a, c, t, u);
    FlatAround(a, c[t..u]);
    i, j := if t > 0 then |p| + |a| + 1 + t else |p|, |p| + |a| + 2 + u;
  }

  lemma FrontCuts(p: string, a: string, c: string, t: int)
    requires 0 <= t < |a| && a[t] == '|' && IsName(a[..t]) && p != "" && c != ""
    ensures Elsewhere(p, a, c, |p|, |p| + 1 + t)
  {
    JoinedCuts(p, a, c);
    ArtifactStretch(p, a, c, 0, t);
    assert a[0..t] == a[..t] && Joined(p, a, c)[|p| + 1 + t] == a[t];
  }

  lemma BackCuts(p: string, a: string, c: string, t: int)
    requires 0 <= t < |a| && a[t] == '|' && IsName(a[t + 1..]) && p != "" && c != ""
    ensures Elsewhere(p, a, c, |p| + 1 + t, |p| + 1 + |a|)
  {
    JoinedCuts(p, a, c);
    ArtifactStretch(p, a, c, t + 1, |a|);
    assert a[t + 1..|a|] == a[t + 1..] && Joined(p, a, c)[|p| + 1 + t] == a[t];
  }

  /// A loose piece is a place to cut.
  lemma LooseCuts(p: string, a: string, c: string) returns (i: int, j: int)
    requires p != "" && IsName(a) && c != "" && Loose(p, a, c)
    ensures Elsewhere(p, a, c, i, j)
  {
    if t, u :| PeerPiece(p, t, u) {
      i, j := PeerPieceCuts(p, a, c, t, u);
    } else if t, u :| ChecksumPiece(c, t, u) {
      i, j := ChecksumPieceCuts(p, a, c, t, u);
    } else {
      var t :| ArtifactBar(a, t);
      if IsName(a[..t]) {
        FrontCuts(p, a, c, t);
        i, j := |p|, |p| + 1 + t;
      } else {
        BackCuts(p, a, c, t);
        i, j := |p| + 1 + t, |p| + 1 + |a|;
      }
    }
  }

  /// And a place to cut is a loose piece.
  lemma CutsLoose(p: string, a: string, c: string, i: int, j: int)
    requires IsName(a) && Elsewhere(p, a, c, i, j)
    ensures Loose(p, a, c)
  {
    if i < |p| {
      CutInPeer(p, a, c, i, j);
    } else if j > |p| + 1 + |a| {
      JoinedCuts(p, a, c);
      CutInChecksum(Joined(p, a, c), |p| + |a| + 2, c, i, j - |p| - |a| - 2);
    } else {
      CutInArtifact(p, a, c, i - |p|, j - |p| - 1);
    }
  }

  lemma NoSpaceInJoined(p: string, a: string, c: string)
    requires NoSpace(p) && NoSpace(a) && NoSpace(c)
    ensures NoSpace(Joined(p, a, c))
  {
    var key := Joined(p, a, c);
    forall k | 0 <= k < |key| ensures !IsSpace(key[k]) {
      assert key[k] in p || key[k] == '|' || key[k] in a || key[k] in c;
    }
  }

  lemma NoSpaceCuts(key: string, i: int, j: int)
    requires NoSpace(key) && NameBetween(key, i, j)
    ensures Cuts(key, i, j)
  {
  }

  lemma CutsWhereLoose(p: string, a: string, c: string, key: string)
    requires NoSpace(p) && NoSpace(a) && NoSpace(c) && p != "" && IsName(a) && c != "" && key == Joined(p, a, c)
    ensures (exists i, j :: Cuts(key, i, j) && (i != |p| || j != |p| + 1 + |a|)) <==> Loose(p, a, c)
  {
    if Loose(p, a, c) {
      var i, j := LooseCuts(p, a, c);
      NoSpaceInJoined(p, a, c);
      NoSpaceCuts(key, i, j);
    }
    if i, j :| Cuts(key, i, j) && (i != |p| || j != |p| + 1 + |a|) {
      CutsLoose(p, a, c, i, j);
    }
  }

  /// For an acceptable job whose parts have no blanks inside: its key stands for its target alone exactly
  /// when none of the parts has a loose piece, one that could be read as an artifact or as part of it.
  lemma KeyIsUnambiguousIff(lower: char -> char, x: Job)
    requires LowersOnce(lower) && Acceptable(lower, x)
    requires NoSpace(Normal(lower, x.peer)) && NoSpace(Normal(lower, x.artifact)) && NoSpace(Normal(lower, x.checksum))
    ensures (forall y :: Acceptable(lower, y) && DedupKey(lower, y) == DedupKey(lower, x) ==> SameTarget(lower, x, y))
       <==> !Loose(Normal(lower, x.peer), Normal(lower, x.artifact), Normal(lower, x.checksum))
  {
    KeyIsSharedIff(lower, x);
    KeyIsJoined(lower, x);
    CutsWhereLoose(Normal(lower, x.peer), Normal(lower, x.artifact), Normal(lower, x.checksum), DedupKey(lower, x));
  }

  /// In peers and checksums without path separators and "..", a piece is loose wherever there is a bar that
  /// is not the first character of the peer or the last of the checksum.
  lemma LooseIffBar(p: string, c: string)
    requires p != "" && c != "" && Flat(p) && Flat(c)
    ensures (exists t, u :: PeerPiece(p, t, u)) <==> '|' in p[1..]
    ensures (exists t, u :: ChecksumPiece(c, t, u)) <==> '|' in c[..|c| - 1]
  {
    if '|' in p[1..] {
      var t :| 0 <= t < |p| - 1 && p[1..][t] == '|';
      assert p[0..|p|] == p;
      FlatPieces(p, 0, |p|, t + 2, |p|);
      assert PeerPiece(p, t + 1, |p|);
    }
    if t, u :| PeerPiece(p, t, u) {
      assert p[1..][t - 1] == '|';
    }
    if '|' in c[..|c| - 1] {
      var u :| 0 <= u < |c| - 1 && c[..|c| - 1][u] == '|';
      assert c[0..|c|] == c;
      FlatPieces(c, 0, |c|, 0, u);
      assert ChecksumPiece(c, 0, u);
    }
    if t, u :| ChecksumPiece(c, t, u) {
      assert c[..|c| - 1][u] == '|';
    }
  }

  // ---------------------------------------------------------------- pairs of jobs

  lemma FirstBar(a: string, r: string, b: string, q: string)
    requires '|' !in a && '|' !in b && a + "|" + r == b + "|" + q
    ensures a == b && r == q
  {
    var s := a + "|" + r;
    assert s[|a|] == '|' && s[|b|] == '|';
    assert forall k | 0 <= k < |a| :: s[k] == a[k];
    assert forall k | 0 <= k < |b| :: s[k] == b[k];
    assert s[..|a|] == a && s[|a| + 1..] == r;
    assert s[..|b|] == b && s[|b| + 1..] == q;
  }

  lemma LastBar(r: string, a: string, q: string, b: string)
    requires '|' !in a && '|' !in b && r + "|" + a == q + "|" + b
    ensures a == b && r == q
  {
    var s := r + "|" + a;
    assert s[|r|] == '|' && s[|q|] == '|';
    assert forall k | |r| < k < |s| :: s[k] == a[k - |r| - 1];
    assert forall k | |q| < k < |s| :: s[k] == b[k - |q| - 1];
    assert s[..|r|] == r && s[|r| + 1..] == a;
    assert s[..|q|] == q && s[|q| + 1..] == b;
  }

  lemma ThreeParts(p: string, a: string, c: string, q: string, b: string, d: string)
    requires '|' !in p && '|' !in q && '|' !in c && '|' !in d
    requires p + "|" + a + "|" + c == q + "|" + b + "|" + d
    ensures p == q && a == b && c == d
  {
    assert p + "|" + a + "|" + c == p + "|" + (a + "|" + c);
    assert q + "|" + b + "|" + d == q + "|" + (b + "|" + d);
    FirstBar(p, a + "|" + c, q, b + "|" + d);
    LastBar(a, c, b, d);
  }

  /// Two jobs share a dedup key only when they are the same peer, artifact and checksum, up to case and
  /// surrounding blanks, if no bar occurs in the peers and checksums.
  lemma DedupKeyIsInjective(lower: char -> char, x: Job, y: Job)
    requires '|' !in ToLower(lower, Trim(x.peer)) && '|' !in ToLower(lower, Trim(y.peer))
    requires '|' !in ToLower(lower, Trim(x.checksum)) && '|' !in ToLower(lower, Trim(y.checksum))
    requires DedupKey(lower, x) == DedupKey(lower, y)
    ensures ToLower(lower, Trim(x.peer)) == ToLower(lower, Trim(y.peer))
    ensures ToLower(lower, Trim(x.artifact)) == ToLower(lower, Trim(y.artifact))
    ensures ToLower(lower, Trim(x.checksum)) == ToLower(lower, Trim(y.checksum))
  {
    ThreeParts(ToLower(lower, Trim(x.peer)), ToLower(lower, Trim(x.artifact)), ToLower(lower, Trim(x.checksum)),
               ToLower(lower, Trim(y.peer)), ToLower(lower, Trim(y.artifact)), ToLower(lower, Trim(y.checksum)));
  }

  /// A bar at the end of one job's peer or at the start of another's artifact: the keys collide.
  lemma DedupKeysCollide(lower: char -> char, x: Job, y: Job)
    requires LowersAscii(lower) && IsClean(x.peer) && IsClean(x.artifact) && IsClean(x.checksum)
    requires IsClean(y.peer) && IsClean(y.artifact)
    requires x.peer == y.peer + "|" && y.artifact == "|" + x.artifact && x.checksum == y.checksum
    ensures DedupKey(lower, x) == DedupKey(lower, y) && x.peer != y.peer
  {
    CleanKey(lower, x);
    CleanKey(lower, y);
    BarMoves(y.peer, x.artifact);
  }

  lemma BarMoves(p: string, a: string)
    ensures (p + "|") + "|" + a == p + "|" + ("|" + a)
  {
  }

  lemma CleanKey(lower: char -> char, job: Job)
    requires LowersAscii(lower) && IsClean(job.peer) && IsClean(job.artifact) && IsClean(job.checksum)
    ensures DedupKey(lower, job) == job.peer + "|" + job.artifact + "|" + job.checksum
  {
    Clean(lower, job.peer);
    Clean(lower, job.artifact);
    Clean(lower, job.checksum);
  }

  predicate IsClean(s: string) {
    forall i | 0 <= i < |s| :: s[i] == '|' || 'a' <= s[i] <= 'z'
  }

  lemma Clean(lower: char -> char, s: string)
    requires LowersAscii(lower) && IsClean(s)
    ensures ToLower(lower, Trim(s)) == s
  {
    TrimOfTrimmed(s);
  }
}
