/// A map of time stamps that is pruned as it is used, against the full log of its marks. Two places
/// of the agent keep one: the replication dedup map and the processed sync events.
module TtlMap {

  /// Drop the entries that are `ttl` old or older.
  function Pruned(m: map<string, int>, now: int, ttl: int): map<string, int> {
    map k | k in m && now - m[k] < ttl :: m[k]
  }

  predicate Recent(m: map<string, int>, k: string, now: int, ttl: int) {
    k in m && now - m[k] < ttl
  }

  /// The operations on the map, in lock order. Every one of them prunes first.
  datatype Op =
    | Look(now: int)
    | Mark(key: string, now: int)

  function Apply(m: map<string, int>, op: Op, ttl: int): map<string, int> {
    match op
    case Look(now) => Pruned(m, now, ttl)
    case Mark(k, now) => Pruned(m, now, ttl)[k := now]
  }

  /// The map after the operations
  function Kept(ops: seq<Op>, ttl: int): map<string, int> {
    if ops == [] then map[] else Apply(Kept(ops[..|ops| - 1], ttl), ops[|ops| - 1], ttl)
  }

  /// The last mark of every key, never pruned
  function Marks(ops: seq<Op>): map<string, int> {
    if ops == [] then map[]
    else
      var m := Marks(ops[..|ops| - 1]);
      var op := ops[|ops| - 1];
      if op.Mark? then m[op.key := op.now] else m
  }

  /// The latest clock reading of the operations after the last mark of k, or `floor`
  function LatestSince(ops: seq<Op>, k: string, floor: int): (t: int)
    ensures t >= floor
  {
    if ops == [] then floor
    else
      var op := ops[|ops| - 1];
      if op.Mark? && op.key == k then floor
      else
        var t := LatestSince(ops[..|ops| - 1], k, floor);
        if op.now > t then op.now else t
  }

  lemma {:induction false} KeptIsMarked(ops: seq<Op>, k: string, ttl: int)
    requires ttl > 0 && k in Marks(ops)
    ensures k in Kept(ops, ttl) <==> LatestSince(ops, k, Marks(ops)[k]) - Marks(ops)[k] < ttl
    ensures k in Kept(ops, ttl) ==> Kept(ops, ttl)[k] == Marks(ops)[k]
  {
    var front, op := ops[..|ops| - 1], ops[|ops| - 1];
    if !(op.Mark? && op.key == k) {
      KeptIsMarked(front, k, ttl);
    }
  }

  lemma {:induction false} UnmarkedIsNotKept(ops: seq<Op>, k: string, ttl: int)
    requires k !in Marks(ops)
    ensures k !in Kept(ops, ttl)
  {
    if ops != [] {
      UnmarkedIsNotKept(ops[..|ops| - 1], k, ttl);
    }
  }

  /// The pruned map answers as the full log would exactly when no prune since k's last mark was run
  /// with a clock `ttl` past that mark while the query's own clock is not.
  lemma PruningAgreesIff(ops: seq<Op>, k: string, now: int, ttl: int)
    requires ttl > 0
    ensures (Recent(Kept(ops, ttl), k, now, ttl) <==> Recent(Marks(ops), k, now, ttl))
       <==> !(k in Marks(ops) && now - Marks(ops)[k] < ttl <= LatestSince(ops, k, Marks(ops)[k]) - Marks(ops)[k])
  {
    if k in Marks(ops) {
      KeptIsMarked(ops, k, ttl);
    } else {
      UnmarkedIsNotKept(ops, k, ttl);
    }
  }

  predicate NotAfter(ops: seq<Op>, now: int) {
    forall i | 0 <= i < |ops| :: ops[i].now <= now
  }

  lemma {:induction false} LatestSinceBound(ops: seq<Op>, k: string, floor: int, now: int)
    requires NotAfter(ops, now)
    ensures LatestSince(ops, k, floor) <= now || LatestSince(ops, k, floor) == floor
  {
    if ops != [] {
      LatestSinceBound(ops[..|ops| - 1], k, floor, now);
    }
  }

  /// With a clock that has not gone back since any operation on the map, pruning is invisible.
  lemma PruningIsInvisible(ops: seq<Op>, k: string, now: int, ttl: int)
    requires ttl > 0 && NotAfter(ops, now)
    ensures Recent(Kept(ops, ttl), k, now, ttl) <==> Recent(Marks(ops), k, now, ttl)
  {
    PruningAgreesIff(ops, k, now, ttl);
    if k in Marks(ops) {
      LatestSinceBound(ops, k, Marks(ops)[k], now);
    }
  }

  /// A clock that goes back can make the pruned map forget a recent mark.
  lemma PruningCanForget(ttl: int) returns (ops: seq<Op>, now: int)
    requires ttl > 0
    ensures Recent(Marks(ops), "k", now, ttl) && !Recent(Kept(ops, ttl), "k", now, ttl)
  {
    ops, now := [Mark("k", 0), Look(ttl)], ttl - 1;
    assert ops[..1] == [Mark("k", 0)];
    assert [Mark("k", 0)][..0] == [];
    assert Marks([Mark("k", 0)]) == map["k" := 0];
    assert Kept([Mark("k", 0)], ttl) == map["k" := 0];
  }

  /// Pruning at the moment of a query does not change its answer.
  lemma LookKeepsAnswer(m: map<string, int>, k: string, now: int, ttl: int)
    ensures Recent(Pruned(m, now, ttl), k, now, ttl) <==> Recent(m, k, now, ttl)
    ensures k in Pruned(m, now, ttl) <==> Recent(m, k, now, ttl)
  {
  }

  // ---------------------------------------------------------------- marking only what is not recent

  predicate ClockRises(ops: seq<Op>) {
    forall i, j | 0 <= i < j < |ops| :: ops[i].now <= ops[j].now
  }

  /// A key is only marked when the map does not answer "recent".
  ghost predicate MarkedOnce(ops: seq<Op>, ttl: int) {
    forall i | 0 <= i < |ops| && ops[i].Mark? :: !Recent(Kept(ops[..i], ttl), ops[i].key, ops[i].now, ttl)
  }

  /// Asking for a key and marking it only when it is not found keeps to that.
  lemma AskThenMark(ops: seq<Op>, key: string, now: int, ttl: int)
    requires ttl > 0 && MarkedOnce(ops, ttl)
    ensures var m := Pruned(Kept(ops, ttl), now, ttl);
            var op := if key in m then Look(now) else Mark(key, now);
            && (key in m <==> Recent(Kept(ops, ttl), key, now, ttl))
            && Kept(ops + [op], ttl) == (if key in m then m else m[key := now])
            && MarkedOnce(ops + [op], ttl)
  {
    var m := Pruned(Kept(ops, ttl), now, ttl);
    LookKeepsAnswer(Kept(ops, ttl), key, now, ttl);
    KeptLast(ops, if key in m then Look(now) else Mark(key, now), ttl);
    MarkedOnceLast(ops, if key in m then Look(now) else Mark(key, now), ttl);
  }

  lemma KeptLast(ops: seq<Op>, op: Op, ttl: int)
    ensures Kept(ops + [op], ttl) == Apply(Kept(ops, ttl), op, ttl)
  {
    assert (ops + [op])[..|ops|] == ops;
  }

  lemma MarkedOnceLast(ops: seq<Op>, op: Op, ttl: int)
    requires MarkedOnce(ops, ttl) && (op.Mark? ==> !Recent(Kept(ops, ttl), op.key, op.now, ttl))
    ensures MarkedOnce(ops + [op], ttl)
  {
    var all := ops + [op];
    forall i | 0 <= i < |all| && all[i].Mark? ensures !Recent(Kept(all[..i], ttl), all[i].key, all[i].now, ttl) {
      assert all[..i] == ops[..i];
      assert ops[..|ops|] == ops;
    }
  }

  lemma {:induction false} LastMarkIsLater(ops: seq<Op>, i: nat)
    requires ClockRises(ops) && i < |ops| && ops[i].Mark?
    ensures ops[i].key in Marks(ops) && Marks(ops)[ops[i].key] >= ops[i].now
  {
    var n := |ops| - 1;
    if i < n {
      LastMarkIsLater(ops[..n], i);
    }
  }

  /// With a clock that does not go back, two marks of one key are at least `ttl` apart.
  lemma MarksAreApart(ops: seq<Op>, ttl: int, i: nat, j: nat)
    requires ttl > 0 && ClockRises(ops) && MarkedOnce(ops, ttl)
    requires i < j < |ops| && ops[i].Mark? && ops[j].Mark? && ops[i].key == ops[j].key
    ensures ops[j].now - ops[i].now >= ttl
  {
    LastMarkIsLater(ops[..j], i);
    PruningIsInvisible(ops[..j], ops[j].key, ops[j].now, ttl);
  }
}
