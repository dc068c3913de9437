/// Seed planning and the clamps of the peer-to-peer configuration (src/app/p2p_config.go).
module Seeds {
  import opened Text

  const DEFAULT_TEMP_TTL_HOURS := 20 * 24
  const DEFAULT_SEED_PERCENT := 10
  const DEFAULT_MIN_SEEDS := 2
  const DEFAULT_PORT_RANGE_START := 41080
  const DEFAULT_PORT_RANGE_END := 41120
  const DEFAULT_TOKEN_ROTATION_MINUTES := 15
  const DEFAULT_CHUNK_SIZE := 8 * 1024 * 1024
  const MIN_CHUNK_SIZE := 1024 * 1024
  const MIN_BANDWIDTH := 64 * 1024
  const MAX_INT64 := 0x7fff_ffff_ffff_ffff

  /// P2PConfig without the fields that are passed through
  datatype Config = Config(
    enabled: bool,
    mode: string,
    tempTtlHours: int,
    seedPercent: int,
    minSeeds: int,
    portRangeStart: int,
    portRangeEnd: int,
    tokenRotationMinutes: int,
    sharedSecret: string,
    chunkSize: int,
    maxBandwidth: int)

  datatype SeedPlan = SeedPlan(totalAgents: int, configuredPercent: int, minSeeds: int, selectedSeeds: int)

  const NO_PLAN := SeedPlan(0, 0, 0, 0)
  const LIBP2P_ONLY := "libp2p_only"

  function DefaultInt(v: int, def: int): int {
    if v <= 0 then def else v
  }

  function Clamp(v: int, lo: int, hi: int): int {
    if v < lo then lo else if v > hi then hi else v
  }

  function Normalize(c: Config): Config {
    var start := DefaultInt(c.portRangeStart, DEFAULT_PORT_RANGE_START);
    var end := DefaultInt(c.portRangeEnd, DEFAULT_PORT_RANGE_END);
    Config(
      c.enabled,
      LIBP2P_ONLY,
      Clamp(DefaultInt(c.tempTtlHours, DEFAULT_TEMP_TTL_HOURS), 24, 24 * 30),
      Clamp(DefaultInt(c.seedPercent, DEFAULT_SEED_PERCENT), 1, 100),
      DefaultInt(c.minSeeds, DEFAULT_MIN_SEEDS),
      if start > end then DEFAULT_PORT_RANGE_START else start,
      if start > end then DEFAULT_PORT_RANGE_END else end,
      DefaultInt(c.tokenRotationMinutes, DEFAULT_TOKEN_ROTATION_MINUTES),
      Trim(c.sharedSecret),
      Clamp(DefaultInt(c.chunkSize, DEFAULT_CHUNK_SIZE), MIN_CHUNK_SIZE, MAX_INT64),
      if c.maxBandwidth <= 0 then 0 else if c.maxBandwidth < MIN_BANDWIDTH then MIN_BANDWIDTH else c.maxBandwidth)
  }

  /// What the rest of the agent relies on
  predicate Usable(c: Config) {
    && c.mode == LIBP2P_ONLY
    && 24 <= c.tempTtlHours <= 24 * 30
    && 1 <= c.seedPercent <= 100
    && 1 <= c.minSeeds
    && 1 <= c.portRangeStart <= c.portRangeEnd
    && 1 <= c.tokenRotationMinutes
    && Trimmed(c.sharedSecret)
    && MIN_CHUNK_SIZE <= c.chunkSize <= MAX_INT64
    && (c.maxBandwidth == 0 || MIN_BANDWIDTH <= c.maxBandwidth)
  }

  /// Normalizing makes every configuration usable, and the usable ones are exactly those it leaves
  /// alone; so normalizing twice is normalizing once.
  lemma NormalizeKeepsIffUsable(c: Config)
    requires c.chunkSize <= MAX_INT64
    ensures Usable(Normalize(c))
    ensures Normalize(c) == c <==> Usable(c)
    ensures Normalize(Normalize(c)) == Normalize(c)
  {
    TrimIsTrimmed(c.sharedSecret);
    if Trimmed(c.sharedSecret) {
      TrimOfTrimmed(c.sharedSecret);
    }
    TrimOfTrimmed(Trim(c.sharedSecret));
  }

  function Chosen(byPercent: int, least: int, total: int): int {
    var selected := if byPercent < least then least else byPercent;
    if selected > total then total else selected
  }

  /// v lies in the range, or is the nearest bound to the value that stands for it.
  predicate Kept(v: int, was: int, def: int, lo: int, hi: int) {
    var w := if was <= 0 then def else was;
    lo <= v <= hi && (lo <= w <= hi ==> v == w) && (w < lo ==> v == lo) && (w > hi ==> v == hi)
  }

  /// Field by field: what lies in its range is kept, what is not set is the default, and anything else is the
  /// nearest bound.
  lemma NormalizeEach(c: Config)
    requires c.chunkSize <= MAX_INT64
    ensures var n := Normalize(c);
            && n.enabled == c.enabled && n.mode == LIBP2P_ONLY && n.sharedSecret == Trim(c.sharedSecret)
            && Kept(n.tempTtlHours, c.tempTtlHours, DEFAULT_TEMP_TTL_HOURS, 24, 24 * 30)
            && Kept(n.seedPercent, c.seedPercent, DEFAULT_SEED_PERCENT, 1, 100)
            && Kept(n.chunkSize, c.chunkSize, DEFAULT_CHUNK_SIZE, MIN_CHUNK_SIZE, MAX_INT64)
            && n.minSeeds == (if c.minSeeds >= 1 then c.minSeeds else DEFAULT_MIN_SEEDS)
            && n.tokenRotationMinutes
               == (if c.tokenRotationMinutes >= 1 then c.tokenRotationMinutes else DEFAULT_TOKEN_ROTATION_MINUTES)
            && (c.maxBandwidth <= 0 ==> n.maxBandwidth == 0)
            && (c.maxBandwidth >= MIN_BANDWIDTH ==> n.maxBandwidth == c.maxBandwidth)
            && (0 < c.maxBandwidth < MIN_BANDWIDTH ==> n.maxBandwidth == MIN_BANDWIDTH)
    ensures var n := Normalize(c);
            var start := if c.portRangeStart >= 1 then c.portRangeStart else DEFAULT_PORT_RANGE_START;
            var end := if c.portRangeEnd >= 1 then c.portRangeEnd else DEFAULT_PORT_RANGE_END;
            && (start <= end ==> n.portRangeStart == start && n.portRangeEnd == end)
            && (start > end ==>
                  n.portRangeStart == DEFAULT_PORT_RANGE_START && n.portRangeEnd == DEFAULT_PORT_RANGE_END)
  {
  }

  /// The count from the product of agents and percentage
  function Capped(product: int, least: int, total: int): int {
    Chosen((product + 99) / 100, least, total)
  }

  /// p2pSeedCount, with the ceiling in exact arithmetic
  function SeedCount(totalAgents: int, seedPercent: int, minSeeds: int): int {
    if totalAgents <= 0 then 0
    else
      var percent := if seedPercent < 0 then 0 else seedPercent;
      var least := if minSeeds < 1 then 1 else minSeeds;
      Capped(totalAgents * percent, least, totalAgents)
  }

  /// k seeds are enough: they make up the percentage and the minimum, or every agent is one.
  predicate Enough(k: int, totalAgents: int, seedPercent: int, minSeeds: int) {
    0 <= k && (k >= totalAgents || (100 * k >= totalAgents * seedPercent && k >= minSeeds && k >= 1))
  }

  /// The seeds are the fewest that are enough.
  lemma SeedCountIsLeast(totalAgents: int, seedPercent: int, minSeeds: int)
    ensures var k := SeedCount(totalAgents, seedPercent, minSeeds);
            && Enough(k, totalAgents, seedPercent, minSeeds)
            && (forall j :: Enough(j, totalAgents, seedPercent, minSeeds) ==> k <= j)
            && k <= (if totalAgents <= 0 then 0 else totalAgents)
            && (totalAgents >= 1 ==> k >= 1)
  {
    if totalAgents > 0 {
      var percent := if seedPercent < 0 then 0 else seedPercent;
      var p := totalAgents * percent;
      assert p >= 0;
      assert seedPercent < 0 ==> totalAgents * seedPercent <= 0;
      assert 100 * ((p + 99) / 100) >= p && forall j :: 100 * j >= p ==> (p + 99) / 100 <= j;
    }
  }

  lemma CappedGrowsSlowly(product: int, percent: int, least: int, total: int)
    requires total >= 1 && percent >= 0 && least >= 1 && (percent > 100 ==> product >= 100 * total)
    ensures var now, next := Capped(product, least, total), Capped(product + percent, least, total + 1);
            now <= next <= now + 1
  {
  }

  /// More agents never mean fewer seeds, nor one more agent more than one more seed.
  lemma SeedCountGrowsSlowly(totalAgents: int, seedPercent: int, minSeeds: int)
    ensures var k := SeedCount(totalAgents, seedPercent, minSeeds);
            k <= SeedCount(totalAgents + 1, seedPercent, minSeeds) <= k + 1
  {
    var percent := if seedPercent < 0 then 0 else seedPercent;
    var least := if minSeeds < 1 then 1 else minSeeds;
    if totalAgents > 0 {
      OneMore(totalAgents, percent);
      CappedGrowsSlowly(totalAgents * percent, percent, least, totalAgents);
    }
  }

  lemma OneMore(totalAgents: int, percent: int)
    requires totalAgents > 0 && percent >= 0
    ensures (totalAgents + 1) * percent == totalAgents * percent + percent
    ensures percent > 100 ==> totalAgents * percent >= 100 * totalAgents
  {
  }

  /// buildP2PSeedPlan
  function BuildSeedPlan(totalAgents: int, c: Config): SeedPlan {
    var n := Normalize(c);
    SeedPlan(totalAgents, n.seedPercent, n.minSeeds, SeedCount(totalAgents, n.seedPercent, n.minSeeds))
  }

  /// The stored plan is for the configuration: its percentage and minimum where they are usable, and the least
  /// count that is enough for them.
  lemma PlanFollowsConfig(totalAgents: int, c: Config)
    ensures var plan := BuildSeedPlan(totalAgents, c);
            && plan.totalAgents == totalAgents
            && Kept(plan.configuredPercent, c.seedPercent, DEFAULT_SEED_PERCENT, 1, 100)
            && plan.minSeeds == (if c.minSeeds >= 1 then c.minSeeds else DEFAULT_MIN_SEEDS)
            && Enough(plan.selectedSeeds, totalAgents, plan.configuredPercent, plan.minSeeds)
            && forall k :: Enough(k, totalAgents, plan.configuredPercent, plan.minSeeds) ==> plan.selectedSeeds <= k
  {
    SeedCountIsLeast(totalAgents, Normalize(c).seedPercent, Normalize(c).minSeeds);
  }

  /// math.Ceil
  function Ceil(r: real): int {
    if r == r.Floor as real then r.Floor else r.Floor + 1
  }

  const TWO_53 := 0x20_0000_0000_0000

  /// What double precision guarantees of its rounding: it keeps the order and, up to 2^53, the integers,
  /// and between a hundredth and 2^53 it is off by at most a 2^53th of its argument.
  predicate KeepsInteger(round: real -> real, n: int) {
    round(n as real) == n as real
  }

  ghost predicate RoundsAsDouble(round: real -> real) {
    && (forall x, y | 0.0 <= x <= y :: round(x) <= round(y))
    && (forall n: int | 0 <= n <= TWO_53 :: KeepsInteger(round, n))
    && (forall x | 0.01 <= x <= TWO_53 as real :: x - x / TWO_53 as real <= round(x) <= x + x / TWO_53 as real)
  }

  /// math.Ceil(float64(total) * float64(percent) / 100.0), each step rounded
  function RoundedShare(round: real -> real, total: int, percent: int): int {
    Ceil(round(RoundedProduct(round, total, percent) / 100.0))
  }

  function RoundedProduct(round: real -> real, total: int, percent: int): real {
    round(Times(round(total as real), round(percent as real)))
  }

  function Times(x: real, y: real): real {
    x * y
  }

  /// p2pSeedCount as the source computes it
  function RoundedSeedCount(round: real -> real, totalAgents: int, seedPercent: int, minSeeds: int): int {
    if totalAgents <= 0 then 0
    else
      var percent := if seedPercent < 0 then 0 else seedPercent;
      var least := if minSeeds < 1 then 1 else minSeeds;
      Chosen(RoundedShare(round, totalAgents, percent), least, totalAgents)
  }

  /// A quotient that is off by less than a hundredth, and not past an integer, has the exact ceiling.
  lemma NearQuotientSameCeiling(product: nat, rounded: real)
    requires var exact := product as real / 100.0;
             exact.Floor as real <= rounded <= Ceil(exact) as real && (exact - 0.01 < rounded || exact == 0.0)
    ensures Ceil(rounded) == (product + 99) / 100
  {
    var q, r := product / 100, product % 100;
    var exact := product as real / 100.0;
    assert product == 100 * q + r;
    assert exact == q as real + r as real / 100.0;
    assert exact.Floor == q;
  }

  lemma RoundedQuotientIsNear(round: real -> real, product: nat)
    requires RoundsAsDouble(round) && product < TWO_53
    ensures var exact, rounded := product as real / 100.0, round(product as real / 100.0);
            exact.Floor as real <= rounded <= Ceil(exact) as real && (exact - 0.01 < rounded || exact == 0.0)
  {
    var exact := product as real / 100.0;
    assert KeepsInteger(round, exact.Floor) && KeepsInteger(round, Ceil(exact));
    if product > 0 {
      assert exact >= 0.01;
      assert exact / TWO_53 as real < 0.01;
    }
  }

  lemma ProductBounds(total: nat, percent: nat)
    requires total >= 1
    ensures Times(total as real, percent as real) == (total * percent) as real
    ensures percent <= total * percent && (percent >= 1 ==> total <= total * percent)
  {
  }

  lemma IntegersKept(round: real -> real, total: nat, percent: nat, product: nat)
    requires RoundsAsDouble(round) && percent <= product < TWO_53 && (percent >= 1 ==> total <= product)
    ensures round(percent as real) == percent as real && round(product as real) == product as real
    ensures percent >= 1 ==> round(total as real) == total as real
  {
    assert KeepsInteger(round, percent) && KeepsInteger(round, product);
    assert percent >= 1 ==> KeepsInteger(round, total);
  }

  lemma SameProduct(total: real, percent: real, t: real)
    requires percent != 0.0 ==> t == total
    ensures Times(t, percent) == Times(total, percent)
  {
    if percent == 0.0 {
      assert t * 0.0 == 0.0 == total * 0.0;
    }
  }

  lemma ProductIsExact(round: real -> real, total: nat, percent: nat, product: nat)
    requires RoundsAsDouble(round) && percent <= product < TWO_53 && (percent >= 1 ==> total <= product)
    requires Times(total as real, percent as real) == product as real
    ensures RoundedProduct(round, total, percent) == product as real
  {
    IntegersKept(round, total, percent, product);
    SameProduct(total as real, percent as real, round(total as real));
  }

  lemma ShareOfProduct(round: real -> real, total: nat, percent: nat, product: nat)
    requires RoundsAsDouble(round) && product < TWO_53 && RoundedProduct(round, total, percent) == product as real
    ensures RoundedShare(round, total, percent) == (product + 99) / 100
  {
    RoundedQuotientIsNear(round, product);
    NearQuotientSameCeiling(product, round(product as real / 100.0));
  }

  lemma RoundedShareIsExact(round: real -> real, total: nat, percent: nat)
    requires RoundsAsDouble(round) && total >= 1 && total * percent < TWO_53
    ensures RoundedShare(round, total, percent) == (total * percent + 99) / 100
  {
    ProductBounds(total, percent);
    ProductIsExact(round, total, percent, total * percent);
    ShareOfProduct(round, total, percent, total * percent);
  }

  lemma RoundedSameChosen(round: real -> real, total: nat, percent: nat, least: int)
    requires RoundsAsDouble(round) && total >= 1 && total * percent < TWO_53
    ensures Chosen(RoundedShare(round, total, percent), least, total) == Capped(total * percent, least, total)
  {
    RoundedShareIsExact(round, total, percent);
  }

  /// As long as agents times percentage stays below 2^53, rounding does not change the count.
  lemma RoundedSeedCountIsExact(round: real -> real, totalAgents: int, seedPercent: int, minSeeds: int)
    requires RoundsAsDouble(round)
    requires totalAgents > 0 && seedPercent > 0 ==> totalAgents * seedPercent < TWO_53
    ensures RoundedSeedCount(round, totalAgents, seedPercent, minSeeds) == SeedCount(totalAgents, seedPercent, minSeeds)
  {
    if totalAgents > 0 {
      var least := if minSeeds < 1 then 1 else minSeeds;
      if seedPercent > 0 {
        RoundedSameChosen(round, totalAgents, seedPercent, least);
      } else {
        RoundedSameChosen(round, totalAgents, 0, least);
      }
    }
  }
}
