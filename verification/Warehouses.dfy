/** How TPC-C warehouses are split over client hosts and over database shards. */
module Warehouses {

  // ---- arithmetic ----

  /** The quotient rounded up. */
  function CeilDiv(a: int, b: nat): int
    requires b > 0
  {
    (a + b - 1) / b
  }

  lemma {:induction false} CeilDivBounds(a: int, b: nat)
    requires b > 0
    ensures b * CeilDiv(a, b) >= a && b * (CeilDiv(a, b) - 1) < a
  {
    var q := CeilDiv(a, b);
    assert b * q <= a + b - 1 < b * q + b;
    assert b * (q - 1) == b * q - b;
  }

  lemma {:induction false} MulMonotone(k: nat, a: int, b: int)
    requires a <= b
    ensures k * a <= k * b
  {
  }

  lemma {:induction false} MulUnique(k: nat, x: int, q: int)
    requires k > 0 && k * q <= x < k * (q + 1)
    ensures x / k == q
  {
    var d := x / k;
    assert k * d <= x < k * d + k;
    assert k * (d + 1) == k * d + k;
    MulCancel(k, d, q + 1);
    MulCancel(k, q, d + 1);
  }

  lemma {:induction false} MulCancel(k: nat, a: int, b: int)
    requires k * a < k * b
    ensures a < b
  {
    if b <= a {
      MulMonotone(k, b, a);
    }
  }

  // ---- one client host ----

  datatype HostConfig = HostConfig(start: int, last: int, warehouses: int, terminals: int)

  datatype Configured = Config(c: HostConfig) | InvalidNode | AssertionFailed

  function Configure(warehouses: int, nodes: nat, node: int): Configured {
    if node <= 0 || node > nodes then InvalidNode
    else
      var share := CeilDiv(warehouses, nodes);
      var start := 1 + share * (node - 1);
      var own := if node == nodes then warehouses - share * (nodes - 1) else share;
      if own > 0 then Config(HostConfig(start, start + own - 1, own, own * 10)) else AssertionFailed
  }

  /** What a host gets: an invalid number is refused, and an empty share fails the assertion; otherwise all hosts but
      the last get the quotient rounded up, after those before them. */
  lemma {:induction false} ConfigureOutcome(warehouses: int, nodes: nat, node: int)
    ensures Configure(warehouses, nodes, node).InvalidNode? <==> node <= 0 || node > nodes
    ensures 0 < node <= nodes ==>
              var share := CeilDiv(warehouses, nodes);
              var own := if node == nodes then warehouses - share * (nodes - 1) else share;
              && (Configure(warehouses, nodes, node).AssertionFailed? <==> own <= 0)
              && (own > 0 ==> Configure(warehouses, nodes, node).c.warehouses == own
                              && Configure(warehouses, nodes, node).c.start == share * (node - 1) + 1)
  {
  }

  ghost predicate AllConfigured(warehouses: int, nodes: nat) {
    forall i :: 1 <= i <= nodes ==> Configure(warehouses, nodes, i).Config?
  }

  /** Every host of a run can be configured exactly when the last one is left something. */
  lemma {:induction false} ConfiguredExactly(warehouses: int, nodes: nat)
    requires nodes > 0
    ensures AllConfigured(warehouses, nodes) <==> (nodes - 1) * CeilDiv(warehouses, nodes) < warehouses
  {
    var share := CeilDiv(warehouses, nodes);
    assert share * (nodes - 1) == (nodes - 1) * share;
    CeilDivBounds(warehouses, nodes);
    assert nodes * share == (nodes - 1) * share + share;
    if (nodes - 1) * share >= warehouses {
      assert Configure(warehouses, nodes, nodes) == AssertionFailed;
    }
  }

  function HostOf(warehouses: int, nodes: nat, node: int): HostConfig
    requires Configure(warehouses, nodes, node).Config?
  {
    Configure(warehouses, nodes, node).c
  }

  ghost predicate Serves(warehouses: int, nodes: nat, node: int, w: int)
    requires Configure(warehouses, nodes, node).Config?
  {
    HostOf(warehouses, nodes, node).start <= w <= HostOf(warehouses, nodes, node).last
  }

  /** The hosts follow each other without gap or overlap, from warehouse 1 to the last. */
  lemma {:induction false} HostsAdjoin(warehouses: int, nodes: nat, i: int)
    requires AllConfigured(warehouses, nodes) && 1 <= i < nodes
    ensures HostOf(warehouses, nodes, i + 1).start == HostOf(warehouses, nodes, i).last + 1
    ensures HostOf(warehouses, nodes, 1).start == 1
    ensures HostOf(warehouses, nodes, nodes).last == warehouses
  {
    var share := CeilDiv(warehouses, nodes);
    assert share * i == share * (i - 1) + share;
    assert Configure(warehouses, nodes, i).Config? && Configure(warehouses, nodes, i + 1).Config?;
    assert Configure(warehouses, nodes, nodes).Config? && Configure(warehouses, nodes, 1).Config?;
  }

  lemma {:induction false} HostsApart(warehouses: int, nodes: nat, i: int, j: int)
    requires AllConfigured(warehouses, nodes) && 1 <= i < j <= nodes
    ensures HostOf(warehouses, nodes, i).last < HostOf(warehouses, nodes, j).start
    decreases j
  {
    assert Configure(warehouses, nodes, j - 1).Config?;
    HostsAdjoin(warehouses, nodes, j - 1);
    if i < j - 1 {
      HostsApart(warehouses, nodes, i, j - 1);
    }
  }

  lemma {:induction false} FindHost(warehouses: int, nodes: nat, n: int, w: int) returns (i: int)
    requires AllConfigured(warehouses, nodes) && 1 <= n <= nodes
    requires 1 <= w && Configure(warehouses, nodes, n).Config? && w <= HostOf(warehouses, nodes, n).last
    ensures 1 <= i <= n && Configure(warehouses, nodes, i).Config? && Serves(warehouses, nodes, i, w)
    decreases n
  {
    if w >= HostOf(warehouses, nodes, n).start {
      i := n;
    } else {
      assert n > 1;
      assert Configure(warehouses, nodes, n - 1).Config?;
      HostsAdjoin(warehouses, nodes, n - 1);
      i := FindHost(warehouses, nodes, n - 1, w);
    }
  }

  /** Every warehouse is served by exactly one host. */
  lemma {:induction false} OneHostServes(warehouses: int, nodes: nat, w: int) returns (i: int)
    requires AllConfigured(warehouses, nodes) && nodes > 0 && 1 <= w <= warehouses
    ensures 1 <= i <= nodes && Configure(warehouses, nodes, i).Config? && Serves(warehouses, nodes, i, w)
    ensures forall j :: 1 <= j <= nodes && Configure(warehouses, nodes, j).Config? ==>
              Serves(warehouses, nodes, j, w) ==> j == i
  {
    assert Configure(warehouses, nodes, nodes).Config? && Configure(warehouses, nodes, 1).Config?;
    if nodes > 1 {
      HostsAdjoin(warehouses, nodes, 1);
    }
    i := FindHost(warehouses, nodes, nodes, w);
    forall j | 1 <= j <= nodes && Configure(warehouses, nodes, j).Config? && Serves(warehouses, nodes, j, w)
      ensures j == i
    {
      if j < i {
        HostsApart(warehouses, nodes, j, i);
      } else if i < j {
        HostsApart(warehouses, nodes, i, j);
      }
    }
  }

  /** The terminals of the first n hosts. */
  ghost function Terminals(warehouses: int, nodes: nat, n: nat): int
    requires AllConfigured(warehouses, nodes) && n <= nodes
  {
    if n == 0 then 0
    else
      assert Configure(warehouses, nodes, n).Config?;
      Terminals(warehouses, nodes, n - 1) + HostOf(warehouses, nodes, n).terminals
  }

  lemma {:induction false} TerminalsUpTo(warehouses: int, nodes: nat, n: nat)
    requires AllConfigured(warehouses, nodes) && 1 <= n <= nodes
    ensures Configure(warehouses, nodes, n).Config?
    ensures Terminals(warehouses, nodes, n) == 10 * HostOf(warehouses, nodes, n).last
  {
    assert Configure(warehouses, nodes, n).Config?;
    if n == 1 {
      assert Terminals(warehouses, nodes, 0) == 0;
    } else {
      TerminalsUpTo(warehouses, nodes, n - 1);
      HostsAdjoin(warehouses, nodes, n - 1);
    }
  }

  /** Ten terminals for every warehouse, none lost between hosts. */
  lemma {:induction false} TerminalsTotal(warehouses: int, nodes: nat)
    requires AllConfigured(warehouses, nodes) && nodes > 0
    ensures Terminals(warehouses, nodes, nodes) == 10 * warehouses
  {
    TerminalsUpTo(warehouses, nodes, nodes);
    if nodes > 1 {
      HostsAdjoin(warehouses, nodes, nodes - 1);
    }
  }

  /** More than (nodes - 1) squared warehouses always suffice. */
  lemma {:induction false} EnoughWarehouses(warehouses: int, nodes: nat)
    requires nodes > 0 && warehouses > (nodes - 1) * (nodes - 1)
    ensures AllConfigured(warehouses, nodes)
  {
    ConfiguredExactly(warehouses, nodes);
    SquareSuffices(warehouses, nodes - 1);
  }

  /** With exactly (nodes - 1) squared the last host gets none. */
  lemma {:induction false} SquareFails(nodes: nat)
    requires nodes > 1
    ensures !AllConfigured((nodes - 1) * (nodes - 1), nodes)
  {
    var m := nodes - 1;
    ConfiguredExactly(m * m, nodes);
    assert m * m + m == nodes * m;
    MulUnique(nodes, m * m + m, m);
  }

  lemma {:induction false} SquareSuffices(warehouses: int, m: nat)
    requires warehouses > m * m
    ensures m * CeilDiv(warehouses, m + 1) < warehouses
  {
    var n, share := m + 1, CeilDiv(warehouses, m + 1);
    CeilDivBounds(warehouses, n);
    assert n * share <= warehouses + m by {
      assert n * (share - 1) == n * share - n;
    }
    MulMonotone(m, n * share, warehouses + m);
    assert m * (n * share) == n * (m * share);
    assert m * (warehouses + m) == m * warehouses + m * m;
    assert n * warehouses == m * warehouses + warehouses;
    MulCancel(n, m * share, warehouses);
  }

  // ---- shards ----

  const DEFAULT_MIN_PARTITIONS := 50
  const DEFAULT_MIN_WAREHOUSES_PER_SHARD := 100
  const DEFAULT_SHARD_SIZE_MB := 2000
  const ITEMS_NUM := 100000
  const MIN_ITEMS_PER_SHARD := 100

  datatype Table = Warehouse | District | Customer | History | NewOrder | Oorder | OrderLine | Item | Stock

  /** Tenths of a megabyte that one warehouse takes in a heavy table, and zero for the others. */
  function TenthsPerWarehouse(t: Table): nat {
    match t
    case Stock => 450
    case Customer => 201
    case OrderLine => 350
    case History => 24
    case Oorder => 15
    case _ => 0
  }

  function CalcMinParts(warehouses: nat): (r: nat)
    ensures r >= DEFAULT_MIN_PARTITIONS
  {
    var byLoad := warehouses / DEFAULT_MIN_WAREHOUSES_PER_SHARD;
    if byLoad > DEFAULT_MIN_PARTITIONS then byLoad else DEFAULT_MIN_PARTITIONS
  }

  /** The least number of partitions, from the default on, that leaves less than a minimal shard of warehouses over. */
  lemma {:induction false} MinPartsLeast(warehouses: nat, n: nat)
    ensures n >= CalcMinParts(warehouses)
       <==> n >= DEFAULT_MIN_PARTITIONS && warehouses < (n + 1) * DEFAULT_MIN_WAREHOUSES_PER_SHARD
  {
  }

  /** How many warehouses a shard of the table is given. */
  function WarehousesPerShard(warehouses: nat, t: Table, minShards: nat): nat
    requires minShards > 0
  {
    var bySpread := CeilDiv(warehouses, minShards);
    var tenths := TenthsPerWarehouse(t);
    if tenths == 0 then bySpread
    else
      var bySize := (DEFAULT_SHARD_SIZE_MB * 10 + tenths - 10) / tenths;
      if bySize < bySpread then bySize else bySpread
  }

  lemma {:induction false} CeilDivLeast(a: nat, b: nat, n: nat)
    requires b > 0
    ensures n >= CeilDiv(a, b) <==> b * n >= a
  {
    CeilDivBounds(a, b);
    if n >= CeilDiv(a, b) {
      MulMonotone(b, CeilDiv(a, b), n);
    } else {
      MulMonotone(b, n, CeilDiv(a, b) - 1);
    }
  }

  /** A shard of a light table gets the least number of warehouses whose multiple by the minimum number of shards covers
      all of them. */
  lemma {:induction false} LightShardExactly(warehouses: nat, t: Table, minShards: nat, n: nat)
    requires minShards > 0 && (t == Warehouse || t == District || t == NewOrder || t == Item)
    ensures n >= WarehousesPerShard(warehouses, t, minShards) <==> minShards * n >= warehouses
  {
    CeilDivLeast(warehouses, minShards, n);
  }

  /** How many warehouses of a heavy table fit in a shard. */
  predicate Fitting(t: Table, most: nat) {
    || (t == Stock && most == 45) || (t == Customer && most == 100) || (t == OrderLine && most == 58)
    || (t == History && most == 833) || (t == Oorder && most == 1333)
  }

  /** A shard of a heavy table gets the smaller of that number and of what fits. */
  lemma {:induction false} HeavyShardExactly(warehouses: nat, t: Table, minShards: nat, most: nat, n: nat)
    requires minShards > 0 && Fitting(t, most)
    ensures n >= WarehousesPerShard(warehouses, t, minShards) <==> n >= most || minShards * n >= warehouses
  {
    CeilDivLeast(warehouses, minShards, n);
  }

  /** The keys start + step, start + 2 * step, ... below `end`. */
  ghost predicate Cuts(keys: seq<int>, start: int, step: nat, end: int) {
    && (forall j :: 0 <= j < |keys| ==> keys[j] == start + step * (j + 1) && keys[j] < end)
    && start + step * (|keys| + 1) >= end
  }

  method CutEvery(start: int, step: nat, end: int) returns (keys: seq<int>)
    requires step > 0
    ensures Cuts(keys, start, step, end)
  {
    keys := [];
    var current := start + step;
    while current < end
      invariant current == start + step * (|keys| + 1)
      invariant forall j :: 0 <= j < |keys| ==> keys[j] == start + step * (j + 1) && keys[j] < end
      decreases end - current
    {
      keys := keys + [current];
      current := current + step;
      assert step * (|keys| + 1) == step * |keys| + step;
    }
  }

  /** How the keys of a table cut its warehouses, or its items: the step, and nothing when there is no cutting. */
  function StepOf(warehouses: nat, t: Table, minShards: nat): nat
    requires minShards > 0
  {
    if t == Item then
      var perShard := ITEMS_NUM / minShards;
      if perShard > MIN_ITEMS_PER_SHARD then perShard else MIN_ITEMS_PER_SHARD
    else
      var k := WarehousesPerShard(warehouses, t, minShards);
      if k < 2 then 0 else k
  }

  method GetSplitKeys(warehouses: nat, t: Table, minShards: nat) returns (keys: seq<int>)
    requires minShards > 0
    ensures var step := StepOf(warehouses, t, minShards);
            if step == 0 then keys == []
            else if t == Item then Cuts(keys, 0, step, ITEMS_NUM)
            else Cuts(keys, 1, step, warehouses + 1)
  {
    if t == Item {
      var perShard := ITEMS_NUM / minShards;
      perShard := if perShard > MIN_ITEMS_PER_SHARD then perShard else MIN_ITEMS_PER_SHARD;
      keys := CutEvery(0, perShard, ITEMS_NUM);
      return;
    }
    var k := WarehousesPerShard(warehouses, t, minShards);
    if k < 2 {
      return [];
    }
    keys := CutEvery(1, k, warehouses + 1);
  }

  /** The first element of shard j. */
  function Low(keys: seq<int>, start: int, j: nat): int
    requires j <= |keys|
  {
    if j == 0 then start else keys[j - 1]
  }

  /** The first element after shard j. */
  function High(keys: seq<int>, end: int, j: nat): int
    requires j <= |keys|
  {
    if j == |keys| then end else keys[j]
  }

  /** The shards are nonempty, each of exactly `step` elements except the last, which has at most that many;
      the keys increase. */
  lemma {:induction false} ShardSizes(keys: seq<int>, start: int, step: nat, end: int, j: nat)
    requires Cuts(keys, start, step, end) && step > 0 && start < end && j <= |keys|
    ensures Low(keys, start, j) == start + step * j
    ensures 0 < High(keys, end, j) - Low(keys, start, j) <= step
    ensures j < |keys| ==> High(keys, end, j) - Low(keys, start, j) == step
    ensures 0 < j < |keys| ==> keys[j - 1] < keys[j]
  {
    assert step * (j + 1) == step * j + step;
  }

  /** One key less than the shards, whose number is the quotient rounded up. */
  lemma {:induction false} ShardCount(keys: seq<int>, start: int, step: nat, end: int)
    requires Cuts(keys, start, step, end) && step > 0 && start < end
    ensures |keys| == CeilDiv(end - start, step) - 1
  {
    ShardSizes(keys, start, step, end, |keys|);
    var n, x := |keys|, end - start;
    assert step * (n + 1) == step * n + step;
    assert step * n < x <= step * n + step;
    assert step * (n + 2) == step * (n + 1) + step;
    MulUnique(step, x + step - 1, n + 1);
  }

  lemma {:induction false} KeysIncrease(keys: seq<int>, start: int, step: nat, end: int, i: nat, j: nat)
    requires Cuts(keys, start, step, end) && step > 0 && i < j < |keys|
    ensures start < keys[i] < keys[j] < end
  {
    MulMonotone(step, i + 2, j + 1);
    MulMonotone(step, 0, i);
    assert step * (i + 2) == step * (i + 1) + step && step * (i + 1) == step * i + step;
  }

  /** A shard that holds x is the one that division finds. */
  lemma {:induction false} OnlyShard(keys: seq<int>, start: int, step: nat, end: int, x: int, i: nat)
    requires Cuts(keys, start, step, end) && step > 0 && start <= x < end
    requires i <= |keys| && Low(keys, start, i) <= x < High(keys, end, i)
    ensures i == (x - start) / step
  {
    ShardSizes(keys, start, step, end, i);
    assert step * (i + 1) == step * i + step;
    MulUnique(step, x - start, i);
  }

  lemma {:induction false} ShardAt(keys: seq<int>, start: int, step: nat, end: int, x: int)
    requires Cuts(keys, start, step, end) && step > 0 && start <= x < end
    ensures var j := (x - start) / step; 0 <= j <= |keys| && Low(keys, start, j) <= x < High(keys, end, j)
  {
    var j := (x - start) / step;
    assert step * j <= x - start < step * j + step;
    if j > |keys| {
      MulMonotone(step, |keys| + 1, j);
    }
    ShardSizes(keys, start, step, end, j);
    assert step * (j + 1) == step * j + step;
  }

  /** Every element lies in exactly one shard. */
  lemma {:induction false} OneShardHolds(keys: seq<int>, start: int, step: nat, end: int, x: int) returns (j: nat)
    requires Cuts(keys, start, step, end) && step > 0 && start <= x < end
    ensures j <= |keys| && Low(keys, start, j) <= x < High(keys, end, j)
    ensures forall i: nat :: i <= |keys| && Low(keys, start, i) <= x < High(keys, end, i) ==> i == j
  {
    ShardAt(keys, start, step, end, x);
    j := (x - start) / step;
    forall i: nat | i <= |keys| && Low(keys, start, i) <= x < High(keys, end, i) ensures i == j {
      OnlyShard(keys, start, step, end, x, i);
    }
  }

  /** A shard of a heavy table stays within the shard size, rounded up to one more warehouse: in tenths of a megabyte
      below 20000 plus the size of a warehouse less ten. */
  lemma {:induction false} HeavyShardSize(warehouses: nat, t: Table, minShards: nat)
    requires minShards > 0 && TenthsPerWarehouse(t) > 0
    ensures WarehousesPerShard(warehouses, t, minShards) * TenthsPerWarehouse(t)
         <= DEFAULT_SHARD_SIZE_MB * 10 + TenthsPerWarehouse(t) - 10
  {
    var tenths := TenthsPerWarehouse(t);
    var bySize := (DEFAULT_SHARD_SIZE_MB * 10 + tenths - 10) / tenths;
    MulMonotone(tenths, WarehousesPerShard(warehouses, t, minShards), bySize);
  }

  // ---- the two callers ----

  /** Creating the tables: the keys are left out when there are none. */
  method GetSplitKeysStr(warehouses: nat, t: Table) returns (keys: seq<int>, minPartitions: nat)
    ensures minPartitions == MinPartitions(warehouses, t, |keys|)
    ensures minPartitions > |keys|
    ensures SplitAsConfigured(warehouses, t, keys)
  {
    var minParts := CalcMinParts(warehouses);
    keys := GetSplitKeys(warehouses, t, minParts);
    if |keys| == 0 {
      return keys, minParts;
    }
    minPartitions := if |keys| + 1 > minParts then |keys| + 1 else minParts;
  }

  /** Enabling split by load. */
  method EnableSplitOnLoad(warehouses: nat, t: Table) returns (minPartitions: nat)
    ensures forall keys :: SplitAsConfigured(warehouses, t, keys) ==>
              minPartitions == MinPartitions(warehouses, t, |keys|)
  {
    var minParts := CalcMinParts(warehouses);
    var split := GetSplitKeys(warehouses, t, minParts);
    minPartitions := if |split| + 1 > minParts then |split| + 1 else minParts;
    forall keys | SplitAsConfigured(warehouses, t, keys) ensures keys == split {
      SplitsAgree(warehouses, t, t, keys, split);
    }
  }

  ghost predicate SplitAsConfigured(warehouses: nat, t: Table, keys: seq<int>) {
    var step := StepOf(warehouses, t, CalcMinParts(warehouses));
    if step == 0 then keys == []
    else if t == Item then Cuts(keys, 0, step, ITEMS_NUM)
    else Cuts(keys, 1, step, warehouses + 1)
  }

  function MinPartitions(warehouses: nat, t: Table, keys: nat): nat {
    var minParts := CalcMinParts(warehouses);
    if keys + 1 > minParts then keys + 1 else minParts
  }

  /** The least number that is enough by load and more than the keys. */
  lemma {:induction false} MinPartitionsLeast(warehouses: nat, t: Table, keys: nat, n: nat)
    ensures n >= MinPartitions(warehouses, t, keys) <==> n >= CalcMinParts(warehouses) && n > keys
  {
  }

  /** How items and warehouses are cut: items by the greatest step of which the minimum number of shards fit, but by no
      less than a hundred; warehouses by what a shard takes, and not at all below two. */
  lemma {:induction false} StepExactly(warehouses: nat, t: Table, minShards: nat, n: nat)
    requires minShards > 0
    ensures t == Item ==> (n <= StepOf(warehouses, t, minShards) <==> n <= 100 || n * minShards <= 100000)
    ensures t != Item ==>
              var k := WarehousesPerShard(warehouses, t, minShards);
              (StepOf(warehouses, t, minShards) == 0 <==> k < 2) && (k >= 2 ==> StepOf(warehouses, t, minShards) == k)
  {
  }

  /** The table whose keys a table is created with: the small ones are created with those of `warehouse`. */
  function CreatedLike(t: Table): Table {
    match t
    case District => Warehouse
    case NewOrder => Warehouse
    case _ => t
  }

  /** Whatever keys the two commands compute for a table are the same, and so is the minimal number of partitions. */
  lemma {:induction false} CommandsAgree(warehouses: nat, t: Table, created: seq<int>, enabled: seq<int>)
    requires SplitAsConfigured(warehouses, CreatedLike(t), created) && SplitAsConfigured(warehouses, t, enabled)
    ensures created == enabled
    ensures MinPartitions(warehouses, CreatedLike(t), |created|) == MinPartitions(warehouses, t, |enabled|)
  {
    SplitsAgree(warehouses, CreatedLike(t), t, created, enabled);
  }

  /** A table's keys are determined by how it is cut. */
  lemma {:induction false} SplitsAgree(warehouses: nat, t1: Table, t2: Table, a: seq<int>, b: seq<int>)
    requires SplitAsConfigured(warehouses, t1, a) && SplitAsConfigured(warehouses, t2, b)
    requires t1 == t2 || CreatedLike(t2) == t1
    ensures a == b
  {
    var step := StepOf(warehouses, t2, CalcMinParts(warehouses));
    var start, end := if t2 == Item then 0 else 1, if t2 == Item then ITEMS_NUM else warehouses + 1;
    if step > 0 {
      SameCuts(a, b, start, step, end);
    }
  }

  lemma {:induction false} SameCuts(a: seq<int>, b: seq<int>, start: int, step: nat, end: int)
    requires Cuts(a, start, step, end) && Cuts(b, start, step, end)
    ensures a == b
  {
    NoLonger(a, b, start, step, end);
    NoLonger(b, a, start, step, end);
  }

  lemma {:induction false} NoLonger(a: seq<int>, b: seq<int>, start: int, step: nat, end: int)
    requires Cuts(a, start, step, end) && Cuts(b, start, step, end)
    ensures |a| <= |b|
  {
    if a != [] {
      var last := |a| - 1;
      assert a[last] == start + step * (last + 1) < end <= start + step * (|b| + 1);
      MulCancel(step, last + 1, |b| + 1);
    }
  }
}
