/** How the installers share the cores, memory and disks of a host among database instances. */
module HostSplits {

  // ---- shares ----

  /** The share of instance i: the quotient, at least `least`, and one more for the first `total % n` instances. */
  function Share(total: nat, n: nat, least: nat, i: nat): nat
    requires n > 0
  {
    Each(total, n, least) + (if i < total % n then 1 else 0)
  }

  function Each(total: nat, n: nat, least: nat): nat
    requires n > 0
  {
    if total / n >= least then total / n else least
  }

  /** The shares of the first k instances. */
  function SharesUpTo(total: nat, n: nat, least: nat, k: nat): nat
    requires n > 0
  {
    if k == 0 then 0 else SharesUpTo(total, n, least, k - 1) + Share(total, n, least, k - 1)
  }

  lemma {:induction false} SharesClosed(total: nat, n: nat, least: nat, k: nat)
    requires n > 0
    ensures SharesUpTo(total, n, least, k) == Each(total, n, least) * k + if k < total % n then k else total % n
  {
    if k == 0 {
      assert Each(total, n, least) * 0 == 0;
    } else {
      SharesClosed(total, n, least, k - 1);
      assert Each(total, n, least) * k == Each(total, n, least) * (k - 1) + Each(total, n, least);
    }
  }

  lemma {:induction false} AtLeastOne(total: nat, n: nat)
    requires n > 0
    ensures total >= n <==> total / n >= 1
    ensures total == total / n * n + total % n && total % n < n
  {
    var q := total / n;
    assert n * q + total % n == total;
    if q >= 1 {
      assert n * q >= n * 1;
    } else {
      assert q == 0;
    }
  }

  /** Shares of at least one add up to the total exactly when there are at least as many units as instances. */
  lemma {:induction false} SharesAddUp(total: nat, n: nat)
    requires n > 0
    ensures SharesUpTo(total, n, 1, n) == total <==> total >= n
    ensures SharesUpTo(total, n, 0, n) == total
  {
    AtLeastOne(total, n);
    SharesClosed(total, n, 1, n);
    SharesClosed(total, n, 0, n);
    assert Each(total, n, 0) == total / n;
    if total >= n {
      assert Each(total, n, 1) == total / n;
    } else {
      TooFew(total, n);
    }
  }

  lemma {:induction false} TooFew(total: nat, n: nat)
    requires total < n
    ensures total / n == 0 && total % n == total && Each(total, n, 1) * n == n
  {
    AtLeastOne(total, n);
    assert total / n * n == 0;
  }

  /** The first instances get the larger shares. */
  lemma {:induction false} SharesFall(total: nat, n: nat, least: nat, i: nat, j: nat)
    requires n > 0 && i <= j < n
    ensures Share(total, n, least, j) <= Share(total, n, least, i) <= Share(total, n, least, j) + 1
    ensures Share(total, n, least, i) >= least
  {
  }

  /** With fewer units than instances each gets one all the same, and as many as there are units one more. */
  lemma {:induction false} SharesWhenFew(total: nat, n: nat)
    requires total < n
    ensures SharesUpTo(total, n, 1, n) == n + total
  {
    TooFew(total, n);
    SharesClosed(total, n, 1, n);
  }

  // ---- core ranges ----

  /** Cores from `start` to `end`, both included. */
  datatype Cores = Cores(start: nat, end: int)

  /** The ranges follow each other from core 0, each as long as its share. */
  ghost predicate Chained(ranges: seq<Cores>, total: nat, n: nat, least: nat)
    requires n > 0
  {
    forall i :: 0 <= i < |ranges| ==>
      ranges[i].start == SharesUpTo(total, n, least, i) && ranges[i].end == SharesUpTo(total, n, least, i + 1) - 1
  }

  lemma {:induction false} SharesGrow(total: nat, n: nat, least: nat, i: nat, j: nat)
    requires n > 0 && i <= j
    ensures SharesUpTo(total, n, least, i) <= SharesUpTo(total, n, least, j)
  {
    if i < j {
      SharesGrow(total, n, least, i, j - 1);
    }
  }

  lemma {:induction false} FindShare(total: nat, n: nat, least: nat, k: nat, c: nat) returns (i: nat)
    requires n > 0 && c < SharesUpTo(total, n, least, k)
    ensures i < k && SharesUpTo(total, n, least, i) <= c < SharesUpTo(total, n, least, i + 1)
  {
    if c >= SharesUpTo(total, n, least, k - 1) {
      i := k - 1;
    } else {
      i := FindShare(total, n, least, k - 1, c);
    }
  }

  /** Every core of the host is in exactly one range. */
  lemma {:induction false} OneRangeHolds(ranges: seq<Cores>, total: nat, n: nat, least: nat, c: nat) returns (i: nat)
    requires n > 0 && |ranges| == n && Chained(ranges, total, n, least)
    requires c < total && SharesUpTo(total, n, least, n) == total
    ensures i < n && ranges[i].start <= c <= ranges[i].end
    ensures forall j: nat :: j < n && ranges[j].start <= c <= ranges[j].end ==> j == i
  {
    i := FindShare(total, n, least, n, c);
    forall j: nat | j < n && ranges[j].start <= c <= ranges[j].end ensures j == i {
      if j < i {
        SharesGrow(total, n, least, j + 1, i);
      } else if i < j {
        SharesGrow(total, n, least, i + 1, j);
      }
    }
  }

  /** The ranges end at the last core, and none is longer than another by more than one. */
  lemma {:induction false} RangesFit(ranges: seq<Cores>, total: nat, n: nat, least: nat, i: nat, j: nat)
    requires n > 0 && |ranges| == n && Chained(ranges, total, n, least)
    requires SharesUpTo(total, n, least, n) == total && i < n && j < n
    ensures ranges[n - 1].end == total - 1
    ensures (ranges[i].end - ranges[i].start) - (ranges[j].end - ranges[j].start) <= 1
    ensures least >= 1 ==> ranges[i].start <= ranges[i].end
  {
    assert SharesUpTo(total, n, least, i + 1) == SharesUpTo(total, n, least, i) + Share(total, n, least, i);
    assert SharesUpTo(total, n, least, j + 1) == SharesUpTo(total, n, least, j) + Share(total, n, least, j);
  }

  // ---- cockroach: one instance per disk ----

  datatype Instance = Instance(disk: string, port: nat, httpPort: nat, cores: Cores, cacheGb: nat, sqlMemoryGb: nat)

  datatype PerDisk = Instances(instances: seq<Instance>) | DivisionByZero

  function CoresOf(instances: seq<Instance>): (r: seq<Cores>)
    ensures |r| == |instances|
    ensures forall i :: 0 <= i < |instances| ==> r[i] == instances[i].cores
  {
    if instances == [] then [] else CoresOf(instances[..|instances| - 1]) + [instances[|instances| - 1].cores]
  }

  /** A counter that is taken down to zero by one an instance. */
  function Left(total: nat, n: nat, i: nat): nat
    requires n > 0
  {
    if i < total % n then total % n - i else 0
  }

  /** Instance i of n gets disk i, its own ports, and its shares. */
  ghost predicate InstanceOk(x: Instance, i: nat, disks: seq<string>, cores: nat, cacheGb: nat, sqlMemoryGb: nat,
                             port: nat, httpPort: nat)
  {
    var n := |disks|;
    && i < n
    && x.disk == disks[i] && x.port == port + i && x.httpPort == httpPort + i
    && x.cores == Cores(SharesUpTo(cores, n, 1, i), SharesUpTo(cores, n, 1, i + 1) - 1)
    && x.cacheGb == Share(cacheGb, n, 1, i)
    && x.sqlMemoryGb == Share(sqlMemoryGb, n, 1, i)
  }

  /** The loop over the disks of one host. */
  method RunPerDisk(disks: seq<string>, cores: nat, cacheGb: nat, sqlMemoryGb: nat,
                    listenPort: nat, listenHttpPort: nat)
    returns (r: PerDisk)
    ensures r.DivisionByZero? <==> disks == []
    ensures r.Instances? ==>
              && |r.instances| == |disks|
              && (forall i :: 0 <= i < |disks| ==>
                    InstanceOk(r.instances[i], i, disks, cores, cacheGb, sqlMemoryGb, listenPort, listenHttpPort))
              && Chained(CoresOf(r.instances), cores, |disks|, 1)
  {
    var n := |disks|;
    if n == 0 {
      return DivisionByZero;
    }
    var coresPerInstance := Each(cores, n, 1);
    var cachePerInstance := Each(cacheGb, n, 1);
    var sqlMemPerInstance := Each(sqlMemoryGb, n, 1);
    var port, httpPort, startCore := listenPort, listenHttpPort, 0;
    var sqlMemReminder, cacheReminder, coresReminder := sqlMemoryGb % n, cacheGb % n, cores % n;
    var instances: seq<Instance> := [];
    var i := 0;
    while i < n
      invariant 0 <= i <= n && |instances| == i
      invariant port == listenPort + i && httpPort == listenHttpPort + i
      invariant startCore == SharesUpTo(cores, n, 1, i)
      invariant coresReminder == Left(cores, n, i)
      invariant cacheReminder == Left(cacheGb, n, i) && sqlMemReminder == Left(sqlMemoryGb, n, i)
      invariant forall j :: 0 <= j < i ==>
        InstanceOk(instances[j], j, disks, cores, cacheGb, sqlMemoryGb, listenPort, listenHttpPort)
    {
      var endCore := startCore + coresPerInstance - 1 + (if coresReminder > 0 then 1 else 0);
      instances := instances + [Instance(disks[i], port, httpPort, Cores(startCore, endCore),
                                         cachePerInstance + (if cacheReminder > 0 then 1 else 0),
                                         sqlMemPerInstance + (if sqlMemReminder > 0 then 1 else 0))];
      port, httpPort, startCore := port + 1, httpPort + 1, endCore + 1;
      coresReminder := coresReminder - (if coresReminder > 0 then 1 else 0);
      cacheReminder := cacheReminder - (if cacheReminder > 0 then 1 else 0);
      sqlMemReminder := sqlMemReminder - (if sqlMemReminder > 0 then 1 else 0);
      i := i + 1;
    }
    r := Instances(instances);
    forall j | 0 <= j < n
      ensures CoresOf(instances)[j] == Cores(SharesUpTo(cores, n, 1, j), SharesUpTo(cores, n, 1, j + 1) - 1)
    {
      assert InstanceOk(instances[j], j, disks, cores, cacheGb, sqlMemoryGb, listenPort, listenHttpPort);
    }
  }

  function CacheTotal(instances: seq<Instance>): nat {
    if instances == [] then 0 else CacheTotal(instances[..|instances| - 1]) + instances[|instances| - 1].cacheGb
  }

  function SqlMemoryTotal(instances: seq<Instance>): nat {
    if instances == [] then 0 else SqlMemoryTotal(instances[..|instances| - 1]) + instances[|instances| - 1].sqlMemoryGb
  }

  lemma {:induction false} MemoryUpTo(instances: seq<Instance>, disks: seq<string>, cores: nat, cacheGb: nat,
                                      sqlMemoryGb: nat, port: nat, httpPort: nat)
    requires disks != [] && |instances| <= |disks|
    requires forall i :: 0 <= i < |instances| ==>
               InstanceOk(instances[i], i, disks, cores, cacheGb, sqlMemoryGb, port, httpPort)
    ensures CacheTotal(instances) == SharesUpTo(cacheGb, |disks|, 1, |instances|)
    ensures SqlMemoryTotal(instances) == SharesUpTo(sqlMemoryGb, |disks|, 1, |instances|)
  {
    if instances != [] {
      var last := |instances| - 1;
      MemoryUpTo(instances[..last], disks, cores, cacheGb, sqlMemoryGb, port, httpPort);
      assert InstanceOk(instances[last], last, disks, cores, cacheGb, sqlMemoryGb, port, httpPort);
    }
  }

  /** The memory given out is the memory there is exactly when every instance can have a gigabyte. */
  lemma {:induction false} MemorySplitExact(instances: seq<Instance>, disks: seq<string>, cores: nat, cacheGb: nat,
                                            sqlMemoryGb: nat, port: nat, httpPort: nat)
    requires disks != [] && |instances| == |disks|
    requires forall i :: 0 <= i < |instances| ==>
               InstanceOk(instances[i], i, disks, cores, cacheGb, sqlMemoryGb, port, httpPort)
    ensures CacheTotal(instances) == cacheGb <==> cacheGb >= |disks|
    ensures SqlMemoryTotal(instances) == sqlMemoryGb <==> sqlMemoryGb >= |disks|
  {
    MemoryUpTo(instances, disks, cores, cacheGb, sqlMemoryGb, port, httpPort);
    SharesAddUp(cacheGb, |disks|);
    SharesAddUp(sqlMemoryGb, |disks|);
  }

  // ---- yugabyte: several tservers per host ----

  /** A tserver runs on configured cores or on its range of them, and on its own disks. */
  datatype TaskSet = Configured(cpus: string) | Range(cores: Cores)

  datatype Tserver = Tserver(dirs: seq<string>, taskSet: TaskSet, port: nat)

  datatype Started =
    | Tservers(servers: seq<Tserver>)
    | NotEnoughDisks
    | DisksNotMultiple
    | TaskSetsMismatch
    | TaskSetUnbound

  /** The disks from each * i on, as many as `each`. */
  predicate HasSlice(x: Tserver, mounts: seq<string>, each: nat, i: nat) {
    each * i + each <= |mounts| && x.dirs == mounts[each * i..each * i + each]
  }

  ghost predicate TserverOk(x: Tserver, i: nat, mounts: seq<string>, cores: nat, n: nat, taskSets: seq<string>,
                            port: nat)
    requires n > 0
  {
    var each := |mounts| / n;
    && HasSlice(x, mounts, each, i)
    && x.port == port + i
    && (taskSets == [] ==>
          x.taskSet == Range(Cores(SharesUpTo(cores, n, 0, i), SharesUpTo(cores, n, 0, i + 1) - 1)))
    && (taskSets != [] ==> i < |taskSets| && x.taskSet == Configured(taskSets[i]))
  }

  /** The checks of the constructor and, on one host, the start of its tservers. A single tserver is started on all
      disks, and without task sets its variable is never bound. */
  method StartTservers(mounts: seq<string>, cores: nat, perHost: nat, taskSets: seq<string>, listenPort: nat)
    returns (r: Started)
    ensures r.NotEnoughDisks? <==> perHost > 1 && |mounts| < perHost
    ensures r.DisksNotMultiple? <==> perHost > 1 && |mounts| >= perHost && |mounts| % perHost != 0
    ensures r.TaskSetsMismatch? <==>
              && (perHost > 1 ==> |mounts| >= perHost && |mounts| % perHost == 0)
              && taskSets != [] && |taskSets| != perHost
    ensures r.TaskSetUnbound? <==> perHost <= 1 && taskSets == []
    ensures r.Tservers? && perHost > 1 ==>
              && |r.servers| == perHost
              && |mounts| % perHost == 0
              && forall i :: 0 <= i < perHost ==>
                   TserverOk(r.servers[i], i, mounts, cores, perHost, taskSets, listenPort)
    ensures r.Tservers? && perHost <= 1 ==> r.servers == [Tserver(mounts, Configured(taskSets[0]), listenPort)]
  {
    if perHost > 1 {
      if |mounts| < perHost {
        return NotEnoughDisks;
      }
      if |mounts| % perHost != 0 {
        return DisksNotMultiple;
      }
    }
    if taskSets != [] && |taskSets| != perHost {
      return TaskSetsMismatch;
    }
    if perHost <= 1 {
      if taskSets == [] {
        return TaskSetUnbound;
      }
      return Tservers([Tserver(mounts, Configured(taskSets[0]), listenPort)]);
    }
    var servers := StartLoop(mounts, cores, perHost, taskSets, listenPort);
    return Tservers(servers);
  }

  /** The directories of one instance. */
  method InstanceDirs(mounts: seq<string>, each: nat, i: nat) returns (dirs: seq<string>)
    requires each * i + each <= |mounts|
    ensures dirs == mounts[each * i..each * i + each]
  {
    assert i * each == each * i && (i + 1) * each == each * i + each;
    dirs := mounts[i * each..(i + 1) * each];
  }

  /** The tserver of one turn of the loop. */
  method StartOne(mounts: seq<string>, each: nat, taskSets: seq<string>, i: nat, startCore: nat, endCore: int,
                  port: nat, ghost cores: nat, ghost n: nat)
    returns (x: Tserver)
    requires i < n && each == |mounts| / n && (taskSets != [] ==> |taskSets| == n)
    requires startCore == SharesUpTo(cores, n, 0, i) && endCore == SharesUpTo(cores, n, 0, i + 1) - 1
    ensures port >= i ==> TserverOk(x, i, mounts, cores, n, taskSets, port - i)
  {
    SliceInRange(|mounts|, n, i);
    var dirs := InstanceDirs(mounts, each, i);
    x := Tserver(dirs, if taskSets != [] then Configured(taskSets[i]) else Range(Cores(startCore, endCore)), port);
  }

  lemma {:induction false} NextShare(total: nat, n: nat, i: nat)
    requires i < n
    ensures SharesUpTo(total, n, 0, i + 1)
         == SharesUpTo(total, n, 0, i) + total / n + if Left(total, n, i) > 0 then 1 else 0
    ensures Left(total, n, i + 1) == Left(total, n, i) - if Left(total, n, i) > 0 then 1 else 0
  {
  }

  method StartLoop(mounts: seq<string>, cores: nat, n: nat, taskSets: seq<string>, listenPort: nat)
    returns (servers: seq<Tserver>)
    requires n > 1 && (taskSets != [] ==> |taskSets| == n)
    ensures |servers| == n
    ensures forall i :: 0 <= i < n ==> TserverOk(servers[i], i, mounts, cores, n, taskSets, listenPort)
  {
    var coresPerInstance, disksPerInstance := cores / n, |mounts| / n;
    var startCore, port, coresReminder := 0, listenPort, cores % n;
    servers := [];
    var i := 0;
    while i < n
      invariant 0 <= i <= n && |servers| == i
      invariant startCore == SharesUpTo(cores, n, 0, i) && port == listenPort + i && coresReminder == Left(cores, n, i)
      invariant forall j :: 0 <= j < i ==> TserverOk(servers[j], j, mounts, cores, n, taskSets, listenPort)
    {
      NextShare(cores, n, i);
      var endCore := startCore + coresPerInstance - 1 + (if coresReminder > 0 then 1 else 0);
      var server := StartOne(mounts, disksPerInstance, taskSets, i, startCore, endCore, port, cores, n);
      servers := servers + [server];
      port := port + 1;
      startCore := endCore + 1;
      coresReminder := coresReminder - (if coresReminder > 0 then 1 else 0);
      i := i + 1;
    }
  }

  lemma {:induction false} SliceInRange(disks: nat, n: nat, i: nat)
    requires i < n
    ensures disks / n * i + disks / n <= disks
  {
    AtLeastOne(disks, n);
    SlicesFit(disks / n, i, n);
  }

  lemma {:induction false} SlicesFit(each: nat, i: nat, n: nat)
    requires i < n
    ensures each * i + each <= each * n
  {
    if i + 1 < n {
      SlicesFit(each, i, n - 1);
      assert each * n == each * (n - 1) + each;
    } else {
      assert each * n == each * i + each;
    }
  }

  function AllDirs(servers: seq<Tserver>): seq<string> {
    if servers == [] then [] else AllDirs(servers[..|servers| - 1]) + servers[|servers| - 1].dirs
  }

  lemma {:induction false} DirsUpTo(servers: seq<Tserver>, mounts: seq<string>, each: nat)
    requires forall i :: 0 <= i < |servers| ==> HasSlice(servers[i], mounts, each, i)
    ensures each * |servers| <= |mounts|
    ensures AllDirs(servers) == mounts[..each * |servers|]
  {
    if servers == [] {
      assert each * 0 == 0;
    } else {
      var last := |servers| - 1;
      DirsUpTo(servers[..last], mounts, each);
      assert HasSlice(servers[last], mounts, each, last);
      NextSlice(mounts, each, last);
    }
  }

  lemma {:induction false} NextSlice(mounts: seq<string>, each: nat, i: nat)
    requires each * i + each <= |mounts|
    ensures each * (i + 1) == each * i + each
    ensures mounts[..each * i] + mounts[each * i..each * i + each] == mounts[..each * (i + 1)]
  {
    assert each * (i + 1) == each * i + each;
  }

  /** The disks of the tservers, one after the other, are the disks of the host. */
  lemma {:induction false} DisksPartitioned(servers: seq<Tserver>, mounts: seq<string>, cores: nat, n: nat,
                                            taskSets: seq<string>, port: nat)
    requires n > 0 && |servers| == n && |mounts| % n == 0
    requires forall i :: 0 <= i < n ==> TserverOk(servers[i], i, mounts, cores, n, taskSets, port)
    ensures AllDirs(servers) == mounts
    ensures forall i :: 0 <= i < n ==> |servers[i].dirs| == |mounts| / n
  {
    forall i | 0 <= i < n ensures HasSlice(servers[i], mounts, |mounts| / n, i) {
      assert TserverOk(servers[i], i, mounts, cores, n, taskSets, port);
    }
    DirsUpTo(servers, mounts, |mounts| / n);
    AtLeastOne(|mounts|, n);
  }

  /** With fewer cores than tservers some range is empty; with enough, none is. */
  lemma {:induction false} RangesNonempty(cores: nat, n: nat)
    requires n > 0
    ensures cores >= n <==> forall i :: 0 <= i < n ==> SharesUpTo(cores, n, 0, i) < SharesUpTo(cores, n, 0, i + 1)
  {
    AtLeastOne(cores, n);
    if cores < n {
      assert SharesUpTo(cores, n, 0, n) == SharesUpTo(cores, n, 0, n - 1) + Share(cores, n, 0, n - 1);
      assert !(SharesUpTo(cores, n, 0, n - 1) < SharesUpTo(cores, n, 0, (n - 1) + 1));
    }
  }
}
