/** Machine sizing of a run: internal/domain/run/machines.go. */
module Machines {
  import opened Wrappers
  import opened Config

  /** The fields of a run configuration that sizing reads or writes. */
  datatype Sizing = Sizing(
    machines: seq<MachineSpec>,
    machineOverride: Option<MachineSpec>,
    database: Database,
    stroppyMachine: Option<MachineSpec>)

  // ---- the override ----

  /** applyOverride: a positive value of the override wins. */
  function Override(orig: int, ov: Option<MachineSpec>, field: MachineSpec -> int): int {
    if ov.Some? && field(ov.value) > 0 then field(ov.value) else orig
  }

  function Cpus(orig: int, ov: Option<MachineSpec>): int {
    Override(orig, ov, (m: MachineSpec) => m.cpus)
  }

  function Memory(orig: int, ov: Option<MachineSpec>): int {
    Override(orig, ov, (m: MachineSpec) => m.memoryMB)
  }

  function Disk(orig: int, ov: Option<MachineSpec>): int {
    Override(orig, ov, (m: MachineSpec) => m.diskGB)
  }

  // ---- BakeMachineOverrideIntoTopology ----

  function BakedSpec(m: MachineSpec, ov: MachineSpec): MachineSpec {
    m.(cpus := if ov.cpus > 0 then ov.cpus else m.cpus,
       memoryMB := if ov.memoryMB > 0 then ov.memoryMB else m.memoryMB,
       diskGB := if ov.diskGB > 0 then ov.diskGB else m.diskGB,
       diskType := if ov.diskType != "" then ov.diskType else m.diskType)
  }

  function BakedSpecs(ms: seq<MachineSpec>, ov: MachineSpec): seq<MachineSpec> {
    seq(|ms|, i requires 0 <= i < |ms| => BakedSpec(ms[i], ov))
  }

  function BakedDatabase(db: Database, ov: MachineSpec): Database {
    match db.kind
    case Postgres =>
      if db.postgres.None? then db
      else
        var t := db.postgres.value;
        db.(postgres := Some(t.(master := BakedSpec(t.master, ov), replicas := BakedSpecs(t.replicas, ov))))
    case MySQL =>
      if db.mysql.None? then db
      else
        var t := db.mysql.value;
        db.(mysql := Some(t.(primary := BakedSpec(t.primary, ov), replicas := BakedSpecs(t.replicas, ov))))
    case Picodata =>
      if db.picodata.None? then db
      else
        var t := db.picodata.value;
        db.(picodata := Some(t.(instances := BakedSpecs(t.instances, ov))))
    case YDB =>
      if db.ydb.None? then db
      else
        var t := db.ydb.value;
        db.(ydb := Some(t.(storage := BakedSpec(t.storage, ov),
                           database := if t.database.Some? then Some(BakedSpec(t.database.value, ov)) else None)))
    case OtherKind(_) => db
  }

  function Baked(s: Sizing): Sizing {
    if s.machineOverride.None? then s
    else s.(database := BakedDatabase(s.database, s.machineOverride.value), machineOverride := None)
  }

  // ---- FillMachinesFromTopology ----

  function SumCounts(ms: seq<MachineSpec>): int {
    if ms == [] then 0 else SumCounts(ms[..|ms| - 1]) + ms[|ms| - 1].count
  }

  function DatabaseMachine(count: int, m: MachineSpec, ov: Option<MachineSpec>): MachineSpec {
    MachineSpec(RoleDatabase, count, Cpus(m.cpus, ov), Memory(m.memoryMB, ov), Disk(m.diskGB, ov), m.diskType,
        m.secondaryDisks)
  }

  function InstanceMachines(ms: seq<MachineSpec>, ov: Option<MachineSpec>): seq<MachineSpec> {
    seq(|ms|, i requires 0 <= i < |ms| => DatabaseMachine(ms[i].count, ms[i], ov))
  }

  function Optional(m: Option<MachineSpec>): seq<MachineSpec> {
    if m.Some? then [m.value] else []
  }

  function Max(a: int, b: int): int {
    if b > a then b else a
  }

  /** Storage and database nodes of YDB share machines: the larger of the two in everything. */
  function Larger(storage: MachineSpec, database: Option<MachineSpec>): MachineSpec {
    if database.None? then storage
    else
      var d := database.value;
      storage.(count := Max(storage.count, d.count), cpus := Max(storage.cpus, d.cpus),
               memoryMB := Max(storage.memoryMB, d.memoryMB), diskGB := Max(storage.diskGB, d.diskGB))
  }

  /** The machines of the database role. */
  function DatabaseMachines(db: Database, ov: Option<MachineSpec>): seq<MachineSpec> {
    match db.kind
    case Postgres =>
      if db.postgres.None? then []
      else
        var t := db.postgres.value;
        [DatabaseMachine(t.master.count + SumCounts(t.replicas), t.master, ov)]
    case MySQL =>
      if db.mysql.None? then []
      else
        var t := db.mysql.value;
        [DatabaseMachine(t.primary.count + SumCounts(t.replicas), t.primary, ov)]
    case Picodata =>
      if db.picodata.None? then [] else InstanceMachines(db.picodata.value.instances, ov)
    case YDB =>
      if db.ydb.None? then []
      else
        var m := Larger(db.ydb.value.storage, db.ydb.value.database);
        [DatabaseMachine(m.count, m, ov)]
    case OtherKind(_) => []
  }

  function ProxyMachines(db: Database): seq<MachineSpec> {
    match db.kind
    case Postgres => if db.postgres.None? then [] else Optional(db.postgres.value.haproxy)
    case MySQL => if db.mysql.None? then [] else Optional(db.mysql.value.proxySQL)
    case Picodata => if db.picodata.None? then [] else Optional(db.picodata.value.haproxy)
    case YDB => if db.ydb.None? then [] else Optional(db.ydb.value.haproxy)
    case OtherKind(_) => []
  }

  function StroppySpec(custom: Option<MachineSpec>): MachineSpec {
    if custom.Some? then custom.value.(role := RoleStroppy, count := 1)
    else MachineSpec(RoleStroppy, 1, 2, 4096, 20, "", [])
  }

  function DerivedMachines(s: Sizing): seq<MachineSpec> {
    DatabaseMachines(s.database, s.machineOverride) + ProxyMachines(s.database) + [StroppySpec(s.stroppyMachine)]
  }

  function Filled(s: Sizing): Sizing {
    if s.machines != [] then s else s.(machines := DerivedMachines(s))
  }

  // ---- the configuration, changed in place ----

  class RunConfig {
    var machines: seq<MachineSpec>
    var machineOverride: Option<MachineSpec>
    var database: Database
    var stroppyMachine: Option<MachineSpec>

    constructor (s: Sizing)
      ensures View() == s
    {
      machines, machineOverride, database, stroppyMachine :=
          s.machines, s.machineOverride, s.database, s.stroppyMachine;
    }

    ghost function View(): Sizing
      reads this
    {
      Sizing(machines, machineOverride, database, stroppyMachine)
    }

    method Bake()
      modifies this
      ensures View() == Baked(old(View()))
    {
      if machineOverride.None? {
        return;
      }
      var ov := machineOverride.value;
      match database.kind {
        case Postgres =>
          if database.postgres.Some? {
            var t := database.postgres.value;
            var replicas := ApplyAll(t.replicas, ov);
            database := database.(postgres := Some(t.(master := BakedSpec(t.master, ov), replicas := replicas)));
          }
        case MySQL =>
          if database.mysql.Some? {
            var t := database.mysql.value;
            var replicas := ApplyAll(t.replicas, ov);
            database := database.(mysql := Some(t.(primary := BakedSpec(t.primary, ov), replicas := replicas)));
          }
        case Picodata =>
          if database.picodata.Some? {
            var t := database.picodata.value;
            var instances := ApplyAll(t.instances, ov);
            database := database.(picodata := Some(t.(instances := instances)));
          }
        case YDB =>
          if database.ydb.Some? {
            var t := database.ydb.value;
            t := t.(storage := BakedSpec(t.storage, ov));
            if t.database.Some? {
              t := t.(database := Some(BakedSpec(t.database.value, ov)));
            }
            database := database.(ydb := Some(t));
          }
        case OtherKind(_) =>
      }
      machineOverride := None;
    }

    method Fill()
      modifies this`machines
      ensures View() == Filled(old(View()))
    {
      if |machines| > 0 {
        return;
      }
      match database.kind {
        case Postgres =>
          if database.postgres.Some? { FillPostgres(database.postgres.value); }
        case MySQL =>
          if database.mysql.Some? { FillMySQL(database.mysql.value); }
        case Picodata =>
          if database.picodata.Some? { FillPicodata(database.picodata.value); }
        case YDB =>
          if database.ydb.Some? { FillYDB(database.ydb.value); }
        case OtherKind(_) =>
      }
      assert machines == DatabaseMachines(database, machineOverride) + ProxyMachines(database);
      var stroppySpec := MachineSpec(RoleStroppy, 1, 2, 4096, 20, "", []);
      if stroppyMachine.Some? {
        stroppySpec := stroppyMachine.value;
        stroppySpec := stroppySpec.(role := RoleStroppy, count := 1);
      }
      machines := machines + [stroppySpec];
    }

    method FillPostgres(t: PostgresTopology)
      modifies this`machines
      ensures machines == old(machines)
                          + [DatabaseMachine(t.master.count + SumCounts(t.replicas), t.master, machineOverride)]
                          + Optional(t.haproxy)
    {
      var dbCount := AddCounts(t.master.count, t.replicas);
      machines := machines + [DatabaseMachine(dbCount, t.master, machineOverride)];
      if t.haproxy.Some? {
        machines := machines + [t.haproxy.value];
      }
    }

    method FillMySQL(t: MySQLTopology)
      modifies this`machines
      ensures machines == old(machines)
                          + [DatabaseMachine(t.primary.count + SumCounts(t.replicas), t.primary, machineOverride)]
                          + Optional(t.proxySQL)
    {
      var dbCount := AddCounts(t.primary.count, t.replicas);
      machines := machines + [DatabaseMachine(dbCount, t.primary, machineOverride)];
      if t.proxySQL.Some? {
        machines := machines + [t.proxySQL.value];
      }
    }

    method FillPicodata(t: PicodataTopology)
      modifies this`machines
      ensures machines == old(machines) + InstanceMachines(t.instances, machineOverride) + Optional(t.haproxy)
    {
      for i := 0 to |t.instances|
        invariant machines == old(machines) + InstanceMachines(t.instances[..i], machineOverride)
      {
        machines := machines + [DatabaseMachine(t.instances[i].count, t.instances[i], machineOverride)];
      }
      assert t.instances[..|t.instances|] == t.instances;
      if t.haproxy.Some? {
        machines := machines + [t.haproxy.value];
      }
    }

    method FillYDB(t: YDBTopology)
      modifies this`machines
      ensures var m := Larger(t.storage, t.database);
              machines == old(machines) + [DatabaseMachine(m.count, m, machineOverride)] + Optional(t.haproxy)
    {
      var m := t.storage;
      if t.database.Some? {
        var d := t.database.value;
        if d.count > m.count { m := m.(count := d.count); }
        if d.cpus > m.cpus { m := m.(cpus := d.cpus); }
        if d.memoryMB > m.memoryMB { m := m.(memoryMB := d.memoryMB); }
        if d.diskGB > m.diskGB { m := m.(diskGB := d.diskGB); }
      }
      machines := machines + [DatabaseMachine(m.count, m, machineOverride)];
      if t.haproxy.Some? {
        machines := machines + [t.haproxy.value];
      }
    }
  }

  /** The loop `apply(&specs[i])`. */
  method ApplyAll(specs: seq<MachineSpec>, ov: MachineSpec) returns (r: seq<MachineSpec>)
    ensures r == BakedSpecs(specs, ov)
  {
    r := specs;
    for i := 0 to |specs|
      invariant |r| == |specs|
      invariant forall k :: 0 <= k < |specs| ==> r[k] == if k < i then BakedSpec(specs[k], ov) else specs[k]
    {
      r := r[i := BakedSpec(r[i], ov)];
    }
  }

  method AddCounts(count: int, replicas: seq<MachineSpec>) returns (r: int)
    ensures r == count + SumCounts(replicas)
  {
    r := count;
    for i := 0 to |replicas|
      invariant r == count + SumCounts(replicas[..i])
    {
      assert replicas[..i + 1][..i] == replicas[..i];
      r := r + replicas[i].count;
    }
    assert replicas[..|replicas|] == replicas;
  }

  // ---- the two paths agree ----

  /** The specs whose disk type Fill copies. */
  function DiskTypesRead(db: Database): set<string> {
    match db.kind
    case Postgres => if db.postgres.None? then {} else {db.postgres.value.master.diskType}
    case MySQL => if db.mysql.None? then {} else {db.mysql.value.primary.diskType}
    case Picodata => if db.picodata.None? then {} else set m | m in db.picodata.value.instances :: m.diskType
    case YDB => if db.ydb.None? then {} else {db.ydb.value.storage.diskType}
    case OtherKind(_) => {}
  }

  lemma {:induction false} BakedCounts(ms: seq<MachineSpec>, ov: MachineSpec)
    ensures SumCounts(BakedSpecs(ms, ov)) == SumCounts(ms)
  {
    if ms != [] {
      BakedCounts(ms[..|ms| - 1], ov);
      assert BakedSpecs(ms, ov)[..|ms| - 1] == BakedSpecs(ms[..|ms| - 1], ov);
    }
  }

  /** One database machine: baking first gives the same machine up to the disk type. */
  lemma MachineAgrees(m: MachineSpec, ov: MachineSpec, count: int)
    ensures DatabaseMachine(count, BakedSpec(m, ov), None) ==
              DatabaseMachine(count, m, Some(ov)).(diskType := BakedSpec(m, ov).diskType)
  {
  }

  lemma YdbAgrees(storage: MachineSpec, database: Option<MachineSpec>, ov: MachineSpec)
    ensures var bakedDatabase := if database.Some? then Some(BakedSpec(database.value, ov)) else None;
            var baked := Larger(BakedSpec(storage, ov), bakedDatabase);
            var m := Larger(storage, database);
            DatabaseMachine(baked.count, baked, None) ==
            DatabaseMachine(m.count, m, Some(ov)).(diskType := BakedSpec(storage, ov).diskType)
  {
  }

  lemma DatabaseMachinesAgree(db: Database, ov: MachineSpec)
    ensures DatabaseMachines(BakedDatabase(db, ov), None) == DatabaseMachines(db, Some(ov)) <==>
            ov.diskType == "" || DiskTypesRead(db) <= {ov.diskType}
  {
    match db.kind
    case Postgres =>
      if db.postgres.Some? {
        var t := db.postgres.value;
        BakedCounts(t.replicas, ov);
        MachineAgrees(t.master, ov, t.master.count + SumCounts(t.replicas));
      }
    case MySQL =>
      if db.mysql.Some? {
        var t := db.mysql.value;
        BakedCounts(t.replicas, ov);
        MachineAgrees(t.primary, ov, t.primary.count + SumCounts(t.replicas));
      }
    case Picodata =>
      if db.picodata.Some? {
        var ms := db.picodata.value.instances;
        InstancesAgree(ms, ov);
        assert forall m :: m in ms ==> m.diskType in DiskTypesRead(db);
      }
    case YDB =>
      if db.ydb.Some? {
        YdbAgrees(db.ydb.value.storage, db.ydb.value.database, ov);
      }
    case OtherKind(_) =>
  }

  lemma InstancesAgree(ms: seq<MachineSpec>, ov: MachineSpec)
    ensures InstanceMachines(BakedSpecs(ms, ov), None) == InstanceMachines(ms, Some(ov)) <==>
            ov.diskType == "" || forall m :: m in ms ==> m.diskType == ov.diskType
  {
    var a, b := InstanceMachines(BakedSpecs(ms, ov), None), InstanceMachines(ms, Some(ov));
    forall i | 0 <= i < |ms|
      ensures a[i] == b[i] <==> ov.diskType == "" || ms[i].diskType == ov.diskType
    {
      MachineAgrees(ms[i], ov, ms[i].count);
    }
    if a == b {
      forall m | m in ms && ov.diskType != ""
        ensures m.diskType == ov.diskType
      {
        var i :| 0 <= i < |ms| && ms[i] == m;
        assert a[i] == b[i];
      }
    }
  }

  /** Baking leaves the proxies alone. */
  lemma ProxiesAgree(db: Database, ov: MachineSpec)
    ensures ProxyMachines(BakedDatabase(db, ov)) == ProxyMachines(db)
  {
  }

  /** The previewed run and the started run get the same machines exactly when the machines are
      explicit, or no override gives a disk type that a spec Fill reads does not already have. */
  lemma BakeFillExact(s: Sizing)
    ensures Filled(Baked(s)).machines == Filled(s).machines <==>
            || s.machines != []
            || s.machineOverride.None?
            || s.machineOverride.value.diskType == ""
            || DiskTypesRead(s.database) <= {s.machineOverride.value.diskType}
  {
    if s.machines == [] && s.machineOverride.Some? {
      var ov := s.machineOverride.value;
      var a, b := DatabaseMachines(BakedDatabase(s.database, ov), None), DatabaseMachines(s.database, Some(ov));
      var rest := ProxyMachines(s.database) + [StroppySpec(s.stroppyMachine)];
      ProxiesAgree(s.database, ov);
      DatabaseMachinesAgree(s.database, ov);
      assert Filled(Baked(s)).machines == a + rest && Filled(s).machines == b + rest;
      SameWithoutRest(a, b, rest);
    }
  }

  lemma SameWithoutRest(a: seq<MachineSpec>, b: seq<MachineSpec>, rest: seq<MachineSpec>)
    ensures a + rest == b + rest <==> a == b
  {
    if a + rest == b + rest {
      assert |a| == |b|;
      assert a == (a + rest)[..|a|] && b == (b + rest)[..|b|];
    }
  }

  /** With a disk type in the override the paths differ for a plain Postgres master. */
  lemma DiskTypeIsLost(master: MachineSpec, ov: MachineSpec)
    requires ov.diskType != "" && master.diskType != ov.diskType
    ensures var topology := PostgresTopology(master, [], None, false, false, false);
            var db := Database(Postgres, Some(topology), None, None, None);
            var s := Sizing([], Some(ov), db, None);
            Filled(Baked(s)).machines[0].diskType == ov.diskType && Filled(s).machines[0].diskType == master.diskType
  {
  }

  lemma FillIdempotent(s: Sizing)
    ensures Filled(Filled(s)) == Filled(s) && Filled(s).machines != []
    ensures Filled(s) == s.(machines := if s.machines != [] then s.machines else Filled(s).machines)
  {
  }

  /** Baking twice, or after filling, changes nothing more: the second call finds no override. */
  lemma BakeIdempotent(s: Sizing)
    ensures Baked(Baked(s)) == Baked(s) && Baked(Filled(s)).machines == Filled(s).machines
  {
  }

  // ---- counting ----

  function OfDatabase(ms: seq<MachineSpec>): seq<MachineSpec> {
    if ms == [] then []
    else OfDatabase(ms[..|ms| - 1]) + if ms[|ms| - 1].role == RoleDatabase then [ms[|ms| - 1]] else []
  }

  /** The number of database machines the topology asks for. */
  function TopologyCount(db: Database): int {
    match db.kind
    case Postgres => if db.postgres.None? then 0 else SumCounts([db.postgres.value.master] + db.postgres.value.replicas)
    case MySQL => if db.mysql.None? then 0 else SumCounts([db.mysql.value.primary] + db.mysql.value.replicas)
    case Picodata => if db.picodata.None? then 0 else SumCounts(db.picodata.value.instances)
    case YDB =>
      if db.ydb.None? then 0
      else if db.ydb.value.database.None? then db.ydb.value.storage.count
      else Max(db.ydb.value.storage.count, db.ydb.value.database.value.count)
    case OtherKind(_) => 0
  }

  lemma {:induction false} SumConcat(a: seq<MachineSpec>, b: seq<MachineSpec>)
    ensures SumCounts(a + b) == SumCounts(a) + SumCounts(b)
  {
    if b == [] {
      assert a + b == a;
    } else {
      assert (a + b)[..|a + b| - 1] == a + b[..|b| - 1];
      SumConcat(a, b[..|b| - 1]);
    }
  }

  lemma {:induction false} OfDatabaseConcat(a: seq<MachineSpec>, b: seq<MachineSpec>)
    ensures OfDatabase(a + b) == OfDatabase(a) + OfDatabase(b)
  {
    if b == [] {
      assert a + b == a;
    } else {
      assert (a + b)[..|a + b| - 1] == a + b[..|b| - 1];
      OfDatabaseConcat(a, b[..|b| - 1]);
    }
  }

  lemma {:induction false} AllOfDatabase(ms: seq<MachineSpec>)
    requires forall i :: 0 <= i < |ms| ==> ms[i].role == RoleDatabase
    ensures OfDatabase(ms) == ms
  {
    if ms != [] { AllOfDatabase(ms[..|ms| - 1]); }
  }

  lemma {:induction false} NoneOfDatabase(ms: seq<MachineSpec>)
    requires forall i :: 0 <= i < |ms| ==> ms[i].role != RoleDatabase
    ensures OfDatabase(ms) == []
  {
    if ms != [] { NoneOfDatabase(ms[..|ms| - 1]); }
  }

  lemma {:induction false} InstanceCounts(ms: seq<MachineSpec>, ov: Option<MachineSpec>)
    ensures SumCounts(InstanceMachines(ms, ov)) == SumCounts(ms)
  {
    if ms != [] {
      InstanceCounts(ms[..|ms| - 1], ov);
      assert InstanceMachines(ms, ov)[..|ms| - 1] == InstanceMachines(ms[..|ms| - 1], ov);
    }
  }

  lemma SumOne(m: MachineSpec)
    ensures SumCounts([m]) == m.count
  {
    assert [m][..0] == [];
  }

  lemma DatabaseCounts(db: Database, ov: Option<MachineSpec>)
    ensures SumCounts(DatabaseMachines(db, ov)) == TopologyCount(db)
  {
    match db.kind
    case Postgres =>
      if db.postgres.Some? {
        var t := db.postgres.value;
        SumConcat([t.master], t.replicas);
        SumOne(t.master);
        SumOne(DatabaseMachines(db, ov)[0]);
      }
    case MySQL =>
      if db.mysql.Some? {
        var t := db.mysql.value;
        SumConcat([t.primary], t.replicas);
        SumOne(t.primary);
        SumOne(DatabaseMachines(db, ov)[0]);
      }
    case Picodata =>
      if db.picodata.Some? { InstanceCounts(db.picodata.value.instances, ov); }
    case YDB =>
      if db.ydb.Some? { SumOne(DatabaseMachines(db, ov)[0]); }
    case OtherKind(_) =>
  }

  /** The derived machines of the database role: as many as the topology asks for, whether
      filled as they are or baked first, and a proxy's own where its spec claims that role. */
  lemma DatabaseRoleCount(s: Sizing)
    requires s.machines == []
    ensures var expected := TopologyCount(s.database) + SumCounts(OfDatabase(ProxyMachines(s.database)));
            && SumCounts(OfDatabase(Filled(s).machines)) == expected
            && SumCounts(OfDatabase(Filled(Baked(s)).machines)) == expected
  {
    DerivedCount(s);
    if s.machineOverride.Some? {
      ProxiesAgree(s.database, s.machineOverride.value);
      DerivedCount(Baked(s));
      BakedTopologyCount(s.database, s.machineOverride.value);
    }
  }

  lemma DerivedCount(s: Sizing)
    ensures SumCounts(OfDatabase(DerivedMachines(s))) ==
              TopologyCount(s.database) + SumCounts(OfDatabase(ProxyMachines(s.database)))
  {
    DatabaseRoles(s.database, s.machineOverride);
    DatabaseCounts(s.database, s.machineOverride);
    CountOfThree(DatabaseMachines(s.database, s.machineOverride), ProxyMachines(s.database),
        StroppySpec(s.stroppyMachine));
  }

  lemma DatabaseRoles(db: Database, ov: Option<MachineSpec>)
    ensures forall i :: 0 <= i < |DatabaseMachines(db, ov)| ==> DatabaseMachines(db, ov)[i].role == RoleDatabase
  {
  }

  lemma CountOfThree(a: seq<MachineSpec>, b: seq<MachineSpec>, c: MachineSpec)
    requires forall i :: 0 <= i < |a| ==> a[i].role == RoleDatabase
    requires c.role != RoleDatabase
    ensures SumCounts(OfDatabase(a + b + [c])) == SumCounts(a) + SumCounts(OfDatabase(b))
  {
    OfDatabaseConcat(a + b, [c]);
    OfDatabaseConcat(a, b);
    AllOfDatabase(a);
    NoneOfDatabase([c]);
    SumConcat(a, OfDatabase(b));
    assert a + OfDatabase(b) + [] == a + OfDatabase(b);
  }

  lemma BakedTopologyCount(db: Database, ov: MachineSpec)
    ensures TopologyCount(BakedDatabase(db, ov)) == TopologyCount(db)
  {
    match db.kind
    case Postgres =>
      if db.postgres.Some? {
        var t := db.postgres.value;
        BakedCounts([t.master] + t.replicas, ov);
        assert BakedSpecs([t.master] + t.replicas, ov) == [BakedSpec(t.master, ov)] + BakedSpecs(t.replicas, ov);
      }
    case MySQL =>
      if db.mysql.Some? {
        var t := db.mysql.value;
        BakedCounts([t.primary] + t.replicas, ov);
        assert BakedSpecs([t.primary] + t.replicas, ov) == [BakedSpec(t.primary, ov)] + BakedSpecs(t.replicas, ov);
      }
    case Picodata =>
      if db.picodata.Some? { BakedCounts(db.picodata.value.instances, ov); }
    case YDB =>
    case OtherKind(_) =>
  }

  predicate SizedBy(m: MachineSpec, ov: MachineSpec) {
    && (ov.cpus > 0 ==> m.cpus == ov.cpus)
    && (ov.memoryMB > 0 ==> m.memoryMB == ov.memoryMB)
    && (ov.diskGB > 0 ==> m.diskGB == ov.diskGB)
  }

  lemma DirectlySized(db: Database, ov: MachineSpec, m: MachineSpec)
    requires m in DatabaseMachines(db, Some(ov))
    ensures SizedBy(m, ov)
  {
  }

  lemma BakedSized(db: Database, ov: MachineSpec, m: MachineSpec)
    requires m in DatabaseMachines(BakedDatabase(db, ov), None)
    ensures SizedBy(m, ov)
  {
  }

  /** Every derived database machine has the override's size, on both paths. */
  lemma OverrideWins(s: Sizing, m: MachineSpec)
    requires s.machines == [] && s.machineOverride.Some?
    requires m in DatabaseMachines(s.database, s.machineOverride) || m in DatabaseMachines(Baked(s).database, None)
    ensures SizedBy(m, s.machineOverride.value)
  {
    if m in DatabaseMachines(s.database, s.machineOverride) {
      DirectlySized(s.database, s.machineOverride.value, m);
    } else {
      BakedSized(s.database, s.machineOverride.value, m);
    }
  }

  // ---- what is derived, kind by kind ----

  /** Machine counts added up from the front. */
  function Total(ms: seq<MachineSpec>): int {
    if ms == [] then 0 else ms[0].count + Total(ms[1..])
  }

  lemma {:induction false} TotalIsSum(ms: seq<MachineSpec>)
    ensures Total(ms) == SumCounts(ms)
  {
    if ms != [] {
      TotalIsSum(ms[1..]);
      SumOne(ms[0]);
      SumConcat([ms[0]], ms[1..]);
      assert [ms[0]] + ms[1..] == ms;
    }
  }

  /** `r` has the greatest of the sizes of `specs`, unless the override has a positive one. */
  ghost predicate Greatest(r: int, specs: seq<MachineSpec>, ov: Option<MachineSpec>, size: MachineSpec -> int) {
    if ov.Some? && size(ov.value) > 0 then r == size(ov.value)
    else
      && (forall i :: 0 <= i < |specs| ==> size(specs[i]) <= r)
      && exists i :: 0 <= i < |specs| && size(specs[i]) == r
  }

  /** A database machine with the sizes of `specs` and the disks of the first of them. */
  ghost predicate SizedAs(m: MachineSpec, specs: seq<MachineSpec>, ov: Option<MachineSpec>) {
    && specs != [] && m.role == RoleDatabase
    && Greatest(m.cpus, specs, ov, (x: MachineSpec) => x.cpus)
    && Greatest(m.memoryMB, specs, ov, (x: MachineSpec) => x.memoryMB)
    && Greatest(m.diskGB, specs, ov, (x: MachineSpec) => x.diskGB)
    && m.diskType == specs[0].diskType && m.secondaryDisks == specs[0].secondaryDisks
  }

  /** The one machine of the runner: the custom one, or 2 CPUs, 4 GB and 20 GB of disk. */
  ghost predicate RunsStroppy(m: MachineSpec, custom: Option<MachineSpec>) {
    && m.role == RoleStroppy && m.count == 1
    && match custom
       case Some(c) =>
         && m.cpus == c.cpus && m.memoryMB == c.memoryMB && m.diskGB == c.diskGB
         && m.diskType == c.diskType && m.secondaryDisks == c.secondaryDisks
       case None =>
         m.cpus == 2 && m.memoryMB == 4096 && m.diskGB == 20 && m.diskType == "" && m.secondaryDisks == []
  }

  /** A database machine for each of `groups`, sized by that group of specs, then the proxy if
      there is one, then the runner's machine, and nothing else. */
  ghost predicate Derives(s: Sizing, groups: seq<seq<MachineSpec>>, proxy: Option<MachineSpec>) {
    var r := Filled(s).machines;
    && |r| == |groups| + (if proxy.Some? then 1 else 0) + 1
    && (forall i :: 0 <= i < |groups| ==> SizedAs(r[i], groups[i], s.machineOverride))
    && (proxy.Some? ==> r[|groups|] == proxy.value)
    && RunsStroppy(r[|r| - 1], s.stroppyMachine)
  }

  lemma OneSizes(m: MachineSpec, count: int, ov: Option<MachineSpec>)
    ensures SizedAs(DatabaseMachine(count, m, ov), [m], ov)
  {
    assert [m][0] == m;
  }

  /** Master and replicas together make one group of machines, with the master's sizes. */
  lemma PostgresMachines(s: Sizing, t: PostgresTopology)
    requires s.machines == [] && s.database.kind == Postgres && s.database.postgres == Some(t)
    ensures Derives(s, [[t.master]], t.haproxy) && Filled(s).machines[0].count == Total([t.master] + t.replicas)
  {
    OneSizes(t.master, t.master.count + SumCounts(t.replicas), s.machineOverride);
    TotalIsSum(t.replicas);
  }

  lemma MySQLMachines(s: Sizing, t: MySQLTopology)
    requires s.machines == [] && s.database.kind == MySQL && s.database.mysql == Some(t)
    ensures Derives(s, [[t.primary]], t.proxySQL) && Filled(s).machines[0].count == Total([t.primary] + t.replicas)
  {
    OneSizes(t.primary, t.primary.count + SumCounts(t.replicas), s.machineOverride);
    TotalIsSum(t.replicas);
  }

  /** Each instance spec makes its own machines. */
  lemma PicodataMachines(s: Sizing, t: PicodataTopology)
    requires s.machines == [] && s.database.kind == Picodata && s.database.picodata == Some(t)
    ensures Derives(s, seq(|t.instances|, i requires 0 <= i < |t.instances| => [t.instances[i]]), t.haproxy)
    ensures forall i :: 0 <= i < |t.instances| ==> Filled(s).machines[i].count == t.instances[i].count
  {
    forall i | 0 <= i < |t.instances|
      ensures SizedAs(InstanceMachines(t.instances, s.machineOverride)[i], [t.instances[i]], s.machineOverride)
    {
      OneSizes(t.instances[i], t.instances[i].count, s.machineOverride);
    }
  }

  /** Storage and database nodes share machines, large enough for either: each size, and the
      number of machines, is the greater of the two. */
  lemma YDBMachines(s: Sizing, t: YDBTopology)
    requires s.machines == [] && s.database.kind == YDB && s.database.ydb == Some(t)
    ensures var specs := if t.database.Some? then [t.storage, t.database.value] else [t.storage];
            && Derives(s, [specs], t.haproxy)
            && Greatest(Filled(s).machines[0].count, specs, None, (x: MachineSpec) => x.count)
  {
    var specs := if t.database.Some? then [t.storage, t.database.value] else [t.storage];
    assert specs[0] == t.storage && (t.database.Some? ==> specs[1] == t.database.value);
  }

  /** Without a topology for its kind only the runner's machine is derived. */
  lemma NoTopologyMachines(s: Sizing)
    requires s.machines == []
    requires match s.database.kind
             case Postgres => s.database.postgres.None?
             case MySQL => s.database.mysql.None?
             case Picodata => s.database.picodata.None?
             case YDB => s.database.ydb.None?
             case OtherKind(_) => true
    ensures Derives(s, [], None)
  {
  }

  // ---- what is baked, spec by spec ----

  /** `b` is `m` with the override's positive sizes and its disk type if it has one. */
  ghost predicate Folded(b: MachineSpec, m: MachineSpec, ov: MachineSpec) {
    && b.role == m.role && b.count == m.count && b.secondaryDisks == m.secondaryDisks
    && Greatest(b.cpus, [m], Some(ov), (x: MachineSpec) => x.cpus)
    && Greatest(b.memoryMB, [m], Some(ov), (x: MachineSpec) => x.memoryMB)
    && Greatest(b.diskGB, [m], Some(ov), (x: MachineSpec) => x.diskGB)
    && b.diskType == (if ov.diskType == "" then m.diskType else ov.diskType)
  }

  ghost predicate AllFolded(bs: seq<MachineSpec>, ms: seq<MachineSpec>, ov: MachineSpec) {
    |bs| == |ms| && forall i :: 0 <= i < |ms| ==> Folded(bs[i], ms[i], ov)
  }

  lemma SpecFolded(m: MachineSpec, ov: MachineSpec)
    ensures Folded(BakedSpec(m, ov), m, ov)
  {
    assert [m][0] == m;
  }

  lemma SpecsFolded(ms: seq<MachineSpec>, ov: MachineSpec)
    ensures AllFolded(BakedSpecs(ms, ov), ms, ov)
  {
    forall i | 0 <= i < |ms|
      ensures Folded(BakedSpecs(ms, ov)[i], ms[i], ov)
    {
      SpecFolded(ms[i], ov);
    }
  }

  /** Baking folds the override into every spec of the kind's topology, replicas included, and
      changes nothing else but the override, which is gone. */
  lemma BakedExact(s: Sizing)
    requires s.machineOverride.Some?
    ensures var b, ov := Baked(s), s.machineOverride.value;
            var db, baked := s.database, Baked(s).database;
            && b == s.(database := baked, machineOverride := None) && baked.kind == db.kind
            && (if db.kind == Postgres && db.postgres.Some? then
                  var t, u := db.postgres.value, baked.postgres;
                  && u.Some? && u.value == t.(master := u.value.master, replicas := u.value.replicas)
                  && Folded(u.value.master, t.master, ov) && AllFolded(u.value.replicas, t.replicas, ov)
                else baked.postgres == db.postgres)
            && (if db.kind == MySQL && db.mysql.Some? then
                  var t, u := db.mysql.value, baked.mysql;
                  && u.Some? && u.value == t.(primary := u.value.primary, replicas := u.value.replicas)
                  && Folded(u.value.primary, t.primary, ov) && AllFolded(u.value.replicas, t.replicas, ov)
                else baked.mysql == db.mysql)
            && (if db.kind == Picodata && db.picodata.Some? then
                  var t, u := db.picodata.value, baked.picodata;
                  && u.Some? && u.value == t.(instances := u.value.instances)
                  && AllFolded(u.value.instances, t.instances, ov)
                else baked.picodata == db.picodata)
            && (if db.kind == YDB && db.ydb.Some? then
                  var t, u := db.ydb.value, baked.ydb;
                  && u.Some? && u.value == t.(storage := u.value.storage, database := u.value.database)
                  && Folded(u.value.storage, t.storage, ov) && u.value.database.Some? == t.database.Some?
                  && (t.database.Some? ==> Folded(u.value.database.value, t.database.value, ov))
                else baked.ydb == db.ydb)
  {
    var db, ov := s.database, s.machineOverride.value;
    match db.kind
    case Postgres =>
      if db.postgres.Some? {
        SpecFolded(db.postgres.value.master, ov);
        SpecsFolded(db.postgres.value.replicas, ov);
      }
    case MySQL =>
      if db.mysql.Some? {
        SpecFolded(db.mysql.value.primary, ov);
        SpecsFolded(db.mysql.value.replicas, ov);
      }
    case Picodata =>
      if db.picodata.Some? { SpecsFolded(db.picodata.value.instances, ov); }
    case YDB =>
      if db.ydb.Some? {
        SpecFolded(db.ydb.value.storage, ov);
        if db.ydb.value.database.Some? { SpecFolded(db.ydb.value.database.value, ov); }
      }
    case OtherKind(_) =>
  }
}
