/** The phase graph of internal/domain/run/builder.go, for every configuration. */
module Builder {
  import opened Wrappers
  import opened Dag
  import opened DagGraph
  import opened Config

  datatype Phase =
    | Network | Machines
    | InstallEtcd | ConfigureEtcd
    | InstallDB
    | InstallPatroni | ConfigurePatroni
    | ConfigureDB
    | InstallMonitor | ConfigureMonitor
    | InstallPgBouncer | ConfigurePgBouncer
    | InstallProxy | ConfigureProxy
    | InitYDBCluster | StartYDBDatabase
    | InstallStroppy | RunStroppy | Teardown

  function Name(p: Phase): string {
    match p
    case Network => "network"
    case Machines => "machines"
    case InstallDB => "install_db"
    case ConfigureDB => "configure_db"
    case InstallMonitor => "install_monitor"
    case ConfigureMonitor => "configure_monitor"
    case InstallStroppy => "install_stroppy"
    case RunStroppy => "run_stroppy"
    case InstallEtcd => "install_etcd"
    case ConfigureEtcd => "configure_etcd"
    case InstallProxy => "install_proxy"
    case ConfigureProxy => "configure_proxy"
    case InstallPgBouncer => "install_pgbouncer"
    case ConfigurePgBouncer => "configure_pgbouncer"
    case InstallPatroni => "install_patroni"
    case ConfigurePatroni => "configure_patroni"
    case InitYDBCluster => "init_ydb_cluster"
    case StartYDBDatabase => "start_ydb_database"
    case Teardown => "teardown"
  }

  // ---- which optional phases a configuration has ----

  predicate NeedsEtcd(db: Database) {
    db.kind.Postgres? && db.postgres.Some? && db.postgres.value.etcd
  }

  predicate NeedsPatroni(db: Database) {
    db.kind.Postgres? && db.postgres.Some? && db.postgres.value.patroni
  }

  predicate NeedsPgBouncer(db: Database) {
    db.kind.Postgres? && db.postgres.Some? && db.postgres.value.pgBouncer
  }

  predicate NeedsProxy(db: Database) {
    match db.kind
    case Postgres => db.postgres.Some? && db.postgres.value.haproxy.Some?
    case MySQL => db.mysql.Some? && db.mysql.value.proxySQL.Some?
    case Picodata => db.picodata.Some? && db.picodata.value.haproxy.Some?
    case YDB => db.ydb.Some? && db.ydb.value.haproxy.Some?
    case OtherKind(_) => false
  }

  predicate NeedsYDBInit(db: Database) {
    db.kind.YDB? && db.ydb.Some?
  }

  // ---- the graph as a specification: an order, a filter, and dependencies per phase ----

  const ORDER: seq<Phase> := [
    Network, Machines, InstallEtcd, ConfigureEtcd, InstallDB, InstallPatroni, ConfigurePatroni, ConfigureDB,
    InstallMonitor, ConfigureMonitor, InstallPgBouncer, ConfigurePgBouncer, InstallProxy, ConfigureProxy,
    InitYDBCluster, StartYDBDatabase, InstallStroppy, RunStroppy, Teardown]

  predicate Present(db: Database, p: Phase) {
    match p
    case InstallEtcd => NeedsEtcd(db)
    case ConfigureEtcd => NeedsEtcd(db)
    case InstallPatroni => NeedsPatroni(db)
    case ConfigurePatroni => NeedsPatroni(db)
    case InstallPgBouncer => NeedsPgBouncer(db)
    case ConfigurePgBouncer => NeedsPgBouncer(db)
    case InstallProxy => NeedsProxy(db)
    case ConfigureProxy => NeedsProxy(db)
    case InitYDBCluster => NeedsYDBInit(db)
    case StartYDBDatabase => NeedsYDBInit(db)
    case _ => true
  }

  function When(c: bool, p: Phase): seq<Phase> {
    if c then [p] else []
  }

  function DepsOf(db: Database, p: Phase): seq<Phase> {
    match p
    case Network => []
    case Machines => [Network]
    case ConfigureEtcd => [InstallEtcd]
    case ConfigurePatroni => [InstallDB] + When(NeedsEtcd(db), ConfigureEtcd) + [InstallPatroni]
    case ConfigureDB =>
      if NeedsPatroni(db) then [ConfigurePatroni] else [InstallDB] + When(NeedsEtcd(db), ConfigureEtcd)
    case ConfigureMonitor => [InstallMonitor, ConfigureDB] + When(NeedsYDBInit(db), StartYDBDatabase)
    case ConfigurePgBouncer => [InstallPgBouncer, ConfigureDB]
    case ConfigureProxy => [InstallProxy, ConfigureDB]
    case InitYDBCluster => [ConfigureDB]
    case StartYDBDatabase => [InitYDBCluster]
    case RunStroppy =>
      When(NeedsPgBouncer(db), ConfigurePgBouncer) + When(NeedsProxy(db), ConfigureProxy)
      + When(NeedsYDBInit(db), StartYDBDatabase) + [ConfigureDB, ConfigureMonitor, InstallStroppy]
    case Teardown => [RunStroppy]
    case _ => [Machines]
  }

  function Names(ps: seq<Phase>): seq<string> {
    seq(|ps|, i requires 0 <= i < |ps| => Name(ps[i]))
  }

  function NodeOf(db: Database, p: Phase): Node {
    Node(Name(p), Name(p), Names(DepsOf(db, p)), p == Teardown, p == Network || p == Machines, PhaseTask(Name(p)))
  }

  function BuiltFrom(db: Database, order: seq<Phase>): seq<Node> {
    if order == [] then []
    else
      var p := order[|order| - 1];
      BuiltFrom(db, order[..|order| - 1]) + if Present(db, p) then [NodeOf(db, p)] else []
  }

  function Built(db: Database): seq<Node> {
    BuiltFrom(db, ORDER)
  }

  // ---- names identify phases ----

  function CharAt(s: string, i: nat): char {
    if i < |s| then s[i] else ' '
  }

  /** Length and three characters already tell the names apart. */
  function Signature(p: Phase): (nat, char, char, char) {
    match p
    case Network => (7, 'n', ' ', ' ')
    case Machines => (8, 'm', ' ', ' ')
    case InstallDB => (10, 'i', 'd', ' ')
    case ConfigureDB => (12, 'c', 'e', 'd')
    case InstallMonitor => (15, 'i', 'm', 'n')
    case ConfigureMonitor => (17, 'c', 'e', 'm')
    case InstallStroppy => (15, 'i', 's', 'r')
    case RunStroppy => (11, 'r', 'p', 'y')
    case InstallEtcd => (12, 'i', 'e', 'c')
    case ConfigureEtcd => (14, 'c', 'e', 'e')
    case InstallProxy => (13, 'i', 'p', 'o')
    case ConfigureProxy => (15, 'c', 'e', 'p')
    case InstallPgBouncer => (17, 'i', 'p', 'b')
    case ConfigurePgBouncer => (19, 'c', 'e', 'p')
    case InstallPatroni => (15, 'i', 'p', 't')
    case ConfigurePatroni => (17, 'c', 'e', 'p')
    case InitYDBCluster => (16, 'i', '_', 'l')
    case StartYDBDatabase => (18, 's', 'b', 'd')
    case Teardown => (8, 't', ' ', ' ')
  }

  lemma NameSignature(p: Phase)
    ensures var s := Name(p); (|s|, CharAt(s, 0), CharAt(s, 8), CharAt(s, 10)) == Signature(p)
  {
  }

  lemma NameInjective(p: Phase, q: Phase)
    ensures Name(p) == Name(q) <==> p == q
  {
    NameSignature(p);
    NameSignature(q);
  }

  // ---- what the built graph is ----

  lemma OrderComplete(p: Phase)
    ensures p in ORDER
  {
    match p
    case Network => assert ORDER[0] == p;
    case Machines => assert ORDER[1] == p;
    case InstallEtcd => assert ORDER[2] == p;
    case ConfigureEtcd => assert ORDER[3] == p;
    case InstallDB => assert ORDER[4] == p;
    case InstallPatroni => assert ORDER[5] == p;
    case ConfigurePatroni => assert ORDER[6] == p;
    case ConfigureDB => assert ORDER[7] == p;
    case InstallMonitor => assert ORDER[8] == p;
    case ConfigureMonitor => assert ORDER[9] == p;
    case InstallPgBouncer => assert ORDER[10] == p;
    case ConfigurePgBouncer => assert ORDER[11] == p;
    case InstallProxy => assert ORDER[12] == p;
    case ConfigureProxy => assert ORDER[13] == p;
    case InitYDBCluster => assert ORDER[14] == p;
    case StartYDBDatabase => assert ORDER[15] == p;
    case InstallStroppy => assert ORDER[16] == p;
    case RunStroppy => assert ORDER[17] == p;
    case Teardown => assert ORDER[18] == p;
  }

  /** The position of a phase in the order: distinct positions hold distinct phases. */
  function Position(p: Phase): nat {
    match p
    case Network => 0 case Machines => 1 case InstallEtcd => 2 case ConfigureEtcd => 3
    case InstallDB => 4 case InstallPatroni => 5 case ConfigurePatroni => 6 case ConfigureDB => 7
    case InstallMonitor => 8 case ConfigureMonitor => 9 case InstallPgBouncer => 10 case ConfigurePgBouncer => 11
    case InstallProxy => 12 case ConfigureProxy => 13 case InitYDBCluster => 14 case StartYDBDatabase => 15
    case InstallStroppy => 16 case RunStroppy => 17 case Teardown => 18
  }

  lemma OrderDistinct()
    ensures forall i :: 0 <= i < |ORDER| ==> Position(ORDER[i]) == i
  {
  }

  lemma {:induction false} BuiltFromMembers(db: Database, order: seq<Phase>, n: Node)
    ensures n in BuiltFrom(db, order) <==> exists p :: p in order && Present(db, p) && n == NodeOf(db, p)
  {
    if order != [] {
      var k := |order| - 1;
      BuiltFromMembers(db, order[..k], n);
      assert order == order[..k] + [order[k]];
      if n in BuiltFrom(db, order[..k]) {
        var p :| p in order[..k] && Present(db, p) && n == NodeOf(db, p);
        assert p in order;
      }
    }
  }

  lemma BuiltMember(db: Database, n: Node)
    ensures n in Built(db) <==> exists p :: Present(db, p) && n == NodeOf(db, p)
  {
    BuiltFromMembers(db, ORDER, n);
    if p :| Present(db, p) && n == NodeOf(db, p) {
      OrderComplete(p);
    }
  }

  lemma BuiltId(db: Database, p: Phase)
    ensures Name(p) in Ids(Built(db)) <==> Present(db, p)
    ensures Present(db, p) ==> NodeOf(db, p) in Built(db)
  {
    BuiltMember(db, NodeOf(db, p));
    if Name(p) in Ids(Built(db)) {
      var i :| 0 <= i < |Built(db)| && Built(db)[i].id == Name(p);
      BuiltMember(db, Built(db)[i]);
      var q :| Present(db, q) && Built(db)[i] == NodeOf(db, q);
      NameInjective(p, q);
    }
  }

  ghost predicate NoRepeats(order: seq<Phase>) {
    forall i, j :: 0 <= i < j < |order| ==> order[i] != order[j]
  }

  lemma {:induction false} BuiltFromUnique(db: Database, order: seq<Phase>)
    requires NoRepeats(order)
    ensures UniqueIds(BuiltFrom(db, order))
  {
    if order != [] {
      var k := |order| - 1;
      BuiltFromUnique(db, order[..k]);
      forall n | n in BuiltFrom(db, order[..k])
        ensures n.id != Name(order[k])
      {
        NewName(db, order, n);
      }
    }
  }

  lemma NewName(db: Database, order: seq<Phase>, n: Node)
    requires NoRepeats(order) && order != [] && n in BuiltFrom(db, order[..|order| - 1])
    ensures n.id != Name(order[|order| - 1])
  {
    var k := |order| - 1;
    BuiltFromMembers(db, order[..k], n);
    var q :| q in order[..k] && Present(db, q) && n == NodeOf(db, q);
    NameInjective(order[k], q);
  }

  /** Depth of a phase: larger than that of each of its dependencies. */
  function Rank(p: Phase): int {
    match p
    case Network => 0
    case Machines => 1
    case ConfigureEtcd => 3
    case ConfigurePatroni => 4
    case ConfigureDB => 5
    case ConfigurePgBouncer => 6
    case ConfigureProxy => 6
    case InitYDBCluster => 6
    case StartYDBDatabase => 7
    case ConfigureMonitor => 8
    case RunStroppy => 9
    case Teardown => 10
    case _ => 2
  }

  lemma DepsFine(db: Database, p: Phase, q: Phase)
    requires Present(db, p) && q in DepsOf(db, p)
    ensures Present(db, q) && Rank(q) < Rank(p) && q != Teardown
  {
    if p == RunStroppy {
      RunStroppyDepsFine(db, q);
    }
  }

  lemma RunStroppyDepsFine(db: Database, q: Phase)
    requires q in DepsOf(db, RunStroppy)
    ensures Present(db, q) && Rank(q) < Rank(RunStroppy) && q != Teardown
  {
  }

  ghost function RankOfName(s: string): int {
    if p :| Name(p) == s then Rank(p) else -1
  }

  lemma RankByName(p: Phase)
    ensures RankOfName(Name(p)) == Rank(p)
  {
    var q :| Name(q) == Name(p) && RankOfName(Name(p)) == Rank(q);
    NameInjective(p, q);
  }

  lemma NodeDeps(db: Database, p: Phase, d: string)
    ensures d in NodeOf(db, p).deps <==> exists q :: q in DepsOf(db, p) && d == Name(q)
  {
    var deps := DepsOf(db, p);
    if d in NodeOf(db, p).deps {
      var i :| 0 <= i < |deps| && Names(deps)[i] == d;
      assert deps[i] in deps;
    }
    if q :| q in deps && d == Name(q) {
      var i :| 0 <= i < |deps| && deps[i] == q;
      assert Names(deps)[i] == d;
    }
  }

  /** Edges of the built graph are exactly the dependencies of present phases. */
  lemma BuiltEdge(db: Database, p: Phase, q: Phase)
    requires Present(db, p)
    ensures Name(p) in IndexOf(Built(db)) && IndexOf(Built(db))[Name(p)] == NodeOf(db, p)
    ensures q in DepsOf(db, p) ==> Edge(IndexOf(Built(db)), Name(p), Name(q))
  {
    BuiltUnique(db);
    BuiltId(db, p);
    IndexOfUnique(Built(db), NodeOf(db, p));
    NodeDeps(db, p, Name(q));
  }

  lemma BuiltUnique(db: Database)
    ensures UniqueIds(Built(db))
  {
    OrderDistinct();
    BuiltFromUnique(db, ORDER);
  }

  /** The graph passes Validate for every configuration. */
  lemma BuiltValid(db: Database)
    ensures UniqueIds(Built(db)) && ValidNodes(Built(db))
  {
    var nodes := Built(db);
    BuiltUnique(db);
    forall n, d | n in nodes && d in n.deps
      ensures d in Ids(nodes)
    {
      BuiltMember(db, n);
      var p :| Present(db, p) && n == NodeOf(db, p);
      NodeDeps(db, p, d);
      var q :| q in DepsOf(db, p) && d == Name(q);
      DepsFine(db, p, q);
      BuiltId(db, q);
    }
    forall a, b | Edge(IndexOf(nodes), a, b)
      ensures RankOfName(b) < RankOfName(a)
    {
      BuiltMember(db, IndexOf(nodes)[a]);
      var p :| Present(db, p) && IndexOf(nodes)[a] == NodeOf(db, p);
      NodeDeps(db, p, b);
      var q :| q in DepsOf(db, p) && b == Name(q);
      DepsFine(db, p, q);
      RankByName(p);
      RankByName(q);
    }
    RankedAcyclic(IndexOf(nodes), RankOfName);
  }

  // ---- order of phases ----

  /** A phase that waits for `p`, on the way up to run_stroppy. */
  function Above(db: Database, p: Phase): Phase {
    match p
    case Network => Machines
    case Machines => InstallStroppy
    case InstallEtcd => ConfigureEtcd
    case ConfigureEtcd => if NeedsPatroni(db) then ConfigurePatroni else ConfigureDB
    case InstallDB => if NeedsPatroni(db) then ConfigurePatroni else ConfigureDB
    case InstallPatroni => ConfigurePatroni
    case ConfigurePatroni => ConfigureDB
    case InstallMonitor => ConfigureMonitor
    case InstallPgBouncer => ConfigurePgBouncer
    case InstallProxy => ConfigureProxy
    case InitYDBCluster => StartYDBDatabase
    case Teardown => Teardown
    case _ => RunStroppy
  }

  lemma AboveWaits(db: Database, p: Phase)
    requires Present(db, p) && p != RunStroppy && p != Teardown
    ensures Present(db, Above(db, p)) && p in DepsOf(db, Above(db, p))
    ensures Above(db, p) != Teardown && Rank(p) < Rank(Above(db, p)) <= 9
  {
  }

  /** Every phase but teardown is an ancestor of run_stroppy. */
  lemma {:induction false} RunStroppyIsLast(db: Database, p: Phase)
    requires Present(db, p) && p != RunStroppy && p != Teardown
    ensures Reaches(IndexOf(Built(db)), Name(RunStroppy), Name(p))
    decreases 9 - Rank(p)
  {
    var q := Above(db, p);
    AboveWaits(db, p);
    BuiltEdge(db, q, p);
    EdgeReaches(IndexOf(Built(db)), Name(q), Name(p));
    if q != RunStroppy {
      RunStroppyIsLast(db, q);
      ReachesTransitive(IndexOf(Built(db)), Name(RunStroppy), Name(q), Name(p));
    }
  }

  /** A dependency of `p`, on the way down to network. */
  function Below(db: Database, p: Phase): Phase {
    match p
    case Network => Network
    case Machines => Network
    case ConfigureEtcd => InstallEtcd
    case ConfigurePatroni => InstallDB
    case ConfigureDB => if NeedsPatroni(db) then ConfigurePatroni else InstallDB
    case ConfigureMonitor => ConfigureDB
    case ConfigurePgBouncer => ConfigureDB
    case ConfigureProxy => ConfigureDB
    case InitYDBCluster => ConfigureDB
    case StartYDBDatabase => InitYDBCluster
    case RunStroppy => ConfigureDB
    case Teardown => RunStroppy
    case _ => Machines
  }

  lemma BelowIsDep(db: Database, p: Phase)
    requires Present(db, p) && p != Network
    ensures Present(db, Below(db, p)) && Below(db, p) in DepsOf(db, p) && 0 <= Rank(Below(db, p)) < Rank(p)
  {
  }

  /** Network is an ancestor of every other phase. */
  lemma {:induction false} NetworkIsFirst(db: Database, p: Phase)
    requires Present(db, p) && p != Network
    ensures Reaches(IndexOf(Built(db)), Name(p), Name(Network))
    decreases Rank(p)
  {
    var q := Below(db, p);
    BelowIsDep(db, p);
    BuiltEdge(db, p, q);
    EdgeReaches(IndexOf(Built(db)), Name(p), Name(q));
    if q != Network {
      NetworkIsFirst(db, q);
      ReachesTransitive(IndexOf(Built(db)), Name(p), Name(q), Name(Network));
    }
  }

  // ---- the builder ----

  function FactoriesFrom(db: Database, order: seq<Phase>): map<string, Task> {
    if order == [] then map[]
    else
      var p := order[|order| - 1];
      var m := FactoriesFrom(db, order[..|order| - 1]);
      if Present(db, p) then m[Name(p) := PhaseTask(Name(p))] else m
  }

  lemma NextOf(db: Database, order: seq<Phase>)
    requires NoRepeats(order) && order != []
    ensures var init, p := order[..|order| - 1], order[|order| - 1];
            && BuiltFrom(db, order) == BuiltFrom(db, init) + (if Present(db, p) then [NodeOf(db, p)] else [])
            && FactoriesFrom(db, order) ==
                 (var m := FactoriesFrom(db, init); if Present(db, p) then m[Name(p) := PhaseTask(Name(p))] else m)
            && Name(p) !in Ids(BuiltFrom(db, init))
  {
    var init, p := order[..|order| - 1], order[|order| - 1];
    forall n | n in BuiltFrom(db, init)
      ensures n.id != Name(p)
    {
      NewName(db, order, n);
    }
  }

  lemma NextPhase(db: Database, k: nat)
    requires k < |ORDER|
    ensures BuiltFrom(db, ORDER[..k + 1]) ==
              BuiltFrom(db, ORDER[..k]) + if Present(db, ORDER[k]) then [NodeOf(db, ORDER[k])] else []
    ensures FactoriesFrom(db, ORDER[..k + 1]) ==
              var m := FactoriesFrom(db, ORDER[..k]);
              if Present(db, ORDER[k]) then m[Name(ORDER[k]) := PhaseTask(Name(ORDER[k]))] else m
    ensures Present(db, ORDER[k]) ==> Name(ORDER[k]) !in Ids(BuiltFrom(db, ORDER[..k]))
  {
    OrderDistinct();
    var upTo := ORDER[..k + 1];
    assert upTo[..|upTo| - 1] == ORDER[..k] && upTo[|upTo| - 1] == ORDER[k];
    NextOf(db, upTo);
  }

  class PhaseBuilder {
    const g: Graph
    const reg: Registry
    const db: Database
    var runStroppyDeps: seq<string>
    ghost var next: nat

    constructor (db: Database)
      ensures this.db == db && runStroppyDeps == [] && At(0) && fresh(g) && fresh(reg)
    {
      this.db := db;
      runStroppyDeps, next := [], 0;
      g := new Graph();
      reg := new Registry();
    }

    /** The graph and registry hold the present phases among those before the next one. */
    ghost predicate Filled()
      reads this, g, reg
    {
      next <= |ORDER| && g.nodes == BuiltFrom(db, ORDER[..next]) && reg.factories == FactoriesFrom(db, ORDER[..next])
    }

    ghost predicate At(k: nat)
      reads this, g, reg
    {
      next == k && Filled()
    }

    /** Adds one phase. The error of Graph.Add is ignored, as ids never repeat. */
    method Add(p: Phase, deps: seq<string>, mustComplete: bool, alwaysRun: bool)
      requires Filled() && next < |ORDER| && ORDER[next] == p && Present(db, p) && deps == Names(DepsOf(db, p))
      requires mustComplete == (p == Network || p == Machines) && alwaysRun == (p == Teardown)
      modifies this`next, g, reg
      ensures At(old(next) + 1)
    {
      NextPhase(db, next);
      var _ := g.Add(Node(Name(p), Name(p), deps, alwaysRun, mustComplete, PhaseTask(Name(p))));
      reg.Register(Name(p), PhaseTask(Name(p)));
      next := next + 1;
    }

    ghost method Skip()
      requires Filled() && next + 1 < |ORDER| && !Present(db, ORDER[next]) && !Present(db, ORDER[next + 1])
      modifies this`next
      ensures At(old(next) + 2)
    {
      NextPhase(db, next);
      NextPhase(db, next + 1);
      next := next + 2;
    }

    method AddEtcd(afterMachines: seq<string>)
      requires At(2) && afterMachines == [Name(Machines)]
      modifies this`next, g, reg
      ensures At(4)
    {
      if NeedsEtcd(db) {
        Add(InstallEtcd, afterMachines, false, false);
        Add(ConfigureEtcd, [Name(InstallEtcd)], false, false);
      } else {
        Skip();
      }
    }

    method AddPatroniPhases(afterMachines: seq<string>, configDBDeps: seq<string>)
      requires At(5) && afterMachines == [Name(Machines)] && NeedsPatroni(db)
      requires configDBDeps == Names([InstallDB] + When(NeedsEtcd(db), ConfigureEtcd))
      modifies this`next, g, reg
      ensures At(7)
    {
      Add(InstallPatroni, afterMachines, false, false);
      Add(ConfigurePatroni, configDBDeps + [Name(InstallPatroni)], false, false);
    }

    /** Patroni replaces the configure phase, which then only waits for it. */
    method AddPatroni(afterMachines: seq<string>, configDBDeps: seq<string>)
      requires At(5) && afterMachines == [Name(Machines)] && NeedsPatroni(db)
      requires configDBDeps == Names([InstallDB] + When(NeedsEtcd(db), ConfigureEtcd))
      modifies this`next, g, reg
      ensures At(8)
    {
      AddPatroniPhases(afterMachines, configDBDeps);
      Add(ConfigureDB, [Name(ConfigurePatroni)], false, false);
    }

    method AddDatabase(afterMachines: seq<string>)
      requires At(4) && afterMachines == [Name(Machines)]
      modifies this`next, g, reg
      ensures At(8)
    {
      var configDBDeps := [Name(InstallDB)];
      if NeedsEtcd(db) {
        configDBDeps := configDBDeps + [Name(ConfigureEtcd)];
      }
      assert configDBDeps == Names([InstallDB] + When(NeedsEtcd(db), ConfigureEtcd));
      Add(InstallDB, afterMachines, false, false);
      AddConfigureDB(afterMachines, configDBDeps);
    }

    method AddConfigureDB(afterMachines: seq<string>, configDBDeps: seq<string>)
      requires At(5) && afterMachines == [Name(Machines)]
      requires configDBDeps == Names([InstallDB] + When(NeedsEtcd(db), ConfigureEtcd))
      modifies this`next, g, reg
      ensures At(8)
    {
      if NeedsPatroni(db) {
        AddPatroni(afterMachines, configDBDeps);
      } else {
        Skip();
        Add(ConfigureDB, configDBDeps, false, false);
      }
    }

    method AddMonitor(afterMachines: seq<string>)
      requires At(8) && afterMachines == [Name(Machines)]
      modifies this`next, g, reg
      ensures At(10)
    {
      Add(InstallMonitor, afterMachines, false, false);
      var monitorConfigDeps := [Name(InstallMonitor), Name(ConfigureDB)];
      if NeedsYDBInit(db) {
        monitorConfigDeps := monitorConfigDeps + [Name(StartYDBDatabase)];
      }
      Add(ConfigureMonitor, monitorConfigDeps, false, false);
    }

    method AddPgBouncer(afterMachines: seq<string>)
      requires At(10) && afterMachines == [Name(Machines)]
      modifies this, g, reg
      ensures At(12) && runStroppyDeps == old(runStroppyDeps) + Names(When(NeedsPgBouncer(db), ConfigurePgBouncer))
    {
      if NeedsPgBouncer(db) {
        Add(InstallPgBouncer, afterMachines, false, false);
        Add(ConfigurePgBouncer, [Name(InstallPgBouncer), Name(ConfigureDB)], false, false);
        runStroppyDeps := runStroppyDeps + [Name(ConfigurePgBouncer)];
      } else {
        Skip();
      }
    }

    method AddProxy(afterMachines: seq<string>)
      requires At(12) && afterMachines == [Name(Machines)]
      modifies this, g, reg
      ensures At(14) && runStroppyDeps == old(runStroppyDeps) + Names(When(NeedsProxy(db), ConfigureProxy))
    {
      if NeedsProxy(db) {
        Add(InstallProxy, afterMachines, false, false);
        Add(ConfigureProxy, [Name(InstallProxy), Name(ConfigureDB)], false, false);
        runStroppyDeps := runStroppyDeps + [Name(ConfigureProxy)];
      } else {
        Skip();
      }
    }

    method AddYDB()
      requires At(14)
      modifies this, g, reg
      ensures At(16) && runStroppyDeps == old(runStroppyDeps) + Names(When(NeedsYDBInit(db), StartYDBDatabase))
    {
      if NeedsYDBInit(db) {
        Add(InitYDBCluster, [Name(ConfigureDB)], false, false);
        Add(StartYDBDatabase, [Name(InitYDBCluster)], false, false);
        runStroppyDeps := runStroppyDeps + [Name(StartYDBDatabase)];
      } else {
        Skip();
      }
    }

    method AddStroppy(afterMachines: seq<string>)
      requires At(16) && afterMachines == [Name(Machines)]
      requires runStroppyDeps == Names(When(NeedsPgBouncer(db), ConfigurePgBouncer))
                                 + Names(When(NeedsProxy(db), ConfigureProxy))
                                 + Names(When(NeedsYDBInit(db), StartYDBDatabase))
      modifies this, g, reg
      ensures At(19)
    {
      Add(InstallStroppy, afterMachines, false, false);
      runStroppyDeps := runStroppyDeps + [Name(ConfigureDB), Name(ConfigureMonitor), Name(InstallStroppy)];
      assert runStroppyDeps == Names(DepsOf(db, RunStroppy));
      AddLast();
    }

    method AddLast()
      requires At(17) && runStroppyDeps == Names(DepsOf(db, RunStroppy))
      modifies this`next, g, reg
      ensures At(19)
    {
      Add(RunStroppy, runStroppyDeps, false, false);
      Add(Teardown, [Name(RunStroppy)], false, true);
    }

    /** The optional phases that run_stroppy waits for, and what follows them. */
    method AddRest(afterMachines: seq<string>)
      requires At(10) && afterMachines == [Name(Machines)] && runStroppyDeps == []
      modifies this, g, reg
      ensures At(19)
    {
      AddPgBouncer(afterMachines);
      AddProxy(afterMachines);
      AddYDB();
      assert runStroppyDeps == Names(When(NeedsPgBouncer(db), ConfigurePgBouncer))
                               + Names(When(NeedsProxy(db), ConfigureProxy))
                               + Names(When(NeedsYDBInit(db), StartYDBDatabase));
      AddStroppy(afterMachines);
    }

    /** Builds the phase graph; the only error is an unsupported database kind. */
    method Build() returns (ok: bool)
      requires At(0) && runStroppyDeps == []
      modifies this, g, reg
      ensures ok <==> !db.kind.OtherKind?
      ensures ok ==> g.nodes == Built(db) && reg.factories == FactoriesFrom(db, ORDER)
    {
      var afterMachines := [Name(Machines)];
      Add(Network, [], true, false);
      Add(Machines, [Name(Network)], true, false);
      AddEtcd(afterMachines);
      if db.kind.OtherKind? {
        return false;
      }
      AddDatabase(afterMachines);
      AddMonitor(afterMachines);
      AddRest(afterMachines);
      assert ORDER[..19] == ORDER;
      BuiltValid(db);
      var e := g.Validate();
      ok := e.None?;
    }
  }

  // ---- the registry restores a serialised built graph ----

  lemma {:induction false} FactoryOf(db: Database, order: seq<Phase>, p: Phase)
    requires p in order && Present(db, p)
    ensures Name(p) in FactoriesFrom(db, order) && FactoriesFrom(db, order)[Name(p)] == PhaseTask(Name(p))
  {
    var k := |order| - 1;
    NameInjective(p, order[k]);
    if p != order[k] {
      FactoryOf(db, order[..k], p);
    }
  }

  lemma TypesKnown(db: Database)
    ensures forall i :: 0 <= i < |Built(db)| ==>
              Strip(Built(db))[i].typ in FactoriesFrom(db, ORDER)
              && FactoriesFrom(db, ORDER)[Strip(Built(db))[i].typ] == Built(db)[i].task
  {
    forall i | 0 <= i < |Built(db)|
      ensures Strip(Built(db))[i].typ in FactoriesFrom(db, ORDER)
      ensures FactoriesFrom(db, ORDER)[Strip(Built(db))[i].typ] == Built(db)[i].task
    {
      BuiltMember(db, Built(db)[i]);
      var p :| Present(db, p) && Built(db)[i] == NodeOf(db, p);
      OrderComplete(p);
      FactoryOf(db, ORDER, p);
    }
  }

  /** Exactly the phases of the configuration have a factory. */
  lemma {:induction false} FactoriesExact(db: Database, order: seq<Phase>, typ: string)
    ensures typ in FactoriesFrom(db, order) <==> exists p :: p in order && Present(db, p) && Name(p) == typ
  {
    if order != [] {
      var k := |order| - 1;
      FactoriesExact(db, order[..k], typ);
      assert order == order[..k] + [order[k]];
      if p :| p in order[..k] && Present(db, p) && Name(p) == typ {
        assert p in order;
      }
    }
  }

  lemma IdIsPhase(db: Database, id: string) returns (p: Phase)
    requires id in Ids(Built(db))
    ensures Present(db, p) && Name(p) == id
  {
    var i :| 0 <= i < |Built(db)| && Built(db)[i].id == id;
    BuiltMember(db, Built(db)[i]);
    p :| Present(db, p) && Built(db)[i] == NodeOf(db, p);
  }

  /** Unmarshal after Marshal gives the built graph back, tasks included. */
  lemma RestoredIsBuilt(db: Database, nodes: seq<Node>)
    requires |nodes| == |Built(db)|
    requires var data, f := Strip(Built(db)), FactoriesFrom(db, ORDER);
             forall i :: 0 <= i < |nodes| && data[i].typ in f ==> nodes[i] == data[i].(task := f[data[i].typ])
    ensures nodes == Built(db)
  {
    TypesKnown(db);
  }
}
