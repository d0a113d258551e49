/** What the graph of a configuration makes wait for what, said without its dependency lists:
    which phases there are, and which phases each one waits for, directly or not. */
module PhaseOrder {
  import opened Wrappers
  import opened Dag
  import opened DagGraph
  import opened Config
  import opened Builder

  // ---- which phases there are ----

  /** The phases of every configuration. */
  const ALWAYS: set<string> := {
    "network", "machines", "install_db", "configure_db", "install_monitor", "configure_monitor",
    "install_stroppy", "run_stroppy", "teardown"}

  predicate HasEtcd(db: Database) {
    db.kind == Postgres && db.postgres != None && db.postgres.value.etcd
  }

  predicate HasPatroni(db: Database) {
    db.kind == Postgres && db.postgres != None && db.postgres.value.patroni
  }

  predicate HasPgBouncer(db: Database) {
    db.kind == Postgres && db.postgres != None && db.postgres.value.pgBouncer
  }

  /** The proxy spec of the topology that counts. */
  predicate HasProxy(db: Database) {
    || (db.kind == Postgres && db.postgres != None && db.postgres.value.haproxy != None)
    || (db.kind == MySQL && db.mysql != None && db.mysql.value.proxySQL != None)
    || (db.kind == Picodata && db.picodata != None && db.picodata.value.haproxy != None)
    || (db.kind == YDB && db.ydb != None && db.ydb.value.haproxy != None)
  }

  predicate HasYDB(db: Database) {
    db.kind == YDB && db.ydb != None
  }

  lemma PresentByName(db: Database, p: Phase)
    ensures Present(db, p) <==>
            || Name(p) in ALWAYS
            || (Name(p) in {"install_etcd", "configure_etcd"} && HasEtcd(db))
            || (Name(p) in {"install_patroni", "configure_patroni"} && HasPatroni(db))
            || (Name(p) in {"install_pgbouncer", "configure_pgbouncer"} && HasPgBouncer(db))
            || (Name(p) in {"install_proxy", "configure_proxy"} && HasProxy(db))
            || (Name(p) in {"init_ydb_cluster", "start_ydb_database"} && HasYDB(db))
  {
  }

  /** The ids of the graph, told from the configuration. */
  lemma BuiltIds(db: Database, id: string)
    ensures id in Ids(Built(db)) <==>
            || id in ALWAYS
            || (id in {"install_etcd", "configure_etcd"} && HasEtcd(db))
            || (id in {"install_patroni", "configure_patroni"} && HasPatroni(db))
            || (id in {"install_pgbouncer", "configure_pgbouncer"} && HasPgBouncer(db))
            || (id in {"install_proxy", "configure_proxy"} && HasProxy(db))
            || (id in {"init_ydb_cluster", "start_ydb_database"} && HasYDB(db))
  {
    if id in Ids(Built(db)) {
      var i :| 0 <= i < |Built(db)| && Built(db)[i].id == id;
      BuiltMember(db, Built(db)[i]);
      var p :| Present(db, p) && Built(db)[i] == NodeOf(db, p);
      PresentByName(db, p);
    }
    if p :| Name(p) == id {
      BuiltId(db, p);
      PresentByName(db, p);
    } else {
      NamesCover(id);
    }
  }

  lemma NamesCover(id: string)
    requires forall p :: Name(p) != id
    ensures id !in ALWAYS && id !in {"install_etcd", "configure_etcd"}
    ensures id !in {"install_patroni", "configure_patroni", "install_pgbouncer", "configure_pgbouncer"}
    ensures id !in {"install_proxy", "configure_proxy", "init_ydb_cluster", "start_ydb_database"}
  {
    assert Name(Network) != id && Name(Machines) != id && Name(InstallDB) != id && Name(ConfigureDB) != id;
    assert Name(InstallMonitor) != id && Name(ConfigureMonitor) != id && Name(InstallStroppy) != id;
    assert Name(RunStroppy) != id && Name(Teardown) != id && Name(InstallEtcd) != id && Name(ConfigureEtcd) != id;
    assert Name(InstallPatroni) != id && Name(ConfigurePatroni) != id;
    assert Name(InstallPgBouncer) != id && Name(ConfigurePgBouncer) != id;
    assert Name(InstallProxy) != id && Name(ConfigureProxy) != id;
    assert Name(InitYDBCluster) != id && Name(StartYDBDatabase) != id;
  }

  /** Exactly network and machines must complete, and only teardown always runs. */
  lemma BuiltFlags(db: Database, n: Node)
    requires n in Built(db)
    ensures n.mustComplete <==> n.id == "network" || n.id == "machines"
    ensures n.alwaysRun <==> n.id == "teardown"
  {
    BuiltMember(db, n);
    var p :| Present(db, p) && n == NodeOf(db, p);
    FlagsByName(db, p);
  }

  lemma FlagsByName(db: Database, p: Phase)
    ensures NodeOf(db, p).mustComplete <==> Name(p) == "network" || Name(p) == "machines"
    ensures NodeOf(db, p).alwaysRun <==> Name(p) == "teardown"
  {
  }

  // ---- what waits for what ----

  predicate Infrastructure(q: Phase) {
    q == Network || q == Machines
  }

  predicate Etcd(q: Phase) {
    q == InstallEtcd || q == ConfigureEtcd
  }

  /** Everything up to the configured database. */
  predicate UpToDatabase(q: Phase) {
    Infrastructure(q) || Etcd(q) || q == InstallDB || q == InstallPatroni || q == ConfigurePatroni || q == ConfigureDB
  }

  /** What `p` waits for, if it is there: every install phase for the infrastructure alone, every
      configure phase for its install phase, the database for etcd and Patroni, and monitoring,
      pooler, proxy and the YDB cluster for the database. */
  predicate Awaits(p: Phase, q: Phase) {
    match p
    case Network => false
    case Machines => q == Network
    case ConfigureEtcd => Infrastructure(q) || q == InstallEtcd
    case ConfigurePatroni => Infrastructure(q) || Etcd(q) || q == InstallDB || q == InstallPatroni
    case ConfigureDB => UpToDatabase(q) && q != ConfigureDB
    case ConfigureMonitor => UpToDatabase(q) || q == InstallMonitor || q == InitYDBCluster || q == StartYDBDatabase
    case ConfigurePgBouncer => UpToDatabase(q) || q == InstallPgBouncer
    case ConfigureProxy => UpToDatabase(q) || q == InstallProxy
    case InitYDBCluster => UpToDatabase(q)
    case StartYDBDatabase => UpToDatabase(q) || q == InitYDBCluster
    case RunStroppy => q != RunStroppy && q != Teardown
    case Teardown => q != Teardown
    case _ => Infrastructure(q)
  }

  lemma DepsAwaited(db: Database, p: Phase, q: Phase)
    requires Present(db, p) && q in DepsOf(db, p)
    ensures Awaits(p, q)
  {
  }

  /** Waiting goes on through the dependencies. */
  lemma AwaitsFurther(db: Database, p: Phase, r: Phase, q: Phase)
    requires Present(db, p) && r in DepsOf(db, p) && Awaits(r, q)
    ensures Awaits(p, q)
  {
  }

  /** The next phase on the way from `p` down to something it waits for. */
  function Towards(db: Database, p: Phase, q: Phase): Phase
    requires Present(db, p) && Present(db, q) && Awaits(p, q)
  {
    match p
    case ConfigurePatroni =>
      if Etcd(q) then ConfigureEtcd else if q == InstallPatroni then InstallPatroni else InstallDB
    case ConfigureDB =>
      if HasPatroni(db) then ConfigurePatroni else if Etcd(q) then ConfigureEtcd else InstallDB
    case ConfigureMonitor =>
      if q == InstallMonitor then InstallMonitor
      else if q == InitYDBCluster || q == StartYDBDatabase then StartYDBDatabase
      else ConfigureDB
    case ConfigurePgBouncer => if q == InstallPgBouncer then q else ConfigureDB
    case ConfigureProxy => if q == InstallProxy then q else ConfigureDB
    case InitYDBCluster => ConfigureDB
    case StartYDBDatabase => InitYDBCluster
    case RunStroppy =>
      if q == InstallStroppy then q
      else if q == ConfigurePgBouncer || q == InstallPgBouncer then ConfigurePgBouncer
      else if q == ConfigureProxy || q == InstallProxy then ConfigureProxy
      else if q == InitYDBCluster || q == StartYDBDatabase then StartYDBDatabase
      else if q == ConfigureMonitor || q == InstallMonitor then ConfigureMonitor
      else ConfigureDB
    case Teardown => RunStroppy
    case ConfigureEtcd => InstallEtcd
    case Machines => Network
    case _ => Machines
  }

  lemma TowardsLeads(db: Database, p: Phase, q: Phase)
    requires Present(db, p) && Present(db, q) && Awaits(p, q)
    ensures var r := Towards(db, p, q);
            Present(db, r) && r in DepsOf(db, p) && Rank(r) < Rank(p) && (r == q || Awaits(r, q))
  {
    if p == RunStroppy {
      StroppyLeads(db, q);
    } else if p == ConfigureDB || p == ConfigurePatroni {
      DatabaseLeads(db, p, q);
    } else {
      OtherLeads(db, p, q);
    }
    TowardsDep(db, p, q);
    DepsFine(db, p, Towards(db, p, q));
  }

  lemma TowardsDep(db: Database, p: Phase, q: Phase)
    requires Present(db, p) && Present(db, q) && Awaits(p, q)
    ensures Towards(db, p, q) in DepsOf(db, p)
  {
    if p == RunStroppy {
      StroppyDep(db, q);
    }
  }

  lemma StroppyDep(db: Database, q: Phase)
    requires Present(db, q) && Awaits(RunStroppy, q)
    ensures Towards(db, RunStroppy, q) in DepsOf(db, RunStroppy)
  {
  }

  lemma StroppyLeads(db: Database, q: Phase)
    requires Present(db, q) && Awaits(RunStroppy, q)
    ensures var r := Towards(db, RunStroppy, q); r == q || Awaits(r, q)
  {
  }

  lemma DatabaseLeads(db: Database, p: Phase, q: Phase)
    requires Present(db, p) && Present(db, q) && Awaits(p, q) && (p == ConfigureDB || p == ConfigurePatroni)
    ensures var r := Towards(db, p, q); r == q || Awaits(r, q)
  {
  }

  lemma OtherLeads(db: Database, p: Phase, q: Phase)
    requires Present(db, p) && Present(db, q) && Awaits(p, q)
    requires p != RunStroppy && p != ConfigureDB && p != ConfigurePatroni
    ensures var r := Towards(db, p, q); r == q || Awaits(r, q)
  {
  }

  lemma {:induction false} AwaitedIsReached(db: Database, p: Phase, q: Phase)
    requires Present(db, p) && Present(db, q) && Awaits(p, q)
    ensures Reaches(IndexOf(Built(db)), Name(p), Name(q))
    decreases Rank(p) + 1
  {
    var idx, r := IndexOf(Built(db)), Towards(db, p, q);
    TowardsLeads(db, p, q);
    BuiltEdge(db, p, r);
    EdgeReaches(idx, Name(p), Name(r));
    if r != q {
      RankNonNegative(r);
      AwaitedIsReached(db, r, q);
      ReachesTransitive(idx, Name(p), Name(r), Name(q));
    }
  }

  lemma RankNonNegative(p: Phase)
    ensures Rank(p) >= 0
  {
  }

  /** Along a path of the graph everything is waited for. */
  lemma {:induction false} PathAwaited(db: Database, p: Phase, q: Phase, path: seq<string>)
    requires Present(db, p) && PathBetween(IndexOf(Built(db)), Name(p), Name(q), path)
    ensures Present(db, q) && Awaits(p, q)
    decreases |path|
  {
    PathTail(IndexOf(Built(db)), Name(p), Name(q), path);
    var r := EdgeTo(db, p, path[1]);
    DepsAwaited(db, p, r);
    DepsFine(db, p, r);
    if |path| == 2 {
      NameInjective(r, q);
    } else {
      PathAwaited(db, r, q, path[1..]);
      AwaitsFurther(db, p, r, q);
    }
  }

  lemma PathTail(idx: Index, a: string, b: string, path: seq<string>)
    requires PathBetween(idx, a, b, path)
    ensures Edge(idx, a, path[1])
    ensures if |path| == 2 then path[1] == b else PathBetween(idx, path[1], b, path[1..])
  {
    assert Edge(idx, path[0], path[1]);
    var rest := path[1..];
    forall i | 0 <= i < |rest| - 1
      ensures Edge(idx, rest[i], rest[i + 1])
    {
      assert Edge(idx, path[i + 1], path[i + 2]);
    }
  }

  lemma EdgeTo(db: Database, p: Phase, name: string) returns (r: Phase)
    requires Present(db, p) && Edge(IndexOf(Built(db)), Name(p), name)
    ensures r in DepsOf(db, p) && name == Name(r)
  {
    BuiltEdge(db, p, p);
    NodeDeps(db, p, name);
    r :| r in DepsOf(db, p) && name == Name(r);
  }

  /** A phase of the graph is above exactly the phases it awaits. */
  lemma OrderExact(db: Database, p: Phase, q: Phase)
    requires Present(db, p)
    ensures Reaches(IndexOf(Built(db)), Name(p), Name(q)) <==> Present(db, q) && Awaits(p, q)
  {
    if Reaches(IndexOf(Built(db)), Name(p), Name(q)) {
      var path :| PathBetween(IndexOf(Built(db)), Name(p), Name(q), path);
      PathAwaited(db, p, q, path);
    }
    if Present(db, q) && Awaits(p, q) {
      AwaitedIsReached(db, p, q);
    }
  }
}
