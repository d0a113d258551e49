/** Runs of the graph of a configuration, fresh or resumed: the order in which they start its
    phases, and what a stop leaves behind. */
module PhaseRuns {
  import opened Wrappers
  import opened Dag
  import opened DagGraph
  import opened RunMachine
  import opened RunInvariant
  import opened RunTheorems
  import opened Recovery
  import Config
  import Builder
  import PhaseOrder

  /** A phase that the main loop started. */
  ghost predicate Started(s: State, p: Builder.Phase) {
    Builder.Name(p) in s.procs && StartedIn(s.procs[Builder.Name(p)], Main)
  }

  /** In every run of every built graph a phase starts only when everything it awaits is done. */
  lemma StartsInOrder(db: Config.Database, c: Setup, acts: seq<Action>, p: Builder.Phase, q: Builder.Phase)
    requires Run(c, acts) && c.nodes == Builder.Built(db) && ClosedUnderDeps(c.nodes, c.restored)
    requires Builder.Present(db, p) && Builder.Present(db, q) && PhaseOrder.Awaits(p, q)
    ensures Started(End(c, acts), p) ==> StatusOf(End(c, acts).sh, Builder.Name(q)) == Done
  {
    if Started(End(c, acts), p) {
      var s := End(c, acts);
      EndInv(c, acts);
      Builder.BuiltId(db, p);
      StartedDeps(c, s, Builder.NodeOf(db, p));
      SnapshotClosed(c, acts);
      AwaitedIn(db, SnapshotDone(c, s), p, q);
      SnapshotDoneExactly(c, s, Builder.Name(q));
    }
  }

  lemma StartedDeps(c: Setup, s: State, n: Node)
    requires NodesOk(c, s) && StartsOk(s) && DepsKnown(c.nodes) && n in c.nodes
    requires n.id in s.procs && StartedIn(s.procs[n.id], Main)
    ensures forall d :: d in n.deps ==> d in SnapshotDone(c, s)
  {
    assert NodeOk(c, s, n);
    forall d | d in n.deps
      ensures d in SnapshotDone(c, s)
    {
      SnapshotDoneExactly(c, s, d);
    }
  }

  lemma AwaitedIn(db: Config.Database, done: set<string>, p: Builder.Phase, q: Builder.Phase)
    requires ClosedUnderDeps(Builder.Built(db), done)
    requires forall d :: d in Builder.NodeOf(db, p).deps ==> d in done
    requires Builder.Present(db, p) && Builder.Present(db, q) && PhaseOrder.Awaits(p, q)
    ensures Builder.Name(q) in done
  {
    var nodes := Builder.Built(db);
    PhaseOrder.OrderExact(db, p, q);
    var path :| PathBetween(IndexOf(nodes), Builder.Name(p), Builder.Name(q), path);
    forall x, y | x in nodes && y in nodes && y.id in x.deps
      ensures !y.alwaysRun
    {
      OnlyTeardownAlwaysRuns(db, x, y);
    }
    Builder.BuiltEdge(db, p, q);
    AncestorsDone(nodes, done, path);
  }

  /** A proxy, a pooler, monitoring or the YDB cluster starts only on a configured database, and
      the database only with its etcd and Patroni in place. */
  lemma DatabaseFirst(db: Config.Database, c: Setup, acts: seq<Action>)
    requires Run(c, acts) && c.nodes == Builder.Built(db) && ClosedUnderDeps(c.nodes, c.restored)
    ensures forall p :: p in {Builder.ConfigureProxy, Builder.ConfigurePgBouncer, Builder.ConfigureMonitor,
                              Builder.InitYDBCluster}
                        && Builder.Present(db, p) && Started(End(c, acts), p) ==>
              StatusOf(End(c, acts).sh, "configure_db") == Done
    ensures Started(End(c, acts), Builder.ConfigureDB) ==>
              && StatusOf(End(c, acts).sh, "install_db") == Done
              && (PhaseOrder.HasEtcd(db) ==> StatusOf(End(c, acts).sh, "configure_etcd") == Done)
              && (PhaseOrder.HasPatroni(db) ==> StatusOf(End(c, acts).sh, "configure_patroni") == Done)
  {
    forall p | p in {Builder.ConfigureProxy, Builder.ConfigurePgBouncer, Builder.ConfigureMonitor,
                     Builder.InitYDBCluster} && Builder.Present(db, p) && Started(End(c, acts), p)
      ensures StatusOf(End(c, acts).sh, "configure_db") == Done
    {
      StartsInOrder(db, c, acts, p, Builder.ConfigureDB);
    }
    if Started(End(c, acts), Builder.ConfigureDB) {
      StartsInOrder(db, c, acts, Builder.ConfigureDB, Builder.InstallDB);
      if PhaseOrder.HasEtcd(db) { StartsInOrder(db, c, acts, Builder.ConfigureDB, Builder.ConfigureEtcd); }
      if PhaseOrder.HasPatroni(db) { StartsInOrder(db, c, acts, Builder.ConfigureDB, Builder.ConfigurePatroni); }
    }
  }

  /** Once the main loop of a built graph is over, network and machines, if it started them, are
      done or failed, and what the teardown loop starts is teardown alone; at return teardown
      was restored or handed out once. */
  lemma TeardownOfBuilt(db: Config.Database, c: Setup, acts: seq<Action>, n: Node)
    requires Run(c, acts) && c.nodes == Builder.Built(db) && n in c.nodes && AfterMain(End(c, acts).pc)
    ensures var s := End(c, acts);
            && n.id in s.procs
            && (n.id in {"network", "machines"} && StartedIn(s.procs[n.id], Main) ==>
                  StatusOf(s.sh, n.id) == Done || StatusOf(s.sh, n.id) == Failed)
            && (StartedIn(s.procs[n.id], Teardown) ==> n.id == "teardown")
            && (n.id == "teardown" && s.pc.Returned? && n.id !in c.restored ==> s.procs[n.id].handed == 1)
  {
    PhaseOrder.BuiltFlags(db, n);
    TeardownAfterMustComplete(c, acts, n);
    if End(c, acts).pc.Returned? {
      TeardownCoverage(c, acts, n);
    }
  }
}
