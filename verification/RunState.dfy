/** The shared state of a run and its persisted form: internal/domain/run/state.go. */
module RunState {
  import opened Wrappers
  import Machines

  datatype Target = Target(id: string, host: string, internalHost: string, agentPort: int)

  datatype TargetInfo = TargetInfo(id: string, host: string, internalHost: string, agentPort: int, role: string)

  type Configs = map<string, map<string, string>>

  /** The run configuration, as far as a run and its recovery look at it. */
  datatype RunConfiguration = RunConfiguration(provider: string, sizing: Machines.Sizing)

  /** `provider` and `runConfig` are filled in by the caller of ExportRunState; a stored
      configuration that does not decode is None. */
  datatype Saved = Saved(
    provider: string,
    runConfig: Option<RunConfiguration>,
    targets: seq<TargetInfo>,
    containerIDs: seq<string>,
    networkID: string,
    dbHost: string,
    dbPort: int,
    effectiveConfigs: Configs)

  /** The exported fields of a State. */
  datatype View = View(
    dbTargets: seq<Target>,
    monitorTargets: seq<Target>,
    proxyTargets: seq<Target>,
    stroppyTarget: Option<Target>,
    dbHost: string,
    dbPort: int,
    containerIDs: seq<string>,
    networkID: string,
    effectiveConfigs: Configs)

  const EMPTY := View([], [], [], None, "", 0, [], "", map[])

  const DATABASE := "database"
  const MONITOR := "monitor"
  const PROXY := "proxy"
  const STROPPY := "stroppy"

  function Info(t: Target, role: string): TargetInfo {
    TargetInfo(t.id, t.host, t.internalHost, t.agentPort, role)
  }

  function Bare(t: TargetInfo): Target {
    Target(t.id, t.host, t.internalHost, t.agentPort)
  }

  function Infos(ts: seq<Target>, role: string): seq<TargetInfo> {
    seq(|ts|, i requires 0 <= i < |ts| => Info(ts[i], role))
  }

  function Bares(ts: seq<TargetInfo>): seq<Target> {
    seq(|ts|, i requires 0 <= i < |ts| => Bare(ts[i]))
  }

  /** The targets with one role, in order. */
  function OfRole(ts: seq<TargetInfo>, role: string): (r: seq<TargetInfo>)
    ensures forall t :: t in r <==> t in ts && t.role == role
  {
    if ts == [] then []
    else
      var last := ts[|ts| - 1];
      assert ts == ts[..|ts| - 1] + [last];
      OfRole(ts[..|ts| - 1], role) + if last.role == role then [last] else []
  }

  function Last<T>(ts: seq<T>): seq<T> {
    if ts == [] then [] else [ts[|ts| - 1]]
  }

  function Opt(ts: seq<Target>): Option<Target> {
    if ts == [] then None else Some(ts[|ts| - 1])
  }

  function ExportOf(v: View): Saved {
    Saved("", None,
          Infos(v.dbTargets, DATABASE) + Infos(v.monitorTargets, MONITOR) + Infos(v.proxyTargets, PROXY)
          + (if v.stroppyTarget.Some? then [Info(v.stroppyTarget.value, STROPPY)] else []),
          v.containerIDs, v.networkID, v.dbHost, v.dbPort, v.effectiveConfigs)
  }

  function OfRoleBare(ts: seq<TargetInfo>, role: string): seq<Target> {
    Bares(OfRole(ts, role))
  }

  function ImportOf(rs: Saved): View {
    View(OfRoleBare(rs.targets, DATABASE), OfRoleBare(rs.targets, MONITOR), OfRoleBare(rs.targets, PROXY),
         Opt(OfRoleBare(rs.targets, STROPPY)),
         rs.dbHost, rs.dbPort, rs.containerIDs, rs.networkID, rs.effectiveConfigs)
  }

  function TargetsOf(v: View): seq<Target> {
    v.dbTargets + v.monitorTargets + v.proxyTargets
    + (if v.stroppyTarget.Some? then [v.stroppyTarget.value] else [])
  }

  /** A saved state with the exported fields of `v`, whatever its caller filled in. */
  ghost predicate TakenFrom(rs: Saved, v: View) {
    rs.(provider := "", runConfig := None) == ExportOf(v)
  }

  lemma ImportTaken(rs: Saved, v: View)
    requires TakenFrom(rs, v)
    ensures ImportOf(rs) == v
  {
    ImportAfterExport(v);
  }

  class State {
    var dbTargets: seq<Target>
    var monitorTargets: seq<Target>
    var proxyTargets: seq<Target>
    var stroppyTarget: Option<Target>
    var dbHost: string
    var dbPort: int
    var containerIDs: seq<string>
    var networkID: string
    var effectiveConfigs: Configs

    constructor ()
      ensures Contents() == EMPTY
    {
      dbTargets, monitorTargets, proxyTargets, stroppyTarget := [], [], [], None;
      dbHost, dbPort, containerIDs, networkID, effectiveConfigs := "", 0, [], "", map[];
    }

    ghost function Contents(): View
      reads this
    {
      View(dbTargets, monitorTargets, proxyTargets, stroppyTarget, dbHost, dbPort, containerIDs, networkID,
          effectiveConfigs)
    }

    method AppendInfos(ts: seq<Target>, role: string, before: seq<TargetInfo>) returns (after: seq<TargetInfo>)
      ensures after == before + Infos(ts, role)
    {
      after := before;
      for i := 0 to |ts|
        invariant after == before + Infos(ts[..i], role)
      {
        assert Infos(ts[..i + 1], role) == Infos(ts[..i], role) + [Info(ts[i], role)];
        after := after + [Info(ts[i], role)];
      }
      assert ts[..|ts|] == ts;
    }

    method ExportRunState() returns (rs: Saved)
      ensures rs == ExportOf(Contents())
    {
      var targets := AppendInfos(dbTargets, DATABASE, []);
      targets := AppendInfos(monitorTargets, MONITOR, targets);
      targets := AppendInfos(proxyTargets, PROXY, targets);
      if stroppyTarget.Some? {
        targets := targets + [Info(stroppyTarget.value, STROPPY)];
      }
      rs := Saved("", None, targets, containerIDs, networkID, dbHost, dbPort, effectiveConfigs);
    }

    /** Restores every exported field, whatever the object held before. */
    method ImportRunState(rs: Saved)
      modifies this
      ensures Contents() == ImportOf(rs)
    {
      containerIDs, networkID, dbHost, dbPort := rs.containerIDs, rs.networkID, rs.dbHost, rs.dbPort;
      effectiveConfigs := rs.effectiveConfigs;
      dbTargets, monitorTargets, proxyTargets, stroppyTarget := [], [], [], None;
      var ts := rs.targets;
      for i := 0 to |ts|
        invariant dbTargets == OfRoleBare(ts[..i], DATABASE) && monitorTargets == OfRoleBare(ts[..i], MONITOR)
        invariant proxyTargets == OfRoleBare(ts[..i], PROXY) && stroppyTarget == Opt(OfRoleBare(ts[..i], STROPPY))
        invariant containerIDs == rs.containerIDs && networkID == rs.networkID
            && effectiveConfigs == rs.effectiveConfigs
        invariant dbHost == rs.dbHost && dbPort == rs.dbPort
      {
        var t := ts[i];
        var target := Bare(t);
        RolesDiffer();
        ImportStep(ts, i, DATABASE);
        ImportStep(ts, i, MONITOR);
        ImportStep(ts, i, PROXY);
        ImportStep(ts, i, STROPPY);
        if t.role == DATABASE {
          dbTargets := dbTargets + [target];
        } else if t.role == MONITOR {
          monitorTargets := monitorTargets + [target];
        } else if t.role == PROXY {
          proxyTargets := proxyTargets + [target];
        } else if t.role == STROPPY {
          stroppyTarget := Some(target);
        }
      }
      assert ts[..|ts|] == ts;
    }

    /** What the setters that tasks call leave behind. */
    method Write(v: View)
      modifies this
      ensures Contents() == v
    {
      dbTargets, monitorTargets, proxyTargets, stroppyTarget :=
          v.dbTargets, v.monitorTargets, v.proxyTargets, v.stroppyTarget;
      dbHost, dbPort, containerIDs := v.dbHost, v.dbPort, v.containerIDs;
      networkID, effectiveConfigs := v.networkID, v.effectiveConfigs;
    }

    method AllTargets() returns (all: seq<Target>)
      ensures all == TargetsOf(Contents())
    {
      all := dbTargets;
      all := all + monitorTargets;
      all := all + proxyTargets;
      if stroppyTarget.Some? {
        all := all + [stroppyTarget.value];
      }
    }
  }

  lemma RolesDiffer()
    ensures DATABASE != MONITOR && DATABASE != PROXY && DATABASE != STROPPY
    ensures MONITOR != PROXY && MONITOR != STROPPY && PROXY != STROPPY
  {
    assert DATABASE[0] == 'd' && MONITOR[0] == 'm' && PROXY[0] == 'p' && STROPPY[0] == 's';
  }

  /** Importing one more target extends the list of its role and no other. */
  lemma ImportStep(ts: seq<TargetInfo>, i: nat, role: string)
    requires i < |ts|
    ensures OfRoleBare(ts[..i + 1], role) ==
              OfRoleBare(ts[..i], role) + if ts[i].role == role then [Bare(ts[i])] else []
  {
    var a := OfRole(ts[..i], role);
    assert ts[..i + 1][..i] == ts[..i];
    assert OfRole(ts[..i + 1], role) == a + if ts[i].role == role then [ts[i]] else [];
    assert Bares(a + [ts[i]]) == Bares(a) + [Bare(ts[i])];
    assert a + [] == a;
  }

  lemma {:induction false} OfRoleConcat(a: seq<TargetInfo>, b: seq<TargetInfo>, role: string)
    ensures OfRole(a + b, role) == OfRole(a, role) + OfRole(b, role)
  {
    if b == [] {
      assert a + b == a;
      assert OfRole(a, role) + [] == OfRole(a, role);
    } else {
      var init, last := b[..|b| - 1], b[|b| - 1];
      assert (a + b)[..|a + b| - 1] == a + init;
      OfRoleConcat(a, init, role);
    }
  }

  lemma {:induction false} OfRoleUniform(ts: seq<TargetInfo>, role: string, wanted: string)
    requires forall t :: t in ts ==> t.role == role
    ensures OfRole(ts, wanted) == if role == wanted then ts else []
  {
    if ts != [] {
      assert ts == ts[..|ts| - 1] + [ts[|ts| - 1]];
      OfRoleUniform(ts[..|ts| - 1], role, wanted);
    }
  }

  /** A concatenation of parts with distinct roles: a role picks its own part. */
  lemma {:induction false} OfRoleParts(parts: seq<seq<TargetInfo>>, roles: seq<string>, k: nat)
    requires |parts| == |roles| && k < |roles|
    requires forall i, j :: 0 <= i < j < |roles| ==> roles[i] != roles[j]
    requires forall i, t :: 0 <= i < |parts| && t in parts[i] ==> t.role == roles[i]
    ensures OfRole(Flat(parts), roles[k]) == parts[k]
  {
    var n := |parts| - 1;
    OfRoleLast(parts, roles[n], roles[k]);
    if k < n {
      OfRoleParts(parts[..n], roles[..n], k);
      assert OfRole(Flat(parts[..n]), roles[k]) == parts[k];
    } else {
      OfRoleAbsent(parts[..n], roles[..n], roles[k]);
    }
  }

  lemma OfRoleLast(parts: seq<seq<TargetInfo>>, role: string, wanted: string)
    requires parts != [] && forall t :: t in parts[|parts| - 1] ==> t.role == role
    ensures var init, last := parts[..|parts| - 1], parts[|parts| - 1];
            OfRole(Flat(parts), wanted) == OfRole(Flat(init), wanted) + if role == wanted then last else []
  {
    OfRoleConcat(Flat(parts[..|parts| - 1]), parts[|parts| - 1], wanted);
    OfRoleUniform(parts[|parts| - 1], role, wanted);
  }

  lemma {:induction false} OfRoleAbsent(parts: seq<seq<TargetInfo>>, roles: seq<string>, role: string)
    requires |parts| == |roles| && role !in roles
    requires forall i, t :: 0 <= i < |parts| && t in parts[i] ==> t.role == roles[i]
    ensures OfRole(Flat(parts), role) == []
  {
    if parts != [] {
      var n := |parts| - 1;
      OfRoleConcat(Flat(parts[..n]), parts[n], role);
      OfRoleUniform(parts[n], roles[n], role);
      OfRoleAbsent(parts[..n], roles[..n], role);
    }
  }

  function Flat(parts: seq<seq<TargetInfo>>): seq<TargetInfo> {
    if parts == [] then [] else Flat(parts[..|parts| - 1]) + parts[|parts| - 1]
  }

  lemma BaresInfos(ts: seq<Target>, role: string)
    ensures Bares(Infos(ts, role)) == ts
    ensures forall t :: t in Infos(ts, role) ==> t.role == role
  {
  }

  lemma InfosBares(ts: seq<TargetInfo>, role: string)
    requires forall t :: t in ts ==> t.role == role
    ensures Infos(Bares(ts), role) == ts
  {
    forall i | 0 <= i < |ts|
      ensures Infos(Bares(ts), role)[i] == ts[i]
    {
      assert ts[i] in ts;
    }
  }

  ghost function StroppyInfos(v: View): seq<TargetInfo> {
    if v.stroppyTarget.Some? then [Info(v.stroppyTarget.value, STROPPY)] else []
  }

  ghost function Parts(v: View): seq<seq<TargetInfo>> {
    [Infos(v.dbTargets, DATABASE), Infos(v.monitorTargets, MONITOR), Infos(v.proxyTargets, PROXY), StroppyInfos(v)]
  }

  ghost function Roles(): seq<string> {
    [DATABASE, MONITOR, PROXY, STROPPY]
  }

  lemma FlatFour(a: seq<TargetInfo>, b: seq<TargetInfo>, c: seq<TargetInfo>, d: seq<TargetInfo>)
    ensures Flat([a, b, c, d]) == a + b + c + d
  {
    assert [a, b, c, d][..3] == [a, b, c];
    assert [a, b, c][..2] == [a, b];
    assert [a, b][..1] == [a];
    assert [a][..0] == [];
    assert Flat([a]) == [] + a == a;
    assert Flat([a, b]) == Flat([a]) + b;
    assert Flat([a, b, c]) == Flat([a, b]) + c;
  }

  lemma ExportedParts(v: View, k: nat)
    requires k < 4
    ensures OfRole(ExportOf(v).targets, Roles()[k]) == Parts(v)[k]
  {
    RolesDiffer();
    BaresInfos(v.dbTargets, DATABASE);
    BaresInfos(v.monitorTargets, MONITOR);
    BaresInfos(v.proxyTargets, PROXY);
    FlatFour(Parts(v)[0], Parts(v)[1], Parts(v)[2], Parts(v)[3]);
    OfRoleParts(Parts(v), Roles(), k);
  }

  predicate Describes(x: TargetInfo, t: Target, role: string) {
    x.id == t.id && x.host == t.host && x.internalHost == t.internalHost && x.agentPort == t.agentPort
    && x.role == role
  }

  /** Place `i` of an exported list. */
  predicate AtPlace(v: View, i: nat, x: TargetInfo) {
    var d, m, p := |v.dbTargets|, |v.monitorTargets|, |v.proxyTargets|;
    if i < d then Describes(x, v.dbTargets[i], "database")
    else if i < d + m then Describes(x, v.monitorTargets[i - d], "monitor")
    else if i < d + m + p then Describes(x, v.proxyTargets[i - d - m], "proxy")
    else i == d + m + p && v.stroppyTarget.Some? && Describes(x, v.stroppyTarget.value, "stroppy")
  }

  /** The exported list: every database target in order, then the monitors, the proxies and the
      stroppy target if there is one, each with the name of its kind. */
  lemma ExportedExact(v: View)
    ensures var rs := ExportOf(v);
            && |rs.targets| == |v.dbTargets| + |v.monitorTargets| + |v.proxyTargets|
                               + (if v.stroppyTarget.Some? then 1 else 0)
            && (forall i :: 0 <= i < |rs.targets| ==> AtPlace(v, i, rs.targets[i]))
            && rs.containerIDs == v.containerIDs && rs.networkID == v.networkID && rs.dbHost == v.dbHost
            && rs.dbPort == v.dbPort && rs.effectiveConfigs == v.effectiveConfigs
  {
    forall i | 0 <= i < |ExportOf(v).targets|
      ensures AtPlace(v, i, ExportOf(v).targets[i])
    {
      ExportedAt(v, i);
    }
  }

  lemma ExportedAt(v: View, i: nat)
    requires i < |ExportOf(v).targets|
    ensures AtPlace(v, i, ExportOf(v).targets[i])
  {
    FourAt(Infos(v.dbTargets, DATABASE), Infos(v.monitorTargets, MONITOR), Infos(v.proxyTargets, PROXY),
           StroppyInfos(v), i);
  }

  lemma FourAt(a: seq<TargetInfo>, b: seq<TargetInfo>, c: seq<TargetInfo>, d: seq<TargetInfo>, i: nat)
    requires i < |a + b + c + d|
    ensures (a + b + c + d)[i] ==
              if i < |a| then a[i] else if i < |a| + |b| then b[i - |a|]
              else if i < |a| + |b| + |c| then c[i - |a| - |b|] else d[i - |a| - |b| - |c|]
  {
  }

  /** Import after Export restores every exported field. */
  lemma ImportAfterExport(v: View)
    ensures ImportOf(ExportOf(v)) == v
  {
    ExportedParts(v, 0);
    ExportedParts(v, 1);
    ExportedParts(v, 2);
    ExportedParts(v, 3);
    BaresInfos(v.dbTargets, DATABASE);
    BaresInfos(v.monitorTargets, MONITOR);
    BaresInfos(v.proxyTargets, PROXY);
  }

  /** What a round through a State keeps of a target list: a stable partition by role with
      only the last stroppy target; a target with another role is dropped. */
  function Partitioned(ts: seq<TargetInfo>): seq<TargetInfo> {
    OfRole(ts, DATABASE) + OfRole(ts, MONITOR) + OfRole(ts, PROXY) + Last(OfRole(ts, STROPPY))
  }

  lemma ExportAfterImport(rs: Saved)
    ensures ExportOf(ImportOf(rs)) ==
              rs.(provider := "", runConfig := None, targets := Partitioned(rs.targets))
  {
    var ts := rs.targets;
    InfosBares(OfRole(ts, DATABASE), DATABASE);
    InfosBares(OfRole(ts, MONITOR), MONITOR);
    InfosBares(OfRole(ts, PROXY), PROXY);
    var s := OfRole(ts, STROPPY);
    if s != [] {
      assert s[|s| - 1] in s;
    }
  }

  lemma BaresConcat(a: seq<TargetInfo>, b: seq<TargetInfo>)
    ensures Bares(a + b) == Bares(a) + Bares(b)
  {
  }

  /** A second round changes nothing, and the order AllTargets lists is the partition's. */
  lemma ExportImportIdempotent(rs: Saved)
    ensures Partitioned(Partitioned(rs.targets)) == Partitioned(rs.targets)
    ensures TargetsOf(ImportOf(rs)) == Bares(Partitioned(rs.targets))
  {
    var ts := rs.targets;
    ImportAfterExport(ImportOf(rs));
    ExportAfterImport(rs);
    ExportAfterImport(ExportOf(ImportOf(rs)));
    BaresConcat(OfRole(ts, DATABASE) + OfRole(ts, MONITOR) + OfRole(ts, PROXY), Last(OfRole(ts, STROPPY)));
    BaresConcat(OfRole(ts, DATABASE) + OfRole(ts, MONITOR), OfRole(ts, PROXY));
    BaresConcat(OfRole(ts, DATABASE), OfRole(ts, MONITOR));
  }
}
