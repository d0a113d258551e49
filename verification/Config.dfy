/** The parts of a run configuration the model uses: internal/domain/types/config.go and run.go. */
module Config {
  import opened Wrappers

  datatype SecondaryDisk = SecondaryDisk(deviceName: string, sizeGB: int, typ: string)

  datatype Role =
    | RoleDatabase | RoleMonitor | RoleStroppy | RoleEtcd | RoleProxy | RolePgBouncer
    | OtherRole(name: string)

  datatype MachineSpec = MachineSpec(
    role: Role,
    count: int,
    cpus: int,
    memoryMB: int,
    diskGB: int,
    diskType: string,
    secondaryDisks: seq<SecondaryDisk>)

  datatype PostgresTopology = PostgresTopology(
    master: MachineSpec,
    replicas: seq<MachineSpec>,
    haproxy: Option<MachineSpec>,
    pgBouncer: bool,
    patroni: bool,
    etcd: bool)

  datatype MySQLTopology = MySQLTopology(
    primary: MachineSpec,
    replicas: seq<MachineSpec>,
    proxySQL: Option<MachineSpec>)

  datatype PicodataTopology = PicodataTopology(instances: seq<MachineSpec>, haproxy: Option<MachineSpec>)

  datatype YDBTopology = YDBTopology(storage: MachineSpec, database: Option<MachineSpec>, haproxy: Option<MachineSpec>)

  datatype Kind = Postgres | MySQL | Picodata | YDB | OtherKind(name: string)

  /** The topologies are optional; only the one for `kind` is looked at. */
  datatype Database = Database(
    kind: Kind,
    postgres: Option<PostgresTopology>,
    mysql: Option<MySQLTopology>,
    picodata: Option<PicodataTopology>,
    ydb: Option<YDBTopology>)
}
