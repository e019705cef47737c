/** The rows the tenant-scoped services share, as values, and the store
    object that holds them. Ids are minted in order and never reused. */
module Stores {
  import opened Common
  import opened ReleaseChain

  type WorkloadId = nat
  type InstanceId = nat

  datatype WorkloadState =
    | StateProvisioning | StateActive | StateScaling | StateDeploying
    | StatePaused | StateFailed | StateDestroying | StateDestroyed

  datatype InstanceState =
    | InstanceProvisioning | InstanceRunning | InstanceFailed | InstanceDestroying | InstanceDestroyed

  datatype Role = Main | Sidecar | Init | Unset

  datatype Service = Service(name: string, image: string, role: Role, dependsOn: seq<string>, env: Option<Env>)

  datatype Workload = Workload(slug: string, services: seq<Service>, replicas: nat, previous: nat, state: WorkloadState)

  /** What spawning a replica takes from its workload. */
  datatype Plan = Plan(slug: string, services: seq<Service>)

  function PlanOf(w: Workload): Plan { Plan(w.slug, w.services) }

  /** The two reserved labels: ctrlplane.workload and ctrlplane.replica_index. */
  datatype Labels = Labels(workload: Option<WorkloadId>, replicaIndex: Option<string>)

  datatype Instance = Instance(slug: string, services: seq<Service>, labels: Labels, state: InstanceState, createdAt: int)

  /** What the instance and deploy services see: instance rows, their
      release chains, the next id to mint and the clock. */
  datatype Fleet = Fleet(
    instances: map<InstanceId, Instance>,
    chains: map<InstanceId, Chain>,
    nextInstance: InstanceId,
    now: int)

  datatype World = World(workloads: map<WorkloadId, Workload>, fleet: Fleet, nextWorkload: WorkloadId)

  function ChainOf(f: Fleet, i: InstanceId): Chain {
    if i in f.chains then f.chains[i] else EMPTY
  }

  function ItemOf(s: Service): Item { Item(s.name, Payload(s.image, s.env)) }

  /** The part of a service spec that releases carry. */
  function Items(services: seq<Service>): (r: seq<Item>)
    ensures |r| == |services|
    ensures forall i :: 0 <= i < |r| ==> r[i] == ItemOf(services[i])
  {
    seq(|services|, i requires 0 <= i < |services| => ItemOf(services[i]))
  }

  /** `reliable`: every call to the provider succeeds. `strategies` are the
      rollout strategies registered. */
  class Store {
    const reliable: bool
    const strategies: set<string>
    var workloads: map<WorkloadId, Workload>
    var fleet: Fleet
    var nextWorkload: WorkloadId

    constructor (db: World, reliable: bool, strategies: set<string>)
      ensures Db() == db && this.reliable == reliable && this.strategies == strategies
    {
      this.reliable, this.strategies := reliable, strategies;
      workloads, fleet, nextWorkload := db.workloads, db.fleet, db.nextWorkload;
    }

    ghost function Db(): World
      reads this
    {
      World(workloads, fleet, nextWorkload)
    }
  }
}
