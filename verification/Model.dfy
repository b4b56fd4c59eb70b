/** Federation, site, cluster, accelerator, runtime, artifact, workload, policy and placement
    records, and the annotations the runtime attaches to them (src/model.cpp,
    src/placement.cpp, src/portability.cpp). `body` stands for descriptive fields that no
    decision in this project reads. */
module Model {
  import opened Foundation
  import opened Capability
  import opened Capacity

  // ---------------------------------------------------------------------------------
  // Evidence annotations
  // ---------------------------------------------------------------------------------

  datatype Currentness = Unknown | Current | Stale | RevalidationRequired | Retired

  datatype Readiness = Unknown | Ready | NotReady | Draining | Retired

  /** Precision, evidence class and provenance by enumerator value; a larger precision or
      class is weaker evidence. */
  type Precision = x: int | 0 <= x <= 6
  type EvidenceClass = x: int | 0 <= x <= 3
  type Provenance = x: int | 0 <= x <= 16

  const UNKNOWN_PRECISION: Precision := 6
  const UNKNOWN_CLASS: EvidenceClass := 3

  /** The authority every publication is made under. */
  datatype Context = Context(
    publisher: Id,
    boot: U64,
    epoch: U64,
    federation: Id,
    federationGeneration: U64,
    sequence: U64,
    observedAt: I64,
    precision: Precision,
    evidenceClass: EvidenceClass,
    provenance: Provenance,
    evidenceGeneration: U64)
  {
    predicate Valid() {
      && publisher != [] && boot != 0 && epoch != 0 && federation != [] && sequence != 0
      && IsValidIdentifier(publisher) && IsValidIdentifier(federation)
    }
  }

  datatype Stamp = Stamp(
    publisher: Id,
    boot: U64,
    epoch: U64,
    evidenceGeneration: U64,
    sequence: U64,
    observedAt: I64,
    precision: Precision,
    evidenceClass: EvidenceClass,
    provenance: Provenance)

  /** `now` is the wall clock, used when the publication carries no observation time. */
  function StampFor(ctx: Context, now: I64): Stamp {
    Stamp(ctx.publisher, ctx.boot, ctx.epoch, ctx.evidenceGeneration, ctx.sequence,
          if ctx.observedAt != 0 then ctx.observedAt else now,
          ctx.precision, ctx.evidenceClass, ctx.provenance)
  }

  /** A stored record: the published content and the runtime's own annotations. Comparing
      published digests compares `record` and ignores the annotations. */
  datatype Entry<+R> = Entry(record: R, currentness: Currentness, stamp: Stamp)

  // ---------------------------------------------------------------------------------
  // Structural records
  // ---------------------------------------------------------------------------------

  predicate HasDuplicates<T(==)>(values: seq<T>) {
    exists i, j :: 0 <= i < j < |values| && values[i] == values[j]
  }

  function Reject(bad: bool): Option<ErrorCode> {
    if bad then Some(InvalidArgument) else None
  }

  datatype FederationRecord = FederationRecord(
    id: Id, generation: U64, coordinatorEpoch: U64, sites: seq<Id>, clusters: seq<Id>,
    acceleratorClasses: seq<Id>, runtimes: seq<Id>, workloadClasses: seq<Id>, body: Text)
  {
    function Problem(): Option<ErrorCode> {
      Reject(id == [] || generation == 0 || coordinatorEpoch == 0 || HasDuplicates(sites) || HasDuplicates(clusters)
             || HasDuplicates(acceleratorClasses) || HasDuplicates(runtimes) || HasDuplicates(workloadClasses))
    }
  }

  const MAX_CLUSTERS_PER_SITE := 4096

  datatype SiteRecord = SiteRecord(
    id: Id, generation: U64, federation: Id, clusters: seq<Id>, policies: seq<Id>, body: Text)
  {
    function Problem(): Option<ErrorCode> {
      if id == [] || generation == 0 || federation == [] || HasDuplicates(clusters) then Some(InvalidArgument)
      else if |clusters| > MAX_CLUSTERS_PER_SITE then Some(BoundExceeded)
      else Reject(HasDuplicates(policies))
    }
  }

  datatype AcceleratorClassRecord = AcceleratorClassRecord(
    id: Id, capabilityGeneration: U64, architecture: Text, computeCapability: Text,
    memoryBytesPerDevice: U64, capabilities: CapabilitySet, body: Text)
  {
    function Problem(): Option<ErrorCode> {
      Reject(id == [] || capabilityGeneration == 0 || !KeysValid(capabilities.entries))
    }
  }

  datatype RuntimeRecord = RuntimeRecord(
    id: Id, generation: U64, abi: Text, driverAbi: Text, capabilities: CapabilitySet, body: Text)
  {
    function Problem(): Option<ErrorCode> { Reject(id == [] || generation == 0) }
  }

  datatype BackendRecord = BackendRecord(id: Id, generation: U64, runtime: Id, body: Text)
  {
    function Problem(): Option<ErrorCode> { Reject(id == [] || generation == 0 || runtime == []) }
  }

  datatype ResourceKind = Accelerator | MemoryBytes | Custom

  datatype Pool = Pool(
    id: Id, kind: ResourceKind, acceleratorClass: Id, customName: Text, ledger: Ledger,
    generation: U64, precision: Precision, evidenceClass: EvidenceClass)

  const MAX_POOLS_PER_CLUSTER := 1024

  function PoolIds(pools: seq<Pool>): seq<Id> {
    seq(|pools|, i requires 0 <= i < |pools| => pools[i].id)
  }

  datatype ClusterRecord = ClusterRecord(
    id: Id,
    generation: U64,
    epoch: U64,
    federation: Id,
    site: Id,
    domain: Id,
    acceleratorClasses: seq<Id>,
    pools: seq<Pool>,
    runtimes: seq<Id>,
    backends: seq<Id>,
    capabilityGeneration: U64,
    capacityGeneration: U64,
    evidenceGeneration: U64,
    readiness: Readiness,
    capabilities: CapabilitySet,
    body: Text)
  {
    function PoolProblem(pool: Pool): Option<ErrorCode> {
      if pool.id == [] then Some(InvalidArgument)
      else if !pool.ledger.Closes() then Some(CapacityInconsistent)
      else Reject(|| (pool.kind.Accelerator? && pool.acceleratorClass == [])
                  || (pool.kind.Custom? && pool.customName == []))
    }

    function PoolsProblem(k: nat): Option<ErrorCode>
      requires k <= |pools|
    {
      if k == 0 then None
      else
        match PoolsProblem(k - 1)
        case Some(code) => Some(code)
        case None => PoolProblem(pools[k - 1])
    }

    function Problem(): Option<ErrorCode> {
      if id == [] || generation == 0 || epoch == 0 || federation == [] || site == []
         || HasDuplicates(acceleratorClasses) || HasDuplicates(runtimes) || HasDuplicates(backends)
      then Some(InvalidArgument)
      else if |pools| > MAX_POOLS_PER_CLUSTER then Some(BoundExceeded)
      else if PoolsProblem(|pools|).Some? then PoolsProblem(|pools|)
      else Reject(HasDuplicates(PoolIds(pools)) || !KeysValid(capabilities.entries))
    }
  }

  datatype DomainKind = Unknown | Cluster | Site | Federation

  datatype DomainRecord = DomainRecord(
    id: Id, kind: DomainKind, federation: Id, site: Id, clusters: seq<Id>, topologyGeneration: U64, body: Text)
  {
    function Problem(): Option<ErrorCode> {
      Reject(id == [] || kind.Unknown? || federation == [] || (kind.Site? && site == []) || clusters == []
             || HasDuplicates(clusters))
    }
  }

  datatype ArtifactKind =
    | Unknown | ExecutableBinary | SharedLibrary | DeviceImage | ContainerImage
    | ModelWeights | Adapter | Checkpoint | DatasetShard | Custom
  {
    predicate CodeBearing() { ExecutableBinary? || SharedLibrary? || DeviceImage? || ContainerImage? }
  }

  datatype ArtifactRecord = ArtifactRecord(
    id: Id, generation: U64, kind: ArtifactKind, format: Field, kernelFormat: Field,
    targetArchitectures: seq<Text>, minimumComputeCapability: Text, runtimeAbi: Text, driverAbi: Text,
    compilerTarget: Field, stateFormat: Field, body: Text)
  {
    function Problem(): Option<ErrorCode> {
      Reject(id == [] || generation == 0 || HasDuplicates(targetArchitectures)
             || exists i :: 0 <= i < |targetArchitectures|
                            && (targetArchitectures[i] == [] || |targetArchitectures[i]| > 64))
    }

    predicate TargetsArchitecture(architecture: Text) { architecture in targetArchitectures }
  }

  datatype WorkloadClassRecord = WorkloadClassRecord(id: Id, body: Text)
  {
    function Problem(): Option<ErrorCode> { Reject(id == []) }
  }

  datatype WorkloadRecord = WorkloadRecord(
    id: Id, generation: U64, workloadClass: Id, artifact: Id, requiredAccelerators: U64,
    requiredMemoryPerAccelerator: U64, acceptableClasses: seq<Id>, requirements: seq<Requirement>,
    policy: Id, requiredDomain: Id, requiredDomainKind: DomainKind, isolationRequirement: Field, body: Text)
  {
    function Problem(): Option<ErrorCode> {
      if id == [] || generation == 0 || workloadClass == [] || requiredAccelerators == 0
         || HasDuplicates(acceptableClasses)
         || (exists i :: 0 <= i < |requirements| && !requirements[i].key.Valid())
         || (requiredDomainKind.Unknown? && requiredDomain != [])
      then Some(InvalidArgument)
      else if |requirements| > MAX_ENTRIES then Some(BoundExceeded)
      else None
    }
  }

  datatype PolicyRecord = PolicyRecord(
    id: Id, generation: U64, allowedSites: seq<Id>, deniedSites: seq<Id>,
    allowedClusters: seq<Id>, deniedClusters: seq<Id>, body: Text)
  {
    function Problem(): Option<ErrorCode> {
      Reject(id == [] || generation == 0 || HasDuplicates(allowedSites) || HasDuplicates(deniedSites)
             || HasDuplicates(allowedClusters) || HasDuplicates(deniedClusters)
             || (exists s :: s in allowedSites && s in deniedSites)
             || (exists c :: c in allowedClusters && c in deniedClusters))
    }

    function PermitsSite(site: Id): Tri {
      if site in deniedSites then Tri.No
      else if allowedSites == [] then Tri.Yes
      else TriFromBool(site in allowedSites)
    }

    function PermitsCluster(cluster: Id): Tri {
      if cluster in deniedClusters then Tri.No
      else if allowedClusters == [] then Tri.Yes
      else TriFromBool(cluster in allowedClusters)
    }
  }

  // ---------------------------------------------------------------------------------
  // Placements and portability
  // ---------------------------------------------------------------------------------

  datatype CandidateStatus = Selected | Rejected | NotConsidered | Unattributed

  datatype Candidate = Candidate(cluster: Id, status: CandidateStatus, hasReasons: bool, body: Text)

  const MAX_CANDIDATES := 4096

  datatype PlacementRecord = PlacementRecord(
    id: Id, generation: U64, workload: Id, workloadGeneration: U64, federation: Id, selected: Id,
    candidates: seq<Candidate>, selectedOnly: bool, body: Text)
  {
    function CandidateIds(): seq<Id> {
      seq(|candidates|, i requires 0 <= i < |candidates| => candidates[i].cluster)
    }

    /** At most one selected row (it must name the selected cluster), rejected rows carry a
        reason, rows are distinct, and a selected-only set has at most its selected row. */
    function Problem(): Option<ErrorCode> {
      if id == [] || generation == 0 || workload == [] || workloadGeneration == 0 || federation == [] || selected == []
      then Some(InvalidArgument)
      else if |candidates| > MAX_CANDIDATES then Some(BoundExceeded)
      else
        Reject(
          || (exists i :: 0 <= i < |candidates| &&
               (var c := candidates[i];
                || c.cluster == []
                || (c.status.Selected? && c.cluster != selected)
                || (c.status.Rejected? && !c.hasReasons)
                || (selectedOnly && c.status.Rejected?)))
          || HasDuplicates(CandidateIds())
          || (selectedOnly && |candidates| > 1))
    }
  }

  const PORTABILITY_DIMENSIONS := 11

  /** `rendered` stands for everything the assessment's own fingerprint covers besides its
      currentness; the federation is not covered. */
  datatype PortabilityRecord = PortabilityRecord(
    workload: Id, workloadGeneration: U64, destination: Id, dimensions: seq<nat>, rendered: Text, federation: Id)
  {
    function Problem(): Option<ErrorCode> {
      if workload == [] || workloadGeneration == 0 || destination == [] then Some(InvalidArgument)
      else if |dimensions| > PORTABILITY_DIMENSIONS then Some(BoundExceeded)
      else Reject(HasDuplicates(dimensions))
    }
  }
}
