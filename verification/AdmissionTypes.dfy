/** Work specifications, queue entries, quotas and the scheduling constants of the admission controller. */
module AdmissionTypes {
  import opened Prelude

  datatype PriorityClass = Interactive | Normal | Background | Maintenance

  /** `cls` is None for the empty class string; `orderingKey` is "" for unordered work. */
  datatype WorkSpec = WorkSpec(
    id: string,
    pool: string,
    cls: Option<PriorityClass>,
    owner: string,
    orderingKey: string,
    deadline: Option<Time>)

  datatype Entry = Entry(spec: WorkSpec, payload: nat)

  datatype OwnerLimits = OwnerLimits(maxWaiting: int, maxActive: int, weight: int, maxPayload: int)

  datatype PoolConfig = PoolConfig(backlogLimit: int, payloadBudget: int)

  const DEFAULT_LIMITS := OwnerLimits(50, 10, 1, 50 * 1024 * 1024)

  function ClassOf(spec: WorkSpec): PriorityClass {
    if spec.cls.None? then Normal else spec.cls.value
  }

  function ClassQuantum(c: PriorityClass): int {
    match c
    case Interactive => 8
    case Normal => 4
    case Background => 2
    case Maintenance => 1
  }

  /** Non-positive quotas are replaced by the defaults, so every stored quota is positive. */
  function NormalizeLimits(l: OwnerLimits): (r: OwnerLimits)
    ensures r.maxWaiting > 0 && r.maxActive > 0 && r.weight > 0 && r.maxPayload > 0
    ensures l.maxWaiting > 0 && l.maxActive > 0 && l.weight > 0 && l.maxPayload > 0 ==> r == l
  {
    OwnerLimits(
      if l.maxWaiting <= 0 then DEFAULT_LIMITS.maxWaiting else l.maxWaiting,
      if l.maxActive <= 0 then DEFAULT_LIMITS.maxActive else l.maxActive,
      if l.weight <= 0 then DEFAULT_LIMITS.weight else l.weight,
      if l.maxPayload <= 0 then DEFAULT_LIMITS.maxPayload else l.maxPayload)
  }

  function LimitsOf(limits: map<string, OwnerLimits>, owner: string): OwnerLimits {
    if owner in limits then limits[owner] else DEFAULT_LIMITS
  }
}
