/** The tables, enumerations and settings every process reads (app/core/models.py, enums.py, settings.py). */
module Model {

  datatype Option<+T> = None | Some(value: T)

  /** Virtual seconds since the start of the run. */
  type Time = real

  type EventId = int
  type DeliveryId = int
  type AttemptId = int
  type ConsumerId = int
  type WorkerId = int

  datatype DeliveryState = Pending | Ready | InFlight | Delivered | Expired | Superseded | Failed {
    predicate Terminal() { Delivered? || Expired? || Superseded? || Failed? }
  }

  datatype Outcome = Ok | ServerError | TimedOut | LeaseExpired

  datatype Event = Event(eventType: string, entityKey: string, occurredAt: Time)

  datatype Delivery = Delivery(
    event: EventId,
    consumer: ConsumerId,
    eventType: string,
    entityKey: string,
    state: DeliveryState,
    attemptCount: int,
    nextAttemptAt: Time,
    readyAt: Option<Time>,
    leasedBy: Option<WorkerId>,
    leaseExpiresAt: Option<Time>,
    createdAt: Time,
    completedAt: Option<Time>)

  datatype Attempt = Attempt(
    delivery: DeliveryId,
    consumer: ConsumerId,
    worker: WorkerId,
    startedAt: Time,
    finishedAt: Option<Time>,
    outcome: Option<Outcome>)

  datatype Tables = Tables(
    events: map<EventId, Event>,
    deliveries: map<DeliveryId, Delivery>,
    attempts: map<AttemptId, Attempt>)

  datatype Consumer = Consumer(weight: real, concurrencyCap: int, maxAttemptsPerS: real)

  datatype CoalesceMode = KeepAll | LatestByKey

  datatype Policy = Policy(maxStalenessS: Option<real>, coalesce: CoalesceMode)

  const DELIVER_EVERYTHING := Policy(None, KeepAll)

  /** What delivery policies are keyed by. */
  datatype Stream = Stream(consumer: ConsumerId, eventType: string)

  /** What coalescing is keyed by. */
  datatype Key = Key(consumer: ConsumerId, eventType: string, entityKey: string)

  datatype SettingsRow = SettingsRow(
    windowS: real,
    bufferMultiplier: real,
    overfetch: int,
    leaseS: real,
    backoffBaseS: real,
    backoffCapS: real,
    maxAttempts: int,
    bucketS: real,
    maxBackfill: int)

  const SHIPPED := SettingsRow(5.0, 1.5, 8, 30.0, 1.0, 60.0, 5, 1.0, 300)

  type Settings = s: SettingsRow |
      && s.windowS >= 0.0 && s.bufferMultiplier >= 0.0 && s.overfetch >= 1
      && s.leaseS >= 0.0 && s.backoffBaseS >= 0.0 && s.backoffCapS >= 0.0
      && s.maxAttempts >= 1 && s.bucketS > 0.0 && s.maxBackfill >= 1
    witness SHIPPED

  /** One simulation's rows that no step of the protocol writes. */
  datatype SimulationRow = SimulationRow(
    settings: Settings,
    globalAttemptsPerS: real,
    consumers: map<ConsumerId, Consumer>,
    subscriptions: set<Stream>,
    policies: map<Stream, Policy>)

  /** The database's check constraints on those rows. */
  type Simulation = s: SimulationRow |
      && s.globalAttemptsPerS > 0.0
      && (forall c :: c in s.consumers ==>
            s.consumers[c].weight > 0.0 && s.consumers[c].concurrencyCap > 0 && s.consumers[c].maxAttemptsPerS > 0.0)
      && (forall p :: p in s.subscriptions ==> p.consumer in s.consumers)
    witness SimulationRow(SHIPPED, 30.0, map[], {}, map[])

  function Max(a: int, b: int): int { if a >= b then a else b }

  function Min(a: int, b: int): int { if a <= b then a else b }

  /** Python's `int(x)` on a non-negative float. */
  function Whole(x: real): int
    requires x >= 0.0
  {
    x.Floor
  }

  function Ceil(x: real): int { if x == x.Floor as real then x.Floor else x.Floor + 1 }

  function PolicyOf(policies: map<Stream, Policy>, consumer: ConsumerId, eventType: string): Policy {
    var key := Stream(consumer, eventType);
    if key in policies then policies[key] else DELIVER_EVERYTHING
  }

  function KeyOf(d: Delivery): Key { Key(d.consumer, d.eventType, d.entityKey) }
}
