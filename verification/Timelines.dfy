/**
 The event log and its two projections. A timeline row is keyed by the event it came from and inserted
 with `skipDuplicates`, so projecting is idempotent and the timelines can be rebuilt from the log.
 */
module Timelines {
  import opened Types

  datatype EntityType = OrderEntity | JobEntity

  /** The `status` field of a payload, when it has one, and the rest of the payload. */
  datatype Payload = Payload(status: Option<string>, body: string)

  datatype EventRow = EventRow(
    id: Id, entityType: EntityType, entityId: Id, eventType: string, payload: Payload, createdAt: int)

  datatype OrderRow = OrderRow(
    sourceEventId: Id, orderId: Id, eventType: string, status: Option<OrderStatus>, payload: Payload,
    occurredAt: int, message: string)

  datatype JobRow = JobRow(
    sourceEventId: Id, jobId: Id, eventType: string, payload: Payload, occurredAt: int, message: string)

  /** Both tables, by their unique `sourceEventId`. */
  datatype Tables = Tables(orders: map<Id, OrderRow>, jobs: map<Id, JobRow>)

  // ---------------------------------------------------------------- rows

  function StatusName(status: OrderStatus): string {
    match status
    case PendingVendorConfirmation => "PENDING_VENDOR_CONFIRMATION"
    case VendorAccepted => "VENDOR_ACCEPTED"
    case VendorRejected => "VENDOR_REJECTED"
    case ReadyForDelivery => "READY_FOR_DELIVERY"
    case WaitingForDeliverer => "WAITING_FOR_DELIVERER"
    case InProgress => "IN_PROGRESS"
    case Completed => "COMPLETED"
    case Cancelled => "CANCELLED"
  }

  const ALL_STATUSES: seq<OrderStatus> := [
    PendingVendorConfirmation, VendorAccepted, VendorRejected, ReadyForDelivery, WaitingForDeliverer,
    OrderStatus.InProgress, OrderStatus.Completed, Cancelled]

  function FindStatus(raw: string, candidates: seq<OrderStatus>): Option<OrderStatus> {
    if candidates == [] then None
    else if StatusName(candidates[0]) == raw then Some(candidates[0])
    else FindStatus(raw, candidates[1..])
  }

  /** A payload's status counts only when it is one of the enumeration's values. */
  function StatusOf(payload: Payload): Option<OrderStatus> {
    if payload.status.None? then None else FindStatus(payload.status.value, ALL_STATUSES)
  }

  function OrderMessage(eventType: string): string {
    if eventType == "order.created" then "Order placed"
    else if eventType == "order.accepted" then "Vendor accepted the order"
    else if eventType == "order.rejected" then "Vendor rejected the order"
    else if eventType == "order.ready" then "Order is ready for delivery"
    else if eventType == "order.completed" then "Order delivered"
    else if eventType == "order.cancelled" then "Order cancelled"
    else if eventType == "order.delivery_issue" then "Delivery issue detected and escalated"
    else eventType
  }

  function JobMessage(eventType: string): string {
    if eventType == "job.assigned" then "Job assigned to deliverer"
    else if eventType == "job.started" then "Delivery started"
    else if eventType == "job.completed" then "Delivery completed"
    else if eventType == "job.recovered" then "Delivery assignment recovered after deliverer timeout"
    else if eventType == "job.escalated" then "Delivery issue escalated for manual intervention"
    else eventType
  }

  function ToOrderRow(e: EventRow): OrderRow {
    OrderRow(e.id, e.entityId, e.eventType, StatusOf(e.payload), e.payload, e.createdAt, OrderMessage(e.eventType))
  }

  function ToJobRow(e: EventRow): JobRow {
    JobRow(e.id, e.entityId, e.eventType, e.payload, e.createdAt, JobMessage(e.eventType))
  }

  lemma {:induction false} FindStatusFinds(raw: string, candidates: seq<OrderStatus>)
    ensures FindStatus(raw, candidates).Some? ==> StatusName(FindStatus(raw, candidates).value) == raw
    ensures FindStatus(raw, candidates).None? ==> forall s :: s in candidates ==> StatusName(s) != raw
  {
    if candidates != [] {
      FindStatusFinds(raw, candidates[1..]);
    }
  }

  lemma NamesDiffer(s: OrderStatus, t: OrderStatus)
    requires StatusName(s) == StatusName(t)
    ensures s == t
  {
    match s
    case PendingVendorConfirmation => assert StatusName(t)[0] == 'P';
    case VendorAccepted => assert StatusName(t)[0] == 'V' && StatusName(t)[7] == 'A';
    case VendorRejected => assert StatusName(t)[0] == 'V' && StatusName(t)[7] == 'R';
    case ReadyForDelivery => assert StatusName(t)[0] == 'R';
    case WaitingForDeliverer => assert StatusName(t)[0] == 'W';
    case InProgress => assert StatusName(t)[0] == 'I';
    case Completed => assert StatusName(t)[0] == 'C' && StatusName(t)[1] == 'O';
    case Cancelled => assert StatusName(t)[0] == 'C' && StatusName(t)[1] == 'A';
  }

  /** Extraction inverts naming: a payload yields status `s` exactly when its field is the name of `s`. */
  lemma StatusRoundTrip(payload: Payload, s: OrderStatus)
    ensures StatusOf(payload) == Some(s) <==> payload.status == Some(StatusName(s))
  {
    assert s in ALL_STATUSES by {
      match s
      case PendingVendorConfirmation => assert ALL_STATUSES[0] == s;
      case VendorAccepted => assert ALL_STATUSES[1] == s;
      case VendorRejected => assert ALL_STATUSES[2] == s;
      case ReadyForDelivery => assert ALL_STATUSES[3] == s;
      case WaitingForDeliverer => assert ALL_STATUSES[4] == s;
      case InProgress => assert ALL_STATUSES[5] == s;
      case Completed => assert ALL_STATUSES[6] == s;
      case Cancelled => assert ALL_STATUSES[7] == s;
    }
    if payload.status.Some? {
      FindStatusFinds(payload.status.value, ALL_STATUSES);
      if StatusOf(payload).Some? && payload.status.value == StatusName(s) {
        NamesDiffer(StatusOf(payload).value, s);
      }
    }
  }

  /** The vendor service writes the event name where a status belongs, so those rows have none. */
  lemma VendorEventsHaveNoStatus(payload: Payload)
    requires payload.status == Some("order.accepted") || payload.status == Some("order.rejected")
    ensures StatusOf(payload) == None
  {
    assert payload.status.value[0] == 'o';
    forall s: OrderStatus ensures StatusOf(payload) != Some(s) {
      StatusRoundTrip(payload, s);
      assert StatusName(s)[0] != 'o';
    }
  }

  // ---------------------------------------------------------------- projection

  function ProjectOrder(t: Tables, e: EventRow): Tables {
    if e.entityType != OrderEntity || e.id in t.orders then t else t.(orders := t.orders[e.id := ToOrderRow(e)])
  }

  function ProjectJob(t: Tables, e: EventRow): Tables {
    if e.entityType != JobEntity || e.id in t.jobs then t else t.(jobs := t.jobs[e.id := ToJobRow(e)])
  }

  function Projected(t: Tables, e: EventRow): Tables {
    match e.entityType
    case OrderEntity => ProjectOrder(t, e)
    case JobEntity => ProjectJob(t, e)
  }

  function ProjectAll(t: Tables, events: seq<EventRow>): Tables
    decreases |events|
  {
    if events == [] then t else ProjectAll(Projected(t, events[0]), events[1..])
  }

  /** One row per event, in the table its entity type names. */
  function Expected(log: map<Id, EventRow>): Tables {
    Tables(
      map k | k in log && log[k].entityType == OrderEntity :: ToOrderRow(log[k]),
      map k | k in log && log[k].entityType == JobEntity :: ToJobRow(log[k]))
  }

  ghost predicate IsLog(log: map<Id, EventRow>) {
    forall k :: k in log ==> log[k].id == k
  }

  /** Every row is the projection of its event; rows may be missing. */
  ghost predicate Partial(log: map<Id, EventRow>, t: Tables) {
    && (forall k :: k in t.orders ==> k in log && log[k].entityType == OrderEntity && t.orders[k] == ToOrderRow(log[k]))
    && (forall k :: k in t.jobs ==> k in log && log[k].entityType == JobEntity && t.jobs[k] == ToJobRow(log[k]))
  }

  predicate HasRow(t: Tables, k: Id) {
    k in t.orders || k in t.jobs
  }

  lemma {:induction false} ProjectAllAdds(log: map<Id, EventRow>, t: Tables, events: seq<EventRow>)
    requires IsLog(log) && Partial(log, t)
    requires forall e :: e in events ==> e.id in log && log[e.id] == e
    ensures var t' := ProjectAll(t, events);
      && Partial(log, t')
      && (forall k :: HasRow(t, k) ==> HasRow(t', k))
      && (forall e :: e in events ==> HasRow(t', e.id))
    decreases |events|
  {
    if events != [] {
      var e, next := events[0], Projected(t, events[0]);
      assert e in events;
      ProjectAllAdds(log, next, events[1..]);
      assert forall f :: f in events <==> f == e || f in events[1..];
    }
  }

  /** Tables hold exactly the expected rows when no row is wrong and none is missing. */
  lemma CompleteIsExact(log: map<Id, EventRow>, t: Tables)
    requires Partial(log, t) && forall k :: k in log ==> HasRow(t, k)
    ensures t == Expected(log)
  {
    hide ToOrderRow, ToJobRow;
    assert t.orders == Expected(log).orders && t.jobs == Expected(log).jobs;
  }

  /**
   Replaying the log in any order and with any repetitions, from empty tables or on top of rows that are
   there already, gives exactly one row per event, each in its own table.
   */
  lemma RebuildIsExact(log: map<Id, EventRow>, t: Tables, events: seq<EventRow>)
    requires IsLog(log) && Partial(log, t)
    requires forall e :: e in events ==> e.id in log && log[e.id] == e
    requires forall k :: k in log ==> log[k] in events
    ensures ProjectAll(t, events) == Expected(log)
  {
    ProjectAllAdds(log, t, events);
    forall k | k in log ensures HasRow(ProjectAll(t, events), k) {
      assert log[k] in events;
    }
    CompleteIsExact(log, ProjectAll(t, events));
  }

  /** What the kinds of events are called in an order's timeline; any other event keeps its own name. */
  predicate OrderWording(eventType: string, message: string) {
    && (eventType == "order.created" ==> message == "Order placed")
    && (eventType == "order.accepted" ==> message == "Vendor accepted the order")
    && (eventType == "order.rejected" ==> message == "Vendor rejected the order")
    && (eventType == "order.ready" ==> message == "Order is ready for delivery")
    && (eventType == "order.completed" ==> message == "Order delivered")
    && (eventType == "order.cancelled" ==> message == "Order cancelled")
    && (eventType == "order.delivery_issue" ==> message == "Delivery issue detected and escalated")
    && (message == eventType
        || eventType in {"order.created", "order.accepted", "order.rejected", "order.ready", "order.completed",
                         "order.cancelled", "order.delivery_issue"})
  }

  predicate JobWording(eventType: string, message: string) {
    && (eventType == "job.assigned" ==> message == "Job assigned to deliverer")
    && (eventType == "job.started" ==> message == "Delivery started")
    && (eventType == "job.completed" ==> message == "Delivery completed")
    && (eventType == "job.recovered" ==> message == "Delivery assignment recovered after deliverer timeout")
    && (eventType == "job.escalated" ==> message == "Delivery issue escalated for manual intervention")
    && (message == eventType
        || eventType in {"job.assigned", "job.started", "job.completed", "job.recovered", "job.escalated"})
  }

  /**
   What the rebuilt timelines say, event by event: each has the one row in the table of its kind, under the
   event's id, with the event's own subject, type, payload and time, and a status exactly when its payload
   names one.
   */
  lemma RebuiltRowsTell(log: map<Id, EventRow>, t: Tables, events: seq<EventRow>, k: Id)
    requires IsLog(log) && Partial(log, t)
    requires forall e :: e in events ==> e.id in log && log[e.id] == e
    requires forall k :: k in log ==> log[k] in events
    ensures var t' := ProjectAll(t, events);
      && (k in t'.orders <==> k in log && log[k].entityType == OrderEntity)
      && (k in t'.jobs <==> k in log && log[k].entityType == JobEntity)
      && (k in t'.orders ==>
            && t'.orders[k].sourceEventId == k && t'.orders[k].orderId == log[k].entityId
            && t'.orders[k].eventType == log[k].eventType && t'.orders[k].payload == log[k].payload
            && t'.orders[k].occurredAt == log[k].createdAt
            && OrderWording(log[k].eventType, t'.orders[k].message)
            && (forall s: OrderStatus :: t'.orders[k].status == Some(s)
                                         <==> log[k].payload.status == Some(StatusName(s))))
      && (k in t'.jobs ==>
            && t'.jobs[k].sourceEventId == k && t'.jobs[k].jobId == log[k].entityId
            && t'.jobs[k].eventType == log[k].eventType && t'.jobs[k].payload == log[k].payload
            && t'.jobs[k].occurredAt == log[k].createdAt && JobWording(log[k].eventType, t'.jobs[k].message))
  {
    RebuildIsExact(log, t, events);
    if k in log {
      OrderMessageTells(log[k].eventType);
      JobMessageTells(log[k].eventType);
      forall s: OrderStatus
        ensures StatusOf(log[k].payload) == Some(s) <==> log[k].payload.status == Some(StatusName(s))
      {
        StatusRoundTrip(log[k].payload, s);
      }
    }
    hide ProjectAll, Partial, StatusOf, StatusName, OrderMessage, JobMessage, OrderWording, JobWording;
  }

  lemma OrderMessageTells(eventType: string)
    ensures OrderWording(eventType, OrderMessage(eventType))
  {
  }

  lemma JobMessageTells(eventType: string)
    ensures JobWording(eventType, JobMessage(eventType))
  {
  }

  /** The names of the statuses. */
  lemma StatusNames()
    ensures StatusName(PendingVendorConfirmation) == "PENDING_VENDOR_CONFIRMATION"
    ensures StatusName(VendorAccepted) == "VENDOR_ACCEPTED" && StatusName(VendorRejected) == "VENDOR_REJECTED"
    ensures StatusName(ReadyForDelivery) == "READY_FOR_DELIVERY"
    ensures StatusName(WaitingForDeliverer) == "WAITING_FOR_DELIVERER"
    ensures StatusName(OrderStatus.InProgress) == "IN_PROGRESS"
    ensures StatusName(OrderStatus.Completed) == "COMPLETED" && StatusName(Cancelled) == "CANCELLED"
  {
  }

  lemma AppendStaysPartial(log: map<Id, EventRow>, t: Tables, e: EventRow)
    requires IsLog(log) && Partial(log, t) && e.id !in log
    ensures IsLog(log[e.id := e])
    ensures Partial(log[e.id := e], t) && Partial(log[e.id := e], Projected(t, e))
  {
    hide ToOrderRow, ToJobRow;
  }

  /** Projecting a new event keeps complete tables complete. */
  lemma AppendStaysExact(log: map<Id, EventRow>, t: Tables, e: EventRow)
    requires IsLog(log) && Partial(log, t) && e.id !in log && t == Expected(log)
    ensures Projected(t, e) == Expected(log[e.id := e])
  {
    hide ToOrderRow, ToJobRow, Partial;
    AppendStaysPartial(log, t, e);
    forall k | k in log[e.id := e] ensures HasRow(Projected(t, e), k) {
      assert k in log ==> HasRow(t, k);
    }
    CompleteIsExact(log[e.id := e], Projected(t, e));
  }

  // ---------------------------------------------------------------- the service

  /** The parameters of recordEvent, and whether the process dies between the insert and the projection. */
  datatype Recording = Recording(
    entityType: EntityType, entityId: Id, eventType: string, payload: Payload, at: int, dies: bool)

  class EventLogService {
    var log: map<Id, EventRow>
    var tables: Tables
    var nextId: Id

    ghost predicate Valid()
      reads this
    {
      IsLog(log) && (forall k :: k in log ==> k < nextId) && Partial(log, tables)
    }

    constructor ()
      ensures Valid() && log == map[] && tables == Tables(map[], map[])
    {
      log, tables, nextId := map[], Tables(map[], map[]), 1;
    }

    /** `createMany` with `skipDuplicates` on the table of the event's entity type. */
    method Project(e: EventRow)
      modifies this`tables
      ensures tables == Projected(old(tables), e)
    {
      match e.entityType
      case OrderEntity =>
        if e.id !in tables.orders {
          tables := tables.(orders := tables.orders[e.id := ToOrderRow(e)]);
        }
      case JobEntity =>
        if e.id !in tables.jobs {
          tables := tables.(jobs := tables.jobs[e.id := ToJobRow(e)]);
        }
    }

    /** Appends the event and projects it. Outside a transaction the two can come apart. */
    method RecordEvent(r: Recording) returns (event: EventRow)
      requires Valid()
      modifies this
      ensures Valid() && event.id !in old(log) && log == old(log)[event.id := event]
      ensures event == EventRow(event.id, r.entityType, r.entityId, r.eventType, r.payload, r.at)
      ensures tables == if r.dies then old(tables) else Projected(old(tables), event)
      ensures !r.dies && old(tables) == Expected(old(log)) ==> tables == Expected(log)
    {
      hide Partial, Projected, Expected;
      event := EventRow(nextId, r.entityType, r.entityId, r.eventType, r.payload, r.at);
      AppendStaysPartial(log, tables, event);
      if tables == Expected(log) {
        AppendStaysExact(log, tables, event);
      }
      log := log[nextId := event];
      nextId := nextId + 1;
      if !r.dies {
        Project(event);
      }
    }

    /** Projects a list of events again. */
    method Rebuild(events: seq<EventRow>)
      requires Valid() && forall e :: e in events ==> e.id in log && log[e.id] == e
      modifies this`tables
      ensures Valid() && tables == ProjectAll(old(tables), events)
      ensures (forall k :: k in log ==> log[k] in events) ==> tables == Expected(log)
    {
      for i := 0 to |events|
        invariant ProjectAll(old(tables), events) == ProjectAll(tables, events[i..])
      {
        assert events[i..][0] == events[i] && events[i..][1..] == events[i + 1..];
        Project(events[i]);
      }
      assert events[|events|..] == [];
      ProjectAllAdds(log, old(tables), events);
      if forall k :: k in log ==> log[k] in events {
        RebuildIsExact(log, old(tables), events);
      }
    }
  }
}
