/** The rows of the dispatch database (prisma/schema.prisma) and the store they make up. */
module Types {

  datatype Option<+T> = None | Some(value: T)

  type Id = nat

  datatype OrderType = Food | Grocery | Vegetable | Empty

  datatype OrderStatus =
    | PendingVendorConfirmation
    | VendorAccepted
    | VendorRejected
    | ReadyForDelivery
    | WaitingForDeliverer
    | InProgress
    | Completed
    | Cancelled

  /** Shared by jobs, batches and drop-offs. */
  datatype JobStatus = Pending | Assigned | InProgress | Completed

  /** A nullable pair of float columns. */
  datatype Coords = Coords(lat: Option<real>, lng: Option<real>)

  /** The columns of a vendor profile that placing an order reads. */
  datatype Vendor = Vendor(isActive: bool, isVerified: bool, at: Coords)

  /** The columns of an order that batching reads. */
  datatype OrderInfo = OrderInfo(vendorId: Id, orderType: OrderType, vendor: Coords, customer: Coords)

  datatype Order = Order(
    info: OrderInfo,
    status: OrderStatus,
    readyAt: Option<int>,
    delivererId: Option<Id>,
    jobId: Option<Id>,
    batchId: Option<Id>)

  /** `orders` is the `BatchOrders` relation, listed in the order in which the orders joined. */
  datatype Batch = Batch(status: JobStatus, delivererId: Option<Id>, createdAt: int, orders: seq<Id>)

  datatype Job = Job(delivererId: Option<Id>, batchId: Id, status: JobStatus, totalOrders: nat)

  datatype DropOff = DropOff(jobId: Id, orderId: Id, sequence: nat, status: JobStatus, at: Coords)

  datatype Deliverer = Deliverer(availability: bool, activeJobId: Option<Id>)

  datatype OrderEventKind =
    | OrderCreated | OrderAccepted | OrderRejected | OrderReady | OrderCompleted | OrderDeliveryIssue

  datatype JobEventKind = JobAssigned | JobStarted | JobCompleted | JobRecovered | JobEscalated

  datatype Event =
    | OrderEvent(orderId: Id, orderKind: OrderEventKind)
    | JobEvent(jobId: Id, jobKind: JobEventKind)

  /** `queue` holds the assignment messages that have been sent and not yet been dropped. */
  datatype State = State(
    orders: map<Id, Order>,
    batches: map<Id, Batch>,
    jobs: map<Id, Job>,
    stops: map<Id, DropOff>,
    deliverers: map<Id, Deliverer>,
    log: seq<Event>,
    queue: multiset<Id>)

  const EMPTY_STATE := State(map[], map[], map[], map[], map[], [], multiset{})

  ghost predicate NoDuplicates<T>(xs: seq<T>) {
    forall i, j :: 0 <= i < j < |xs| ==> xs[i] != xs[j]
  }

  /** `@unique` on DeliveryJob.batchId. */
  ghost predicate UniqueBatch(jobs: map<Id, Job>) {
    forall i, j :: i in jobs && j in jobs && jobs[i].batchId == jobs[j].batchId ==> i == j
  }

  predicate Active(job: Job) {
    job.status == JobStatus.Assigned || job.status == JobStatus.InProgress
  }

  predicate Readyable(status: OrderStatus) {
    status == PendingVendorConfirmation || status == VendorAccepted
  }

  /** The statuses an order can have before it is marked ready. */
  predicate PreReady(status: OrderStatus) {
    Readyable(status) || status == VendorRejected
  }
}
