/** The order controller: building an order from a form, storing it once per order number,
    releasing compartments, the stage-flag updates made by users and operators, and the
    readiness queries riders use. */
module Orders {
  import opened Common
  import opened LockerModel

  type OrderId = string
  type UserId = string
  type ServiceId = string

  // ---------------------------------------------------------------------------------------
  // Order data

  /** One line of an order. Prices are whole minor currency units. */
  datatype OrderItem = OrderItem(name: string, unit: string, price: int, quantity: int, cumPrice: int)

  /** A sub-stage with only a status flag and the time it was last set. */
  datatype Stage = Stage(status: bool, dateUpdated: Time)

  datatype InProgress = InProgress(status: bool, verified: bool, processing: bool, dateUpdated: Time)

  datatype OrderErrorStage = OrderErrorStage(
    status: bool, proofPicUrl: seq<string>, userAccepted: bool, userRejected: bool,
    returnProcessed: bool, dateUpdated: Time)

  /** The `orderStage` record: independent sub-stages, plus a stage-level update time. */
  datatype OrderStage = OrderStage(
    dropOff: Stage, inProgress: InProgress, orderError: OrderErrorStage,
    processingComplete: Stage, readyForCollection: Stage, outForDelivery: Stage,
    collectedByRider: Stage, completed: Stage, dateUpdated: Time)

  /** Every field of an order document the controller reads or writes. */
  datatype OrderData = OrderData(
    orderNumber: string, userId: UserId, lockerSiteId: SiteId, collectionSiteId: SiteId,
    serviceId: ServiceId, orderItems: seq<OrderItem>, oldOrderItems: seq<OrderItem>,
    estimatedPrice: int, finalPrice: int, selectedByRider: bool, createdAt: Time,
    orderStage: OrderStage)

  /** The field updates the controller makes on a stored order, one per request handler. */
  datatype Transition =
    | ConfirmDropOff
    | ConfirmCollection
    | ApproveDetails
    | EditDetails(items: seq<OrderItem>, proofPics: seq<string>, price: int)
    | ConfirmProcessingComplete
    | ApproveReturn
    | ResolveError
    | RejectError

  /** The order after transition `t` at time `now`. No transition checks the order's
      current stage: each one sets its fields whatever they held. */
  function Step(d: OrderData, t: Transition, now: Time): (e: OrderData)
    ensures e.orderStage.orderError.status ==
      if t.EditDetails? then true else if t.ResolveError? then false else d.orderStage.orderError.status
    ensures e.orderStage.completed.status == (t.ConfirmCollection? || d.orderStage.completed.status)
  {
    var st := d.orderStage;
    match t
    case ConfirmDropOff =>
      d.(orderStage := st.(dropOff := st.dropOff.(status := true, dateUpdated := now)))
    case ConfirmCollection =>
      d.(orderStage := st.(completed := st.completed.(status := true, dateUpdated := now)))
    case ApproveDetails =>
      d.(finalPrice := d.estimatedPrice,
         orderStage := st.(inProgress := st.inProgress.(verified := true, processing := true),
                           dateUpdated := now))
    case EditDetails(items, pics, price) =>
      d.(oldOrderItems := d.orderItems, orderItems := items, finalPrice := price,
         orderStage := st.(inProgress := st.inProgress.(verified := true, dateUpdated := now),
                           orderError := st.orderError.(status := true, dateUpdated := now,
                                                        proofPicUrl := st.orderError.proofPicUrl + pics)))
    case ConfirmProcessingComplete =>
      d.(orderStage := st.(processingComplete := st.processingComplete.(status := true, dateUpdated := now)))
    case ApproveReturn =>
      d.(orderStage := st.(orderError := st.orderError.(returnProcessed := true),
                           processingComplete := st.processingComplete.(status := true, dateUpdated := now)))
    case ResolveError =>
      d.(orderStage := st.(orderError := st.orderError.(status := false, userAccepted := true, dateUpdated := now),
                           inProgress := st.inProgress.(processing := true, dateUpdated := now)))
    case RejectError =>
      d.(orderStage := st.(orderError := st.orderError.(userRejected := true, dateUpdated := now)))
  }

  /** A push notification handed to the notification service. */
  datatype Notification = Notification(userId: UserId, orderStatus: string, orderId: string)

  /** The notification a transition sends to the order's user, if any. */
  function NotificationFor(d: OrderData, t: Transition): (r: Option<Notification>)
    ensures r.Some? <==> t.EditDetails? || t.ConfirmProcessingComplete?
    ensures r.Some? ==> r.value.userId == d.userId && r.value.orderId == d.orderNumber
    ensures r.Some? ==> r.value.orderStatus == if t.EditDetails? then "orderError" else "processingComplete"
  {
    match t
    case EditDetails(_, _, _) => Some(Notification(d.userId, "orderError", d.orderNumber))
    case ConfirmProcessingComplete => Some(Notification(d.userId, "processingComplete", d.orderNumber))
    case _ => None
  }

  // ---------------------------------------------------------------------------------------
  // Properties of the transitions

  /** No transition touches the order's identity, its sites, its service, its estimate, its
      creation time or `selectedByRider`, nor the rider-driven sub-stages. */
  lemma StepKeepsIdentity(d: OrderData, t: Transition, now: Time)
    ensures var e := Step(d, t, now);
      && e.orderNumber == d.orderNumber && e.userId == d.userId
      && e.lockerSiteId == d.lockerSiteId && e.collectionSiteId == d.collectionSiteId
      && e.serviceId == d.serviceId && e.estimatedPrice == d.estimatedPrice
      && e.createdAt == d.createdAt && e.selectedByRider == d.selectedByRider
      && e.orderStage.outForDelivery == d.orderStage.outForDelivery
      && e.orderStage.collectedByRider == d.orderStage.collectedByRider
      && e.orderStage.readyForCollection == d.orderStage.readyForCollection
  {
  }

  /** The operator's edit is the only transition that raises `orderError.status`. */
  lemma OnlyEditRaisesError(d: OrderData, t: Transition, now: Time)
    requires !d.orderStage.orderError.status
    requires Step(d, t, now).orderStage.orderError.status
    ensures t.EditDetails?
  {
  }

  /** The proof-picture list only grows: every transition keeps the old pictures as a prefix,
      and only the edit adds to it. */
  lemma ProofPicsOnlyGrow(d: OrderData, t: Transition, now: Time)
    ensures var pics := Step(d, t, now).orderStage.orderError.proofPicUrl;
      if t.EditDetails? then pics == d.orderStage.orderError.proofPicUrl + t.proofPics
      else pics == d.orderStage.orderError.proofPicUrl
  {
  }

  /** The user accepting an operator's edit, on any order: the error is closed, the acceptance
      is recorded and processing resumes; the rejection flag, the pictures, the items, the
      price and the verification are left as they were. */
  lemma ResolveErrorEffect(d: OrderData, now: Time)
    ensures var e := Step(d, ResolveError, now);
      && !e.orderStage.orderError.status && e.orderStage.orderError.userAccepted
      && e.orderStage.inProgress.processing
      && e.orderStage.inProgress.verified == d.orderStage.inProgress.verified
      && e.orderStage.orderError.userRejected == d.orderStage.orderError.userRejected
      && e.orderStage.orderError.proofPicUrl == d.orderStage.orderError.proofPicUrl
      && e.orderItems == d.orderItems && e.finalPrice == d.finalPrice
      && e.orderStage.processingComplete == d.orderStage.processingComplete
  {
  }

  /** The user rejecting an operator's edit, on any order: only the rejection and its time are
      recorded; the error status, the acceptance flag, processing, items and price are kept. */
  lemma RejectErrorEffect(d: OrderData, now: Time)
    ensures var e := Step(d, RejectError, now);
      && e.orderStage.orderError.status == d.orderStage.orderError.status
      && e.orderStage.orderError.userRejected
      && e.orderStage.orderError.userAccepted == d.orderStage.orderError.userAccepted
      && e.orderStage.orderError.dateUpdated == now
      && e.orderStage.inProgress == d.orderStage.inProgress
      && e.orderItems == d.orderItems && e.finalPrice == d.finalPrice
      && e.orderStage.processingComplete == d.orderStage.processingComplete
  {
  }

  /** Operator edit followed by the user accepting it: the error is closed, the acceptance is
      recorded, processing resumes, and the edit's audit copy, pictures and price remain. */
  lemma EditThenResolve(d: OrderData, items: seq<OrderItem>, pics: seq<string>, price: int, t1: Time, t2: Time)
    ensures var e := Step(Step(d, EditDetails(items, pics, price), t1), ResolveError, t2);
      && !e.orderStage.orderError.status && e.orderStage.orderError.userAccepted
      && e.orderStage.inProgress.verified && e.orderStage.inProgress.processing
      && e.orderStage.orderError.proofPicUrl == d.orderStage.orderError.proofPicUrl + pics
      && e.orderItems == items && e.oldOrderItems == d.orderItems && e.finalPrice == price
      && e.orderStage.orderError.dateUpdated == t2 && e.orderStage.inProgress.dateUpdated == t2
  {
  }

  /** Operator edit followed by the user rejecting it: the order stays in the error state,
      with the rejection recorded and processing not resumed by the rejection. */
  lemma EditThenReject(d: OrderData, items: seq<OrderItem>, pics: seq<string>, price: int, t1: Time, t2: Time)
    ensures var e := Step(Step(d, EditDetails(items, pics, price), t1), RejectError, t2);
      && e.orderStage.orderError.status && e.orderStage.orderError.userRejected
      && e.orderStage.orderError.userAccepted == d.orderStage.orderError.userAccepted
      && e.orderStage.inProgress.processing == d.orderStage.inProgress.processing
  {
  }

  /** Two edits in a row: the audit copy holds the items of the first edit, and the pictures of
      both are kept in order. So the edit, unlike every other transition, is not idempotent. */
  lemma EditTwice(d: OrderData, i1: seq<OrderItem>, p1: seq<string>, f1: int, i2: seq<OrderItem>, p2: seq<string>, f2: int, t1: Time, t2: Time)
    ensures var e := Step(Step(d, EditDetails(i1, p1, f1), t1), EditDetails(i2, p2, f2), t2);
      && e.oldOrderItems == i1 && e.orderItems == i2 && e.finalPrice == f2
      && e.orderStage.orderError.proofPicUrl == d.orderStage.orderError.proofPicUrl + p1 + p2
  {
  }

  /** Repeating any transition other than the edit gives the same order as doing it once at
      the later time. */
  lemma StepIdempotent(d: OrderData, t: Transition, t1: Time, t2: Time)
    requires !t.EditDetails?
    ensures Step(Step(d, t, t1), t, t2) == Step(d, t, t2)
  {
  }

  /** The operator's approval sets the final price to the estimate and starts processing. */
  lemma ApproveSetsPrice(d: OrderData, now: Time)
    ensures var e := Step(d, ApproveDetails, now);
      e.finalPrice == e.estimatedPrice && e.orderStage.inProgress.verified && e.orderStage.inProgress.processing
      && e.orderStage.orderError == d.orderStage.orderError && e.orderStage.dateUpdated == now
  {
  }

  /** Approving a return completes processing without any approval of the details. */
  lemma ApproveReturnCompletes(d: OrderData, now: Time)
    ensures var e := Step(d, ApproveReturn, now);
      e.orderStage.processingComplete.status && e.orderStage.orderError.returnProcessed
      && e.orderStage.inProgress == d.orderStage.inProgress
      && e.orderStage.orderError.status == d.orderStage.orderError.status
  {
  }

  // ---------------------------------------------------------------------------------------
  // Readiness

  /** The filter of `getOrdersReadyForPickup` for one locker site. */
  predicate ReadyForLockerPickup(d: OrderData, lockerSiteId: SiteId)
  {
    d.orderStage.dropOff.status && !d.orderStage.collectedByRider.status
    && !d.selectedByRider && d.lockerSiteId == lockerSiteId
  }

  /** The filter of `getLaundrySiteOrdersReadyForPickup` for one collection site. */
  predicate ReadyForLaundrySitePickup(d: OrderData, lockerSiteId: SiteId)
  {
    d.orderStage.processingComplete.status && !d.orderStage.outForDelivery.status
    && !d.selectedByRider && d.collectionSiteId == lockerSiteId
  }

  /** The filter of `displayOrdersForOperator`. */
  predicate ShownToOperator(d: OrderData)
  {
    (d.orderStage.inProgress.status || d.orderStage.readyForCollection.status || d.orderStage.orderError.status)
    && !d.orderStage.completed.status
  }

  /** Drop-off is the only transition that makes an order ready for locker pickup, and it does
      so for every order not yet collected or selected by a rider. */
  lemma LockerPickupReadiness(d: OrderData, t: Transition, now: Time, s: SiteId)
    ensures ReadyForLockerPickup(Step(d, t, now), s) && !ReadyForLockerPickup(d, s) ==> t == ConfirmDropOff
    ensures !d.orderStage.collectedByRider.status && !d.selectedByRider ==>
      ReadyForLockerPickup(Step(d, ConfirmDropOff, now), d.lockerSiteId)
    ensures ReadyForLockerPickup(d, s) ==> ReadyForLockerPickup(Step(d, t, now), s)
  {
  }

  /** Processing complete and return approval are the transitions that make an order ready for
      laundry-site pickup; no transition makes a ready order unready. */
  lemma LaundrySitePickupReadiness(d: OrderData, t: Transition, now: Time, s: SiteId)
    ensures ReadyForLaundrySitePickup(Step(d, t, now), s) && !ReadyForLaundrySitePickup(d, s) ==>
      t == ConfirmProcessingComplete || t == ApproveReturn
    ensures !d.orderStage.outForDelivery.status && !d.selectedByRider ==>
      ReadyForLaundrySitePickup(Step(d, ConfirmProcessingComplete, now), d.collectionSiteId)
      && ReadyForLaundrySitePickup(Step(d, ApproveReturn, now), d.collectionSiteId)
    ensures ReadyForLaundrySitePickup(d, s) ==> ReadyForLaundrySitePickup(Step(d, t, now), s)
  {
  }

  /** Nothing guards the return approval: an edit the user rejected can still be taken on to
      processing complete, and the order is then ready for laundry-site pickup with its error
      still open. */
  lemma RejectedEditStillReturned(d: OrderData, items: seq<OrderItem>, pics: seq<string>, price: int, t1: Time, t2: Time, t3: Time)
    requires !d.orderStage.outForDelivery.status && !d.selectedByRider
    ensures var e := Step(Step(Step(d, EditDetails(items, pics, price), t1), RejectError, t2), ApproveReturn, t3);
      && ReadyForLaundrySitePickup(e, d.collectionSiteId)
      && e.orderStage.orderError.status && e.orderStage.orderError.userRejected
      && e.orderStage.orderError.returnProcessed
  {
  }

  /** An edited order that is not completed is on the operator's list; collection takes any
      order off it. */
  lemma OperatorListing(d: OrderData, items: seq<OrderItem>, pics: seq<string>, price: int, now: Time)
    ensures !d.orderStage.completed.status ==> ShownToOperator(Step(d, EditDetails(items, pics, price), now))
    ensures !ShownToOperator(Step(d, ConfirmCollection, now))
  {
  }

  // ---------------------------------------------------------------------------------------
  // Order documents and the store

  /** A stored order document; its id, number and user never change. */
  class Order {
    const id: OrderId
    const orderNumber: string
    const userId: UserId
    var lockerSiteId: SiteId
    var collectionSiteId: SiteId
    var serviceId: ServiceId
    var orderItems: seq<OrderItem>
    var oldOrderItems: seq<OrderItem>
    var estimatedPrice: int
    var finalPrice: int
    var selectedByRider: bool
    var createdAt: Time
    var orderStage: OrderStage

    function Data(): OrderData
      reads this
    {
      OrderData(orderNumber, userId, lockerSiteId, collectionSiteId, serviceId, orderItems,
                oldOrderItems, estimatedPrice, finalPrice, selectedByRider, createdAt, orderStage)
    }

    /** `new Order(order)` */
    constructor (id: OrderId, d: OrderData)
      ensures this.id == id && Data() == d
    {
      this.id := id;
      orderNumber := d.orderNumber;
      userId := d.userId;
      lockerSiteId := d.lockerSiteId;
      collectionSiteId := d.collectionSiteId;
      serviceId := d.serviceId;
      orderItems := d.orderItems;
      oldOrderItems := d.oldOrderItems;
      estimatedPrice := d.estimatedPrice;
      finalPrice := d.finalPrice;
      selectedByRider := d.selectedByRider;
      createdAt := d.createdAt;
      orderStage := d.orderStage;
    }
  }

  datatype OrderFailure =
    | OrderNotFound(message: string)
    | DuplicateOrderNumber
    | DuplicateOrderId
    | LockerNull
    | CompartmentNotFound
    | LockerSaveRejected(saveError: SaveError)

  function FailureMessage(f: OrderFailure): string
  {
    match f
    case OrderNotFound(m) => m
    case DuplicateOrderNumber => "Order with same order number exists."
    case DuplicateOrderId => "E11000 duplicate key error"
    case LockerNull => "Cannot read properties of null (reading 'compartments')"
    case CompartmentNotFound => "Compartment not found."
    case LockerSaveRejected(e) => SaveErrorMessage(e)
  }

  /** All stored orders, by id. */
  class OrderStore {
    var orders: map<OrderId, Order>

    /** No two stored orders share an order number. */
    predicate UniqueNumbers()
      reads this
    {
      forall a, b :: a in orders && b in orders && a != b ==> orders[a].orderNumber != orders[b].orderNumber
    }

    /** `Order.findOne({ orderNumber })` finds something. */
    predicate HasOrderNumber(orderNumber: string)
      reads this
    {
      exists id :: id in orders && orders[id].orderNumber == orderNumber
    }

    constructor ()
      ensures orders == map[] && UniqueNumbers()
    {
      orders := map[];
    }

    /** `confirmOrder`: stores the posted order under the fresh id the database gives it,
        stamped with its creation time, unless an order with that number is already stored. */
    method ConfirmOrder(order: OrderData, newId: OrderId, now: Time) returns (r: Outcome<OrderFailure>)
      modifies this
      ensures old(HasOrderNumber(order.orderNumber)) ==> r == Fail(DuplicateOrderNumber) && orders == old(orders)
      ensures !old(HasOrderNumber(order.orderNumber)) && newId in old(orders) ==>
        r == Fail(DuplicateOrderId) && orders == old(orders)
      ensures !old(HasOrderNumber(order.orderNumber)) && newId !in old(orders) ==>
        && r == Pass && newId in orders && fresh(orders[newId])
        && orders == old(orders)[newId := orders[newId]]
        && orders[newId].id == newId && orders[newId].Data() == order.(createdAt := now)
      ensures old(UniqueNumbers()) ==> UniqueNumbers()
    {
      if HasOrderNumber(order.orderNumber) {
        return Fail(DuplicateOrderNumber);
      }
      if newId in orders {
        return Fail(DuplicateOrderId);
      }
      var newOrder := new Order(newId, order);
      newOrder.createdAt := now;
      orders := orders[newId := newOrder];
      r := Pass;
    }
  }

  /** The order document the request names, as a frame. */
  function OrderFrame(orders: map<OrderId, Order>, orderId: OrderId): set<Order>
  {
    if orderId in orders then {orders[orderId]} else {}
  }

  /** The locker-site document the request names, as a frame. */
  function SiteFrame(lockers: map<SiteId, LockerSite>, lockerSiteId: SiteId): set<LockerSite>
  {
    if lockerSiteId in lockers then {lockers[lockerSiteId]} else {}
  }

  // ---------------------------------------------------------------------------------------
  // Building an order

  /** One item of the order form. */
  datatype RequestedItem = RequestedItem(itemId: string, quantity: int)

  /** The order form: the chosen service and site and the requested items. */
  datatype OrderForm = OrderForm(serviceId: ServiceId, lockerSiteId: SiteId, orderItems: seq<RequestedItem>)

  /** An item of a service's catalogue. */
  datatype CatalogItem = CatalogItem(id: string, name: string, unit: string, price: int)

  datatype CatalogError = ServiceNotFound | ItemNotFound

  /** The object `createOrderObject` returns. */
  datatype OrderDraft = OrderDraft(orderNumber: string, lockerSiteId: SiteId, serviceId: ServiceId, orderItems: seq<OrderItem>)

  /** `findItemById(serviceId, itemId)` over the services' catalogues. */
  function FindItemById(services: map<ServiceId, seq<CatalogItem>>, serviceId: ServiceId, itemId: string): (r: Result<CatalogItem, CatalogError>)
    ensures r == Err(ServiceNotFound) <==> serviceId !in services
    ensures r.Ok? ==> serviceId in services && r.value in services[serviceId] && r.value.id == itemId
    ensures r == Err(ItemNotFound) <==> serviceId in services && forall item :: item in services[serviceId] ==> item.id != itemId
  {
    if serviceId !in services then Err(ServiceNotFound)
    else
      var items := services[serviceId];
      match FirstIndex(items, (item: CatalogItem) => item.id == itemId)
      case None => Err(ItemNotFound)
      case Some(k) => Ok(items[k])
  }

  /** The order line for `quantity` units of a catalogue item. */
  function LineFor(item: CatalogItem, quantity: int): OrderItem
  {
    OrderItem(item.name, item.unit, item.price, quantity, item.price * quantity)
  }

  /** The requested items whose quantity is not zero, in form order. */
  function NonZero(req: seq<RequestedItem>): (r: seq<RequestedItem>)
    ensures forall x :: x in r <==> x in req && x.quantity != 0
  {
    if |req| == 0 then []
    else if req[0].quantity == 0 then NonZero(req[1..])
    else [req[0]] + NonZero(req[1..])
  }

  lemma {:induction false} NonZeroAppend(a: seq<RequestedItem>, b: seq<RequestedItem>)
    ensures NonZero(a + b) == NonZero(a) + NonZero(b)
  {
    if |a| == 0 {
      assert a + b == b;
    } else {
      assert (a + b)[1..] == a[1..] + b;
      NonZeroAppend(a[1..], b);
    }
  }

  /** Extending the scanned prefix by one item keeps that item iff its quantity is not zero. */
  lemma NonZeroSnoc(req: seq<RequestedItem>, i: nat)
    requires i < |req|
    ensures NonZero(req[..i + 1]) == NonZero(req[..i]) + if req[i].quantity == 0 then [] else [req[i]]
  {
    assert req[..i + 1] == req[..i] + [req[i]];
    NonZeroAppend(req[..i], [req[i]]);
    assert [req[i]][1..] == [];
  }

  /** The items kept from the prefix before a non-zero item are followed, in the items kept
      from the whole form, by that item. */
  lemma NonZeroPrefix(req: seq<RequestedItem>, i: nat)
    requires i < |req| && req[i].quantity != 0
    ensures var pre := NonZero(req[..i]);
      && |pre| < |NonZero(req)| && NonZero(req)[|pre|] == req[i]
      && forall k :: 0 <= k < |pre| ==> NonZero(req)[k] == pre[k]
  {
    assert req == req[..i] + req[i..];
    NonZeroAppend(req[..i], req[i..]);
    assert req[i..][1..] == req[i + 1..];
  }

  /** `lines` are the catalogue-priced lines of `kept`, one per item and in the same order. */
  predicate PricedAs(services: map<ServiceId, seq<CatalogItem>>, serviceId: ServiceId, kept: seq<RequestedItem>, lines: seq<OrderItem>)
  {
    && |lines| == |kept|
    && forall k :: 0 <= k < |kept| ==>
         FindItemById(services, serviceId, kept[k].itemId).Ok?
         && lines[k] == LineFor(FindItemById(services, serviceId, kept[k].itemId).value, kept[k].quantity)
  }

  lemma PricedAsSnoc(services: map<ServiceId, seq<CatalogItem>>, serviceId: ServiceId, kept: seq<RequestedItem>,
                     lines: seq<OrderItem>, x: RequestedItem, item: CatalogItem)
    requires PricedAs(services, serviceId, kept, lines)
    requires FindItemById(services, serviceId, x.itemId) == Ok(item)
    ensures PricedAs(services, serviceId, kept + [x], lines + [LineFor(item, x.quantity)])
  {
    var k2, l2 := kept + [x], lines + [LineFor(item, x.quantity)];
    forall k | 0 <= k < |k2|
      ensures FindItemById(services, serviceId, k2[k].itemId).Ok?
      ensures l2[k] == LineFor(FindItemById(services, serviceId, k2[k].itemId).value, k2[k].quantity)
    {
      if k < |kept| {
        assert k2[k] == kept[k] && l2[k] == lines[k];
      }
    }
  }

  /** Position `k` of the kept items is the first whose catalogue lookup fails. */
  predicate FirstFailedLookup(services: map<ServiceId, seq<CatalogItem>>, serviceId: ServiceId, kept: seq<RequestedItem>, k: int)
  {
    && 0 <= k < |kept|
    && FindItemById(services, serviceId, kept[k].itemId).Err?
    && forall j :: 0 <= j < k ==> FindItemById(services, serviceId, kept[j].itemId).Ok?
  }

  /** `createOrderObject(orderData, orderNumber)`: skips zero-quantity items without looking
      them up, prices every other item from the catalogue, and fails on the first lookup that
      fails. */
  method CreateOrderObject(services: map<ServiceId, seq<CatalogItem>>, orderData: OrderForm, orderNumber: string)
    returns (r: Result<OrderDraft, CatalogError>)
    ensures r.Ok? <==> forall k :: 0 <= k < |NonZero(orderData.orderItems)| ==>
      FindItemById(services, orderData.serviceId, NonZero(orderData.orderItems)[k].itemId).Ok?
    ensures r.Ok? ==>
      r.value.orderNumber == orderNumber && r.value.lockerSiteId == orderData.lockerSiteId && r.value.serviceId == orderData.serviceId
    ensures r.Ok? ==> var kept := NonZero(orderData.orderItems);
      && |r.value.orderItems| == |kept|
      && forall k :: 0 <= k < |kept| ==>
           r.value.orderItems[k] == LineFor(FindItemById(services, orderData.serviceId, kept[k].itemId).value, kept[k].quantity)
    ensures r.Err? ==> exists k ::
      && FirstFailedLookup(services, orderData.serviceId, NonZero(orderData.orderItems), k)
      && r.error == FindItemById(services, orderData.serviceId, NonZero(orderData.orderItems)[k].itemId).error
  {
    var req := orderData.orderItems;
    var sid := orderData.serviceId;
    var orderItems: seq<OrderItem> := [];
    var i := 0;
    while i < |req|
      invariant 0 <= i <= |req|
      invariant PricedAs(services, sid, NonZero(req[..i]), orderItems)
    {
      var orderItem := req[i];
      NonZeroSnoc(req, i);
      if orderItem.quantity == 0 {
        i := i + 1;
        continue;
      }
      var item := FindItemById(services, sid, orderItem.itemId);
      if item.Err? {
        NonZeroPrefix(req, i);
        assert FirstFailedLookup(services, sid, NonZero(req), |orderItems|);
        return Err(item.error);
      }
      PricedAsSnoc(services, sid, NonZero(req[..i]), orderItems, orderItem, item.value);
      orderItems := orderItems + [LineFor(item.value, orderItem.quantity)];
      i := i + 1;
    }
    assert req[..i] == req;
    return Ok(OrderDraft(orderNumber, orderData.lockerSiteId, sid, orderItems));
  }

  /** Every line of a built order is priced as unit price times quantity and has a non-zero
      quantity. */
  lemma DraftLinesPriced(services: map<ServiceId, seq<CatalogItem>>, form: OrderForm, items: seq<OrderItem>)
    requires |items| == |NonZero(form.orderItems)|
    requires forall k :: 0 <= k < |items| ==>
      FindItemById(services, form.serviceId, NonZero(form.orderItems)[k].itemId).Ok?
      && items[k] == LineFor(FindItemById(services, form.serviceId, NonZero(form.orderItems)[k].itemId).value,
                             NonZero(form.orderItems)[k].quantity)
    ensures forall k :: 0 <= k < |items| ==> items[k].cumPrice == items[k].price * items[k].quantity && items[k].quantity != 0
  {
    forall k | 0 <= k < |items| ensures items[k].cumPrice == items[k].price * items[k].quantity && items[k].quantity != 0 {
      assert NonZero(form.orderItems)[k] in NonZero(form.orderItems);
    }
  }

  // ---------------------------------------------------------------------------------------
  // Request handlers that release compartments

  /** `cancelOrderCreation`: frees the named compartment of the named site. It takes no order,
      so nothing about drop-off is checked. */
  method CancelOrderCreation(lockers: map<SiteId, LockerSite>, lockerSiteId: SiteId, compartmentId: CompartmentId)
    returns (r: Outcome<OrderFailure>)
    modifies SiteFrame(lockers, lockerSiteId)
    ensures lockerSiteId !in lockers ==> r == Fail(LockerNull)
    ensures lockerSiteId in lockers ==>
      var site := lockers[lockerSiteId];
      var cs := old(site.compartments);
      && site.name == old(site.name)
      && match CompartmentIndex(cs, compartmentId)
         case None => r == Fail(CompartmentNotFound) && site.compartments == cs
         case Some(i) =>
           if DistinctNumbers(cs) then r == Pass && site.compartments == Released(cs, i)
           else r.Fail? && r.error.LockerSaveRejected? && site.compartments == cs
  {
    if lockerSiteId !in lockers {
      return Fail(LockerNull);
    }
    var locker := lockers[lockerSiteId];
    var found := CompartmentIndex(locker.compartments, compartmentId);
    if found.None? {
      return Fail(CompartmentNotFound);
    }
    var saved := locker.ReleaseAndSave(found.value);
    if saved.Fail? {
      return Fail(LockerSaveRejected(saved.error));
    }
    r := Pass;
  }

  /** `confirmOrderCollection`: marks the order completed and saves it, then frees the named
      compartment if the site has it. A missing compartment is not an error; a missing site
      fails the request after the order was already saved. */
  method ConfirmOrderCollection(orders: map<OrderId, Order>, lockers: map<SiteId, LockerSite>,
                                orderId: OrderId, lockerSiteId: SiteId, compartmentId: CompartmentId, now: Time)
    returns (r: Outcome<OrderFailure>)
    modifies OrderFrame(orders, orderId), SiteFrame(lockers, lockerSiteId)
    ensures orderId !in orders ==> r == Fail(OrderNotFound("CONFIRM ORDER COLLECTION ERROR"))
    ensures orderId in orders ==> orders[orderId].Data() == Step(old(orders[orderId].Data()), ConfirmCollection, now)
    ensures orderId in orders && lockerSiteId !in lockers ==> r == Fail(LockerNull)
    ensures lockerSiteId in lockers ==>
      var site := lockers[lockerSiteId];
      var cs := old(site.compartments);
      && site.name == old(site.name)
      && if orderId !in orders then site.compartments == cs
         else match CompartmentIndex(cs, compartmentId)
           case None => r == Pass && site.compartments == cs
           case Some(i) =>
             if DistinctNumbers(cs) then r == Pass && site.compartments == Released(cs, i)
             else r.Fail? && r.error.LockerSaveRejected? && site.compartments == cs
  {
    if orderId !in orders {
      return Fail(OrderNotFound("CONFIRM ORDER COLLECTION ERROR"));
    }
    var order := orders[orderId];
    order.orderStage := order.orderStage.(completed := order.orderStage.completed.(status := true));
    order.orderStage := order.orderStage.(completed := order.orderStage.completed.(dateUpdated := now));
    if lockerSiteId !in lockers {
      return Fail(LockerNull);
    }
    var locker := lockers[lockerSiteId];
    var found := CompartmentIndex(locker.compartments, compartmentId);
    if found.Some? {
      var saved := locker.ReleaseAndSave(found.value);
      if saved.Fail? {
        return Fail(LockerSaveRejected(saved.error));
      }
    }
    r := Pass;
  }

  // ---------------------------------------------------------------------------------------
  // Request handlers that update stage flags

  method ConfirmOrderDropOff(orders: map<OrderId, Order>, orderId: OrderId, now: Time)
    returns (r: Outcome<OrderFailure>)
    modifies OrderFrame(orders, orderId)
    ensures orderId !in orders ==> r == Fail(OrderNotFound("CONFIRM ORDER DROP OFF ERROR"))
    ensures orderId in orders ==>
      r == Pass && orders[orderId].Data() == Step(old(orders[orderId].Data()), ConfirmDropOff, now)
  {
    if orderId !in orders {
      return Fail(OrderNotFound("CONFIRM ORDER DROP OFF ERROR"));
    }
    var order := orders[orderId];
    order.orderStage := order.orderStage.(dropOff := order.orderStage.dropOff.(status := true));
    order.orderStage := order.orderStage.(dropOff := order.orderStage.dropOff.(dateUpdated := now));
    r := Pass;
  }

  method OperatorApproveOrderDetails(orders: map<OrderId, Order>, orderId: OrderId, now: Time)
    returns (r: Outcome<OrderFailure>)
    modifies OrderFrame(orders, orderId)
    ensures orderId !in orders ==> r == Fail(OrderNotFound("OPERATOR APPROVE ORDER DETAILS ERROR"))
    ensures orderId in orders ==>
      r == Pass && orders[orderId].Data() == Step(old(orders[orderId].Data()), ApproveDetails, now)
  {
    if orderId !in orders {
      return Fail(OrderNotFound("OPERATOR APPROVE ORDER DETAILS ERROR"));
    }
    var order := orders[orderId];
    order.finalPrice := order.estimatedPrice;
    order.orderStage := order.orderStage.(inProgress := order.orderStage.inProgress.(verified := true));
    order.orderStage := order.orderStage.(inProgress := order.orderStage.inProgress.(processing := true));
    order.orderStage := order.orderStage.(dateUpdated := now);
    r := Pass;
  }

  /** The notifications sent so far, oldest first. */
  class NotificationLog {
    var sent: seq<Notification>

    constructor ()
      ensures sent == []
    {
      sent := [];
    }
  }

  /** `operatorEditOrderDetails`: keeps the old items as an audit copy, replaces items and
      final price, marks the order verified, opens the order error with the supplied proof
      pictures appended one by one, and notifies the order's user. */
  method OperatorEditOrderDetails(orders: map<OrderId, Order>, log: NotificationLog, orderId: OrderId,
                                  orderItems: seq<OrderItem>, proofPicUrl: seq<string>, finalPrice: int, now: Time)
    returns (r: Outcome<OrderFailure>)
    modifies OrderFrame(orders, orderId), log
    ensures orderId !in orders ==>
      r == Fail(OrderNotFound("OPERATOR EDIT ORDER DETAILS ERROR")) && log.sent == old(log.sent)
    ensures orderId in orders ==>
      var t := EditDetails(orderItems, proofPicUrl, finalPrice);
      && r == Pass
      && orders[orderId].Data() == Step(old(orders[orderId].Data()), t, now)
      && log.sent == old(log.sent) + [NotificationFor(old(orders[orderId].Data()), t).value]
  {
    if orderId !in orders {
      return Fail(OrderNotFound("OPERATOR EDIT ORDER DETAILS ERROR"));
    }
    var order := orders[orderId];
    order.oldOrderItems := order.orderItems;
    order.orderItems := orderItems;
    order.finalPrice := finalPrice;
    order.orderStage := order.orderStage.(inProgress := order.orderStage.inProgress.(verified := true, dateUpdated := now));
    order.orderStage := order.orderStage.(orderError := order.orderStage.orderError.(status := true, dateUpdated := now));
    assert proofPicUrl[..0] == [] && old(order.orderStage.orderError.proofPicUrl) + [] == old(order.orderStage.orderError.proofPicUrl);
    var i := 0;
    while i < |proofPicUrl|
      invariant 0 <= i <= |proofPicUrl|
      invariant order.Data() == Step(old(order.Data()), EditDetails(orderItems, proofPicUrl[..i], finalPrice), now)
      invariant log.sent == old(log.sent)
    {
      var pics := order.orderStage.orderError.proofPicUrl;
      order.orderStage := order.orderStage.(orderError := order.orderStage.orderError.(proofPicUrl := pics + [proofPicUrl[i]]));
      EditPushPic(old(order.Data()), orderItems, proofPicUrl[..i], proofPicUrl[i], finalPrice, now);
      assert proofPicUrl[..i + 1] == proofPicUrl[..i] + [proofPicUrl[i]];
      i := i + 1;
    }
    assert proofPicUrl[..i] == proofPicUrl;
    log.sent := log.sent + [Notification(order.userId, "orderError", order.orderNumber)];
    r := Pass;
  }

  /** Pushing one more picture after an edit gives the edit with that picture appended. */
  lemma EditPushPic(d: OrderData, items: seq<OrderItem>, pics: seq<string>, x: string, price: int, now: Time)
    ensures var e := Step(d, EditDetails(items, pics, price), now);
      var err := e.orderStage.orderError;
      Step(d, EditDetails(items, pics + [x], price), now) ==
        e.(orderStage := e.orderStage.(orderError := err.(proofPicUrl := err.proofPicUrl + [x])))
  {
    var old0 := d.orderStage.orderError.proofPicUrl;
    assert old0 + (pics + [x]) == (old0 + pics) + [x];
  }

  /** `operatorConfirmProcessingComplete`: notifies the order's user and marks processing complete. */
  method OperatorConfirmProcessingComplete(orders: map<OrderId, Order>, log: NotificationLog, orderId: OrderId, now: Time)
    returns (r: Outcome<OrderFailure>)
    modifies OrderFrame(orders, orderId), log
    ensures orderId !in orders ==>
      r == Fail(OrderNotFound("OPERATOR CONFIRM PROCESSING COMPLETE ERROR")) && log.sent == old(log.sent)
    ensures orderId in orders ==>
      && r == Pass
      && orders[orderId].Data() == Step(old(orders[orderId].Data()), ConfirmProcessingComplete, now)
      && log.sent == old(log.sent) + [NotificationFor(old(orders[orderId].Data()), ConfirmProcessingComplete).value]
  {
    if orderId !in orders {
      return Fail(OrderNotFound("OPERATOR CONFIRM PROCESSING COMPLETE ERROR"));
    }
    var order := orders[orderId];
    log.sent := log.sent + [Notification(order.userId, "processingComplete", order.orderNumber)];
    order.orderStage := order.orderStage.(processingComplete := order.orderStage.processingComplete.(status := true));
    order.orderStage := order.orderStage.(processingComplete := order.orderStage.processingComplete.(dateUpdated := now));
    r := Pass;
  }

  method OperatorApproveOrderReturn(orders: map<OrderId, Order>, orderId: OrderId, now: Time)
    returns (r: Outcome<OrderFailure>)
    modifies OrderFrame(orders, orderId)
    ensures orderId !in orders ==> r == Fail(OrderNotFound("OPERATOR APPROVE ORDER RETURN ERROR"))
    ensures orderId in orders ==>
      r == Pass && orders[orderId].Data() == Step(old(orders[orderId].Data()), ApproveReturn, now)
  {
    if orderId !in orders {
      return Fail(OrderNotFound("OPERATOR APPROVE ORDER RETURN ERROR"));
    }
    var order := orders[orderId];
    order.orderStage := order.orderStage.(orderError := order.orderStage.orderError.(returnProcessed := true));
    order.orderStage := order.orderStage.(processingComplete := order.orderStage.processingComplete.(status := true));
    order.orderStage := order.orderStage.(processingComplete := order.orderStage.processingComplete.(dateUpdated := now));
    r := Pass;
  }

  method UserResolveOrderError(orders: map<OrderId, Order>, orderId: OrderId, now: Time)
    returns (r: Outcome<OrderFailure>)
    modifies OrderFrame(orders, orderId)
    ensures orderId !in orders ==> r == Fail(OrderNotFound("USER RESOLVE ORDER ERROR ERROR"))
    ensures orderId in orders ==>
      r == Pass && orders[orderId].Data() == Step(old(orders[orderId].Data()), ResolveError, now)
  {
    if orderId !in orders {
      return Fail(OrderNotFound("USER RESOLVE ORDER ERROR ERROR"));
    }
    var order := orders[orderId];
    order.orderStage := order.orderStage.(orderError := order.orderStage.orderError.(status := false));
    order.orderStage := order.orderStage.(orderError := order.orderStage.orderError.(userAccepted := true));
    order.orderStage := order.orderStage.(orderError := order.orderStage.orderError.(dateUpdated := now));
    order.orderStage := order.orderStage.(inProgress := order.orderStage.inProgress.(processing := true));
    order.orderStage := order.orderStage.(inProgress := order.orderStage.inProgress.(dateUpdated := now));
    r := Pass;
  }

  method UserRejectOrderError(orders: map<OrderId, Order>, orderId: OrderId, now: Time)
    returns (r: Outcome<OrderFailure>)
    modifies OrderFrame(orders, orderId)
    ensures orderId !in orders ==> r == Fail(OrderNotFound("USER REJECT ORDER ERROR ERROR"))
    ensures orderId in orders ==>
      r == Pass && orders[orderId].Data() == Step(old(orders[orderId].Data()), RejectError, now)
  {
    if orderId !in orders {
      return Fail(OrderNotFound("USER REJECT ORDER ERROR ERROR"));
    }
    var order := orders[orderId];
    order.orderStage := order.orderStage.(orderError := order.orderStage.orderError.(userRejected := true));
    order.orderStage := order.orderStage.(orderError := order.orderStage.orderError.(dateUpdated := now));
    r := Pass;
  }

  // ---------------------------------------------------------------------------------------
  // Readiness queries and per-locker counts

  /** `getOrdersReadyForPickup(lockerSiteId)`: the stored orders ready for locker pickup there. */
  function OrdersReadyForPickup(orders: map<OrderId, Order>, lockerSiteId: SiteId): (r: set<OrderId>)
    reads orders.Values
    ensures r <= orders.Keys
    ensures forall id :: id in r <==> id in orders && ReadyForLockerPickup(orders[id].Data(), lockerSiteId)
  {
    set id | id in orders && ReadyForLockerPickup(orders[id].Data(), lockerSiteId)
  }

  /** `getLaundrySiteOrdersReadyForPickup(lockerSiteId)`: the stored orders ready to go back
      to that collection site. */
  function LaundrySiteOrdersReadyForPickup(orders: map<OrderId, Order>, lockerSiteId: SiteId): (r: set<OrderId>)
    reads orders.Values
    ensures r <= orders.Keys
    ensures forall id :: id in r <==> id in orders && ReadyForLaundrySitePickup(orders[id].Data(), lockerSiteId)
  {
    set id | id in orders && ReadyForLaundrySitePickup(orders[id].Data(), lockerSiteId)
  }

  /** `displayOrdersForOperator` */
  function OrdersForOperator(orders: map<OrderId, Order>): (r: set<OrderId>)
    reads orders.Values
    ensures r <= orders.Keys
    ensures forall id :: id in r <==> id in orders && ShownToOperator(orders[id].Data())
  {
    set id | id in orders && ShownToOperator(orders[id].Data())
  }

  /** The ids of the listed locker sites. */
  function SiteIds(lockers: seq<LockerSite>): set<SiteId>
  {
    set i | 0 <= i < |lockers| :: lockers[i].id
  }

  /** `getNumberOfOrdersReadyForPickup`: one entry per locker site, holding the number of orders
      ready for locker pickup there. */
  method GetNumberOfOrdersReadyForPickup(lockers: seq<LockerSite>, orders: map<OrderId, Order>)
    returns (counts: map<SiteId, nat>)
    ensures counts.Keys == SiteIds(lockers)
    ensures forall s :: s in counts ==> counts[s] == |OrdersReadyForPickup(orders, s)|
  {
    counts := map[];
    var i := 0;
    while i < |lockers|
      invariant 0 <= i <= |lockers|
      invariant counts.Keys == SiteIds(lockers[..i])
      invariant forall s :: s in counts ==> counts[s] == |OrdersReadyForPickup(orders, s)|
    {
      var locker := lockers[i];
      var ready := OrdersReadyForPickup(orders, locker.id);
      counts := counts[locker.id := |ready|];
      SiteIdsSnoc(lockers, i);
      i := i + 1;
    }
    assert lockers[..i] == lockers;
  }

  /** `getNumberOfOrdersReadyForDropoff`: one entry per locker site, holding the number of orders
      ready to be brought back to it. */
  method GetNumberOfOrdersReadyForDropoff(lockers: seq<LockerSite>, orders: map<OrderId, Order>)
    returns (counts: map<SiteId, nat>)
    ensures counts.Keys == SiteIds(lockers)
    ensures forall s :: s in counts ==> counts[s] == |LaundrySiteOrdersReadyForPickup(orders, s)|
  {
    counts := map[];
    var i := 0;
    while i < |lockers|
      invariant 0 <= i <= |lockers|
      invariant counts.Keys == SiteIds(lockers[..i])
      invariant forall s :: s in counts ==> counts[s] == |LaundrySiteOrdersReadyForPickup(orders, s)|
    {
      var locker := lockers[i];
      var ready := LaundrySiteOrdersReadyForPickup(orders, locker.id);
      counts := counts[locker.id := |ready|];
      SiteIdsSnoc(lockers, i);
      i := i + 1;
    }
    assert lockers[..i] == lockers;
  }

  lemma SiteIdsSnoc(lockers: seq<LockerSite>, i: nat)
    requires i < |lockers|
    ensures SiteIds(lockers[..i + 1]) == SiteIds(lockers[..i]) + {lockers[i].id}
  {
    var a, b := lockers[..i + 1], lockers[..i];
    assert forall k :: 0 <= k < i ==> a[k] == b[k];
    forall s | s in SiteIds(a) ensures s in SiteIds(b) + {lockers[i].id} {
      var k :| 0 <= k < |a| && a[k].id == s;
      if k < i { assert b[k].id == s; }
    }
    forall s | s in SiteIds(b) + {lockers[i].id} ensures s in SiteIds(a) {
      if s in SiteIds(b) {
        var k :| 0 <= k < |b| && b[k].id == s;
        assert a[k].id == s;
      } else {
        assert a[i].id == s;
      }
    }
  }
}
