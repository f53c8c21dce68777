/** Shipments kept in memory, their status log and the idempotency keys of both operations. */
module Shipments {
  import opened Collections

  datatype Status = Shipped | InTransit | Customs | OutForDelivery | Delivered | Exception

  /** The allowed targets; a status may also follow itself. */
  function AllowedTransitions(s: Status): set<Status> {
    match s
    case Shipped => {InTransit, Customs, OutForDelivery, Delivered, Exception}
    case InTransit => {Customs, OutForDelivery, Delivered, Exception}
    case Customs => {InTransit, OutForDelivery, Delivered, Exception}
    case OutForDelivery => {Delivered, Exception}
    case Delivered => {}
    case Exception => {InTransit, Customs, OutForDelivery, Delivered}
  }

  predicate TransitionOk(current: Status, next: Status) {
    current == next || next in AllowedTransitions(current)
  }

  datatype StatusEvent = StatusEvent(fromStatus: Option<Status>, toStatus: Status, location: string, reason: string,
                                     actorId: string, at: nat)

  /** The fields that the request hash covers are lumped in `details`. */
  datatype CreateInput = CreateInput(orderId: string, details: string, reason: string, actorId: string, idempotencyKey: string)

  datatype UpdateInput = UpdateInput(status: Status, reason: string, location: string, actorId: string)

  /** What the request hash of an update covers: not the actor. */
  datatype UpdateRequest = UpdateRequest(status: Status, reason: string, location: string)

  datatype Record = Record(orderId: string, details: string, reason: string, idempotencyKey: string, createdBy: string,
                           status: Status, shippedAt: nat, deliveredAt: Option<nat>, updatedAt: nat, events: seq<StatusEvent>)
  {
    predicate SameOrigin(r: Record) {
      this == r.(status := status, deliveredAt := deliveredAt, updatedAt := updatedAt, events := events)
    }
  }

  datatype EventKey = EventKey(request: UpdateRequest, shipmentId: string)

  /** `order` lists the shipments as they were inserted. */
  datatype Store = Store(shipments: map<string, Record>, order: seq<string>, eventKeys: map<string, EventKey>)

  datatype Reply = Accepted(id: string, replayed: bool) | NotFound | KeyConflict | TransitionConflict

  function FindByKey(shipments: map<string, Record>, order: seq<string>, key: string): (id: Option<string>)
    ensures id.Some? ==> id.value in order && id.value in shipments && shipments[id.value].idempotencyKey == key
    ensures id.None? ==> forall i | i in order && i in shipments :: shipments[i].idempotencyKey != key
  {
    if order == [] then None
    else if order[0] in shipments && shipments[order[0]].idempotencyKey == key then Some(order[0])
    else FindByKey(shipments, order[1..], key)
  }

  function NewRecord(input: CreateInput, at: nat): Record {
    Record(input.orderId, input.details, input.reason, input.idempotencyKey, input.actorId, Shipped, at, None, at,
           [StatusEvent(None, Shipped, "", input.reason, input.actorId, at)])
  }

  function Create(s: Store, id: string, input: CreateInput, at: nat): (Store, Reply) {
    match FindByKey(s.shipments, s.order, input.idempotencyKey)
    case Some(found) =>
      var r := s.shipments[found];
      (s, if r.orderId == input.orderId && r.details == input.details && r.reason == input.reason
          then Accepted(found, true) else KeyConflict)
    case None => (s.(shipments := s.shipments[id := NewRecord(input, at)], order := s.order + [id]), Accepted(id, false))
  }

  function UpdatedRecord(r: Record, input: UpdateInput, at: nat): Record {
    r.(events := r.events + [StatusEvent(Some(r.status), input.status, input.location, input.reason, input.actorId, at)],
       status := input.status, updatedAt := at, deliveredAt := if input.status == Delivered then Some(at) else r.deliveredAt)
  }

  function Update(s: Store, id: string, input: UpdateInput, key: string, at: nat): (Store, Reply) {
    var request := UpdateRequest(input.status, input.reason, input.location);
    if id !in s.shipments then (s, NotFound)
    else if key in s.eventKeys then
      (s, if s.eventKeys[key] == EventKey(request, id) then Accepted(id, true) else KeyConflict)
    else if !TransitionOk(s.shipments[id].status, input.status) then (s, TransitionConflict)
    else (s.(shipments := s.shipments[id := UpdatedRecord(s.shipments[id], input, at)],
             eventKeys := s.eventKeys[key := EventKey(request, id)]), Accepted(id, false))
  }

  datatype Call =
    | CreateShipment(id: string, input: CreateInput, at: nat)
    | UpdateStatus(id: string, update: UpdateInput, key: string, at: nat)

  /** New ids are random UUIDs. */
  predicate Possible(s: Store, c: Call) {
    c.CreateShipment? ==> c.id !in s.shipments
  }

  function Perform(s: Store, c: Call): Store {
    match c
    case CreateShipment(id, input, at) => Create(s, id, input, at).0
    case UpdateStatus(id, update, key, at) => Update(s, id, update, key, at).0
  }

  predicate PossibleRun(s: Store, cs: seq<Call>)
    decreases |cs|
  {
    cs == [] || (Possible(s, cs[0]) && PossibleRun(Perform(s, cs[0]), cs[1..]))
  }

  function Run(s: Store, cs: seq<Call>): Store
    decreases |cs|
  {
    if cs == [] then s else Run(Perform(s, cs[0]), cs[1..])
  }

  // ----- The log -----

  /** The events form a path of allowed or self transitions that starts with the shipping. */
  predicate IsPath(events: seq<StatusEvent>) {
    && |events| > 0 && events[0].fromStatus == None && events[0].toStatus == Shipped
    && forall i | 1 <= i < |events| ::
         events[i].fromStatus == Some(events[i - 1].toStatus) && TransitionOk(events[i - 1].toStatus, events[i].toStatus)
  }

  predicate LogOk(r: Record) {
    && IsPath(r.events) && r.events[|r.events| - 1].toStatus == r.status
    && r.deliveredAt == if r.status == Delivered then Some(r.events[|r.events| - 1].at) else None
  }

  function KeysOf(eventKeys: map<string, EventKey>, id: string): set<string> {
    set k | k in eventKeys && eventKeys[k].shipmentId == id
  }

  predicate Balanced(s: Store, id: string) {
    id in s.shipments ==> LogOk(s.shipments[id]) && |s.shipments[id].events| == 1 + |KeysOf(s.eventKeys, id)|
  }

  ghost predicate Inv(s: Store) {
    && (forall id :: Balanced(s, id))
    && (forall k | k in s.eventKeys :: s.eventKeys[k].shipmentId in s.shipments)
    && (forall id :: id in s.order <==> id in s.shipments)
    && (forall i, j | i in s.shipments && j in s.shipments && i != j ::
          s.shipments[i].idempotencyKey != s.shipments[j].idempotencyKey)
  }

  lemma UpdateLog(r: Record, input: UpdateInput, at: nat)
    requires LogOk(r) && TransitionOk(r.status, input.status)
    ensures LogOk(UpdatedRecord(r, input, at))
  {
  }

  lemma CreateKeeps(s: Store, id: string, input: CreateInput, at: nat)
    requires Inv(s) && id !in s.shipments
    ensures Inv(Create(s, id, input, at).0)
  {
    var s' := Create(s, id, input, at).0;
    if s' != s {
      assert KeysOf(s.eventKeys, id) == {};
      forall x ensures Balanced(s', x) {
        assert Balanced(s, x);
      }
      forall x | x in s.shipments ensures s.shipments[x].idempotencyKey != input.idempotencyKey {
        assert x in s.order;
      }
    }
  }

  lemma OneMoreKey(eventKeys: map<string, EventKey>, key: string, k: EventKey, id: string)
    requires key !in eventKeys
    ensures |KeysOf(eventKeys[key := k], id)| == |KeysOf(eventKeys, id)| + if k.shipmentId == id then 1 else 0
  {
    if k.shipmentId == id {
      assert KeysOf(eventKeys[key := k], id) == KeysOf(eventKeys, id) + {key};
    } else {
      assert KeysOf(eventKeys[key := k], id) == KeysOf(eventKeys, id);
    }
  }

  /** One more event and one more key keep the books balanced. */
  lemma OneMoreEvent(s: Store, id: string, r: Record, key: string, k: EventKey)
    requires Inv(s) && id in s.shipments && key !in s.eventKeys && k.shipmentId == id
    requires LogOk(r) && |r.events| == |s.shipments[id].events| + 1 && r.idempotencyKey == s.shipments[id].idempotencyKey
    ensures Inv(s.(shipments := s.shipments[id := r], eventKeys := s.eventKeys[key := k]))
  {
    var s' := s.(shipments := s.shipments[id := r], eventKeys := s.eventKeys[key := k]);
    forall x ensures Balanced(s', x) {
      assert Balanced(s, x) && Balanced(s, id);
      OneMoreKey(s.eventKeys, key, k, x);
    }
  }

  lemma UpdateKeeps(s: Store, id: string, input: UpdateInput, key: string, at: nat)
    requires Inv(s)
    ensures Inv(Update(s, id, input, key, at).0)
  {
    if id in s.shipments && key !in s.eventKeys && TransitionOk(s.shipments[id].status, input.status) {
      assert Balanced(s, id);
      UpdateLog(s.shipments[id], input, at);
      OneMoreEvent(s, id, UpdatedRecord(s.shipments[id], input, at), key,
                   EventKey(UpdateRequest(input.status, input.reason, input.location), id));
    }
  }

  /** What a call leaves of a shipment: its log grows at the end, and delivered stays delivered. */
  ghost predicate Extends(s: Store, s': Store, id: string) {
    id in s.shipments ==>
      && id in s'.shipments && s.shipments[id].events <= s'.shipments[id].events
      && s'.shipments[id].SameOrigin(s.shipments[id])
      && (s.shipments[id].status == Delivered ==> s'.shipments[id].status == Delivered)
      && (forall k | k in s.eventKeys :: k in s'.eventKeys && s'.eventKeys[k] == s.eventKeys[k])
  }

  lemma CallExtends(s: Store, c: Call, id: string)
    requires Possible(s, c)
    ensures Extends(s, Perform(s, c), id)
  {
  }

  /**
   * In every reachable state each log is a path from shipped to the current status, with one event per accepted key
   * besides the first; delivered is final, and `deliveredAt` is the time of the last delivered event.
   */
  lemma {:induction false} LogsAlways(s: Store, cs: seq<Call>, id: string)
    requires Inv(s) && PossibleRun(s, cs)
    ensures Inv(Run(s, cs)) && Extends(s, Run(s, cs), id)
    decreases |cs|
  {
    if cs != [] {
      match cs[0] {
        case CreateShipment(x, input, at) => CreateKeeps(s, x, input, at);
        case UpdateStatus(x, update, key, at) => UpdateKeeps(s, x, update, key, at);
      }
      CallExtends(s, cs[0], id);
      LogsAlways(Perform(s, cs[0]), cs[1..], id);
    }
  }

  /** Nothing goes back to shipped once it has left. */
  lemma {:induction false} ShippedOnlyAtFirst(events: seq<StatusEvent>, i: nat, j: nat)
    requires IsPath(events) && i <= j < |events| && events[j].toStatus == Shipped
    ensures events[i].toStatus == Shipped
    decreases j - i
  {
    if i < j {
      assert TransitionOk(events[j - 1].toStatus, events[j].toStatus);
      ShippedOnlyAtFirst(events, i, j - 1);
    }
  }

  lemma UsedKey(s: Store, id: string, input: UpdateInput, key: string, at: nat)
    requires id in s.shipments && key in s.eventKeys
    ensures Update(s, id, input, key, at)
            == (s, if s.eventKeys[key] == EventKey(UpdateRequest(input.status, input.reason, input.location), id)
                   then Accepted(id, true) else KeyConflict)
  {
  }

  /** A key accepted once is answered as a replay for the same request, and with a conflict for any other, in every later state. */
  lemma AcceptedKeyReplays(s: Store, id: string, input: UpdateInput, key: string, at: nat, cs: seq<Call>, again: UpdateInput, later: nat)
    requires Inv(s) && Update(s, id, input, key, at).1 == Accepted(id, false)
    requires PossibleRun(Update(s, id, input, key, at).0, cs)
    ensures var e := Run(Update(s, id, input, key, at).0, cs);
            Update(e, id, again, key, later)
            == (e, if again.(actorId := input.actorId) == input then Accepted(id, true) else KeyConflict)
  {
    var s' := Update(s, id, input, key, at).0;
    UpdateKeeps(s, id, input, key, at);
    assert id in s'.shipments && key in s'.eventKeys
           && s'.eventKeys[key] == EventKey(UpdateRequest(input.status, input.reason, input.location), id);
    LogsAlways(s', cs, id);
    UsedKey(Run(s', cs), id, again, key, later);
  }

  lemma KeyHolder(s: Store, id: string, key: string)
    requires Inv(s) && id in s.shipments && s.shipments[id].idempotencyKey == key
    ensures FindByKey(s.shipments, s.order, key) == Some(id)
  {
    assert id in s.order;
  }

  /** The key of a created shipment never creates another one: it is replayed for the same request and conflicts with any other. */
  lemma CreatedKeyReplays(s: Store, id: string, cs: seq<Call>, other: string, input: CreateInput, at: nat)
    requires Inv(s) && PossibleRun(s, cs) && id in s.shipments && s.shipments[id].idempotencyKey == input.idempotencyKey
    ensures var (e, r) := (Run(s, cs), s.shipments[id]);
            Create(e, other, input, at)
            == (e, if r.orderId == input.orderId && r.details == input.details && r.reason == input.reason
                   then Accepted(id, true) else KeyConflict)
  {
    LogsAlways(s, cs, id);
    KeyHolder(Run(s, cs), id, input.idempotencyKey);
  }

  // ----- What the two operations do -----

  /**
   * A status may stay; nothing goes back to shipped, delivered is never left, and out for delivery only ends, in a delivery
   * or an exception. Every other step is allowed.
   */
  lemma TransitionsExactly(current: Status, next: Status)
    ensures TransitionOk(current, next)
            <==> next == current
                 || (next != Shipped && current != Delivered && (current == OutForDelivery ==> next == Delivered || next == Exception))
  {
  }

  /** A used key is answered from the call that used it; a new one adds an event to the shipment, if its status may follow. */
  lemma UpdateExactly(s: Store, id: string, input: UpdateInput, key: string, at: nat)
    requires id in s.shipments
    ensures var (s', reply) := Update(s, id, input, key, at);
            var r := s.shipments[id];
            if key in s.eventKeys then
              && s' == s
              && reply == if s.eventKeys[key].shipmentId == id && s.eventKeys[key].request.status == input.status
                             && s.eventKeys[key].request.reason == input.reason && s.eventKeys[key].request.location == input.location
                          then Accepted(id, true) else KeyConflict
            else if !TransitionOk(r.status, input.status) then s' == s && reply == TransitionConflict
            else
              && reply == Accepted(id, false)
              && s'.shipments.Keys == s.shipments.Keys && (forall x | x in s.shipments && x != id :: s'.shipments[x] == s.shipments[x])
              && s'.shipments[id]
                 == Record(r.orderId, r.details, r.reason, r.idempotencyKey, r.createdBy, input.status, r.shippedAt,
                           if input.status == Delivered then Some(at) else r.deliveredAt, at,
                           r.events + [StatusEvent(Some(r.status), input.status, input.location, input.reason, input.actorId, at)])
              && s'.order == s.order
              && s'.eventKeys == s.eventKeys[key := EventKey(UpdateRequest(input.status, input.reason, input.location), id)]
  {
  }

  lemma NothingToUpdate(s: Store, id: string, input: UpdateInput, key: string, at: nat)
    requires id !in s.shipments
    ensures Update(s, id, input, key, at) == (s, NotFound)
  {
  }

  /** A new shipment is shipped, with one event that says so. */
  lemma CreateExactly(s: Store, id: string, input: CreateInput, at: nat)
    requires forall x | x in s.order && x in s.shipments :: s.shipments[x].idempotencyKey != input.idempotencyKey
    ensures var (s', reply) := Create(s, id, input, at);
            && reply == Accepted(id, false) && s'.order == s.order + [id] && s'.eventKeys == s.eventKeys
            && s'.shipments
               == s.shipments[id := Record(input.orderId, input.details, input.reason, input.idempotencyKey, input.actorId, Shipped, at, None, at,
                                           [StatusEvent(None, Shipped, "", input.reason, input.actorId, at)])]
  {
  }

  // ----- The objects -----

  /** A shipment object; callers keep references to it, and updates are made in place. */
  class Shipment {
    const orderId: string
    const details: string
    const reason: string
    const idempotencyKey: string
    const createdBy: string
    const shippedAt: nat
    var status: Status
    var deliveredAt: Option<nat>
    var updatedAt: nat
    var events: seq<StatusEvent>

    constructor (input: CreateInput, at: nat)
      ensures Data() == NewRecord(input, at)
    {
      orderId, details, reason := input.orderId, input.details, input.reason;
      idempotencyKey, createdBy, shippedAt := input.idempotencyKey, input.actorId, at;
      status, deliveredAt, updatedAt := Shipped, None, at;
      events := [StatusEvent(None, Shipped, "", input.reason, input.actorId, at)];
    }

    function Data(): Record
      reads this
    {
      Record(orderId, details, reason, idempotencyKey, createdBy, status, shippedAt, deliveredAt, updatedAt, events)
    }

    method Push(input: UpdateInput, at: nat)
      modifies this
      ensures Data() == UpdatedRecord(old(Data()), input, at)
    {
      events := events + [StatusEvent(Some(status), input.status, input.location, input.reason, input.actorId, at)];
      status := input.status;
      updatedAt := at;
      deliveredAt := if input.status == Delivered then Some(at) else deliveredAt;
    }
  }

  class ShipmentRepository {
    var shipments: map<string, Shipment>
    var order: seq<string>
    var eventKeys: map<string, EventKey>

    ghost function Repr(): set<object>
      reads this
    {
      set id | id in shipments :: shipments[id]
    }

    /** No two ids share an object. */
    ghost predicate Valid()
      reads this
    {
      && (forall i, j | i in shipments && j in shipments && i != j :: shipments[i] != shipments[j])
      && (forall id | id in order :: id in shipments)
    }

    ghost function View(): Store
      reads this, Repr()
    {
      Store(map id | id in shipments :: shipments[id].Data(), order, eventKeys)
    }

    method FindReplay(key: string) returns (id: Option<string>)
      requires Valid()
      ensures id == FindByKey(View().shipments, order, key)
    {
      var i := 0;
      while i < |order|
        invariant 0 <= i <= |order|
        invariant FindByKey(View().shipments, order, key) == FindByKey(View().shipments, order[i..], key)
      {
        assert order[i] in order && order[i..][1..] == order[i + 1..];
        if shipments[order[i]].idempotencyKey == key {
          return Some(order[i]);
        }
        i := i + 1;
      }
      return None;
    }

    method CreateShipmentObject(id: string, input: CreateInput, at: nat) returns (reply: Reply)
      requires Valid() && id !in shipments
      modifies this
      ensures Valid() && fresh(Repr() - old(Repr()))
      ensures (View(), reply) == Create(old(View()), id, input, at)
    {
      var replay := FindReplay(input.idempotencyKey);
      if replay.Some? {
        var found := shipments[replay.value];
        if found.orderId != input.orderId || found.details != input.details || found.reason != input.reason {
          return KeyConflict;
        }
        return Accepted(replay.value, true);
      }
      InsertShipment(id, input, at);
      return Accepted(id, false);
    }

    method InsertShipment(id: string, input: CreateInput, at: nat)
      requires Valid() && id !in shipments
      modifies this
      ensures Valid() && fresh(Repr() - old(Repr()))
      ensures View() == old(View()).(shipments := old(View()).shipments[id := NewRecord(input, at)], order := old(order) + [id])
    {
      var shipment := new Shipment(input, at);
      shipments := shipments[id := shipment];
      order := order + [id];
      assert View().shipments == old(View()).shipments[id := NewRecord(input, at)];
    }

    method UpdateShipmentStatus(id: string, input: UpdateInput, key: string, at: nat) returns (reply: Reply)
      requires Valid()
      modifies this, Repr()
      ensures Valid() && Repr() == old(Repr())
      ensures (View(), reply) == Update(old(View()), id, input, key, at)
    {
      if id !in shipments {
        return NotFound;
      }
      var request := UpdateRequest(input.status, input.reason, input.location);
      if key in eventKeys {
        var replay := eventKeys[key];
        return if replay.request != request || replay.shipmentId != id then KeyConflict else Accepted(id, true);
      }
      var shipment := shipments[id];
      if !TransitionOk(shipment.status, input.status) {
        return TransitionConflict;
      }
      shipment.Push(input, at);
      eventKeys := eventKeys[key := EventKey(request, id)];
      assert View().shipments == old(View()).shipments[id := UpdatedRecord(old(View()).shipments[id], input, at)];
      return Accepted(id, false);
    }
  }
}
