/** Slot requests (requestController.js). A user asks for a slot for one of
    their vehicles; the request is pending until an admin approves it, which
    assigns the suitable available slot with the least number and makes that
    slot unavailable, or rejects it. Pending requests can be retargeted to
    another vehicle or withdrawn by their owner.

    Requests are kept newest first, the order of `createdAt: -1`. The
    vehicle collection is read, never written, and is passed in. The
    approval email and the audit log are not part of this model. */
module SlotRequests {
  import opened Common
  import Paging
  import opened Slots

  datatype RequestStatus = Pending | Approved | Rejected

  datatype SlotRequest = SlotRequest(id: nat, user: string, vehicle: string, status: RequestStatus,
                                     slot: Option<nat>)

  datatype RequestError =
    | NoSuchVehicle     // 404 'Vehicle not found or access denied'
    | PendingExists     // 400 'A pending request already exists for this vehicle'
    | RequestNotFound   // 404
    | NotPending        // 400 'Request is not pending'
    | NoMatchingSlot    // 400 'No available slots matching vehicle requirements'
    | ServerError       // 500

  function StatusName(s: RequestStatus): string {
    match s
    case Pending => "pending"
    case Approved => "approved"
    case Rejected => "rejected"
  }

  predicate Owns(vehicles: map<string, Vehicle>, vehicleId: string, user: string) {
    vehicleId in vehicles && vehicles[vehicleId].owner == user
  }

  predicate HasPending(rs: seq<SlotRequest>, vehicleId: string) {
    exists i :: 0 <= i < |rs| && rs[i].vehicle == vehicleId && rs[i].status == Pending
  }

  predicate OnePendingPerVehicle(rs: seq<SlotRequest>) {
    forall i, j :: 0 <= i < j < |rs| && rs[i].status == Pending && rs[j].status == Pending ==>
      rs[i].vehicle != rs[j].vehicle
  }

  /** updateRequest does not look for another pending request of the new
      vehicle, so pointing one of two pending requests at the other's
      vehicle gives that vehicle two. */
  lemma RetargetCanBreakOnePending()
    ensures var rs := [SlotRequest(1, "u", "v1", Pending, None), SlotRequest(0, "u", "v2", Pending, None)];
            OnePendingPerVehicle(rs) && !OnePendingPerVehicle(rs[1 := rs[1].(vehicle := "v1")])
  {
    var rs := [SlotRequest(1, "u", "v1", Pending, None), SlotRequest(0, "u", "v2", Pending, None)];
    var rs' := rs[1 := rs[1].(vehicle := "v1")];
    assert rs'[0].vehicle == rs'[1].vehicle;
  }

  /** The request with that id, by position. */
  function RequestIndex(rs: seq<SlotRequest>, id: nat): (r: Option<nat>)
    ensures r.Some? ==> r.value < |rs| && rs[r.value].id == id
    ensures r.None? ==> forall i :: 0 <= i < |rs| ==> rs[i].id != id
    decreases |rs|
  {
    if |rs| == 0 then None
    else if rs[|rs| - 1].id == id then Some(|rs| - 1)
    else RequestIndex(rs[..|rs| - 1], id)
  }

  /** `findOne({ _id: id, user, status: 'pending' })`. */
  predicate OwnPending(rs: seq<SlotRequest>, id: nat, user: string) {
    var i := RequestIndex(rs, id);
    i.Some? && rs[i.value].user == user && rs[i.value].status == Pending
  }

  /** getRequests' query: a user sees only their own requests; a status, when
      given, must match exactly. */
  predicate Listed(r: SlotRequest, role: string, userId: string, status: string) {
    && (role == "user" ==> r.user == userId)
    && (status != "" ==> StatusName(r.status) == status)
  }

  /** getRequests: page `page` of the matching requests, newest first. */
  function ListRequests(rs: seq<SlotRequest>, role: string, userId: string, status: string, page: int, limit: nat)
    : (r: Result<Page<SlotRequest>, Paging.PageError>)
    ensures r.Err? <==> Paging.Skip(page, limit) < 0
    ensures r.Ok? ==> forall i :: 0 <= i < |r.value.data| ==>
              r.value.data[i] in rs && Listed(r.value.data[i], role, userId, status)
    ensures r.Ok? && role == "user" ==> forall i :: 0 <= i < |r.value.data| ==> r.value.data[i].user == userId
    ensures r.Ok? && limit > 0 ==> |r.value.data| <= limit
    ensures r.Ok? ==> r.value.total == |Filter(rs, (q: SlotRequest) => Listed(q, role, userId, status))|
    ensures r.Ok? ==> r.value.totalPages == Paging.TotalPages(r.value.total, limit)
    ensures r.Ok? ==> r.value.data == Paging.Window(Filter(rs, (q: SlotRequest) => Listed(q, role, userId, status)), page, limit).value
  {
    var matching := Filter(rs, (q: SlotRequest) => Listed(q, role, userId, status));
    match Paging.Window(matching, page, limit)
    case Err(e) => Err(e)
    case Ok(data) => Ok(Page(data, |matching|, page, limit, Paging.TotalPages(|matching|, limit)))
  }

  /** Pages 1 .. totalPages of getRequests hold every matching request once,
      newest first, and the page after the last is empty. */
  lemma RequestPagesCover(rs: seq<SlotRequest>, role: string, userId: string, status: string, limit: nat)
    requires limit > 0
    ensures var matching := Filter(rs, (q: SlotRequest) => Listed(q, role, userId, status));
            var last := Paging.TotalPages(|matching|, limit).value;
            && Paging.FirstPages(matching, limit, last) == matching
            && ListRequests(rs, role, userId, status, last + 1, limit).Ok?
            && ListRequests(rs, role, userId, status, last + 1, limit).value.data == []
  {
    var matching := Filter(rs, (q: SlotRequest) => Listed(q, role, userId, status));
    Paging.PagesCoverResults(matching, limit);
  }

  /** A status that names none of the three matches no request. */
  lemma UnknownStatusListsNothing(rs: seq<SlotRequest>, role: string, userId: string, status: string)
    requires status != "" && status != "pending" && status != "approved" && status != "rejected"
    ensures Filter(rs, (q: SlotRequest) => Listed(q, role, userId, status)) == []
  {
    FilterNone(rs, (q: SlotRequest) => Listed(q, role, userId, status));
  }

  /** The slot at position `k` has id `slotId` and is taken. */
  predicate HoldsSlot(slots: seq<Slot>, k: nat, slotId: nat) {
    k < |slots| && slots[k].id == slotId && slots[k].status == "unavailable"
  }

  /** Every approved request holds an unavailable slot, and no two hold the
      same one. */
  ghost predicate SlotsHeldIn(rs: seq<SlotRequest>, slots: seq<Slot>) {
    && (forall i :: 0 <= i < |rs| && rs[i].status == Approved && rs[i].slot.Some? ==>
          exists k: nat :: HoldsSlot(slots, k, rs[i].slot.value))
    && (forall i, j :: 0 <= i < j < |rs| && rs[i].status == Approved && rs[j].status == Approved ==>
          rs[i].slot != rs[j].slot)
  }

  lemma PrependKeepsHeld(rs: seq<SlotRequest>, q: SlotRequest, slots: seq<Slot>)
    requires SlotsHeldIn(rs, slots) && q.status != Approved
    ensures SlotsHeldIn([q] + rs, slots)
  {
    var n := [q] + rs;
    assert forall i :: 1 <= i < |n| ==> n[i] == rs[i - 1];
  }

  lemma ReplaceKeepsHeld(rs: seq<SlotRequest>, i: nat, q: SlotRequest, slots: seq<Slot>)
    requires SlotsHeldIn(rs, slots) && i < |rs| && q.status != Approved
    ensures SlotsHeldIn(rs[i := q], slots)
  {
  }

  lemma RemoveKeepsHeld(rs: seq<SlotRequest>, i: nat, slots: seq<Slot>)
    requires SlotsHeldIn(rs, slots) && i < |rs|
    ensures SlotsHeldIn(rs[..i] + rs[i + 1..], slots)
  {
    var n := rs[..i] + rs[i + 1..];
    assert forall a :: 0 <= a < |n| ==> n[a] == rs[if a < i then a else a + 1];
  }

  /** Withdrawing a request keeps the newest-first order of ids, the tie
      between approval and a held slot, and at most one pending request per
      vehicle. */
  lemma RemoveKeepsOrder(rs: seq<SlotRequest>, i: nat)
    requires i < |rs|
    ensures var n := rs[..i] + rs[i + 1..];
            && |n| == |rs| - 1
            && (forall a :: 0 <= a < |n| ==> n[a] == rs[if a < i then a else a + 1])
            && ((forall a, b :: 0 <= a < b < |rs| ==> rs[a].id > rs[b].id) ==>
                  forall a, b :: 0 <= a < b < |n| ==> n[a].id > n[b].id)
            && (OnePendingPerVehicle(rs) ==> OnePendingPerVehicle(n))
  {
    var n := rs[..i] + rs[i + 1..];
    assert forall a :: 0 <= a < |n| ==> n[a] == rs[if a < i then a else a + 1];
  }

  /** The approval step keeps SlotsHeldIn: the slot it takes was available,
      so no approved request held it before. */
  lemma ApprovalKeepsHeld(rs: seq<SlotRequest>, slots: seq<Slot>, i: nat, k: nat)
    requires SlotsHeldIn(rs, slots)
    requires i < |rs| && k < |slots| && rs[i].status == Pending && slots[k].status == "available"
    requires forall a, b :: 0 <= a < b < |slots| ==> slots[a].id != slots[b].id
    requires forall a :: 0 <= a < |rs| ==> (rs[a].slot.Some? <==> rs[a].status == Approved)
    ensures SlotsHeldIn(rs[i := rs[i].(status := Approved, slot := Some(slots[k].id))],
                        slots[k := slots[k].(status := "unavailable")])
  {
    var n := rs[i := rs[i].(status := Approved, slot := Some(slots[k].id))];
    var m := slots[k := slots[k].(status := "unavailable")];
    forall a | 0 <= a < |rs| && a != i && rs[a].status == Approved
      ensures rs[a].slot.value != slots[k].id
      ensures exists c: nat :: HoldsSlot(m, c, n[a].slot.value)
    {
      var c: nat :| HoldsSlot(slots, c, rs[a].slot.value);
      assert c != k;
      assert slots[c].id != slots[k].id by {
        if c < k { } else { }
      }
      assert HoldsSlot(m, c, n[a].slot.value);
    }
    assert HoldsSlot(m, k, n[i].slot.value);
  }

  /** The numbering a request book keeps: ids below the counter, newest
      first, and a slot on exactly the approved requests. */
  predicate WellNumbered(rs: seq<SlotRequest>, nextId: nat) {
    && (forall i :: 0 <= i < |rs| ==> rs[i].id < nextId)
    && (forall i, j :: 0 <= i < j < |rs| ==> rs[i].id > rs[j].id)
    && (forall i :: 0 <= i < |rs| ==> (rs[i].slot.Some? <==> rs[i].status == Approved))
  }

  lemma PrependKeepsNumbering(rs: seq<SlotRequest>, q: SlotRequest, nextId: nat)
    requires WellNumbered(rs, nextId) && q.id == nextId && q.slot.None? && q.status == Pending
    ensures WellNumbered([q] + rs, nextId + 1)
  {
    var n := [q] + rs;
    assert forall i :: 1 <= i < |n| ==> n[i] == rs[i - 1];
  }

  lemma ReplaceKeepsNumbering(rs: seq<SlotRequest>, i: nat, q: SlotRequest, nextId: nat)
    requires WellNumbered(rs, nextId) && i < |rs| && q.id == rs[i].id
    requires q.slot.Some? <==> q.status == Approved
    ensures WellNumbered(rs[i := q], nextId)
  {
  }

  lemma RemoveKeepsNumbering(rs: seq<SlotRequest>, i: nat, nextId: nat)
    requires WellNumbered(rs, nextId) && i < |rs|
    ensures WellNumbered(rs[..i] + rs[i + 1..], nextId)
  {
    RemoveKeepsOrder(rs, i);
  }

  /** A new pending request for a vehicle with none keeps one pending
      request per vehicle. */
  lemma PrependKeepsOnePending(rs: seq<SlotRequest>, q: SlotRequest)
    requires OnePendingPerVehicle(rs) && !HasPending(rs, q.vehicle)
    ensures OnePendingPerVehicle([q] + rs)
  {
    var n := [q] + rs;
    assert forall i :: 1 <= i < |n| ==> n[i] == rs[i - 1];
  }

  /** A request that stops being pending keeps one pending request per
      vehicle. */
  lemma ReplaceKeepsOnePending(rs: seq<SlotRequest>, i: nat, q: SlotRequest)
    requires OnePendingPerVehicle(rs) && i < |rs| && q.status != Pending
    ensures OnePendingPerVehicle(rs[i := q])
  {
  }

  class RequestBook {
    var requests: seq<SlotRequest>
    var nextId: nat
    const inventory: SlotInventory

    /** Newest first with ids given out in order; only an approved request
        holds a slot. */
    ghost predicate Valid()
      reads this, inventory
    {
      inventory.Valid() && WellNumbered(requests, nextId)
    }

    ghost predicate SlotsHeld()
      reads this, inventory
    {
      SlotsHeldIn(requests, inventory.slots)
    }

    constructor (inv: SlotInventory)
      requires inv.Valid()
      ensures Valid() && SlotsHeld()
      ensures inventory == inv && requests == [] && nextId == 0
    {
      inventory := inv;
      requests := [];
      nextId := 0;
    }

    /** createRequest. */
    method CreateRequest(user: string, vehicleId: string, vehicles: map<string, Vehicle>)
      returns (r: Result<SlotRequest, RequestError>)
      requires Valid()
      modifies this
      ensures Valid()
      ensures old(OnePendingPerVehicle(requests)) ==> OnePendingPerVehicle(requests)
      ensures old(SlotsHeld()) ==> SlotsHeld()
      ensures r == Err(NoSuchVehicle) <==> !Owns(vehicles, vehicleId, user)
      ensures r == Err(PendingExists) <==> Owns(vehicles, vehicleId, user) && HasPending(old(requests), vehicleId)
      ensures r.Err? ==> r.error in {NoSuchVehicle, PendingExists} && requests == old(requests) && nextId == old(nextId)
      ensures r.Ok? ==>
                && r.value == SlotRequest(old(nextId), user, vehicleId, Pending, None)
                && requests == [r.value] + old(requests)
                && nextId == old(nextId) + 1
    {
      if !Owns(vehicles, vehicleId, user) {
        return Err(NoSuchVehicle);
      }
      if HasPending(requests, vehicleId) {
        return Err(PendingExists);
      }
      var q := SlotRequest(nextId, user, vehicleId, Pending, None);
      PrependKeepsNumbering(requests, q, nextId);
      if OnePendingPerVehicle(requests) { PrependKeepsOnePending(requests, q); }
      if SlotsHeld() { PrependKeepsHeld(requests, q, inventory.slots); }
      requests := [q] + requests;
      nextId := nextId + 1;
      r := Ok(q);
    }

    /** updateRequest: the caller's pending request `id` moves to another of
        the caller's vehicles. */
    method UpdateRequest(user: string, id: nat, vehicleId: string, vehicles: map<string, Vehicle>)
      returns (r: Result<SlotRequest, RequestError>)
      requires Valid()
      modifies this
      ensures Valid()
      ensures old(SlotsHeld()) ==> SlotsHeld()
      ensures r == Err(RequestNotFound) <==> !OwnPending(old(requests), id, user)
      ensures r == Err(NoSuchVehicle) <==> OwnPending(old(requests), id, user) && !Owns(vehicles, vehicleId, user)
      ensures r.Err? ==> r.error in {RequestNotFound, NoSuchVehicle} && requests == old(requests)
      ensures r.Ok? ==>
                var i := RequestIndex(old(requests), id).value;
                && RequestIndex(old(requests), id).Some?
                && r.value == old(requests)[i].(vehicle := vehicleId)
                && requests == old(requests)[i := r.value]
      ensures nextId == old(nextId)
    {
      if !OwnPending(requests, id, user) {
        return Err(RequestNotFound);
      }
      if !Owns(vehicles, vehicleId, user) {
        return Err(NoSuchVehicle);
      }
      var i := RequestIndex(requests, id).value;
      var q := requests[i].(vehicle := vehicleId);
      ReplaceKeepsNumbering(requests, i, q, nextId);
      if SlotsHeld() { ReplaceKeepsHeld(requests, i, q, inventory.slots); }
      requests := requests[i := q];
      r := Ok(q);
    }

    /** deleteRequest: the caller's pending request `id` is withdrawn. */
    method DeleteRequest(user: string, id: nat) returns (r: Result<SlotRequest, RequestError>)
      requires Valid()
      modifies this
      ensures Valid()
      ensures old(OnePendingPerVehicle(requests)) ==> OnePendingPerVehicle(requests)
      ensures old(SlotsHeld()) ==> SlotsHeld()
      ensures r.Err? <==> !OwnPending(old(requests), id, user)
      ensures r.Err? ==> r.error == RequestNotFound && requests == old(requests)
      ensures r.Ok? ==>
                var i := RequestIndex(old(requests), id).value;
                && RequestIndex(old(requests), id).Some?
                && r.value == old(requests)[i]
                && requests == old(requests)[..i] + old(requests)[i + 1..]
      ensures nextId == old(nextId)
    {
      if !OwnPending(requests, id, user) {
        return Err(RequestNotFound);
      }
      var i := RequestIndex(requests, id).value;
      r := Ok(requests[i]);
      if SlotsHeld() { RemoveKeepsHeld(requests, i, inventory.slots); }
      RemoveKeepsNumbering(requests, i, nextId);
      RemoveKeepsOrder(requests, i);
      requests := requests[..i] + requests[i + 1..];
    }

    /** approveRequest: the suitable available slot with the least number
        becomes unavailable and is assigned to the request. A request whose
        vehicle has disappeared makes the slot lookup throw (500). */
    method ApproveRequest(id: nat, vehicles: map<string, Vehicle>) returns (r: Result<SlotRequest, RequestError>)
      requires Valid()
      modifies this, inventory
      ensures Valid()
      ensures old(SlotsHeld()) ==> SlotsHeld()
      ensures r == Err(RequestNotFound) <==> RequestIndex(old(requests), id).None?
      ensures r == Err(NotPending) <==>
                RequestIndex(old(requests), id).Some? && old(requests)[RequestIndex(old(requests), id).value].status != Pending
      ensures r == Err(ServerError) <==>
                RequestIndex(old(requests), id).Some?
                && old(requests)[RequestIndex(old(requests), id).value].status == Pending
                && old(requests)[RequestIndex(old(requests), id).value].vehicle !in vehicles
      ensures r == Err(NoMatchingSlot) <==>
                RequestIndex(old(requests), id).Some?
                && old(requests)[RequestIndex(old(requests), id).value].status == Pending
                && old(requests)[RequestIndex(old(requests), id).value].vehicle in vehicles
                && var v := vehicles[old(requests)[RequestIndex(old(requests), id).value].vehicle];
                   forall j :: 0 <= j < |old(inventory.slots)| ==> !Suits(old(inventory.slots)[j], v.vehicleType, v.size)
      ensures r.Err? ==> r.error in {RequestNotFound, NotPending, ServerError, NoMatchingSlot}
      ensures r.Err? ==> requests == old(requests) && inventory.slots == old(inventory.slots)
      ensures r.Ok? ==>
                var i := RequestIndex(old(requests), id).value;
                var v := vehicles[old(requests)[i].vehicle];
                exists k :: 0 <= k < |old(inventory.slots)| && ApprovedWith(old(requests), old(inventory.slots), i, k, v, r.value)
      ensures nextId == old(nextId) && inventory.nextSlotId == old(inventory.nextSlotId)
    {
      var found := RequestIndex(requests, id);
      if found.None? {
        return Err(RequestNotFound);
      }
      var i := found.value;
      if requests[i].status != Pending {
        return Err(NotPending);
      }
      if requests[i].vehicle !in vehicles {
        return Err(ServerError);
      }
      var v := vehicles[requests[i].vehicle];
      var best := inventory.FindBestSlot(v.vehicleType, v.size);
      if best.None? {
        return Err(NoMatchingSlot);
      }
      var k := best.value;
      ghost var slotsBefore := inventory.slots;
      ghost var before := requests;
      ghost var held := SlotsHeld();
      var slotId := inventory.slots[k].id;
      inventory.MarkUnavailable(k);
      var q := requests[i].(status := Approved, slot := Some(slotId));
      ReplaceKeepsNumbering(requests, i, q, nextId);
      requests := requests[i := q];
      r := Ok(q);
      assert ApprovedWith(before, slotsBefore, i, k, v, q);
      if held {
        ApprovalKeepsHeld(before, slotsBefore, i, k);
      }
    }

    /** The request at position `i` approved with the slot at position `k`,
        which was the least suitable one for `v`, in terms of the state
        before. */
    ghost predicate ApprovedWith(before: seq<SlotRequest>, slotsBefore: seq<Slot>, i: nat, k: nat, v: Vehicle,
                                 q: SlotRequest)
      reads this, inventory
    {
      && i < |before| && k < |slotsBefore|
      && Suits(slotsBefore[k], v.vehicleType, v.size)
      && (forall j :: 0 <= j < |slotsBefore| && Suits(slotsBefore[j], v.vehicleType, v.size) ==>
            StrLe(slotsBefore[k].slotNumber, slotsBefore[j].slotNumber))
      && q == before[i].(status := Approved, slot := Some(slotsBefore[k].id))
      && requests == before[i := q]
      && inventory.slots == slotsBefore[k := slotsBefore[k].(status := "unavailable")]
    }

    /** rejectRequest. */
    method RejectRequest(id: nat) returns (r: Result<SlotRequest, RequestError>)
      requires Valid()
      modifies this
      ensures Valid()
      ensures old(OnePendingPerVehicle(requests)) ==> OnePendingPerVehicle(requests)
      ensures old(SlotsHeld()) ==> SlotsHeld()
      ensures r == Err(RequestNotFound) <==> RequestIndex(old(requests), id).None?
      ensures r == Err(NotPending) <==>
                RequestIndex(old(requests), id).Some? && old(requests)[RequestIndex(old(requests), id).value].status != Pending
      ensures r.Err? ==> r.error in {RequestNotFound, NotPending} && requests == old(requests)
      ensures r.Ok? ==>
                var i := RequestIndex(old(requests), id).value;
                && RequestIndex(old(requests), id).Some?
                && old(requests)[i].status == Pending
                && r.value == old(requests)[i].(status := Rejected)
                && requests == old(requests)[i := r.value]
      ensures nextId == old(nextId)
    {
      var found := RequestIndex(requests, id);
      if found.None? {
        return Err(RequestNotFound);
      }
      var i := found.value;
      if requests[i].status != Pending {
        return Err(NotPending);
      }
      var q := requests[i].(status := Rejected);
      ReplaceKeepsNumbering(requests, i, q, nextId);
      if OnePendingPerVehicle(requests) { ReplaceKeepsOnePending(requests, i, q); }
      if SlotsHeld() { ReplaceKeepsHeld(requests, i, q, inventory.slots); }
      requests := requests[i := q];
      r := Ok(q);
    }
  }
}
