/** Parking slots of the newer backend (slotController.js): bulk insertion,
    update and deletion by id, the paged slot listing, and the slots that
    suit one of the caller's vehicles.

    A slot's `slotNumber` carries a unique index. Statuses are kept as the
    strings the store holds: insertion validates them against the schema's
    enum ('available', 'unavailable'), an update does not. Timestamps and
    the audit log are not part of this model. */
module Slots {
  import opened Common
  import Paging

  datatype Slot = Slot(id: nat, slotNumber: string, size: string, vehicleType: string, location: string,
                       status: string)

  /** One element of addSlots' `slots` array; a string field is "" when
      missing, `status` None when missing. */
  datatype SlotSpec = SlotSpec(slotNumber: string, size: string, vehicleType: string, location: string,
                               status: Option<string>)

  /** updateSlot's body: None for a field that is not given. */
  datatype SlotPatch = SlotPatch(slotNumber: Option<string>, size: Option<string>, vehicleType: Option<string>,
                                 status: Option<string>, location: Option<string>)

  /** A vehicle as the vehicle collection holds it (written elsewhere). */
  datatype Vehicle = Vehicle(owner: string, plateNumber: string, vehicleType: string, size: string)

  datatype SlotError =
    | NotAnArray        // 400 'Slots must be provided as an array'
    | InvalidSlot       // 500, schema validation
    | DuplicateNumber   // 400, unique index on slotNumber
    | SlotNotFound      // 404 'Slot not found'
    | VehicleNotFound   // 404 'Vehicle not found or access denied'

  /** The schema's requirements on an inserted slot. */
  predicate ValidSpec(s: SlotSpec) {
    && s.slotNumber != "" && s.size != "" && s.vehicleType != "" && s.location != ""
    && (s.status.None? || s.status.value == "available" || s.status.value == "unavailable")
  }

  function MakeSlot(id: nat, s: SlotSpec): Slot {
    Slot(id, s.slotNumber, s.size, s.vehicleType, s.location, if s.status.Some? then s.status.value else "available")
  }

  predicate NumberTaken(slots: seq<Slot>, n: string) {
    exists i :: 0 <= i < |slots| && slots[i].slotNumber == n
  }

  predicate UniqueNumbers(slots: seq<Slot>) {
    forall i, j :: 0 <= i < j < |slots| ==> slots[i].slotNumber != slots[j].slotNumber
  }

  /** An ordered insertMany: the specs are inserted one after the other,
      with consecutive ids from `nextId`, until one repeats a number already
      stored (or inserted earlier in the same batch); the flag says that this
      happened. Earlier inserts stay. */
  function InsertOrdered(existing: seq<Slot>, nextId: nat, specs: seq<SlotSpec>): (r: (seq<Slot>, bool))
    ensures |r.0| <= |specs|
    ensures forall i :: 0 <= i < |r.0| ==> r.0[i] == MakeSlot(nextId + i, specs[i])
    ensures !r.1 ==> |r.0| == |specs|
    ensures r.1 ==> |r.0| < |specs| && NumberTaken(existing + r.0, specs[|r.0|].slotNumber)
    ensures UniqueNumbers(existing) ==> UniqueNumbers(existing + r.0)
    decreases |specs|
  {
    if |specs| == 0 then
      assert existing + [] == existing;
      ([], false)
    else if NumberTaken(existing, specs[0].slotNumber) then
      assert existing + [] == existing;
      ([], true)
    else
      var s := MakeSlot(nextId, specs[0]);
      var rest := InsertOrdered(existing + [s], nextId + 1, specs[1..]);
      assert existing + [s] + rest.0 == existing + ([s] + rest.0);
      (assert UniqueNumbers(existing) ==> UniqueNumbers(existing + [s]) by {
         if UniqueNumbers(existing) {
           forall i, j | 0 <= i < j < |existing + [s]|
             ensures (existing + [s])[i].slotNumber != (existing + [s])[j].slotNumber
           {
             if j == |existing| {
               assert (existing + [s])[i] == existing[i];
             }
           }
         }
       }
       ([s] + rest.0, rest.1))
  }

  /** A batch whose numbers are fresh and pairwise distinct is inserted
      whole. */
  lemma {:induction false} FreshBatchInsertedWhole(existing: seq<Slot>, nextId: nat, specs: seq<SlotSpec>)
    requires forall i :: 0 <= i < |specs| ==> !NumberTaken(existing, specs[i].slotNumber)
    requires forall i, j :: 0 <= i < j < |specs| ==> specs[i].slotNumber != specs[j].slotNumber
    ensures !InsertOrdered(existing, nextId, specs).1
    decreases |specs|
  {
    if |specs| > 0 {
      var s := MakeSlot(nextId, specs[0]);
      forall i | 0 <= i < |specs[1..]|
        ensures !NumberTaken(existing + [s], specs[1..][i].slotNumber)
      {
        assert specs[1..][i] == specs[i + 1];
      }
      FreshBatchInsertedWhole(existing + [s], nextId + 1, specs[1..]);
    }
  }

  /** Two slots that repeat a number: the first goes in, the second stops the
      batch. */
  lemma DuplicateInBatchExample()
    ensures var a := SlotSpec("A1", "small", "car", "north", None);
            var b := SlotSpec("A1", "large", "truck", "south", None);
            InsertOrdered([], 0, [a, b]) == ([MakeSlot(0, a)], true)
  {
    var a := SlotSpec("A1", "small", "car", "north", None);
    var b := SlotSpec("A1", "large", "truck", "south", None);
    var s := MakeSlot(0, a);
    assert !NumberTaken([], "A1");
    assert [a, b][1..] == [b];
    assert [] + [s] == [s];
    assert [s][0].slotNumber == "A1";
    assert NumberTaken([s], b.slotNumber);
    assert InsertOrdered([s], 1, [b]) == ([], true);
    assert [s] + [] == [s];
  }

  /** The slot with that id, by position. */
  function IndexOfId(s: seq<Slot>, id: nat): (r: Option<nat>)
    ensures r.Some? ==> r.value < |s| && s[r.value].id == id
    ensures r.None? ==> forall i :: 0 <= i < |s| ==> s[i].id != id
    decreases |s|
  {
    if |s| == 0 then None
    else if s[|s| - 1].id == id then Some(|s| - 1)
    else IndexOfId(s[..|s| - 1], id)
  }

  /** `findByIdAndUpdate`: given fields replace the stored ones. */
  function Patch(s: Slot, p: SlotPatch): (t: Slot)
    ensures t.id == s.id
    ensures t.slotNumber == (if p.slotNumber.Some? then p.slotNumber.value else s.slotNumber)
    ensures t.size == (if p.size.Some? then p.size.value else s.size)
    ensures t.vehicleType == (if p.vehicleType.Some? then p.vehicleType.value else s.vehicleType)
    ensures t.status == (if p.status.Some? then p.status.value else s.status)
    ensures t.location == (if p.location.Some? then p.location.value else s.location)
  {
    Slot(s.id,
         match p.slotNumber case Some(x) => x case None => s.slotNumber,
         match p.size case Some(x) => x case None => s.size,
         match p.vehicleType case Some(x) => x case None => s.vehicleType,
         match p.location case Some(x) => x case None => s.location,
         match p.status case Some(x) => x case None => s.status)
  }

  /** An empty patch changes nothing. */
  lemma EmptyPatchIsIdentity(s: Slot)
    ensures Patch(s, SlotPatch(None, None, None, None, None)) == s
  {
  }

  // -------------------------------------------------------------------------
  // The listing.

  predicate SortedByNumber(s: seq<Slot>) {
    forall i :: 0 <= i < |s| - 1 ==> StrLe(s[i].slotNumber, s[i + 1].slotNumber)
  }

  /** Neighbour order implies the order of every pair. */
  lemma {:induction false} SortedPairs(s: seq<Slot>, i: int, j: int)
    requires SortedByNumber(s) && 0 <= i <= j < |s|
    ensures StrLe(s[i].slotNumber, s[j].slotNumber)
    decreases j - i
  {
    if i < j {
      SortedPairs(s, i + 1, j);
      StrLeTransitive(s[i].slotNumber, s[i + 1].slotNumber, s[j].slotNumber);
    }
  }

  function InsertByNumber(x: Slot, s: seq<Slot>): (r: seq<Slot>)
    requires SortedByNumber(s)
    ensures SortedByNumber(r)
    ensures multiset(r) == multiset(s) + multiset{x}
    ensures |r| == |s| + 1
    ensures r[0] == x || (|s| > 0 && r[0] == s[0])
    decreases |s|
  {
    if |s| == 0 then [x]
    else if StrLe(x.slotNumber, s[0].slotNumber) then [x] + s
    else
      StrNotLessIsGe(x.slotNumber, s[0].slotNumber);
      var rest := InsertByNumber(x, s[1..]);
      assert s == [s[0]] + s[1..];
      [s[0]] + rest
  }

  /** `.sort({ slotNumber: 1 })`. */
  function SortByNumber(s: seq<Slot>): (r: seq<Slot>)
    ensures SortedByNumber(r)
    ensures multiset(r) == multiset(s)
    ensures |r| == |s|
    decreases |s|
  {
    if |s| == 0 then []
    else
      assert s == [s[0]] + s[1..];
      InsertByNumber(s[0], SortByNumber(s[1..]))
  }

  /** The query getSlots builds: a user sees available slots unless a status
      is asked for explicitly; a size, when given, must match exactly. */
  datatype SlotQuery = SlotQuery(status: Option<string>, size: Option<string>)

  function BuildQuery(role: string, status: string, size: string): (q: SlotQuery)
    ensures status != "" ==> q.status == Some(status)
    ensures status == "" && role == "user" ==> q.status == Some("available")
    ensures status == "" && role != "user" ==> q.status.None?
    ensures q.size.Some? <==> size != ""
    ensures q.size.Some? ==> q.size.value == size
  {
    var byRole := if role == "user" then Some("available") else None;
    var byStatus := if status != "" then Some(status) else byRole;
    SlotQuery(byStatus, if size != "" then Some(size) else None)
  }

  predicate Matches(s: Slot, q: SlotQuery) {
    && (q.status.Some? ==> s.status == q.status.value)
    && (q.size.Some? ==> s.size == q.size.value)
  }

  /** The response of a listing: one page of data and its pagination. */
  datatype Page<T> = Page(data: seq<T>, total: nat, page: int, limit: nat, totalPages: Option<int>)

  /** The matching slots in `slotNumber` order, before paging. */
  function SortedMatches(slots: seq<Slot>, q: SlotQuery): seq<Slot> {
    SortByNumber(Filter(slots, (s: Slot) => Matches(s, q)))
  }

  /** `slotNumber`-ordered page `page` of the slots that match. */
  function ListSlots(slots: seq<Slot>, role: string, status: string, size: string, page: int, limit: nat)
    : (r: Result<Page<Slot>, Paging.PageError>)
    ensures r.Err? <==> Paging.Skip(page, limit) < 0
    ensures r.Ok? ==> SortedByNumber(r.value.data)
    ensures r.Ok? ==> forall i :: 0 <= i < |r.value.data| ==>
              r.value.data[i] in slots && Matches(r.value.data[i], BuildQuery(role, status, size))
    ensures r.Ok? && limit > 0 ==> |r.value.data| <= limit
    ensures r.Ok? ==> r.value.total == |Filter(slots, (s: Slot) => Matches(s, BuildQuery(role, status, size)))|
    ensures r.Ok? ==> r.value.totalPages == Paging.TotalPages(r.value.total, limit)
    ensures r.Ok? ==> r.value.data == Paging.Window(SortedMatches(slots, BuildQuery(role, status, size)), page, limit).value
  {
    var q := BuildQuery(role, status, size);
    var matching := Filter(slots, (s: Slot) => Matches(s, q));
    var sorted := SortedMatches(slots, q);
    SortedMatchesAreStored(slots, q);
    match Paging.Window(sorted, page, limit)
    case Err(e) => Err(e)
    case Ok(data) =>
      assert forall i :: 0 <= i < |data| ==> data[i] in sorted;
      Ok(Page(data, |matching|, page, limit, Paging.TotalPages(|matching|, limit)))
  }

  /** Sorting the matches brings in no other slot. */
  lemma SortedMatchesAreStored(slots: seq<Slot>, q: SlotQuery)
    ensures forall x :: x in SortedMatches(slots, q) ==> x in slots && Matches(x, q)
  {
    var matching := Filter(slots, (s: Slot) => Matches(s, q));
    var sorted := SortedMatches(slots, q);
    forall x | x in sorted
      ensures x in slots && Matches(x, q)
    {
      assert x in multiset(sorted);
      assert x in multiset(matching);
      var i :| 0 <= i < |matching| && matching[i] == x;
    }
  }

  /** Pages 1 .. totalPages of getSlots hold every matching slot once, in
      slotNumber order, and the page after the last is empty. */
  lemma ListingPagesCover(slots: seq<Slot>, role: string, status: string, size: string, limit: nat)
    requires limit > 0
    ensures var sorted := SortedMatches(slots, BuildQuery(role, status, size));
            var last := Paging.TotalPages(|sorted|, limit).value;
            && Paging.FirstPages(sorted, limit, last) == sorted
            && ListSlots(slots, role, status, size, last + 1, limit).Ok?
            && ListSlots(slots, role, status, size, last + 1, limit).value.data == []
  {
    var sorted := SortedMatches(slots, BuildQuery(role, status, size));
    Paging.PagesCoverResults(sorted, limit);
  }

  /** A slot fit for a vehicle: available, same vehicle type, same size. */
  predicate Suits(s: Slot, vehicleType: string, size: string) {
    s.status == "available" && s.vehicleType == vehicleType && s.size == size
  }

  class SlotInventory {
    var slots: seq<Slot>
    var nextSlotId: nat

    ghost predicate Valid()
      reads this
    {
      && UniqueNumbers(slots)
      && (forall i :: 0 <= i < |slots| ==> slots[i].id < nextSlotId)
      && (forall i, j :: 0 <= i < j < |slots| ==> slots[i].id != slots[j].id)
    }

    constructor ()
      ensures Valid() && slots == [] && nextSlotId == 0
    {
      slots := [];
      nextSlotId := 0;
    }

    /** addSlots: `body` is None when `slots` is not an array. A spec that
        fails validation rejects the whole batch before anything is stored. */
    method AddSlots(body: Option<seq<SlotSpec>>) returns (r: Result<seq<Slot>, SlotError>)
      requires Valid()
      modifies this
      ensures Valid()
      ensures r == Err(NotAnArray) <==> body.None?
      ensures r == Err(InvalidSlot) <==> body.Some? && exists i :: 0 <= i < |body.value| && !ValidSpec(body.value[i])
      ensures r == Err(NotAnArray) || r == Err(InvalidSlot) ==> slots == old(slots) && nextSlotId == old(nextSlotId)
      ensures body.Some? && (forall i :: 0 <= i < |body.value| ==> ValidSpec(body.value[i])) ==>
                var ins := InsertOrdered(old(slots), old(nextSlotId), body.value);
                && slots == old(slots) + ins.0
                && nextSlotId == old(nextSlotId) + |ins.0|
                && r == (if ins.1 then Err(DuplicateNumber) else Ok(ins.0))
    {
      if body.None? {
        return Err(NotAnArray);
      }
      var specs := body.value;
      if exists i :: 0 <= i < |specs| && !ValidSpec(specs[i]) {
        return Err(InvalidSlot);
      }
      var ins := InsertOrdered(slots, nextSlotId, specs);
      AppendFreshIds(slots, ins.0, nextSlotId);
      slots := slots + ins.0;
      nextSlotId := nextSlotId + |ins.0|;
      r := if ins.1 then Err(DuplicateNumber) else Ok(ins.0);
    }

    /** updateSlot: the given fields replace the stored ones, unvalidated;
        giving another slot's number violates the unique index. */
    method UpdateSlot(id: nat, p: SlotPatch) returns (r: Result<Slot, SlotError>)
      requires Valid()
      modifies this
      ensures Valid()
      ensures nextSlotId == old(nextSlotId)
      ensures r == Err(SlotNotFound) <==> IndexOfId(old(slots), id).None?
      ensures r == Err(DuplicateNumber) <==>
                IndexOfId(old(slots), id).Some? && p.slotNumber.Some?
                && exists j :: 0 <= j < |old(slots)| && old(slots)[j].id != id && old(slots)[j].slotNumber == p.slotNumber.value
      ensures r.Err? ==> r.error in {SlotNotFound, DuplicateNumber} && slots == old(slots)
      ensures r.Ok? ==> IndexOfId(old(slots), id).Some?
                        && var i := IndexOfId(old(slots), id).value;
                           r.value == Patch(old(slots)[i], p) && slots == old(slots)[i := r.value]
    {
      var found := IndexOfId(slots, id);
      if found.None? {
        return Err(SlotNotFound);
      }
      var i := found.value;
      if p.slotNumber.Some? && exists j :: 0 <= j < |slots| && slots[j].id != id && slots[j].slotNumber == p.slotNumber.value {
        return Err(DuplicateNumber);
      }
      var t := Patch(slots[i], p);
      slots := slots[i := t];
      r := Ok(t);
    }

    /** deleteSlot. */
    method DeleteSlot(id: nat) returns (r: Result<Slot, SlotError>)
      requires Valid()
      modifies this
      ensures Valid()
      ensures nextSlotId == old(nextSlotId)
      ensures r == Err(SlotNotFound) <==> IndexOfId(old(slots), id).None?
      ensures r.Err? ==> r.error == SlotNotFound && slots == old(slots)
      ensures r.Ok? ==> IndexOfId(old(slots), id).Some?
                        && var i := IndexOfId(old(slots), id).value;
                           r.value == old(slots)[i] && slots == old(slots)[..i] + old(slots)[i + 1..]
    {
      var found := IndexOfId(slots, id);
      if found.None? {
        return Err(SlotNotFound);
      }
      var i := found.value;
      r := Ok(slots[i]);
      RemoveKeepsStored(slots, i, nextSlotId);
      slots := slots[..i] + slots[i + 1..];
    }

    /** getAvailableSlotsForVehicle: `vehicles` is the vehicle collection. */
    function SlotsForVehicle(user: string, vehicleId: string, vehicles: map<string, Vehicle>)
      : (r: Result<seq<Slot>, SlotError>)
      reads this
      ensures r.Err? <==> vehicleId !in vehicles || vehicles[vehicleId].owner != user
      ensures r.Err? ==> r.error == VehicleNotFound
      ensures r.Ok? ==> forall s :: s in r.value <==>
                s in slots && Suits(s, vehicles[vehicleId].vehicleType, vehicles[vehicleId].size)
    {
      if vehicleId !in vehicles || vehicles[vehicleId].owner != user then Err(VehicleNotFound)
      else
        var v := vehicles[vehicleId];
        Ok(Filter(slots, (s: Slot) => Suits(s, v.vehicleType, v.size)))
    }

    /** `ParkingSlot.findOne({ status: 'available', vehicleType, size })
        .sort({ slotNumber: 1 })`: the suitable slot with the least number. */
    method FindBestSlot(vehicleType: string, size: string) returns (r: Option<nat>)
      ensures r.Some? ==> r.value < |slots| && Suits(slots[r.value], vehicleType, size)
      ensures r.Some? ==> forall j :: 0 <= j < |slots| && Suits(slots[j], vehicleType, size) ==>
                            StrLe(slots[r.value].slotNumber, slots[j].slotNumber)
      ensures r.None? <==> forall j :: 0 <= j < |slots| ==> !Suits(slots[j], vehicleType, size)
    {
      r := None;
      var i := 0;
      while i < |slots|
        invariant 0 <= i <= |slots|
        invariant r.None? ==> forall j :: 0 <= j < i ==> !Suits(slots[j], vehicleType, size)
        invariant r.Some? ==> r.value < i && Suits(slots[r.value], vehicleType, size)
        invariant r.Some? ==> forall j :: 0 <= j < i && Suits(slots[j], vehicleType, size) ==>
                                StrLe(slots[r.value].slotNumber, slots[j].slotNumber)
      {
        if Suits(slots[i], vehicleType, size) {
          if r.None? {
            r := Some(i);
          } else if StrLess(slots[i].slotNumber, slots[r.value].slotNumber) {
            var best := r.value;
            forall j | 0 <= j < i && Suits(slots[j], vehicleType, size)
              ensures StrLe(slots[i].slotNumber, slots[j].slotNumber)
            {
              StrLeTransitive(slots[i].slotNumber, slots[best].slotNumber, slots[j].slotNumber);
            }
            r := Some(i);
          } else {
            StrNotLessIsGe(slots[i].slotNumber, slots[r.value].slotNumber);
          }
        }
        i := i + 1;
      }
    }

    /** `slot.status = 'unavailable'` on the slot at position `i`. */
    method MarkUnavailable(i: nat)
      requires Valid() && i < |slots|
      modifies this
      ensures Valid()
      ensures slots == old(slots)[i := old(slots)[i].(status := "unavailable")]
      ensures nextSlotId == old(nextSlotId)
    {
      slots := slots[i := slots[i].(status := "unavailable")];
    }
  }

  /** Slots appended with consecutive ids from the next free one keep the
      ids distinct and below the new next id. */
  lemma AppendFreshIds(before: seq<Slot>, added: seq<Slot>, nextId: nat)
    requires forall i :: 0 <= i < |before| ==> before[i].id < nextId
    requires forall i, j :: 0 <= i < j < |before| ==> before[i].id != before[j].id
    requires forall i :: 0 <= i < |added| ==> added[i].id == nextId + i
    ensures forall i :: 0 <= i < |before + added| ==> (before + added)[i].id < nextId + |added|
    ensures forall i, j :: 0 <= i < j < |before + added| ==> (before + added)[i].id != (before + added)[j].id
  {
    var all := before + added;
    forall i | 0 <= i < |all| ensures all[i].id < nextId + |added| {
      if i >= |before| { assert all[i] == added[i - |before|]; }
    }
    forall i, j | 0 <= i < j < |all| ensures all[i].id != all[j].id {
      if j >= |before| {
        assert all[j] == added[j - |before|];
        if i >= |before| { assert all[i] == added[i - |before|]; }
      }
    }
  }

  /** Deleting one slot keeps numbers and ids distinct and below the next id. */
  lemma RemoveKeepsStored(slots: seq<Slot>, i: nat, nextId: nat)
    requires i < |slots|
    requires UniqueNumbers(slots)
    requires forall k :: 0 <= k < |slots| ==> slots[k].id < nextId
    requires forall a, b :: 0 <= a < b < |slots| ==> slots[a].id != slots[b].id
    ensures var rest := slots[..i] + slots[i + 1..];
            && UniqueNumbers(rest)
            && (forall k :: 0 <= k < |rest| ==> rest[k].id < nextId)
            && (forall a, b :: 0 <= a < b < |rest| ==> rest[a].id != rest[b].id)
  {
    var rest := slots[..i] + slots[i + 1..];
    forall a, b | 0 <= a < b < |rest|
      ensures rest[a].slotNumber != rest[b].slotNumber && rest[a].id != rest[b].id
    {
      var a' := if a < i then a else a + 1;
      var b' := if b < i then b else b + 1;
      assert rest[a] == slots[a'] && rest[b] == slots[b'];
    }
    forall k | 0 <= k < |rest| ensures rest[k].id < nextId {
      assert rest[k] == slots[if k < i then k else k + 1];
    }
  }

  /** With numbers unique, the least suitable slot is determined: two slots
      that both qualify are the same slot. */
  lemma BestSlotIsUnique(slots: seq<Slot>, a: nat, b: nat, vehicleType: string, size: string)
    requires UniqueNumbers(slots)
    requires a < |slots| && b < |slots|
    requires Suits(slots[a], vehicleType, size) && Suits(slots[b], vehicleType, size)
    requires forall j :: 0 <= j < |slots| && Suits(slots[j], vehicleType, size) ==> StrLe(slots[a].slotNumber, slots[j].slotNumber)
    requires forall j :: 0 <= j < |slots| && Suits(slots[j], vehicleType, size) ==> StrLe(slots[b].slotNumber, slots[j].slotNumber)
    ensures a == b
  {
    if a != b {
      assert slots[a].slotNumber != slots[b].slotNumber;
      StrLessAsymmetric(slots[a].slotNumber, slots[b].slotNumber);
    }
  }
}
