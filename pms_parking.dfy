/** The older backend's ticket lifecycle (PMS-Backend, parkingController.js).
    An admin creates a parking with all its spaces available; an entry for a
    vehicle takes one space and issues a ticket; the exit of an active
    ticket completes it, bills `ceil(hours) * pricePerHour` and frees the
    space. updateParking edits a parking field by field; two read-only
    queries list available parkings and the entries of a period.

    Parkings are keyed by a natural-number id handed out in creation order.
    Ticket numbers come from a generator outside this model; they are
    passed in. The current time is passed in as milliseconds. */
module PmsParking {
  import opened Common
  import Billing

  datatype LotStatus = Available | Unavailable

  datatype Parking = Parking(
    code: string,
    parkingName: string,
    totalSpaces: int,
    availableSpaces: int,
    location: string,
    pricePerHour: real,
    status: LotStatus,
    adminId: string,
    updatedAt: int)

  datatype EntryStatus = Active | Completed

  datatype ParkingEntry = ParkingEntry(
    vehicleId: string,
    parkingId: nat,
    entryDateTime: int,
    exitDateTime: Option<int>,
    chargedAmount: real,
    status: EntryStatus,
    ticketNumber: string)

  /** The `bill` object of recordExit's response. */
  datatype Bill = Bill(ticketNumber: string, entryTime: int, exitTime: int, hoursParked: int, chargedAmount: real)

  datatype PmsError =
    | ParkingNotFound          // 404 'Parking not found'
    | ParkingFull              // 400 'Parking is full'
    | InvalidTicket            // 404 'Invalid ticket number'
    | MustBeUnique(field: string)  // 400 '<field> must be unique'
    | ServerError              // 500

  /** An active entry of parking `id`. */
  predicate HeldBy(e: ParkingEntry, id: nat) {
    e.status == Active && e.parkingId == id
  }

  function Holds(e: ParkingEntry, id: nat): nat {
    if HeldBy(e, id) then 1 else 0
  }

  /** The number of active entries held against parking `id`. */
  function ActiveCount(entries: seq<ParkingEntry>, id: nat): nat
    decreases |entries|
  {
    if |entries| == 0 then 0 else Holds(entries[0], id) + ActiveCount(entries[1..], id)
  }

  /** The count is the length of the sub-list of entries that hold one of
      the parking's spaces, so it is 0 exactly when no entry does. */
  lemma {:induction false} ActiveCountIsHeldEntries(entries: seq<ParkingEntry>, id: nat)
    ensures ActiveCount(entries, id) == |Filter(entries, (e: ParkingEntry) => HeldBy(e, id))|
    ensures ActiveCount(entries, id) == 0 <==> forall i :: 0 <= i < |entries| ==> !HeldBy(entries[i], id)
    decreases |entries|
  {
    if |entries| > 0 {
      ActiveCountIsHeldEntries(entries[1..], id);
      if forall i :: 0 <= i < |entries[1..]| ==> !HeldBy(entries[1..][i], id) {
        forall i | 1 <= i < |entries| ensures !HeldBy(entries[i], id) {
          assert entries[i] == entries[1..][i - 1];
        }
      }
    }
  }

  lemma {:induction false} ActiveCountAppend(entries: seq<ParkingEntry>, e: ParkingEntry, id: nat)
    ensures ActiveCount(entries + [e], id) == ActiveCount(entries, id) + Holds(e, id)
    decreases |entries|
  {
    if |entries| == 0 {
      assert entries + [e] == [e];
    } else {
      assert (entries + [e])[1..] == entries[1..] + [e];
      ActiveCountAppend(entries[1..], e, id);
    }
  }

  lemma {:induction false} ActiveCountUpdate(entries: seq<ParkingEntry>, i: nat, e: ParkingEntry, id: nat)
    requires i < |entries|
    ensures ActiveCount(entries[i := e], id) + Holds(entries[i], id) == ActiveCount(entries, id) + Holds(e, id)
    decreases |entries|
  {
    if i == 0 {
      assert entries[i := e][1..] == entries[1..];
    } else {
      assert entries[i := e][1..] == entries[1..][i - 1 := e];
      ActiveCountUpdate(entries[1..], i - 1, e, id);
    }
  }

  /** How a parking's status is written in a request body: "" keeps the old
      status (`status || parking.status`), any other word outside the
      schema's enum fails validation. */
  function ParseStatus(s: string, current: LotStatus): (r: Option<LotStatus>)
    ensures s == "" ==> r == Some(current)
    ensures r.Some? && s != "" ==> (r.value == Available <==> s == "available")
    ensures r.None? <==> s != "" && s != "available" && s != "unavailable"
  {
    if s == "" then Some(current)
    else if s == "available" then Some(Available)
    else if s == "unavailable" then Some(Unavailable)
    else None
  }

  /** updateParking's fallbacks: `||` for the strings, `??` for the numbers,
      so an empty string keeps the old text while a 0 replaces the old
      number. */
  function Patched(p: Parking, parkingName: string, availableSpaces: Option<int>, location: string,
                   pricePerHour: Option<real>, status: LotStatus, now: int): (q: Parking)
    ensures q.parkingName == (if parkingName == "" then p.parkingName else parkingName)
    ensures q.location == (if location == "" then p.location else location)
    ensures q.availableSpaces == (if availableSpaces.None? then p.availableSpaces else availableSpaces.value)
    ensures q.pricePerHour == (if pricePerHour.None? then p.pricePerHour else pricePerHour.value)
    ensures q.status == status && q.updatedAt == now
    ensures q.code == p.code && q.totalSpaces == p.totalSpaces && q.adminId == p.adminId
  {
    p.(parkingName := if parkingName != "" then parkingName else p.parkingName,
       availableSpaces := match availableSpaces case Some(n) => n case None => p.availableSpaces,
       location := if location != "" then location else p.location,
       pricePerHour := match pricePerHour case Some(x) => x case None => p.pricePerHour,
       status := status,
       updatedAt := now)
  }

  /** A zero count or price is taken, an empty name is not. */
  lemma PatchedExamples(p: Parking, now: int)
    ensures Patched(p, "", Some(0), "", Some(0.0), p.status, now).availableSpaces == 0
    ensures Patched(p, "", Some(0), "", Some(0.0), p.status, now).pricePerHour == 0.0
    ensures Patched(p, "", Some(0), "", Some(0.0), p.status, now).parkingName == p.parkingName
    ensures Patched(p, "", None, "", None, p.status, now) == p.(updatedAt := now)
  {
  }

  /** A parking with one space fewer free (`availableSpaces -= 1`). */
  function Taken(p: Parking): Parking {
    p.(availableSpaces := p.availableSpaces - 1)
  }

  /** A parking with one space more free (`availableSpaces += 1`). */
  function Freed(p: Parking): Parking {
    p.(availableSpaces := p.availableSpaces + 1)
  }

  /** An entry completed at `now` with the amount charged. */
  function Closed(e: ParkingEntry, now: int, charged: real): ParkingEntry {
    e.(exitDateTime := Some(now), chargedAmount := charged, status := Completed)
  }

  /** The unique indexes on a parking's code and name. */
  predicate UniqueLots(lots: map<nat, Parking>) {
    && (forall k, l :: k in lots && l in lots && k != l ==> lots[k].code != lots[l].code)
    && (forall k, l :: k in lots && l in lots && k != l ==> lots[k].parkingName != lots[l].parkingName)
  }

  /** Rewriting a parking without touching its code or name keeps the
      indexes. */
  lemma RewriteKeepsUnique(lots: map<nat, Parking>, id: nat, q: Parking)
    requires UniqueLots(lots) && id in lots
    requires q.code == lots[id].code && q.parkingName == lots[id].parkingName
    ensures UniqueLots(lots[id := q])
  {
  }

  /** Entries refer to parkings already created, and the unique index on the
      ticket number. */
  predicate TicketsIssued(entries: seq<ParkingEntry>, nextLotId: nat) {
    && (forall i :: 0 <= i < |entries| ==> entries[i].parkingId < nextLotId)
    && (forall i, j :: 0 <= i < j < |entries| ==> entries[i].ticketNumber != entries[j].ticketNumber)
  }

  /** With ticket numbers unique, the entry holding a ticket is the only one. */
  lemma ActiveTicketIsUnique(entries: seq<ParkingEntry>, i: nat, ticket: string, nextLotId: nat)
    requires TicketsIssued(entries, nextLotId) && i < |entries| && entries[i].ticketNumber == ticket
    ensures forall j :: 0 <= j < |entries| && entries[j].ticketNumber == ticket ==> j == i
  {
  }

  lemma IssueKeepsTickets(entries: seq<ParkingEntry>, e: ParkingEntry, nextLotId: nat)
    requires TicketsIssued(entries, nextLotId) && e.parkingId < nextLotId
    requires forall i :: 0 <= i < |entries| ==> entries[i].ticketNumber != e.ticketNumber
    ensures TicketsIssued(entries + [e], nextLotId)
  {
  }

  lemma ReplaceKeepsTickets(entries: seq<ParkingEntry>, i: nat, e: ParkingEntry, nextLotId: nat)
    requires TicketsIssued(entries, nextLotId) && i < |entries|
    requires e.parkingId == entries[i].parkingId && e.ticketNumber == entries[i].ticketNumber
    ensures TicketsIssued(entries[i := e], nextLotId)
  {
  }

  /** Every space of a parking is either free or held by an active entry. */
  predicate BalancedIn(lots: map<nat, Parking>, entries: seq<ParkingEntry>) {
    forall k :: k in lots ==> lots[k].availableSpaces + ActiveCount(entries, k) == lots[k].totalSpaces
  }

  /** An active entry for parking `id` taking one of its spaces keeps the
      balance. */
  lemma EntryKeepsBalance(lots: map<nat, Parking>, entries: seq<ParkingEntry>, e: ParkingEntry)
    requires BalancedIn(lots, entries) && e.status == Active && e.parkingId in lots
    ensures var p := lots[e.parkingId];
            BalancedIn(lots[e.parkingId := Taken(p)], entries + [e])
  {
    forall k | k in lots
      ensures ActiveCount(entries + [e], k) == ActiveCount(entries, k) + Holds(e, k)
    {
      ActiveCountAppend(entries, e, k);
    }
  }

  /** Completing the active entry `i` and freeing its space keeps the
      balance. */
  lemma ExitKeepsBalance(lots: map<nat, Parking>, entries: seq<ParkingEntry>, i: nat, done: ParkingEntry)
    requires BalancedIn(lots, entries) && i < |entries| && entries[i].status == Active
    requires entries[i].parkingId in lots && done.parkingId == entries[i].parkingId && done.status == Completed
    ensures var p := lots[done.parkingId];
            BalancedIn(lots[done.parkingId := Freed(p)], entries[i := done])
  {
    forall k | k in lots
      ensures ActiveCount(entries[i := done], k) + Holds(entries[i], k) == ActiveCount(entries, k) + Holds(done, k)
    {
      ActiveCountUpdate(entries, i, done, k);
    }
  }

  class ParkingDesk {
    var lots: map<nat, Parking>
    var entries: seq<ParkingEntry>
    var nextLotId: nat

    /** Ids are handed out in order and never reused; `code`, `parkingName`
        and `ticketNumber` carry unique indexes. */
    ghost predicate Valid()
      reads this
    {
      && (forall k :: k in lots ==> k < nextLotId)
      && TicketsIssued(entries, nextLotId)
      && UniqueLots(lots)
    }

    ghost predicate Balanced()
      reads this
    {
      BalancedIn(lots, entries)
    }

    constructor ()
      ensures Valid() && Balanced()
      ensures lots == map[] && entries == [] && nextLotId == 0
    {
      lots := map[];
      entries := [];
      nextLotId := 0;
    }

    predicate CodeTaken(code: string)
      reads this
    {
      exists k :: k in lots && lots[k].code == code
    }

    predicate NameTaken(parkingName: string, except: nat)
      reads this
    {
      exists k :: k in lots && k != except && lots[k].parkingName == parkingName
    }

    /** createParking: every schema field is required (an empty string fails
        `required`); a duplicate code or name violates a unique index. Both
        failures are answered with 500. */
    method CreateParking(code: string, parkingName: string, totalSpaces: Option<int>, location: string,
                         pricePerHour: Option<real>, adminId: string, now: int)
      returns (r: Result<nat, PmsError>)
      requires Valid()
      modifies this
      ensures Valid()
      ensures old(Balanced()) ==> Balanced()
      ensures r.Err? <==>
                code == "" || parkingName == "" || totalSpaces.None? || location == "" || pricePerHour.None?
                || adminId == "" || old(CodeTaken(code)) || old(NameTaken(parkingName, nextLotId))
      ensures r.Err? ==> r.error == ServerError && unchanged(this)
      ensures r.Ok? ==>
                && totalSpaces.Some? && pricePerHour.Some?
                && r.value == old(nextLotId) && nextLotId == old(nextLotId) + 1
                && lots == old(lots)[r.value := Parking(code, parkingName, totalSpaces.value, totalSpaces.value,
                                                        location, pricePerHour.value, Available, adminId, now)]
                && entries == old(entries)
    {
      if code == "" || parkingName == "" || totalSpaces.None? || location == "" || pricePerHour.None?
         || adminId == "" || CodeTaken(code) || NameTaken(parkingName, nextLotId) {
        return Err(ServerError);
      }
      var id := nextLotId;
      var p := Parking(code, parkingName, totalSpaces.value, totalSpaces.value, location, pricePerHour.value,
                       Available, adminId, now);
      assert ActiveCount(entries, id) == 0 by { NoActiveEntriesFor(entries, id); }
      lots := lots[id := p];
      nextLotId := nextLotId + 1;
      r := Ok(id);
    }

    /** recordEntry: vehicle `vehicleId` enters parking `parkingId` at `now`
        with the generated `ticket`. An unknown parking and a full one give
        the same answer. The entry is saved first; a save that fails (a
        missing vehicle id, a ticket already issued) leaves everything as it
        was. */
    method RecordEntry(vehicleId: string, parkingId: nat, now: int, ticket: string)
      returns (r: Result<ParkingEntry, PmsError>)
      requires Valid()
      modifies this
      ensures Valid()
      ensures old(Balanced()) ==> Balanced()
      ensures r == Err(ParkingFull) <==> parkingId !in old(lots) || old(lots)[parkingId].availableSpaces <= 0
      ensures r == Err(ServerError) <==>
                parkingId in old(lots) && old(lots)[parkingId].availableSpaces > 0
                && (vehicleId == "" || exists i :: 0 <= i < |old(entries)| && old(entries)[i].ticketNumber == ticket)
      ensures r.Err? ==> r.error in {ParkingFull, ServerError} && unchanged(this)
      ensures r.Ok? ==>
                var p := old(lots)[parkingId];
                && parkingId in old(lots)
                && r.value == ParkingEntry(vehicleId, parkingId, now, None, 0.0, Active, ticket)
                && entries == old(entries) + [r.value]
                && lots == old(lots)[parkingId := Taken(p)]
                && nextLotId == old(nextLotId)
    {
      if parkingId !in lots || lots[parkingId].availableSpaces <= 0 {
        return Err(ParkingFull);
      }
      if vehicleId == "" || exists i :: 0 <= i < |entries| && entries[i].ticketNumber == ticket {
        return Err(ServerError);
      }
      var e := ParkingEntry(vehicleId, parkingId, now, None, 0.0, Active, ticket);
      var p := lots[parkingId];
      if Balanced() { EntryKeepsBalance(lots, entries, e); }
      IssueKeepsTickets(entries, e, nextLotId);
      var fewer := Taken(p);
      RewriteKeepsUnique(lots, parkingId, fewer);
      entries := entries + [e];
      lots := lots[parkingId := fewer];
      r := Ok(e);
    }

    /** `ParkingEntry.findOne({ ticketNumber, status: 'active' })`: the
        first active entry with that ticket. */
    method FindActiveTicket(ticket: string) returns (r: Option<nat>)
      ensures r.Some? ==> r.value < |entries| && entries[r.value].ticketNumber == ticket
                          && entries[r.value].status == Active
      ensures r.None? <==>
                forall i :: 0 <= i < |entries| ==> !(entries[i].ticketNumber == ticket && entries[i].status == Active)
    {
      var i := 0;
      while i < |entries|
        invariant 0 <= i <= |entries|
        invariant forall j :: 0 <= j < i ==> !(entries[j].ticketNumber == ticket && entries[j].status == Active)
      {
        if entries[i].ticketNumber == ticket && entries[i].status == Active {
          return Some(i);
        }
        i := i + 1;
      }
      return None;
    }

    /** recordExit at `now`. A missing parking makes the price lookup throw:
        500, and nothing is saved. */
    method RecordExit(ticket: string, now: int) returns (r: Result<Bill, PmsError>)
      requires Valid()
      modifies this
      ensures Valid()
      ensures old(Balanced()) ==> Balanced()
      ensures r == Err(InvalidTicket) <==>
                forall i :: 0 <= i < |old(entries)| ==>
                  !(old(entries)[i].ticketNumber == ticket && old(entries)[i].status == Active)
      ensures r == Err(ServerError) <==>
                exists i :: 0 <= i < |old(entries)| && old(entries)[i].ticketNumber == ticket
                            && old(entries)[i].status == Active && old(entries)[i].parkingId !in old(lots)
      ensures r.Err? ==> r.error in {InvalidTicket, ServerError} && unchanged(this)
      ensures r.Ok? ==> exists i :: 0 <= i < |old(entries)| && ExitedAs(old(entries), old(lots), i, ticket, now, r.value)
      ensures lots.Keys == old(lots).Keys && nextLotId == old(nextLotId) && |entries| == |old(entries)|
    {
      var found := FindActiveTicket(ticket);
      if found.None? {
        return Err(InvalidTicket);
      }
      var i := found.value;
      var e := entries[i];
      ActiveTicketIsUnique(entries, i, ticket, nextLotId);
      if e.parkingId !in lots {
        return Err(ServerError);
      }
      var p := lots[e.parkingId];
      var hours := Billing.BillableHours(now - e.entryDateTime);
      var charged := hours as real * p.pricePerHour;
      var done := Closed(e, now, charged);
      if Balanced() { ExitKeepsBalance(lots, entries, i, done); }
      ReplaceKeepsTickets(entries, i, done, nextLotId);
      var more := Freed(p);
      RewriteKeepsUnique(lots, e.parkingId, more);
      ghost var before := entries;
      ghost var lotsBefore := lots;
      entries := entries[i := done];
      lots := lots[e.parkingId := more];
      r := Ok(Bill(ticket, e.entryDateTime, now, hours, charged));
      assert ExitedAs(before, lotsBefore, i, ticket, now, r.value);
    }

    /** The state after ticket `ticket`, held by entry `i`, left at `now`
        with bill `b`, in terms of the state before. */
    ghost predicate ExitedAs(before: seq<ParkingEntry>, lotsBefore: map<nat, Parking>, i: nat, ticket: string,
                             now: int, b: Bill)
      reads this
    {
      && i < |before|
      && before[i].ticketNumber == ticket && before[i].status == Active
      && before[i].parkingId in lotsBefore
      && var e := before[i];
         var p := lotsBefore[e.parkingId];
         var hours := Billing.BillableHours(now - e.entryDateTime);
         && b == Bill(ticket, e.entryDateTime, now, hours, hours as real * p.pricePerHour)
         && entries == before[i := Closed(e, now, b.chargedAmount)]
         && lots == lotsBefore[e.parkingId := Freed(p)]
    }

    /** updateParking of parking `id` at `now`. The schema's enum check on
        status runs before the unique index on the name, and neither bounds
        availableSpaces by totalSpaces. */
    method UpdateParking(id: nat, parkingName: string, availableSpaces: Option<int>, location: string,
                         pricePerHour: Option<real>, status: string, now: int)
      returns (r: Result<Parking, PmsError>)
      requires Valid()
      modifies this
      ensures Valid()
      ensures r == Err(ParkingNotFound) <==> id !in old(lots)
      ensures r == Err(ServerError) <==> id in old(lots) && ParseStatus(status, old(lots)[id].status).None?
      ensures r == Err(MustBeUnique("parkingName")) <==>
                id in old(lots) && ParseStatus(status, old(lots)[id].status).Some?
                && parkingName != "" && old(NameTaken(parkingName, id))
      ensures r.Err? ==> r.error in {ParkingNotFound, ServerError, MustBeUnique("parkingName")} && unchanged(this)
      ensures r.Ok? ==>
                && id in old(lots)
                && r.value == Patched(old(lots)[id], parkingName, availableSpaces, location, pricePerHour,
                                      ParseStatus(status, old(lots)[id].status).value, now)
                && lots == old(lots)[id := r.value]
                && entries == old(entries) && nextLotId == old(nextLotId)
    {
      if id !in lots {
        return Err(ParkingNotFound);
      }
      var p := lots[id];
      var st := ParseStatus(status, p.status);
      if st.None? {
        return Err(ServerError);
      }
      if parkingName != "" && NameTaken(parkingName, id) {
        return Err(MustBeUnique("parkingName"));
      }
      var q := Patched(p, parkingName, availableSpaces, location, pricePerHour, st.value, now);
      lots := lots[id := q];
      r := Ok(q);
    }

    /** getAllParking: the parkings whose status is available. */
    function AvailableParkings(): (r: map<nat, Parking>)
      reads this
      ensures forall k :: k in r <==> k in lots && lots[k].status == Available
      ensures forall k :: k in r ==> r[k] == lots[k]
    {
      map k | k in lots && lots[k].status == Available :: lots[k]
    }

    /** getParkingEntries. */
    function ParkingEntries(startDate: DateArg, endDate: DateArg, entryType: string)
      : (r: Result<seq<ParkingEntry>, PmsError>)
      reads this
      ensures r.Err? <==> DatesFilter(startDate, endDate) && (startDate.Unparseable? || endDate.Unparseable?)
      ensures r.Ok? ==> forall e :: e in r.value <==>
                e in entries && InPeriod(e, startDate, endDate) && OfType(e, entryType)
    {
      if DatesFilter(startDate, endDate) && (startDate.Unparseable? || endDate.Unparseable?) then Err(ServerError)
      else Ok(Filter(entries, (e: ParkingEntry) => InPeriod(e, startDate, endDate) && OfType(e, entryType)))
    }
  }

  /** A parking created after every recorded entry holds none of them. */
  lemma {:induction false} NoActiveEntriesFor(entries: seq<ParkingEntry>, id: nat)
    requires forall i :: 0 <= i < |entries| ==> entries[i].parkingId < id
    ensures ActiveCount(entries, id) == 0
    decreases |entries|
  {
    if |entries| > 0 {
      NoActiveEntriesFor(entries[1..], id);
    }
  }

  /** `if (startDate && endDate)`: the date filter applies only when both
      are given. */
  predicate DatesFilter(startDate: DateArg, endDate: DateArg) {
    !startDate.Absent? && !endDate.Absent?
  }

  /** The closed period [startDate, endDate] on the entry time, or no
      restriction. */
  predicate InPeriod(e: ParkingEntry, startDate: DateArg, endDate: DateArg) {
    DatesFilter(startDate, endDate) && startDate.Ms? && endDate.Ms? ==>
      startDate.ms <= e.entryDateTime <= endDate.ms
  }

  /** `type` selects active or completed entries; any other value selects
      all of them. */
  predicate OfType(e: ParkingEntry, entryType: string) {
    && (entryType == "active" ==> e.status == Active)
    && (entryType == "completed" ==> e.status == Completed)
  }

  lemma OtherTypesDoNotFilter(e: ParkingEntry, entryType: string)
    requires entryType != "active" && entryType != "completed"
    ensures OfType(e, entryType)
  {
  }
}
