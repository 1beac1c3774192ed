/** The newer backend's car-entry lifecycle (parking-backend, carEntr.js).
    A car enters a lot by code, which uses up one space; an entry is
    completed either by an exit time the client supplies (completeCarEntry)
    or by the server clock (generateExitBill), which bills
    `ceil(hours) * feePerHour` and gives the space back. Around that sit the
    date-window reports and the charges total.

    Lots are keyed by their code, which the store keeps unique; an entry's
    `lotCode` is its `parkingLotId`, the lot's identity.

    Some fields the handlers read and write are not declared by the lot and
    entry schemas (`available_spaces`, `parkingCode`, `duration_hours`,
    `total_amount`). They are optional here: None is a record that does not
    carry the field, as a JavaScript `undefined`. */
module CarEntries {
  import opened Common
  import Billing

  /** `end.setDate(end.getDate() + 1)`, taken as one day of milliseconds. */
  const DayMs: int := 24 * 60 * 60 * 1000

  /** How an entry's `exitTime` reads back. The schema gives it no default,
      so an entry that was never completed has it undefined (Unset); a stored
      null is Null; otherwise it is a date. */
  datatype ExitStamp = Unset | Null | At(ms: int)

  /** A parking lot. `spaces` is the schema's capacity field; `available` is
      the `available_spaces` counter, None when the record lacks it. */
  datatype Lot = Lot(
    code: string,
    name: string,
    spaces: int,
    location: string,
    feePerHour: real,
    available: Option<int>)

  datatype CarEntry = CarEntry(
    plateNo: string,
    parkingCode: Option<string>,
    lotCode: string,
    userId: string,
    entryTime: int,
    exitTime: ExitStamp,
    charge: real,
    durationHours: Option<real>,
    totalAmount: Option<real>)

  datatype EntryError =
    | FieldsRequired      // 400 'All fields are required'
    | LotNotFound         // 404 'Parking lot not found'
    | NoAvailableSpaces   // 400 'No available spaces in this parking lot'
    | ExitTimeRequired    // 400 'Exit time is required'
    | EntryNotFound       // 404 'Car entry not found'
    | AlreadyCompleted    // 400 'Car entry already completed'
    | AlreadyExited       // 400 'Car has already exited'
    | ServerError         // 500
    | DatesRequired       // 400 'startDate and endDate query parameters are required'
    | InvalidDateFormat   // 400 'Invalid date format...'

  /** `parkingLot.available_spaces <= 0`; an absent counter is undefined and
      `undefined <= 0` is false, so such a lot is never full. */
  predicate NoSpaceLeft(lot: Lot) {
    lot.available.Some? && lot.available.value <= 0
  }

  /** `available_spaces -= 1` / `+= 1`. Undefined plus a number is NaN, which
      again compares false with 0: the counter stays absent. */
  function Shifted(available: Option<int>, delta: int): (r: Option<int>)
    ensures r.Some? <==> available.Some?
    ensures r.Some? ==> r.value == available.value + delta
  {
    match available
    case None => None
    case Some(n) => Some(n + delta)
  }

  /** The record addCarEntry stores: no exit time, the schema's default
      charge of 0, and no `parkingCode`, which the entry schema does not
      declare and strict mode drops; the lot is kept as `parkingLotId`. */
  function NewEntry(plateNo: string, lotCode: string, entryTime: int, userId: string): (e: CarEntry)
    ensures e.plateNo == plateNo && e.lotCode == lotCode && e.entryTime == entryTime && e.userId == userId
    ensures e.exitTime.Unset? && e.charge == 0.0
    ensures e.parkingCode.None? && e.durationHours.None? && e.totalAmount.None?
  {
    CarEntry(plateNo, None, lotCode, userId, entryTime, Unset, 0.0, None, None)
  }

  /** `if (carEntry.exitTime)`: only a date is truthy. */
  predicate HasExitDate(e: CarEntry) {
    e.exitTime.At?
  }

  /** `carEntry.exitTime !== null`: true for a date, and true as well for an
      exit time that was never set, since undefined is not null. */
  predicate ExitNotNull(e: CarEntry) {
    !e.exitTime.Null?
  }

  /** Every entry addCarEntry creates is refused by generateExitBill. */
  lemma NewEntryRefusedByExitBill(plateNo: string, lotCode: string, entryTime: int, userId: string)
    ensures ExitNotNull(NewEntry(plateNo, lotCode, entryTime, userId))
    ensures !HasExitDate(NewEntry(plateNo, lotCode, entryTime, userId))
  {
  }

  class ParkingStore {
    var lots: map<string, Lot>
    var entries: seq<CarEntry>

    /** The unique index on the lot code. */
    ghost predicate Valid()
      reads this
    {
      forall c :: c in lots ==> lots[c].code == c
    }

    /** The store as found: lots and entries already recorded. */
    constructor (lots0: map<string, Lot>, entries0: seq<CarEntry>)
      requires forall c :: c in lots0 ==> lots0[c].code == c
      ensures Valid()
      ensures lots == lots0 && entries == entries0
    {
      lots := lots0;
      entries := entries0;
    }

    /** addCarEntry. `plateNo` and `parkingCode` are "" when missing or
        falsy, `entryTime` None when missing; `userId` is the caller's. */
    method AddCarEntry(plateNo: string, parkingCode: string, entryTime: Option<int>, userId: string)
      returns (r: Result<CarEntry, EntryError>)
      requires Valid()
      modifies this
      ensures Valid()
      ensures r == Err(FieldsRequired) <==> (plateNo == "" || parkingCode == "" || entryTime.None?)
      ensures r == Err(LotNotFound) <==>
                plateNo != "" && parkingCode != "" && entryTime.Some? && parkingCode !in old(lots)
      ensures r == Err(NoAvailableSpaces) <==>
                plateNo != "" && parkingCode != "" && entryTime.Some? && parkingCode in old(lots)
                && NoSpaceLeft(old(lots)[parkingCode])
      ensures r.Err? ==> r.error in {FieldsRequired, LotNotFound, NoAvailableSpaces}
      ensures r.Err? ==> lots == old(lots) && entries == old(entries)
      ensures r.Ok? ==>
                && entryTime.Some? && parkingCode in old(lots)
                && r.value == NewEntry(plateNo, parkingCode, entryTime.value, userId)
                && entries == old(entries) + [r.value]
                && lots == old(lots)[parkingCode :=
                     old(lots)[parkingCode].(available := Shifted(old(lots)[parkingCode].available, -1))]
    {
      if plateNo == "" || parkingCode == "" || entryTime.None? {
        return Err(FieldsRequired);
      }
      if parkingCode !in lots {
        return Err(LotNotFound);
      }
      var lot := lots[parkingCode];
      if NoSpaceLeft(lot) {
        return Err(NoAvailableSpaces);
      }
      var entry := NewEntry(plateNo, parkingCode, entryTime.value, userId);
      lots := lots[parkingCode := lot.(available := Shifted(lot.available, -1))];
      entries := entries + [entry];
      r := Ok(entry);
    }

    /** completeCarEntry: entry `id`, exit time from the request body (None
        when missing). The lot is looked up by the entry's `parkingCode`; an
        entry without one finds no lot. A code that reads back stands for a
        record read with strict mode off; under strict mode none does. The amount goes to `total_amount`;
        `charge` is left as it was. */
    method CompleteCarEntry(id: nat, exitTime: Option<int>) returns (r: Result<CarEntry, EntryError>)
      requires Valid()
      modifies this
      ensures Valid()
      ensures r == Err(ExitTimeRequired) <==> exitTime.None?
      ensures r == Err(EntryNotFound) <==> exitTime.Some? && id >= |old(entries)|
      ensures r == Err(AlreadyCompleted) <==>
                exitTime.Some? && id < |old(entries)| && HasExitDate(old(entries)[id])
      ensures r == Err(LotNotFound) <==>
                exitTime.Some? && id < |old(entries)| && !HasExitDate(old(entries)[id])
                && (old(entries)[id].parkingCode.None? || old(entries)[id].parkingCode.value !in old(lots))
      ensures r.Err? ==> r.error in {ExitTimeRequired, EntryNotFound, AlreadyCompleted, LotNotFound}
      ensures r.Err? ==> lots == old(lots) && entries == old(entries)
      ensures r.Ok? ==>
                var e := old(entries)[id];
                var code := e.parkingCode.value;
                var lot := old(lots)[code];
                && id < |old(entries)| && e.parkingCode.Some? && code in old(lots) && exitTime.Some?
                && r.value == e.(exitTime := At(exitTime.value),
                                 durationHours := Some(Billing.DurationHours(exitTime.value - e.entryTime)),
                                 totalAmount := Some(Billing.Charge(e.entryTime, exitTime.value, lot.feePerHour)))
                && entries == old(entries)[id := r.value]
                && lots == old(lots)[code := lot.(available := Shifted(lot.available, 1))]
    {
      if exitTime.None? {
        return Err(ExitTimeRequired);
      }
      if id >= |entries| {
        return Err(EntryNotFound);
      }
      var e := entries[id];
      if HasExitDate(e) {
        return Err(AlreadyCompleted);
      }
      var t := exitTime.value;
      var durationHours := Billing.DurationHours(t - e.entryTime);
      if e.parkingCode.None? || e.parkingCode.value !in lots {
        return Err(LotNotFound);
      }
      var code := e.parkingCode.value;
      var lot := lots[code];
      var totalAmount := Billing.Charge(e.entryTime, t, lot.feePerHour);
      var completed := e.(exitTime := At(t), durationHours := Some(durationHours), totalAmount := Some(totalAmount));
      entries := entries[id := completed];
      lots := lots[code := lot.(available := Shifted(lot.available, 1))];
      r := Ok(completed);
    }

    /** generateExitBill: entry `id` leaves at the server time `now`. The
        lot is the entry's own (`parkingLotId`); a missing lot makes the fee
        lookup throw (500). Its `spaces` field, the capacity, is incremented. */
    method GenerateExitBill(id: nat, now: int) returns (r: Result<CarEntry, EntryError>)
      requires Valid()
      modifies this
      ensures Valid()
      ensures r == Err(EntryNotFound) <==> id >= |old(entries)|
      ensures r == Err(AlreadyExited) <==> id < |old(entries)| && ExitNotNull(old(entries)[id])
      ensures r == Err(ServerError) <==>
                id < |old(entries)| && !ExitNotNull(old(entries)[id]) && old(entries)[id].lotCode !in old(lots)
      ensures id < |old(entries)| && old(entries)[id].exitTime.Unset? ==> r == Err(AlreadyExited)
      ensures r.Err? ==> r.error in {EntryNotFound, AlreadyExited, ServerError}
      ensures r.Err? ==> lots == old(lots) && entries == old(entries)
      ensures r.Ok? ==>
                var e := old(entries)[id];
                var lot := old(lots)[e.lotCode];
                && id < |old(entries)| && e.lotCode in old(lots)
                && r.value == e.(exitTime := At(now), charge := Billing.Charge(e.entryTime, now, lot.feePerHour))
                && entries == old(entries)[id := r.value]
                && lots == old(lots)[e.lotCode := lot.(spaces := lot.spaces + 1)]
    {
      if id >= |entries| {
        return Err(EntryNotFound);
      }
      var e := entries[id];
      if ExitNotNull(e) {
        return Err(AlreadyExited);
      }
      if e.lotCode !in lots {
        return Err(ServerError);
      }
      var lot := lots[e.lotCode];
      var charge := Billing.Charge(e.entryTime, now, lot.feePerHour);
      var billed := e.(exitTime := At(now), charge := charge);
      entries := entries[id := billed];
      lots := lots[e.lotCode := lot.(spaces := lot.spaces + 1)];
      r := Ok(billed);
    }

    /** getActiveEntries: `exitTime: null` matches a null and a missing exit
        time alike. */
    function ActiveEntries(): (r: seq<CarEntry>)
      reads this
      ensures forall e :: e in r <==> e in entries && !HasExitDate(e)
    {
      Filter(entries, (e: CarEntry) => !HasExitDate(e))
    }

    /** getClientCarEntries: the caller's own entries. */
    function ClientEntries(userId: string): (r: seq<CarEntry>)
      reads this
      ensures forall e :: e in r <==> e in entries && e.userId == userId
    {
      Filter(entries, (e: CarEntry) => e.userId == userId)
    }
  }

  /** An entry addCarEntry has just stored can be completed by neither
      path: completeCarEntry finds no lot for its missing `parkingCode`,
      and generateExitBill takes its unset exit time for an exit. The entry
      stays open and the lots keep the space it took. */
  method FreshEntryStaysOpen(s: ParkingStore, plateNo: string, code: string, entryTime: int, userId: string,
                             exitTime: int, now: int)
    returns (added: Result<CarEntry, EntryError>, completed: Result<CarEntry, EntryError>,
             bill: Result<CarEntry, EntryError>)
    requires s.Valid()
    modifies s
    ensures s.Valid()
    ensures added.Ok? ==>
              && completed == Err(LotNotFound) && bill == Err(AlreadyExited)
              && s.entries == old(s.entries) + [added.value]
              && !HasExitDate(s.entries[|old(s.entries)|])
    ensures added.Ok? ==>
              && code in old(s.lots)
              && s.lots == old(s.lots)[code := old(s.lots)[code].(available := Shifted(old(s.lots)[code].available, -1))]
    ensures added.Err? ==> s.lots == old(s.lots) && s.entries == old(s.entries)
  {
    added := s.AddCarEntry(plateNo, code, Some(entryTime), userId);
    if added.Err? {
      completed, bill := added, added;
      return;
    }
    var id := |s.entries| - 1;
    completed := s.CompleteCarEntry(id, Some(exitTime));
    bill := s.GenerateExitBill(id, now);
  }

  /** Completion is final: once an entry is completed, neither completion
      path accepts it again, so its exit time and amounts are written once;
      the completion also gives its lot's counter back. */
  method CompletionIsFinal(s: ParkingStore, id: nat, exit1: int, exit2: int, now: int)
    returns (first: Result<CarEntry, EntryError>, again: Result<CarEntry, EntryError>,
             bill: Result<CarEntry, EntryError>)
    requires s.Valid()
    modifies s
    ensures s.Valid()
    ensures first.Ok? ==>
              && again == Err(AlreadyCompleted) && bill == Err(AlreadyExited)
              && id < |old(s.entries)| && s.entries == old(s.entries)[id := first.value]
              && HasExitDate(s.entries[id]) && s.entries[id].exitTime == At(exit1)
    ensures first.Ok? ==>
              && id < |old(s.entries)| && old(s.entries)[id].parkingCode.Some?
              && var code := old(s.entries)[id].parkingCode.value;
              && code in old(s.lots)
              && s.lots == old(s.lots)[code := old(s.lots)[code].(available := Shifted(old(s.lots)[code].available, 1))]
    ensures first.Err? ==> s.lots == old(s.lots) && s.entries == old(s.entries)
  {
    first := s.CompleteCarEntry(id, Some(exit1));
    if first.Err? {
      again, bill := first, first;
      return;
    }
    again := s.CompleteCarEntry(id, Some(exit2));
    bill := s.GenerateExitBill(id, now);
  }

  // -------------------------------------------------------------------------
  // Reports over a date window [start, end + 1 day).

  predicate InWindow(t: int, start: int, end: int) {
    start <= t < end + DayMs
  }

  /** The query-string checks shared by the four reports: both dates are
      required, and both must parse. The window then ends one day after
      `endDate`. */
  function ParseWindow(startDate: DateArg, endDate: DateArg): (r: Result<(int, int), EntryError>)
    ensures r == Err(DatesRequired) <==> startDate.Absent? || endDate.Absent?
    ensures r == Err(InvalidDateFormat) <==>
              !startDate.Absent? && !endDate.Absent? && (startDate.Unparseable? || endDate.Unparseable?)
    ensures r.Ok? <==> startDate.Ms? && endDate.Ms?
    ensures r.Ok? ==> r.value == (startDate.ms, endDate.ms)
  {
    if startDate.Absent? || endDate.Absent? then Err(DatesRequired)
    else if startDate.Unparseable? || endDate.Unparseable? then Err(InvalidDateFormat)
    else Ok((startDate.ms, endDate.ms))
  }

  /** getIncomingCarEntries. */
  function Incoming(entries: seq<CarEntry>, start: int, end: int): (r: seq<CarEntry>)
    ensures forall e :: e in r <==> e in entries && InWindow(e.entryTime, start, end)
  {
    Filter(entries, (e: CarEntry) => InWindow(e.entryTime, start, end))
  }

  predicate ExitedIn(e: CarEntry, start: int, end: int) {
    e.exitTime.At? && InWindow(e.exitTime.ms, start, end)
  }

  /** getOutgoingCarEntries: only entries with an exit date can match. */
  function Outgoing(entries: seq<CarEntry>, start: int, end: int): (r: seq<CarEntry>)
    ensures forall e :: e in r <==> e in entries && ExitedIn(e, start, end)
  {
    Filter(entries, (e: CarEntry) => ExitedIn(e, start, end))
  }

  /** getAllCarEntriesByDateRange: entry time or exit time in the window. */
  function AllInRange(entries: seq<CarEntry>, start: int, end: int): (r: seq<CarEntry>)
    ensures forall e :: e in r <==> e in entries && (InWindow(e.entryTime, start, end) || ExitedIn(e, start, end))
    ensures forall e :: e in Incoming(entries, start, end) ==> e in r
    ensures forall e :: e in Outgoing(entries, start, end) ==> e in r
  {
    Filter(entries, (e: CarEntry) => InWindow(e.entryTime, start, end) || ExitedIn(e, start, end))
  }

  /** An entry that arrived before the window and left inside it is in the
      combined report but not in the incoming one. */
  lemma EitherModeExample(start: int, end: int)
    requires start <= end
    ensures var e := CarEntry("ABC123", Some("P1"), "P1", "u", start - 1, At(start), 5.0, None, None);
            e in AllInRange([e], start, end) && e !in Incoming([e], start, end)
  {
    var e := CarEntry("ABC123", Some("P1"), "P1", "u", start - 1, At(start), 5.0, None, None);
    assert e in [e];
  }

  predicate Billed(e: CarEntry, start: int, end: int) {
    ExitedIn(e, start, end) && e.charge > 0.0
  }

  /** getChargesReport: the sum of `charge` over entries that left in the
      window with a positive charge; 0 when nothing matches. */
  function ChargesTotal(entries: seq<CarEntry>, start: int, end: int): (total: real)
    ensures total >= 0.0
    ensures total == 0.0 <==> forall i :: 0 <= i < |entries| ==> !Billed(entries[i], start, end)
    decreases |entries|
  {
    if |entries| == 0 then 0.0
    else (if Billed(entries[0], start, end) then entries[0].charge else 0.0) + ChargesTotal(entries[1..], start, end)
  }

  lemma {:induction false} ChargesTotalAppend(a: seq<CarEntry>, b: seq<CarEntry>, start: int, end: int)
    ensures ChargesTotal(a + b, start, end) == ChargesTotal(a, start, end) + ChargesTotal(b, start, end)
    decreases |a|
  {
    if |a| == 0 {
      assert a + b == b;
    } else {
      assert (a + b)[1..] == a[1..] + b;
      ChargesTotalAppend(a[1..], b, start, end);
    }
  }

  /** A new entry changes no charges total, and neither does completing one
      through completeCarEntry, which leaves `charge` at its old value and
      so never makes an uncharged entry count. */
  lemma ChargesUnaffectedByNewEntry(entries: seq<CarEntry>, e: CarEntry, start: int, end: int)
    requires !HasExitDate(e) || e.charge <= 0.0
    ensures ChargesTotal(entries + [e], start, end) == ChargesTotal(entries, start, end)
  {
    ChargesTotalAppend(entries, [e], start, end);
    assert ChargesTotal([e], start, end) == 0.0;
  }
}
