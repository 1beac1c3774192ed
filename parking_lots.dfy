/** Creating and listing lots in the newer backend: addParkingLot and
    getParkingLots (parkingLotController.js, the routed handlers), and
    createParkingLot (parkingLot.js), which validates more strictly and
    also initialises the `available_spaces` counter.

    Request fields arrive as JavaScript values. A string field is "" when it
    is missing or falsy. A numeric field is one of the five kinds below: a
    number and a string that reads as one compare alike, but only the number
    0 is falsy, the string "0" is not.

    parkingLot.js exports nothing, so no route reaches createParkingLot; it
    is modelled as the handler it would be. */
module ParkingLots {
  import opened Common
  import opened CarEntries

  /** A numeric request field: absent (undefined), null, a non-empty string
      that is not a number (`isNaN` holds, and Mongoose cannot cast it), a
      number, or a string `text` whose numeric reading `Number(text)` is `v`
      (the empty string reads as 0, and Mongoose casts it to null). */
  datatype NumArg<N> = Missing | NullValue | NotNumeric | Num(v: N) | Numeral(text: string, v: N)

  /** Neither `isNaN` holds nor does Mongoose cast the field to null: a
      number, or a non-empty string that reads as one. Its value is `v`. */
  predicate Numeric<N>(a: NumArg<N>) {
    a.Num? || (a.Numeral? && a.text != "")
  }

  datatype LotError =
    | DetailsRequired     // 400 'All ... are required'
    | SpacesNotPositive   // 400 'Total spaces must be a positive number'
    | FeeNegative         // 400 'Fee per hour must be a non-negative number'
    | DuplicateCode       // 400 'Parking lot ... already exists'
    | StoreFailure        // 500

  /** `!x` on a numeric field: undefined, null, the number 0 and the empty
      string are falsy; every non-empty string is truthy, "0" included. */
  predicate CountFalsy(a: NumArg<int>) {
    a.Missing? || a.NullValue? || (a.Num? && a.v == 0) || (a.Numeral? && a.text == "")
  }

  predicate AmountFalsy(a: NumArg<real>) {
    a.Missing? || a.NullValue? || (a.Num? && a.v == 0.0) || (a.Numeral? && a.text == "")
  }

  datatype CreateLotRequest = CreateLotRequest(
    code: string, name: string, totalSpaces: NumArg<int>, location: string, feePerHour: NumArg<real>)

  /** The three checks of createParkingLot, in order. Since the number 0 is
      falsy, the first check already refuses a numeric fee of 0: a fee given
      as a number passes only when positive, although the message speaks of
      a non-negative one; the string "0" is truthy and passes. */
  function ValidateCreate(q: CreateLotRequest): (r: Option<LotError>)
    ensures r == Some(DetailsRequired) <==>
              q.code == "" || q.name == "" || CountFalsy(q.totalSpaces) || q.location == "" || AmountFalsy(q.feePerHour)
    ensures r == Some(SpacesNotPositive) <==>
              r != Some(DetailsRequired) && !(Numeric(q.totalSpaces) && q.totalSpaces.v > 0)
    ensures r == Some(FeeNegative) <==>
              r != Some(DetailsRequired) && r != Some(SpacesNotPositive) && !(Numeric(q.feePerHour) && q.feePerHour.v >= 0.0)
    ensures r.None? <==>
              && q.code != "" && q.name != "" && q.location != ""
              && Numeric(q.totalSpaces) && q.totalSpaces.v > 0
              && Numeric(q.feePerHour) && q.feePerHour.v >= 0.0 && !AmountFalsy(q.feePerHour)
  {
    if q.code == "" || q.name == "" || CountFalsy(q.totalSpaces) || q.location == "" || AmountFalsy(q.feePerHour) then
      Some(DetailsRequired)
    else if !Numeric(q.totalSpaces) || q.totalSpaces.v <= 0 then
      Some(SpacesNotPositive)
    else if !Numeric(q.feePerHour) || q.feePerHour.v < 0.0 then
      Some(FeeNegative)
    else
      None
  }

  /** A zero fee is refused as a number and accepted as the text "0", which
      is how a form submits it; a capacity of "0" is refused as not
      positive, not as missing. */
  lemma ZeroAsTextExamples()
    ensures ValidateCreate(CreateLotRequest("P1", "Main", Num(100), "Downtown", Num(0.0))) == Some(DetailsRequired)
    ensures ValidateCreate(CreateLotRequest("P1", "Main", Num(100), "Downtown", Numeral("0", 0.0))).None?
    ensures ValidateCreate(CreateLotRequest("P1", "Main", Numeral("0", 0), "Downtown", Num(5.5))) == Some(SpacesNotPositive)
  {
  }

  /** createParkingLot as written: after validation it consults a
      `ParkingLot` model that the file never imports, so the lookup throws a
      ReferenceError and the handler answers 500. */
  function CreateParkingLotAsWritten(q: CreateLotRequest): (r: Result<Lot, LotError>)
    ensures r.Err?
    ensures ValidateCreate(q).Some? ==> r == Err(ValidateCreate(q).value)
    ensures ValidateCreate(q).None? ==> r == Err(StoreFailure)
  {
    match ValidateCreate(q)
    case Some(e) => Err(e)
    case None => Err(StoreFailure)
  }

  /** A request that passes every check still fails. */
  lemma CreateParkingLotAsWrittenFailsOnValidInput()
    ensures var q := CreateLotRequest("P1", "Main", Num(100), "Downtown", Num(5.5));
            ValidateCreate(q).None? && CreateParkingLotAsWritten(q) == Err(StoreFailure)
  {
  }

  /** The lot createParkingLot means to insert: its capacity and its
      available counter both start at `total_spaces`. */
  function CreatedLot(q: CreateLotRequest): (l: Lot)
    requires ValidateCreate(q).None?
    ensures l.code == q.code && l.spaces > 0 && l.feePerHour >= 0.0
    ensures q.feePerHour.Num? ==> l.feePerHour > 0.0
    ensures l.available == Some(l.spaces)
  {
    Lot(q.code, q.name, q.totalSpaces.v, q.location, q.feePerHour.v, Some(q.totalSpaces.v))
  }

  /** createParkingLot with the import in place but the lot schema as
      written: the schema has neither `total_spaces` nor `available_spaces`,
      so strict mode drops both, and the required `spaces` is missing when
      the document is saved. A valid request with a fresh code fails. */
  function CreateWithSchemaAsWritten(lots: map<string, Lot>, q: CreateLotRequest): (r: Result<Lot, LotError>)
    ensures r.Err?
    ensures ValidateCreate(q).Some? ==> r == Err(ValidateCreate(q).value)
    ensures r == Err(DuplicateCode) <==> ValidateCreate(q).None? && q.code in lots
    ensures r == Err(StoreFailure) <==> ValidateCreate(q).None? && q.code !in lots
  {
    match ValidateCreate(q)
    case Some(e) => Err(e)
    case None => if q.code in lots then Err(DuplicateCode) else Err(StoreFailure)
  }

  /** The request that the import alone does not rescue. */
  lemma CreateFailsOnSchemaAsWritten()
    ensures var q := CreateLotRequest("P1", "Main", Num(100), "Downtown", Num(5.5));
            ValidateCreate(q).None? && CreateWithSchemaAsWritten(map[], q) == Err(StoreFailure)
  {
  }

  /** A freshly created lot has room, so addCarEntry accepts cars for it. */
  lemma CreatedLotHasRoom(q: CreateLotRequest)
    requires ValidateCreate(q).None?
    ensures !NoSpaceLeft(CreatedLot(q))
  {
  }

  /** createParkingLot as intended: the model in scope and `total_spaces`
      stored as the lot's capacity; validation, the duplicate check on the
      code, then the insert. */
  method CreateParkingLot(store: ParkingStore, q: CreateLotRequest) returns (r: Result<Lot, LotError>)
    requires store.Valid()
    modifies store
    ensures store.Valid()
    ensures ValidateCreate(q).Some? ==> r == Err(ValidateCreate(q).value)
    ensures r == Err(DuplicateCode) <==> ValidateCreate(q).None? && q.code in old(store.lots)
    ensures r.Ok? <==> ValidateCreate(q).None? && q.code !in old(store.lots)
    ensures r.Err? ==> store.lots == old(store.lots)
    ensures r.Ok? ==> r.value == CreatedLot(q) && store.lots == old(store.lots)[q.code := r.value]
    ensures store.entries == old(store.entries)
  {
    var invalid := ValidateCreate(q);
    if invalid.Some? {
      return Err(invalid.value);
    }
    if q.code in store.lots {
      return Err(DuplicateCode);
    }
    var lot := CreatedLot(q);
    store.lots := store.lots[q.code := lot];
    r := Ok(lot);
  }

  datatype AddLotRequest = AddLotRequest(
    code: string, name: string, spaces: NumArg<int>, location: string, feePerHour: NumArg<real>)

  /** addParkingLot's check: truthy strings, and numbers that are merely
      present, so 0 spaces or a negative fee pass. */
  predicate AddDetailsMissing(q: AddLotRequest) {
    q.code == "" || q.name == "" || q.spaces.Missing? || q.location == "" || q.feePerHour.Missing?
  }

  /** A null, non-numeric or empty-string number that passed the check fails
      the schema's required Number fields on save. */
  predicate AddSchemaRejects(q: AddLotRequest) {
    !Numeric(q.spaces) || !Numeric(q.feePerHour)
  }

  /** addParkingLot: the stored lot carries exactly the five schema fields;
      it has no `available_spaces` counter. */
  method AddParkingLot(store: ParkingStore, q: AddLotRequest) returns (r: Result<Lot, LotError>)
    requires store.Valid()
    modifies store
    ensures store.Valid()
    ensures r == Err(DetailsRequired) <==> AddDetailsMissing(q)
    ensures r == Err(DuplicateCode) <==> !AddDetailsMissing(q) && q.code in old(store.lots)
    ensures r == Err(StoreFailure) <==>
              !AddDetailsMissing(q) && q.code !in old(store.lots) && AddSchemaRejects(q)
    ensures r.Err? ==> r.error in {DetailsRequired, DuplicateCode, StoreFailure}
    ensures r.Err? ==> store.lots == old(store.lots)
    ensures r.Ok? ==>
              && Numeric(q.spaces) && Numeric(q.feePerHour)
              && r.value == Lot(q.code, q.name, q.spaces.v, q.location, q.feePerHour.v, None)
              && store.lots == old(store.lots)[q.code := r.value]
    ensures r.Ok? ==> !NoSpaceLeft(r.value)
    ensures store.entries == old(store.entries)
  {
    if AddDetailsMissing(q) {
      return Err(DetailsRequired);
    }
    if q.code in store.lots {
      return Err(DuplicateCode);
    }
    if AddSchemaRejects(q) {
      return Err(StoreFailure);
    }
    var lot := Lot(q.code, q.name, q.spaces.v, q.location, q.feePerHour.v, None);
    store.lots := store.lots[q.code := lot];
    r := Ok(lot);
  }

  /** getParkingLots: every stored lot, and nothing else. */
  function ParkingLotList(store: ParkingStore): (r: set<Lot>)
    requires store.Valid()
    reads store
    ensures forall l :: l in r <==> l.code in store.lots && store.lots[l.code] == l
  {
    store.lots.Values
  }
}
