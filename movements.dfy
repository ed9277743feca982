/**
 * The four mutating handlers of the stock service (stock in, stock out,
 * delete a record, update a record) as pure steps on a store value, with
 * the summary arithmetic written the way each handler performs it, and the
 * lemmas that every step keeps the summary equal to the sum of the ledger.
 */
module Movements {
  import opened Options
  import opened Ledger

  /** How a handler ends: success or one of its three error answers. */
  datatype Outcome = Ok | MissingParams | InsufficientStock | NotFound

  /** The persistent state: the ledger, the next id to hand out, the summary row. */
  datatype Store = Store(records: Ledger, nextId: nat, summary: Totals)

  /** A handler's answer together with the store it leaves behind. */
  type Step = (Outcome, Store)

  /**
   * A request parameter passes the handlers' truthiness check: it is
   * present and not zero.
   */
  predicate Given(p: Option<real>) {
    p.Some? && p.value != 0.0
  }

  /**
   * Every record was created by a handler: its unit matches its direction,
   * and its weight and amount passed the truthiness check.
   */
  predicate WellFormed(r: Record) {
    r.unit == NativeUnit(r.kind) && r.weight != 0.0 && r.amount != 0.0
  }

  /**
   * The ledger-aggregate invariant: ids below the counter, units matching
   * directions, and the summary equal to the sum of the surviving records.
   */
  ghost predicate Consistent(s: Store) {
    && (forall id :: id in s.records ==> id < s.nextId && WellFormed(s.records[id]))
    && s.summary == Sum(s.records)
  }

  /** The store after first boot: an empty ledger and a zeroed summary row. */
  function Initial(): (s: Store)
    ensures Consistent(s)
    ensures s.records == map[] && s.summary.stock == 0.0
    ensures s.summary.cost == 0.0 && s.summary.sales == 0.0
  {
    Store(map[], 1, Totals(0.0, 0.0, 0.0))
  }

  /** Profit as the summary endpoint reports it. */
  function Profit(t: Totals): real {
    t.sales - t.cost
  }

  /** POST /api/stock/in: weight in kg. */
  function StockIn(s: Store, weight: Option<real>, amount: Option<real>, now: int): Step {
    if !Given(weight) || !Given(amount) then (MissingParams, s)
    else
      var w, a := weight.value, amount.value;
      var t := s.summary;
      (Ok, Store(s.records[s.nextId := Record(In, w, a, Kg, now)],
                 s.nextId + 1,
                 Totals(t.stock + w, t.cost + a, t.sales)))
  }

  /** POST /api/stock/out: weight in jin, checked against the stock in kg. */
  function StockOut(s: Store, weight: Option<real>, amount: Option<real>, now: int): Step {
    if !Given(weight) || !Given(amount) then (MissingParams, s)
    else
      var w, a := weight.value, amount.value;
      var kg := JinToKg(w);
      var t := s.summary;
      if t.stock < kg then (InsufficientStock, s)
      else
        (Ok, Store(s.records[s.nextId := Record(Out, w, a, Jin, now)],
                   s.nextId + 1,
                   Totals(t.stock - kg, t.cost, t.sales + a)))
  }

  /** DELETE /api/stock/records/<id>: reverse the record, then drop it. */
  function DeleteRecord(s: Store, id: nat): Step {
    if id !in s.records then (NotFound, s)
    else
      var r := s.records[id];
      var t := s.summary;
      var t' := if r.kind == In then Totals(t.stock - r.weight, t.cost - r.amount, t.sales)
                else Totals(t.stock + JinToKg(r.weight), t.cost, t.sales - r.amount);
      (Ok, Store(s.records - {id}, s.nextId, t'))
  }

  /**
   * PUT /api/stock/records/<id>: the id is looked up before the parameters
   * are checked; the old figures are reversed and the new ones applied with
   * the record's own direction, and only weight and amount are overwritten.
   */
  function UpdateRecord(s: Store, id: nat, weight: Option<real>, amount: Option<real>): Step {
    if id !in s.records then (NotFound, s)
    else if !Given(weight) || !Given(amount) then (MissingParams, s)
    else
      var w, a := weight.value, amount.value;
      var r := s.records[id];
      var t := s.summary;
      var t' := if r.kind == In then Totals(t.stock - r.weight + w, t.cost - r.amount + a, t.sales)
                else Totals(t.stock + JinToKg(r.weight) - JinToKg(w), t.cost, t.sales - r.amount + a);
      (Ok, Store(s.records[id := r.(weight := w, amount := a)], s.nextId, t'))
  }

  // ---------------------------------------------------------------------
  // The invariant is kept by every handler.

  lemma StockInPreserves(s: Store, weight: Option<real>, amount: Option<real>, now: int)
    requires Consistent(s)
    ensures Consistent(StockIn(s, weight, amount, now).1)
  {
    if Given(weight) && Given(amount) {
      SumInsert(s.records, s.nextId, Record(In, weight.value, amount.value, Kg, now));
    }
  }

  lemma StockOutPreserves(s: Store, weight: Option<real>, amount: Option<real>, now: int)
    requires Consistent(s)
    ensures Consistent(StockOut(s, weight, amount, now).1)
  {
    if Given(weight) && Given(amount) {
      SumInsert(s.records, s.nextId, Record(Out, weight.value, amount.value, Jin, now));
    }
  }

  lemma DeleteRecordPreserves(s: Store, id: nat)
    requires Consistent(s)
    ensures Consistent(DeleteRecord(s, id).1)
  {
    if id in s.records {
      SumDelete(s.records, id);
    }
  }

  lemma UpdateRecordPreserves(s: Store, id: nat, weight: Option<real>, amount: Option<real>)
    requires Consistent(s)
    ensures Consistent(UpdateRecord(s, id, weight, amount).1)
  {
    if id in s.records && Given(weight) && Given(amount) {
      var r := s.records[id];
      SumReplace(s.records, id, r.(weight := weight.value, amount := amount.value));
    }
  }

  /** Any sequence of handler calls from first boot ends in a consistent store. */
  datatype Call =
    | CallIn(inWeight: Option<real>, inAmount: Option<real>, inAt: int)
    | CallOut(outWeight: Option<real>, outAmount: Option<real>, outAt: int)
    | CallDelete(deleteId: nat)
    | CallUpdate(updateId: nat, newWeight: Option<real>, newAmount: Option<real>)

  function Apply(s: Store, c: Call): Step {
    match c
    case CallIn(w, a, at) => StockIn(s, w, a, at)
    case CallOut(w, a, at) => StockOut(s, w, a, at)
    case CallDelete(id) => DeleteRecord(s, id)
    case CallUpdate(id, w, a) => UpdateRecord(s, id, w, a)
  }

  function Run(s: Store, calls: seq<Call>): Store
    decreases |calls|
  {
    if calls == [] then s else Run(Apply(s, calls[0]).1, calls[1..])
  }

  lemma {:induction false} RunPreserves(s: Store, calls: seq<Call>)
    requires Consistent(s)
    ensures Consistent(Run(s, calls))
    decreases |calls|
  {
    if calls != [] {
      match calls[0] {
        case CallIn(w, a, at) => StockInPreserves(s, w, a, at);
        case CallOut(w, a, at) => StockOutPreserves(s, w, a, at);
        case CallDelete(id) => DeleteRecordPreserves(s, id);
        case CallUpdate(id, w, a) => UpdateRecordPreserves(s, id, w, a);
      }
      RunPreserves(Apply(s, calls[0]).1, calls[1..]);
    }
  }

  lemma FromBootConsistent(calls: seq<Call>)
    ensures Consistent(Run(Initial(), calls))
  {
    RunPreserves(Initial(), calls);
  }

  // ---------------------------------------------------------------------
  // Error answers and what they leave behind.

  /** Every answer other than Ok leaves the store exactly as it was. */
  lemma FailureChangesNothing(s: Store, c: Call)
    ensures Apply(s, c).0 != Ok ==> Apply(s, c).1 == s
  {
  }

  /** A missing or zero parameter is refused by the three handlers that take parameters. */
  lemma MissingParamsRefused(s: Store, weight: Option<real>, amount: Option<real>, now: int, id: nat)
    requires !Given(weight) || !Given(amount)
    ensures StockIn(s, weight, amount, now) == (MissingParams, s)
    ensures StockOut(s, weight, amount, now) == (MissingParams, s)
    ensures id in s.records ==> UpdateRecord(s, id, weight, amount) == (MissingParams, s)
  {
  }

  /** An unknown id is reported before the parameters are looked at. */
  lemma UnknownIdFirst(s: Store, id: nat, weight: Option<real>, amount: Option<real>)
    requires id !in s.records
    ensures UpdateRecord(s, id, weight, amount) == (NotFound, s)
    ensures DeleteRecord(s, id) == (NotFound, s)
  {
  }

  // ---------------------------------------------------------------------
  // Inbound and outbound.

  /** Stock in succeeds exactly when both parameters are given, and adds one record. */
  lemma StockInEffect(s: Store, weight: Option<real>, amount: Option<real>, now: int)
    requires Consistent(s)
    ensures var (o, s') := StockIn(s, weight, amount, now);
      && (o == Ok <==> Given(weight) && Given(amount))
      && (o == Ok ==>
            && s.nextId !in s.records
            && s'.records.Keys == s.records.Keys + {s.nextId}
            && s'.records[s.nextId] == Record(In, weight.value, amount.value, Kg, now)
            && (forall id :: id in s.records ==> s'.records[id] == s.records[id])
            && s'.nextId !in s'.records
            && s'.summary == Plus(s.summary, Totals(weight.value, amount.value, 0.0))
            && Profit(s'.summary) == Profit(s.summary) - amount.value)
  {
  }

  /**
   * Stock out refuses with InsufficientStock exactly when the parameters are
   * given and the stock is below weight/2; on success the stock falls by
   * weight/2 and never ends below zero.
   */
  lemma StockOutEffect(s: Store, weight: Option<real>, amount: Option<real>, now: int)
    requires Consistent(s)
    ensures var (o, s') := StockOut(s, weight, amount, now);
      && (o == InsufficientStock <==>
            Given(weight) && Given(amount) && s.summary.stock < weight.value / 2.0)
      && (o == Ok <==>
            Given(weight) && Given(amount) && s.summary.stock >= weight.value / 2.0)
      && (o == Ok ==>
            && s.nextId !in s.records
            && s'.records.Keys == s.records.Keys + {s.nextId}
            && s'.records[s.nextId] == Record(Out, weight.value, amount.value, Jin, now)
            && (forall id :: id in s.records ==> s'.records[id] == s.records[id])
            && s'.summary == Plus(s.summary, Totals(-(weight.value / 2.0), 0.0, amount.value))
            && s'.summary.stock >= 0.0
            && Profit(s'.summary) == Profit(s.summary) + amount.value)
  {
  }

  // ---------------------------------------------------------------------
  // Delete.

  /** A successful delete removes only that record and reverses its contribution. */
  lemma DeleteRecordEffect(s: Store, id: nat)
    requires id in s.records
    ensures var (o, s') := DeleteRecord(s, id);
      && o == Ok
      && s'.nextId == s.nextId
      && s'.records.Keys == s.records.Keys - {id}
      && (forall k :: k in s'.records ==> s'.records[k] == s.records[k])
      && s'.summary == Minus(s.summary, Contribution(s.records[id]))
  {
  }

  /** Delete does not re-check the stock: dropping a large inbound record drives it negative. */
  lemma DeleteMayGoNegative(s: Store, id: nat)
    requires id in s.records && s.records[id].kind == In
    requires s.records[id].weight > s.summary.stock
    ensures DeleteRecord(s, id).0 == Ok && DeleteRecord(s, id).1.summary.stock < 0.0
  {
  }

  /** Deleting the record a successful stock in just made restores the store. */
  lemma DeleteUndoesStockIn(s: Store, weight: Option<real>, amount: Option<real>, now: int)
    requires Consistent(s)
    requires StockIn(s, weight, amount, now).0 == Ok
    ensures var s' := DeleteRecord(StockIn(s, weight, amount, now).1, s.nextId);
      s'.0 == Ok && s'.1 == s.(nextId := s.nextId + 1)
  {
  }

  /** Deleting the record a successful stock out just made restores the store. */
  lemma DeleteUndoesStockOut(s: Store, weight: Option<real>, amount: Option<real>, now: int)
    requires Consistent(s)
    requires StockOut(s, weight, amount, now).0 == Ok
    ensures var s' := DeleteRecord(StockOut(s, weight, amount, now).1, s.nextId);
      s'.0 == Ok && s'.1 == s.(nextId := s.nextId + 1)
  {
  }

  // ---------------------------------------------------------------------
  // Update.

  /**
   * A successful update changes only the weight and amount of that record
   * (direction, unit, timestamp and every other record stay) and moves the
   * summary by exactly the new contribution minus the old one.
   */
  lemma UpdateRecordEffect(s: Store, id: nat, weight: Option<real>, amount: Option<real>)
    requires id in s.records
    ensures var (o, s') := UpdateRecord(s, id, weight, amount);
      && (o == Ok <==> Given(weight) && Given(amount))
      && (o == Ok ==>
            && s'.nextId == s.nextId
            && s'.records.Keys == s.records.Keys
            && s'.records[id] == s.records[id].(weight := weight.value, amount := amount.value)
            && (forall k :: k in s.records && k != id ==> s'.records[k] == s.records[k])
            && s'.summary == Plus(Minus(s.summary, Contribution(s.records[id])),
                                  Contribution(s'.records[id])))
  {
  }

  /**
   * Update does not re-check the stock: raising an outbound record's weight
   * beyond what the stock can cover succeeds and drives the stock negative.
   */
  lemma UpdateMayGoNegative(s: Store, id: nat, weight: Option<real>, amount: Option<real>)
    requires id in s.records && s.records[id].kind == Out
    requires Given(weight) && Given(amount)
    requires JinToKg(weight.value) > s.summary.stock + JinToKg(s.records[id].weight)
    ensures UpdateRecord(s, id, weight, amount).0 == Ok
    ensures UpdateRecord(s, id, weight, amount).1.summary.stock < 0.0
  {
  }

  /** Updating a record to the weight and amount it already has changes nothing. */
  lemma {:induction false} UpdateToSameIsNoOp(s: Store, id: nat)
    requires id in s.records
    requires s.records[id].weight != 0.0 && s.records[id].amount != 0.0
    ensures var r := s.records[id];
      UpdateRecord(s, id, Some(r.weight), Some(r.amount)) == (Ok, s)
  {
    var r := s.records[id];
    assert s.records[id := r.(weight := r.weight, amount := r.amount)] == s.records;
  }

  /**
   * In any store the handlers can reach, updating a record to its current
   * weight and amount is accepted and changes nothing.
   */
  lemma UpdateToCurrentIsNoOp(s: Store, id: nat)
    requires Consistent(s) && id in s.records
    ensures var r := s.records[id];
      UpdateRecord(s, id, Some(r.weight), Some(r.amount)) == (Ok, s)
  {
    UpdateToSameIsNoOp(s, id);
  }

  /** Applying the same update twice leaves the same store as applying it once. */
  lemma {:induction false} UpdateIdempotent(s: Store, id: nat, weight: Option<real>, amount: Option<real>)
    ensures var (o1, s1) := UpdateRecord(s, id, weight, amount);
      UpdateRecord(s1, id, weight, amount) == (o1, s1)
  {
    var (o1, s1) := UpdateRecord(s, id, weight, amount);
    if o1 == Ok {
      var r1 := s1.records[id];
      assert r1.weight == weight.value && r1.amount == amount.value;
      UpdateToSameIsNoOp(s1, id);
    }
  }
}
