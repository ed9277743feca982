/**
 * The stock service as the handlers run it: the records table, the id
 * counter and the single summary row are fields updated in place; each
 * handler is one atomic step whose effect is the matching step of module
 * Movements.
 */
module Service {
  import opened Options
  import opened Ledger
  import opened Movements
  import opened Listing

  /** The answer of GET /api/stock/summary. */
  datatype SummaryView = SummaryView(currentStock: real, totalSales: real, totalCost: real, profit: real)

  class StockService {
    var records: Ledger
    var nextId: nat
    var currentStock: real
    var totalSales: real
    var totalCost: real

    /** The persistent state as a value. */
    function Snapshot(): Store
      reads this
    {
      Store(records, nextId, Totals(currentStock, totalCost, totalSales))
    }

    ghost predicate Valid()
      reads this
    {
      Consistent(Snapshot())
    }

    /** First boot: no records and the summary row created with zeros. */
    constructor ()
      ensures Valid()
      ensures Snapshot() == Initial()
    {
      records := map[];
      nextId := 1;
      currentStock, totalSales, totalCost := 0.0, 0.0, 0.0;
    }

    method StockIn(weight: Option<real>, amount: Option<real>, now: int) returns (res: Outcome)
      requires Valid()
      modifies this
      ensures Valid()
      ensures (res, Snapshot()) == Movements.StockIn(old(Snapshot()), weight, amount, now)
    {
      if !Given(weight) || !Given(amount) {
        return MissingParams;
      }
      StockInPreserves(Snapshot(), weight, amount, now);
      records := records[nextId := Record(In, weight.value, amount.value, Kg, now)];
      nextId := nextId + 1;
      currentStock := currentStock + weight.value;
      totalCost := totalCost + amount.value;
      res := Ok;
    }

    method StockOut(weight: Option<real>, amount: Option<real>, now: int) returns (res: Outcome)
      requires Valid()
      modifies this
      ensures Valid()
      ensures (res, Snapshot()) == Movements.StockOut(old(Snapshot()), weight, amount, now)
    {
      if !Given(weight) || !Given(amount) {
        return MissingParams;
      }
      var weightKg := JinToKg(weight.value);
      if currentStock < weightKg {
        return InsufficientStock;
      }
      StockOutPreserves(Snapshot(), weight, amount, now);
      records := records[nextId := Record(Out, weight.value, amount.value, Jin, now)];
      nextId := nextId + 1;
      currentStock := currentStock - weightKg;
      totalSales := totalSales + amount.value;
      res := Ok;
    }

    method DeleteRecord(id: nat) returns (res: Outcome)
      requires Valid()
      modifies this
      ensures Valid()
      ensures (res, Snapshot()) == Movements.DeleteRecord(old(Snapshot()), id)
    {
      if id !in records {
        return NotFound;
      }
      DeleteRecordPreserves(Snapshot(), id);
      var r := records[id];
      if r.kind == In {
        currentStock := currentStock - r.weight;
        totalCost := totalCost - r.amount;
      } else {
        currentStock := currentStock + JinToKg(r.weight);
        totalSales := totalSales - r.amount;
      }
      records := records - {id};
      res := Ok;
    }

    method UpdateRecord(id: nat, weight: Option<real>, amount: Option<real>) returns (res: Outcome)
      requires Valid()
      modifies this
      ensures Valid()
      ensures (res, Snapshot()) == Movements.UpdateRecord(old(Snapshot()), id, weight, amount)
    {
      if id !in records {
        return NotFound;
      }
      if !Given(weight) || !Given(amount) {
        return MissingParams;
      }
      UpdateRecordPreserves(Snapshot(), id, weight, amount);
      var r := records[id];
      if r.kind == In {
        currentStock := currentStock - r.weight;
        totalCost := totalCost - r.amount;
        currentStock := currentStock + weight.value;
        totalCost := totalCost + amount.value;
      } else {
        currentStock := currentStock + JinToKg(r.weight);
        totalSales := totalSales - r.amount;
        currentStock := currentStock - JinToKg(weight.value);
        totalSales := totalSales + amount.value;
      }
      records := records[id := r.(weight := weight.value, amount := amount.value)];
      res := Ok;
    }

    /**
     * GET /api/stock/summary: the three stored figures and the profit,
     * which equals the outbound amounts minus the inbound amounts of the
     * surviving records.
     */
    method GetSummary() returns (v: SummaryView)
      requires Valid()
      ensures v.currentStock == currentStock && v.totalSales == totalSales && v.totalCost == totalCost
      ensures v.profit == v.totalSales - v.totalCost
      ensures v.profit == Sum(records).sales - Sum(records).cost
    {
      v := SummaryView(currentStock, totalSales, totalCost, totalSales - totalCost);
    }

    /**
     * GET /api/stock/records: every record whose creation instant is within
     * the given bounds, each once, presented with its labels, newest first.
     * The table is read in id order.
     */
    method GetRecords(start: Option<int>, end: Option<int>) returns (r: seq<Listed>)
      requires Valid()
      ensures forall i, j :: 0 <= i < j < |r| ==> r[i].createdAt >= r[j].createdAt
      ensures forall i :: 0 <= i < |r| ==>
        && r[i].id in records
        && r[i] == Present(Row(r[i].id, records[r[i].id]))
        && InRange(r[i].createdAt, start, end)
      ensures forall id :: id in records && InRange(records[id].createdAt, start, end) ==>
        Present(Row(id, records[id])) in r
      ensures DistinctListedIds(r)
    {
      var rows: seq<Row> := [];
      for id := 0 to nextId
        invariant forall k :: 0 <= k < |rows| ==>
          rows[k].id < id && rows[k].id in records && rows[k].rec == records[rows[k].id]
        invariant forall k :: k in records && k < id ==> Row(k, records[k]) in rows
        invariant forall p, q :: 0 <= p < q < |rows| ==> rows[p].id < rows[q].id
      {
        if id in records {
          rows := rows + [Row(id, records[id])];
        }
      }
      r := ListRecords(rows, start, end);
      ListLedger(records, rows, start, end);
    }
  }

  /** What a client can conclude from the contracts alone: inbound, then the summary. */
  method InboundScenario() {
    var svc := new StockService();
    var res := svc.StockIn(Some(5.0), Some(20.0), 100);
    assert res == Ok;
    var view := svc.GetSummary();
    assert view.currentStock == 5.0 && view.totalCost == 20.0 && view.totalSales == 0.0;
    assert view.profit == -20.0;
  }

  /** Insufficient stock, outbound, update and delete, from the contracts alone. */
  method MovementScenario() {
    var svc := new StockService();
    var res := svc.StockIn(Some(5.0), Some(20.0), 100);
    assert svc.Snapshot().summary == Totals(5.0, 20.0, 0.0);

    res := svc.StockOut(Some(12.0), Some(50.0), 200);
    assert res == InsufficientStock && svc.currentStock == 5.0;

    res := svc.StockOut(Some(4.0), Some(10.0), 300);
    assert res == Ok && svc.currentStock == 3.0 && svc.totalSales == 10.0;
    res := svc.UpdateRecord(2, Some(2.0), Some(5.0));
    assert res == Ok && svc.currentStock == 4.0 && svc.totalSales == 5.0;

    res := svc.UpdateRecord(9, None, None);
    assert res == NotFound;
    res := svc.UpdateRecord(1, Some(0.0), Some(5.0));
    assert res == MissingParams;

    res := svc.DeleteRecord(1);
    assert res == Ok && svc.currentStock == -1.0 && svc.totalCost == 0.0;
    res := svc.DeleteRecord(1);
    assert res == NotFound;
  }
}
