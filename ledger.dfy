/**
 * The stock ledger: movement records (table `StockRecord`) and the
 * kilogram-normalised contribution of each record to the summary row
 * (table `StockSummary`).
 */
module Ledger {

  /** Direction of a movement: the `type` column, 'in' or 'out'. */
  datatype Kind = In | Out

  /** Unit the weight is recorded in: the `unit` column, 'kg' or 'jin'. */
  datatype Unit = Kg | Jin

  /**
   * One row of `StockRecord` without its id (the id is the key of the
   * ledger map). `createdAt` is an absolute instant, assigned once.
   */
  datatype Record = Record(kind: Kind, weight: real, amount: real, unit: Unit, createdAt: int)

  /** The three figures of the summary row: stock in kg, cost, sales. */
  datatype Totals = Totals(stock: real, cost: real, sales: real)

  /** Record ids are SQLite integer primary keys, never negative. */
  type Ledger = map<nat, Record>

  const Zero := Totals(0.0, 0.0, 0.0)

  function Plus(a: Totals, b: Totals): Totals {
    Totals(a.stock + b.stock, a.cost + b.cost, a.sales + b.sales)
  }

  function Minus(a: Totals, b: Totals): Totals {
    Totals(a.stock - b.stock, a.cost - b.cost, a.sales - b.sales)
  }

  /** Kilograms in one jin: outbound weights are halved. */
  function JinToKg(weight: real): real {
    weight / 2.0
  }

  /** The unit a record of the given direction is stored in. */
  function NativeUnit(kind: Kind): Unit {
    match kind
    case In => Kg
    case Out => Jin
  }

  /**
   * What one surviving record adds to the summary: an inbound record adds
   * its weight to the stock and its amount to the cost; an outbound record
   * removes half its weight from the stock and adds its amount to the sales.
   */
  function Contribution(r: Record): Totals {
    match r.kind
    case In => Totals(r.weight, r.amount, 0.0)
    case Out => Totals(-JinToKg(r.weight), 0.0, r.amount)
  }

  /** The summary the ledger determines: the sum of all contributions. */
  ghost function Sum(m: Ledger): Totals
    decreases |m|
  {
    if m == map[] then Zero
    else
      var k :| k in m;
      assert |m - {k}| < |m| by { assert m.Keys - {k} < m.Keys; }
      Plus(Contribution(m[k]), Sum(m - {k}))
  }

  /** Any record may be split off the sum, not just the one Sum picks. */
  lemma {:induction false} SumRemove(m: Ledger, k: nat)
    requires k in m
    ensures Sum(m) == Plus(Contribution(m[k]), Sum(m - {k}))
    decreases |m|
  {
    var j: nat :| j in m && Sum(m) == Plus(Contribution(m[j]), Sum(m - {j}));
    if j != k {
      assert |m - {j}| < |m| by { assert m.Keys - {j} < m.Keys; }
      assert |m - {k}| < |m| by { assert m.Keys - {k} < m.Keys; }
      SumRemove(m - {j}, k);
      SumRemove(m - {k}, j);
      var rest := m - {j} - {k};
      assert rest == m - {k} - {j};
      assert (m - {j})[k] == m[k] && (m - {k})[j] == m[j];
      calc {
        Sum(m);
        Plus(Contribution(m[j]), Plus(Contribution(m[k]), Sum(rest)));
        Plus(Contribution(m[k]), Plus(Contribution(m[j]), Sum(rest)));
        Plus(Contribution(m[k]), Sum(m - {k}));
      }
    }
  }

  /** Adding a record under a fresh id adds its contribution. */
  lemma SumInsert(m: Ledger, k: nat, r: Record)
    requires k !in m
    ensures Sum(m[k := r]) == Plus(Sum(m), Contribution(r))
  {
    SumRemove(m[k := r], k);
    assert m[k := r] - {k} == m;
  }

  /** Removing a record subtracts its contribution. */
  lemma SumDelete(m: Ledger, k: nat)
    requires k in m
    ensures Sum(m - {k}) == Minus(Sum(m), Contribution(m[k]))
  {
    SumRemove(m, k);
  }

  /** Replacing a record swaps its contribution for the new one's. */
  lemma SumReplace(m: Ledger, k: nat, r: Record)
    requires k in m
    ensures Sum(m[k := r]) == Plus(Minus(Sum(m), Contribution(m[k])), Contribution(r))
  {
    SumRemove(m, k);
    SumRemove(m[k := r], k);
    assert m[k := r] - {k} == m - {k};
  }
}
