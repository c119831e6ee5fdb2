/** The consumption ledger: the session's table of (monthly consumption, tariff)
    rows, the guarded append of lines 249-255 and the two aggregations
    consumo_diario and costo_Energia. */
module Ledger {

  /** One row: consumption in kWh per month and tariff in COP per kWh. */
  datatype Record = Record(consumption: real, tariff: real)

  /** The guard of the "Agregar Consumo" button. */
  predicate Acceptable(consumption: real, tariff: real)
    ensures Acceptable(consumption, tariff) ==>
      Consumption(Record(consumption, tariff)) > 0.0 && Cost(Record(consumption, tariff)) > 0.0
  {
    consumption > 0.0 && tariff > 0.0
  }

  predicate AllAcceptable(rs: seq<Record>)
  {
    forall i | 0 <= i < |rs| :: Acceptable(rs[i].consumption, rs[i].tariff)
  }

  /** The sum of f over the rows (pandas Series.sum over a derived column). */
  function SumBy(rs: seq<Record>, f: Record -> real): real
  {
    if rs == [] then 0.0 else SumBy(rs[..|rs| - 1], f) + f(rs[|rs| - 1])
  }

  function Consumption(r: Record): real { r.consumption }

  function Cost(r: Record): real { r.consumption * r.tariff }

  /** consumo_diario: the mean monthly consumption divided by 30, and 0 for an empty table. */
  function AverageDaily(rs: seq<Record>): (avg: real)
    ensures rs == [] ==> avg == 0.0
    ensures rs != [] ==> avg * 30.0 * |rs| as real == SumBy(rs, Consumption)
  {
    if rs == [] then 0.0 else SumBy(rs, Consumption) / |rs| as real / 30.0
  }

  /** costo_Energia: the sum of consumption times tariff, and 0 for an empty table. */
  function TotalCost(rs: seq<Record>): (total: real)
    ensures rs == [] ==> total == 0.0
    ensures AllAcceptable(rs) ==> total >= 0.0
    ensures AllAcceptable(rs) && rs != [] ==> total > 0.0
  {
    SumPositive(rs, Cost);
    SumBy(rs, Cost)
  }

  lemma {:induction false} SumPositive(rs: seq<Record>, f: Record -> real)
    requires forall i | 0 <= i < |rs| :: Acceptable(rs[i].consumption, rs[i].tariff) ==> f(rs[i]) > 0.0
    ensures AllAcceptable(rs) ==> SumBy(rs, f) >= 0.0
    ensures AllAcceptable(rs) && rs != [] ==> SumBy(rs, f) > 0.0
  {
    if rs != [] {
      SumPositive(rs[..|rs| - 1], f);
    }
  }

  /** Appending a row adds exactly its contribution to a sum. */
  lemma {:induction false} SumByAppend(rs: seq<Record>, r: Record, f: Record -> real)
    ensures SumBy(rs + [r], f) == SumBy(rs, f) + f(r)
  {
    assert (rs + [r])[..|rs|] == rs;
  }

  lemma {:induction false} SumByConcat(a: seq<Record>, b: seq<Record>, f: Record -> real)
    ensures SumBy(a + b, f) == SumBy(a, f) + SumBy(b, f)
  {
    if b == [] {
      assert a + b == a;
    } else {
      var b' := b[..|b| - 1];
      assert a + b == (a + b') + [b[|b| - 1]];
      SumByAppend(a + b', b[|b| - 1], f);
      SumByConcat(a, b', f);
    }
  }

  /** The order of the rows does not matter to a sum: any rearrangement of the
      table gives the same total. */
  lemma {:induction false} SumByPermutation(a: seq<Record>, b: seq<Record>, f: Record -> real)
    requires multiset(a) == multiset(b)
    ensures SumBy(a, f) == SumBy(b, f)
    decreases |a|
  {
    if a != [] {
      var last := a[|a| - 1];
      var a' := a[..|a| - 1];
      assert a == a' + [last];
      assert multiset(a') == multiset(a) - multiset{last};
      assert last in multiset(b);
      var j :| 0 <= j < |b| && b[j] == last;
      MultisetRemove(b, j);
      SumByPermutation(a', b[..j] + b[j + 1..], f);
      SumByRemove(b, j, f);
      SumByAppend(a', last, f);
    } else {
      assert b == [];
    }
  }

  /** Taking row j out of a table takes its term out of the sum. */
  lemma {:induction false} SumByRemove(b: seq<Record>, j: nat, f: Record -> real)
    requires j < |b|
    ensures SumBy(b, f) == SumBy(b[..j] + b[j + 1..], f) + f(b[j])
  {
    var upTo, back := b[..j + 1], b[j + 1..];
    assert b == upTo + back;
    SumByConcat(upTo, back, f);
    assert upTo[..j] == b[..j];
    assert SumBy(upTo, f) == SumBy(b[..j], f) + f(b[j]);
    SumByConcat(b[..j], back, f);
  }

  lemma {:induction false} MultisetRemove(b: seq<Record>, j: nat)
    requires j < |b|
    ensures multiset(b[..j] + b[j + 1..]) == multiset(b) - multiset{b[j]}
  {
    assert b == b[..j] + [b[j]] + b[j + 1..];
    assert multiset(b) == multiset(b[..j]) + multiset{b[j]} + multiset(b[j + 1..]);
  }

  /** The aggregations ignore insertion order. */
  lemma {:induction false} AggregationsIgnoreOrder(a: seq<Record>, b: seq<Record>)
    requires multiset(a) == multiset(b)
    ensures AverageDaily(a) == AverageDaily(b)
    ensures TotalCost(a) == TotalCost(b)
  {
    SumByPermutation(a, b, Consumption);
    SumByPermutation(a, b, Cost);
    assert |a| == |multiset(a)| == |multiset(b)| == |b|;
  }

  lemma {:induction false} SumByBounds(rs: seq<Record>, lo: real, hi: real)
    requires forall i | 0 <= i < |rs| :: lo <= rs[i].consumption <= hi
    ensures lo * |rs| as real <= SumBy(rs, Consumption) <= hi * |rs| as real
  {
    if rs != [] {
      SumByBounds(rs[..|rs| - 1], lo, hi);
    }
  }

  /** The average daily consumption lies between the smallest and the largest
      monthly consumption, each divided by 30. */
  lemma {:induction false} AverageDailyBounds(rs: seq<Record>, lo: real, hi: real)
    requires rs != []
    requires forall i | 0 <= i < |rs| :: lo <= rs[i].consumption <= hi
    ensures lo / 30.0 <= AverageDaily(rs) <= hi / 30.0
  {
    SumByBounds(rs, lo, hi);
    var n := |rs| as real;
    var s := SumBy(rs, Consumption);
    assert AverageDaily(rs) == s / n / 30.0;
    assert lo <= s / n <= hi by {
      assert lo * n <= s <= hi * n;
    }
  }

  /** The average daily consumption is positive as soon as the table has a row. */
  lemma {:induction false} AverageDailyPositive(rs: seq<Record>)
    requires AllAcceptable(rs) && rs != []
    ensures AverageDaily(rs) > 0.0
  {
    SumPositive(rs, Consumption);
    var s := SumBy(rs, Consumption);
    var n := |rs| as real;
    assert AverageDaily(rs) == s / n / 30.0;
  }

  /** The session's table. Rows are only ever appended, and only through the guard. */
  class ConsumptionLedger {
    var records: seq<Record>

    ghost predicate Valid()
      reads this
    {
      AllAcceptable(records)
    }

    /** inicializar: an empty table. */
    constructor ()
      ensures Valid() && records == []
    {
      records := [];
    }

    /** Lines 249-255: the row is appended only when both values are positive;
        otherwise the table is left as it was. */
    method Append(consumption: real, tariff: real) returns (added: bool)
      requires Valid()
      modifies this
      ensures Valid()
      ensures added <==> consumption > 0.0 && tariff > 0.0
      ensures records == if added then old(records) + [Record(consumption, tariff)] else old(records)
    {
      added := consumption > 0.0 && tariff > 0.0;
      if added {
        records := records + [Record(consumption, tariff)];
      }
    }

    function AverageDailyConsumption(): (avg: real)
      reads this
      requires Valid()
      ensures avg >= 0.0
      ensures records != [] ==> avg > 0.0
    {
      SumPositive(records, Consumption);
      if records != [] then AverageDailyPositive(records); AverageDaily(records)
      else AverageDaily(records)
    }

    function TotalEnergyCost(): (total: real)
      reads this
      requires Valid()
      ensures total >= 0.0
      ensures records != [] ==> total > 0.0
    {
      TotalCost(records)
    }
  }

  /** An accepted append raises both aggregates by exactly the new row's share. */
  lemma {:induction false} AppendContribution(rs: seq<Record>, r: Record)
    ensures TotalCost(rs + [r]) == TotalCost(rs) + r.consumption * r.tariff
    ensures SumBy(rs + [r], Consumption) == SumBy(rs, Consumption) + r.consumption
  {
    SumByAppend(rs, r, Cost);
    SumByAppend(rs, r, Consumption);
  }

  /** The session scenario: a rejected entry, then the same entry twice. */
  method LedgerScenario()
  {
    var ledger := new ConsumptionLedger();
    assert ledger.AverageDailyConsumption() == 0.0 && ledger.TotalEnergyCost() == 0.0;
    var ok := ledger.Append(0.0, 5.0);
    assert !ok && ledger.records == [];
    ok := ledger.Append(300.0, 800.0);
    ok := ledger.Append(300.0, 800.0);
    assert ledger.records == [Record(300.0, 800.0), Record(300.0, 800.0)];
    AppendContribution([Record(300.0, 800.0)], Record(300.0, 800.0));
    AppendContribution([], Record(300.0, 800.0));
    assert [] + [Record(300.0, 800.0)] == [Record(300.0, 800.0)];
    assert ledger.AverageDailyConsumption() == 10.0;
    assert ledger.TotalEnergyCost() == 480000.0;
  }
}
