/** The ticker -> CIK dictionary built at main.py:88-90 from the company directory. */
module Tickers {

  /** One value of the company directory: `value['ticker']` and `value['cik_str']`. */
  datatype CompanyRecord = CompanyRecord(ticker: string, cik: nat)

  /** The dictionary after assigning every record in order: a later record with the same
      ticker overwrites an earlier one. */
  function TickerMap(records: seq<CompanyRecord>): map<string, nat>
  {
    if records == [] then map[]
    else
      var last := records[|records| - 1];
      TickerMap(records[..|records| - 1])[last.ticker := last.cik]
  }

  /** The order in which the dictionary yields its keys: a Python dict keeps a key at the
      position of its first insertion, even when its value is overwritten later. */
  function TickerOrder(records: seq<CompanyRecord>): seq<string>
  {
    if records == [] then []
    else
      var order := TickerOrder(records[..|records| - 1]);
      var t := records[|records| - 1].ticker;
      if t in order then order else order + [t]
  }

  /** The loop of main.py:88-90. */
  method BuildTickerMap(records: seq<CompanyRecord>) returns (m: map<string, nat>, order: seq<string>)
    ensures m == TickerMap(records)
    ensures order == TickerOrder(records)
  {
    m, order := map[], [];
    for i := 0 to |records|
      invariant m == TickerMap(records[..i])
      invariant order == TickerOrder(records[..i])
    {
      assert records[..i + 1][..i] == records[..i];
      var r := records[i];
      if r.ticker !in order {
        order := order + [r.ticker];
      }
      m := m[r.ticker := r.cik];
    }
    assert records[..|records|] == records;
  }

  /** Every ticker in the records is a key, and no other key exists. */
  lemma {:induction false} TickerMapKeys(records: seq<CompanyRecord>)
    ensures TickerMap(records).Keys == set r | r in records :: r.ticker
  {
    if records != [] {
      var init := records[..|records| - 1];
      TickerMapKeys(init);
      assert records == init + [records[|records| - 1]];
    }
  }

  /** Each ticker maps to the CIK of the last record that carries it; `k` is that record. */
  lemma {:induction false} TickerMapLastWins(records: seq<CompanyRecord>, t: string) returns (k: nat)
    requires t in TickerMap(records)
    ensures k < |records| && records[k].ticker == t && TickerMap(records)[t] == records[k].cik
    ensures forall j :: k < j < |records| ==> records[j].ticker != t
  {
    var n := |records|;
    var last := records[n - 1];
    if last.ticker == t {
      k := n - 1;
    } else {
      var init := records[..n - 1];
      k := TickerMapLastWins(init, t);
      assert records[k] == init[k];
      forall j | k < j < n ensures records[j].ticker != t {
        if j < n - 1 { assert records[j] == init[j]; }
      }
    }
  }

  /** The key order lists each ticker of the records exactly once. */
  lemma {:induction false} TickerOrderKeys(records: seq<CompanyRecord>)
    ensures forall i, j :: 0 <= i < j < |TickerOrder(records)| ==> TickerOrder(records)[i] != TickerOrder(records)[j]
    ensures forall t :: t in TickerOrder(records) <==> t in TickerMap(records)
  {
    if records != [] {
      TickerOrderKeys(records[..|records| - 1]);
    }
  }

  /** The key order is the order of first appearance: a ticker comes before another
      exactly when its first record comes before the other's first record. Record `a`
      carries the earlier ticker, and record `b` is the first to carry the later one. */
  lemma {:induction false} TickerOrderFirstAppearance(records: seq<CompanyRecord>, i: nat, j: nat)
    returns (a: nat, b: nat)
    requires i < j < |TickerOrder(records)|
    ensures a < b < |records|
    ensures records[a].ticker == TickerOrder(records)[i] && records[b].ticker == TickerOrder(records)[j]
    ensures forall c :: 0 <= c < b ==> records[c].ticker != TickerOrder(records)[j]
  {
    var n := |records|;
    var init := records[..n - 1];
    var order := TickerOrder(init);
    assert forall c :: 0 <= c < n - 1 ==> records[c] == init[c];
    if j < |order| {
      a, b := TickerOrderFirstAppearance(init, i, j);
    } else {
      var t := records[n - 1].ticker;
      TickerOrderKeys(init);
      TickerMapKeys(init);
      assert t !in order && TickerOrder(records)[j] == t;
      assert order[i] in TickerMap(init);
      a :| 0 <= a < |init| && init[a].ticker == order[i];
      b := n - 1;
      forall c | 0 <= c < n - 1 ensures records[c].ticker != t {
        assert init[c] in init;
      }
    }
  }
}
