/**
 * Per-strike folding of contract exposures (aggregate_by_strike and its
 * logging variant) and the all-strike total (aggregate_all_expirations).
 * The source accumulates into a `defaultdict` inside a `for` loop; here the
 * loops are methods proved equal to left folds over the contract list, and
 * the folds are characterised as a group-by on the strike.
 */
module Aggregation {
  import opened Models
  import opened BlackScholes
  import opened ExposureCalc
  import opened OrderedDict
  import opened Sorting

  /** One element of a strike's "contracts" list. */
  datatype ContractEntry = ContractEntry(contract: OptionContract, exposures: Exposures, greeks: Greeks)

  /** The per-strike record: summed exposures, call/put open interest, contributing contracts. */
  datatype StrikeAgg = StrikeAgg(totals: Exposures, callOi: int, putOi: int, contracts: seq<ContractEntry>)

  /** The `defaultdict` factory value. */
  const EmptyStrike := StrikeAgg(NoExposures, 0, 0, [])

  type StrikeTable = Dict<real, StrikeAgg>

  /**
   * The per-contract computation the aggregations fold: calculate_contract_exposures
   * with the spot price, rate and dividend yield fixed, as `PriceWith(p)`.
   */
  type Pricer = OptionContract -> (Exposures, Greeks)

  /** calculate_contract_exposures under the market inputs `p`. */
  function PriceWith(p: Pricing): Pricer {
    c => ContractExposures(c, p)
  }

  /** Fold one contract into a strike record: a lowercased "call" counts as call OI, anything else as put OI. */
  function AddContract(a: StrikeAgg, c: OptionContract, e: Exposures, g: Greeks): StrikeAgg {
    StrikeAgg(a.totals.Plus(e),
              if IsCall(c.optionType) then a.callOi + c.openInterest else a.callOi,
              if IsCall(c.optionType) then a.putOi else a.putOi + c.openInterest,
              a.contracts + [ContractEntry(c, e, g)])
  }

  /** The record at `k`, or the factory value when `k` has not been seen. */
  function Lookup(d: StrikeTable, k: real): StrikeAgg {
    if k in d.entries then d.entries[k] else EmptyStrike
  }

  /** One loop iteration of aggregate_by_strike. */
  function Step(d: StrikeTable, c: OptionContract, price: Pricer): (d': StrikeTable)
    requires d.Valid()
    ensures d'.Valid()
  {
    var r := price(c);
    d.Put(c.strike, AddContract(Lookup(d, c.strike), c, r.0, r.1))
  }

  /** The table after folding `cs` in order. */
  function ByStrike(cs: seq<OptionContract>, price: Pricer): (d: StrikeTable)
    ensures d.Valid()
  {
    if cs == [] then Empty()
    else Step(ByStrike(cs[..|cs| - 1], price), cs[|cs| - 1], price)
  }

  /** A strike is a key of the table exactly when some contract has that strike. */
  lemma {:induction false} ByStrikeKeys(cs: seq<OptionContract>, price: Pricer, k: real)
    ensures k in ByStrike(cs, price).entries <==> exists i :: 0 <= i < |cs| && cs[i].strike == k
  {
    if cs != [] {
      var prefix := cs[..|cs| - 1];
      ByStrikeKeys(prefix, price, k);
      assert forall i :: 0 <= i < |cs| - 1 ==> prefix[i] == cs[i];
    }
  }

  /** aggregate_by_strike. */
  method AggregateByStrike(cs: seq<OptionContract>, price: Pricer) returns (d: StrikeTable)
    ensures d == ByStrike(cs, price)
  {
    d := Empty();
    ghost var done: seq<OptionContract> := [];
    var i := 0;
    while i < |cs|
      invariant 0 <= i <= |cs|
      invariant done == cs[..i]
      invariant d == ByStrike(done, price)
    {
      var c := cs[i];
      var exposures, greeks := price(c).0, price(c).1;
      var current := if c.strike in d.entries then d.entries[c.strike] else EmptyStrike;
      ByStrikeSnoc(done, c, price);
      d := d.Put(c.strike, AddContract(current, c, exposures, greeks));
      done := done + [c];
      i := i + 1;
    }
    assert done == cs;
  }

  // ----- the group-by reading of the fold -----

  /** The contracts at strike `k`, in list order. */
  function At(cs: seq<OptionContract>, k: real): (r: seq<OptionContract>)
    ensures forall c :: c in r ==> c in cs && c.strike == k
  {
    if cs == [] then []
    else At(cs[..|cs| - 1], k) + (if cs[|cs| - 1].strike == k then [cs[|cs| - 1]] else [])
  }

  /** The sum of the contracts' exposures. */
  function SumExposures(cs: seq<OptionContract>, price: Pricer): Exposures {
    if cs == [] then NoExposures
    else SumExposures(cs[..|cs| - 1], price).Plus(price(cs[|cs| - 1]).0)
  }

  /** Open interest of the contracts whose lowercased type is "call". */
  function CallOi(cs: seq<OptionContract>): int {
    if cs == [] then 0
    else CallOi(cs[..|cs| - 1]) + (if IsCall(cs[|cs| - 1].optionType) then cs[|cs| - 1].openInterest else 0)
  }

  /** Open interest of all other contracts. */
  function PutOi(cs: seq<OptionContract>): int {
    if cs == [] then 0
    else PutOi(cs[..|cs| - 1]) + (if IsCall(cs[|cs| - 1].optionType) then 0 else cs[|cs| - 1].openInterest)
  }

  /** Total open interest. */
  function TotalOi(cs: seq<OptionContract>): int {
    if cs == [] then 0 else TotalOi(cs[..|cs| - 1]) + cs[|cs| - 1].openInterest
  }

  /** The contracts' list entries. */
  function Entries(cs: seq<OptionContract>, price: Pricer): (r: seq<ContractEntry>)
    ensures |r| == |cs|
    ensures forall i :: 0 <= i < |cs| ==> r[i].contract == cs[i]
  {
    if cs == [] then []
    else
      var c := cs[|cs| - 1];
      Entries(cs[..|cs| - 1], price) + [ContractEntry(c, price(c).0, price(c).1)]
  }

  /** Every contract's open interest lands in exactly one of the two counters. */
  lemma {:induction false} OiSplit(cs: seq<OptionContract>)
    ensures CallOi(cs) + PutOi(cs) == TotalOi(cs)
  {
    if cs != [] {
      OiSplit(cs[..|cs| - 1]);
    }
  }

  /** A strike no contract has collects nothing. */
  lemma {:induction false} AtAbsent(cs: seq<OptionContract>, k: real)
    requires forall i :: 0 <= i < |cs| ==> cs[i].strike != k
    ensures At(cs, k) == []
  {
    if cs != [] {
      AtAbsent(cs[..|cs| - 1], k);
    }
  }

  /** A single strike record built from `cs` alone, in list order. */
  function Summarize(cs: seq<OptionContract>, price: Pricer): StrikeAgg {
    if cs == [] then EmptyStrike
    else
      var c := cs[|cs| - 1];
      AddContract(Summarize(cs[..|cs| - 1], price), c, price(c).0, price(c).1)
  }

  /** The group-by property: the record at strike `k` is built from exactly the contracts at `k`. */
  lemma {:induction false} ByStrikeGroups(cs: seq<OptionContract>, price: Pricer, k: real)
    requires k in ByStrike(cs, price).entries
    ensures ByStrike(cs, price).entries[k] == Summarize(At(cs, k), price)
  {
    var n := |cs|;
    var prefix := cs[..n - 1];
    var c := cs[n - 1];
    var prev := ByStrike(prefix, price);
    var a, b := At(prefix, k), At(cs, k);
    if c.strike == k {
      assert b == a + [c];
      assert b[..|b| - 1] == a && b[|b| - 1] == c;
      if k in prev.entries {
        ByStrikeGroups(prefix, price, k);
      } else {
        ByStrikeKeys(prefix, price, k);
        assert forall i :: 0 <= i < n - 1 ==> prefix[i].strike != k;
        AtAbsent(prefix, k);
      }
    } else {
      assert b == a;
      ByStrikeGroups(prefix, price, k);
    }
  }

  /**
   * What a strike record holds: the sum of its contracts' exposures, the call
   * and put open interest, and one entry per contract in list order.
   */
  lemma {:induction false} SummarizeFields(cs: seq<OptionContract>, price: Pricer)
    ensures Summarize(cs, price) == StrikeAgg(SumExposures(cs, price), CallOi(cs), PutOi(cs), Entries(cs, price))
  {
    if cs != [] {
      SummarizeFields(cs[..|cs| - 1], price);
    }
  }

  /** The two lemmas together: aggregate_by_strike groups and sums by strike. */
  lemma StrikeRecord(cs: seq<OptionContract>, price: Pricer, k: real)
    requires exists i :: 0 <= i < |cs| && cs[i].strike == k
    ensures k in ByStrike(cs, price).entries
    ensures ByStrike(cs, price).entries[k] ==
      StrikeAgg(SumExposures(At(cs, k), price), CallOi(At(cs, k)), PutOi(At(cs, k)), Entries(At(cs, k), price))
  {
    ByStrikeKeys(cs, price, k);
    ByStrikeGroups(cs, price, k);
    SummarizeFields(At(cs, k), price);
  }

  /** A call and a put at one strike, as in the aggregation test: 1000 call OI and 800 put OI. */
  lemma CallPutExample(cs: seq<OptionContract>, price: Pricer)
    requires |cs| == 2 && cs[0].strike == 4700.0 && cs[1].strike == 4700.0
    requires cs[0].optionType == "call" && cs[0].openInterest == 1000
    requires cs[1].optionType == "put" && cs[1].openInterest == 800
    ensures 4700.0 in ByStrike(cs, price).entries
    ensures ByStrike(cs, price).entries[4700.0].callOi == 1000
    ensures ByStrike(cs, price).entries[4700.0].putOi == 800
  {
    var k := 4700.0;
    assert exists i :: 0 <= i < |cs| && cs[i].strike == k;
    StrikeRecord(cs, price, k);
    CallPutCounts(cs, k);
  }

  lemma CallPutCounts(cs: seq<OptionContract>, k: real)
    requires |cs| == 2 && cs[0].strike == k && cs[1].strike == k
    requires cs[0].optionType == "call" && cs[0].openInterest == 1000
    requires cs[1].optionType == "put" && cs[1].openInterest == 800
    ensures CallOi(At(cs, k)) == 1000 && PutOi(At(cs, k)) == 800
  {
    TypeNames();
    var first := cs[..1];
    assert first[..0] == [] && first[0] == cs[0];
    assert cs[..|cs| - 1] == first;
    assert At(first, k) == first;
    assert At(cs, k) == cs;
    assert IsCall(first[0].optionType);
    assert PutOi(first[..0]) == 0 && CallOi(first[..0]) == 0;
    assert CallOi(first) == 1000 && PutOi(first) == 0;
  }

  // ----- aggregate_by_strike_with_logging -----

  /** A contract whose four exposures are all below 1e-10 in magnitude is skipped. */
  predicate Negligible(e: Exposures) {
    Abs(e.gex) < 0.0000000001 && Abs(e.dex) < 0.0000000001 &&
    Abs(e.vex) < 0.0000000001 && Abs(e.cex) < 0.0000000001
  }

  /** The contracts that are not skipped, in list order. */
  function Kept(cs: seq<OptionContract>, price: Pricer): (r: seq<OptionContract>)
    ensures |r| <= |cs|
  {
    if cs == [] then []
    else
      var c := cs[|cs| - 1];
      Kept(cs[..|cs| - 1], price) + (if Negligible(price(c).0) then [] else [c])
  }

  /**
   * aggregate_by_strike_with_logging: the table of the kept contracts, with
   * the processed and skipped counts adding up to the input length.
   */
  method AggregateByStrikeWithLogging(cs: seq<OptionContract>, price: Pricer)
    returns (d: StrikeTable, processed: nat, skipped: nat)
    ensures d == ByStrike(Kept(cs, price), price)
    ensures processed == |Kept(cs, price)|
    ensures processed + skipped == |cs|
  {
    d := Empty();
    processed, skipped := 0, 0;
    ghost var kept: seq<OptionContract> := [];
    var i := 0;
    while i < |cs|
      invariant 0 <= i <= |cs|
      invariant kept == Kept(cs[..i], price)
      invariant d == ByStrike(kept, price)
      invariant processed == |kept|
      invariant processed + skipped == i
    {
      var c := cs[i];
      var exposures, greeks := price(c).0, price(c).1;
      KeptStep(cs, i, price);
      if Negligible(exposures) {
        skipped := skipped + 1;
      } else {
        processed := processed + 1;
        var current := if c.strike in d.entries then d.entries[c.strike] else EmptyStrike;
        d := d.Put(c.strike, AddContract(current, c, exposures, greeks));
        ByStrikeSnoc(kept, c, price);
        kept := kept + [c];
      }
      i := i + 1;
    }
    assert cs[..i] == cs;
  }

  /** Extending the input by one contract extends the kept list by it unless it is negligible. */
  lemma KeptStep(cs: seq<OptionContract>, i: int, price: Pricer)
    requires 0 <= i < |cs|
    ensures Negligible(price(cs[i]).0) ==> Kept(cs[..i + 1], price) == Kept(cs[..i], price)
    ensures !Negligible(price(cs[i]).0) ==> Kept(cs[..i + 1], price) == Kept(cs[..i], price) + [cs[i]]
  {
    assert cs[..i + 1][..i] == cs[..i];
    assert Kept(cs[..i], price) + [] == Kept(cs[..i], price);
  }

  /** Folding one more contract is one more loop step. */
  lemma ByStrikeSnoc(cs: seq<OptionContract>, c: OptionContract, price: Pricer)
    ensures ByStrike(cs + [c], price) == Step(ByStrike(cs, price), c, price)
  {
    assert (cs + [c])[..|cs|] == cs;
  }

  /** The kept contracts are exactly the ones with a non-negligible exposure. */
  lemma {:induction false} KeptMembers(cs: seq<OptionContract>, price: Pricer, c: OptionContract)
    ensures c in Kept(cs, price) <==> c in cs && !Negligible(price(c).0)
  {
    if cs != [] {
      KeptMembers(cs[..|cs| - 1], price, c);
      assert cs == cs[..|cs| - 1] + [cs[|cs| - 1]];
    }
  }

  /** A contract without open interest has no exposure, so the logging variant skips it. */
  lemma NoOpenInterestIsSkipped(c: OptionContract, p: Pricing)
    requires c.openInterest <= 0
    ensures Negligible(ContractExposures(c, p).0)
  {
  }

  /** When nothing is negligible the logging variant agrees with aggregate_by_strike. */
  lemma {:induction false} NothingSkipped(cs: seq<OptionContract>, price: Pricer)
    requires forall c :: c in cs ==> !Negligible(price(c).0)
    ensures Kept(cs, price) == cs
  {
    if cs != [] {
      var n := |cs|;
      var prefix, c := cs[..n - 1], cs[n - 1];
      forall x | x in prefix
        ensures !Negligible(price(x).0)
      {
        assert x in cs;
      }
      NothingSkipped(prefix, price);
      assert !Negligible(price(c).0) by {
        assert c in cs;
      }
      assert Kept(cs, price) == Kept(prefix, price) + [c];
      assert prefix + [c] == cs;
    }
  }

  // ----- aggregate_all_expirations -----

  /** Every key along `ks` has a record in `m`. */
  predicate Covers(m: map<real, StrikeAgg>, ks: seq<real>) {
    forall i :: 0 <= i < |ks| ==> ks[i] in m
  }

  /** The sum of the records' totals along `ks`. */
  function TotalAlong(m: map<real, StrikeAgg>, ks: seq<real>): Exposures
    requires Covers(m, ks)
  {
    if ks == [] then NoExposures
    else
      TotalAlong(m, ks[..|ks| - 1]).Plus(m[ks[|ks| - 1]].totals)
  }

  /** aggregate_all_expirations: the four sums over the table's values, in iteration order. */
  method AggregateAllExpirations(t: StrikeTable) returns (total: Exposures)
    requires t.Valid()
    ensures Covers(t.entries, t.keys)
    ensures total == TotalAlong(t.entries, t.keys)
  {
    total := NoExposures;
    var i := 0;
    while i < |t.keys|
      invariant 0 <= i <= |t.keys|
      invariant total == TotalAlong(t.entries, t.keys[..i])
    {
      var s := t.entries[t.keys[i]];
      total := Exposures(total.gex + s.totals.gex, total.dex + s.totals.dex,
                         total.vex + s.totals.vex, total.cex + s.totals.cex);
      assert t.keys[..i + 1][..i] == t.keys[..i];
      i := i + 1;
    }
    assert t.keys[..i] == t.keys;
  }

  /** Removing the key at position `i` takes its record's totals out of the sum. */
  lemma {:induction false} TotalRemove(m: map<real, StrikeAgg>, ks: seq<real>, i: int)
    requires Covers(m, ks)
    requires 0 <= i < |ks|
    ensures Covers(m, ks[..i] + ks[i + 1..])
    ensures TotalAlong(m, ks) == TotalAlong(m, ks[..i] + ks[i + 1..]).Plus(m[ks[i]].totals)
  {
    var rest := ks[..i] + ks[i + 1..];
    assert forall j :: 0 <= j < |rest| ==> rest[j] == if j < i then ks[j] else ks[j + 1];
    if i < |ks| - 1 {
      var n := |ks|;
      var prefix := ks[..n - 1];
      assert prefix[..i] + prefix[i + 1..] == rest[..|rest| - 1];
      assert rest[|rest| - 1] == ks[n - 1];
      TotalRemove(m, prefix, i);
      assert Covers(m, rest[..|rest| - 1]);
      PlusSwap(TotalAlong(m, rest[..|rest| - 1]), m[ks[i]].totals, m[ks[n - 1]].totals);
    } else {
      assert rest == ks[..|ks| - 1];
    }
  }

  /** Adding two records in either order gives the same sum. */
  lemma PlusSwap(a: Exposures, x: Exposures, y: Exposures)
    ensures a.Plus(x).Plus(y) == a.Plus(y).Plus(x)
  {
  }

  /** A permutation of covered keys is covered. */
  lemma CoversPermutation(m: map<real, StrikeAgg>, ks: seq<real>, ks': seq<real>)
    requires Covers(m, ks)
    requires multiset(ks) == multiset(ks')
    ensures Covers(m, ks')
  {
    forall j | 0 <= j < |ks'| ensures ks'[j] in m {
      assert ks'[j] in multiset(ks');
      var i :| 0 <= i < |ks| && ks[i] == ks'[j];
    }
  }

  /** The all-strike total does not depend on the order in which the strikes are visited. */
  lemma {:induction false} TotalIgnoresOrder(m: map<real, StrikeAgg>, ks: seq<real>, ks': seq<real>)
    requires Covers(m, ks)
    requires multiset(ks) == multiset(ks')
    ensures Covers(m, ks')
    ensures TotalAlong(m, ks) == TotalAlong(m, ks')
  {
    CoversPermutation(m, ks, ks');
    if ks' == [] {
      assert |ks| == |multiset(ks)| == 0;
    } else {
      var n := |ks'|;
      var x := ks'[n - 1];
      assert x in multiset(ks);
      var i :| 0 <= i < |ks| && ks[i] == x;
      var rest := ks[..i] + ks[i + 1..];
      RemoveMatching(ks, i, ks', n - 1);
      assert ks'[..n - 1] + ks'[n..] == ks'[..n - 1];
      TotalRemove(m, ks, i);
      TotalIgnoresOrder(m, rest, ks'[..n - 1]);
      calc {
        TotalAlong(m, ks);
        TotalAlong(m, rest).Plus(m[x].totals);
        TotalAlong(m, ks'[..n - 1]).Plus(m[x].totals);
        TotalAlong(m, ks');
      }
    }
  }

  /** Records of keys off the path do not contribute. */
  lemma {:induction false} TotalIgnoresOthers(m: map<real, StrikeAgg>, ks: seq<real>, k: real, v: StrikeAgg)
    requires Covers(m, ks)
    requires forall i :: 0 <= i < |ks| ==> ks[i] != k
    ensures Covers(m[k := v], ks)
    ensures TotalAlong(m[k := v], ks) == TotalAlong(m, ks)
  {
    if ks != [] {
      TotalIgnoresOthers(m, ks[..|ks| - 1], k, v);
    }
  }

  /** Replacing the record of a key that occurs once changes the total by the difference. */
  lemma {:induction false} TotalReplace(m: map<real, StrikeAgg>, ks: seq<real>, k: real, v: StrikeAgg)
    requires Covers(m, ks) && k in m
    requires forall i, j :: 0 <= i < j < |ks| ==> ks[i] != ks[j]
    requires exists i :: 0 <= i < |ks| && ks[i] == k
    ensures Covers(m[k := v], ks)
    ensures TotalAlong(m[k := v], ks).Plus(m[k].totals) == TotalAlong(m, ks).Plus(v.totals)
  {
    var n := |ks|;
    var prefix := ks[..n - 1];
    if ks[n - 1] == k {
      assert forall i :: 0 <= i < n - 1 ==> prefix[i] != k;
      TotalIgnoresOthers(m, prefix, k, v);
    } else {
      var i :| 0 <= i < n && ks[i] == k;
      assert prefix[i] == k;
      TotalReplace(m, prefix, k, v);
    }
  }

  /** Storing `v` at `k` changes the all-strike total by `v` minus the record it replaces. */
  lemma TotalAfterPut(d: StrikeTable, k: real, v: StrikeAgg)
    requires d.Valid()
    ensures Covers(d.entries, d.keys) && Covers(d.Put(k, v).entries, d.Put(k, v).keys)
    ensures TotalAlong(d.Put(k, v).entries, d.Put(k, v).keys).Plus(Lookup(d, k).totals) ==
            TotalAlong(d.entries, d.keys).Plus(v.totals)
  {
    var d' := d.Put(k, v);
    assert Covers(d.entries, d.keys);
    if k in d.entries {
      assert k in d.keys;
      var i :| 0 <= i < |d.keys| && d.keys[i] == k;
      TotalReplace(d.entries, d.keys, k, v);
    } else {
      assert forall i :: 0 <= i < |d.keys| ==> d.keys[i] != k;
      TotalIgnoresOthers(d.entries, d.keys, k, v);
      assert d'.keys[..|d'.keys| - 1] == d.keys;
    }
  }

  lemma PlusCancel(a: Exposures, b: Exposures, x: Exposures, e: Exposures)
    requires a.Plus(x) == b.Plus(x.Plus(e))
    ensures a == b.Plus(e)
  {
    assert a.gex + x.gex == b.gex + (x.gex + e.gex);
    assert a.dex + x.dex == b.dex + (x.dex + e.dex);
    assert a.vex + x.vex == b.vex + (x.vex + e.vex);
    assert a.cex + x.cex == b.cex + (x.cex + e.cex);
  }

  /** The all-strike total of aggregate_by_strike counts every contract's exposures exactly once. */
  lemma {:induction false} TotalOfByStrike(cs: seq<OptionContract>, price: Pricer)
    ensures Covers(ByStrike(cs, price).entries, ByStrike(cs, price).keys)
    ensures TotalAlong(ByStrike(cs, price).entries, ByStrike(cs, price).keys) == SumExposures(cs, price)
  {
    var d := ByStrike(cs, price);
    assert Covers(d.entries, d.keys);
    if cs != [] {
      var prefix, c := cs[..|cs| - 1], cs[|cs| - 1];
      var prev := ByStrike(prefix, price);
      var r := price(c);
      assert Covers(prev.entries, prev.keys);
      var before, after := TotalAlong(prev.entries, prev.keys), TotalAlong(d.entries, d.keys);
      assert before == SumExposures(prefix, price) by {
        TotalOfByStrike(prefix, price);
      }
      assert after == before.Plus(r.0) by {
        var previous := Lookup(prev, c.strike);
        var v := AddContract(previous, c, r.0, r.1);
        assert d == prev.Put(c.strike, v);
        TotalAfterPut(prev, c.strike, v);
        PlusCancel(after, before, previous.totals, r.0);
      }
    }
  }

  /** The totals of two strikes with the figures of the aggregation test. */
  lemma TotalExample(t: StrikeTable, a: StrikeAgg, b: StrikeAgg)
    requires t == Dict([4700.0, 4750.0], map[4700.0 := a, 4750.0 := b])
    requires a.totals == Exposures(-1000.0, 500.0, -200.0, 100.0)
    requires b.totals == Exposures(-800.0, 300.0, -150.0, 50.0)
    ensures TotalAlong(t.entries, t.keys) == Exposures(-1800.0, 800.0, -350.0, 150.0)
  {
    var m := t.entries;
    assert [4700.0][..0] == [];
    assert TotalAlong(m, [4700.0]) == NoExposures.Plus(a.totals);
    assert t.keys[..1] == [4700.0];
    assert TotalAlong(m, t.keys) == TotalAlong(m, [4700.0]).Plus(b.totals);
  }
}
