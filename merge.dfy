/**
 * The ALL-expirations merge of get_exposures: per-strike records of several
 * expirations folded into one table, a new strike copied in, an existing one
 * added to.
 */
module Merge {
  import opened Wrappers
  import opened Models
  import opened OrderedDict
  import opened Aggregation
  import opened Sorting

  /** The six numeric fields are added; the first copy keeps its own contract list. */
  function Combine(acc: StrikeAgg, data: StrikeAgg): StrikeAgg {
    StrikeAgg(acc.totals.Plus(data.totals), acc.callOi + data.callOi, acc.putOi + data.putOi, acc.contracts)
  }

  /** The record of `k`, if the table has one. */
  function Get(t: StrikeTable, k: real): Option<StrikeAgg> {
    if k in t.entries then Some(t.entries[k]) else None
  }

  /** Merging what is known of one strike so far with one more expiration's record. */
  function Join(acc: Option<StrikeAgg>, data: Option<StrikeAgg>): Option<StrikeAgg> {
    match data
    case None => acc
    case Some(d) => if acc.Some? then Some(Combine(acc.value, d)) else Some(d)
  }

  /** One inner iteration: a copy at a new strike, a sum at a known one. */
  function MergeEntry(acc: StrikeTable, k: real, data: StrikeAgg): (r: StrikeTable)
    requires acc.Valid()
    ensures r.Valid()
  {
    if k in acc.entries then acc.Put(k, Combine(acc.entries[k], data)) else acc.Put(k, data)
  }

  /** The inner loop over the strikes `ks`, in order, reading their records from `m`. */
  function MergeKeys(acc: StrikeTable, m: map<real, StrikeAgg>, ks: seq<real>): (r: StrikeTable)
    requires acc.Valid() && Covers(m, ks)
    ensures r.Valid()
  {
    if ks == [] then acc
    else
      var k := ks[|ks| - 1];
      MergeEntry(MergeKeys(acc, m, ks[..|ks| - 1]), k, m[k])
  }

  /** The whole inner loop for one expiration's table. */
  function MergeTable(acc: StrikeTable, t: StrikeTable): (r: StrikeTable)
    requires acc.Valid() && t.Valid()
    ensures r.Valid()
  {
    assert Covers(t.entries, t.keys);
    MergeKeys(acc, t.entries, t.keys)
  }

  ghost predicate AllValid(ts: seq<StrikeTable>) {
    forall i :: 0 <= i < |ts| ==> ts[i].Valid()
  }

  /** `all_strike_data` after merging the tables in order. */
  function MergeAll(ts: seq<StrikeTable>): (r: StrikeTable)
    requires AllValid(ts)
    ensures r.Valid()
  {
    if ts == [] then Empty()
    else
      var t := ts[|ts| - 1];
      MergeTable(MergeAll(ts[..|ts| - 1]), t)
  }

  /** The inner loop merges each strike of `ks` once into what `acc` held. */
  lemma {:induction false} MergeKeysGet(acc: StrikeTable, m: map<real, StrikeAgg>, ks: seq<real>, k: real)
    requires acc.Valid() && Covers(m, ks) && Distinct(ks)
    ensures Get(MergeKeys(acc, m, ks), k) == Join(Get(acc, k), if k in ks then Some(m[k]) else None)
  {
    if ks != [] {
      var prefix := ks[..|ks| - 1];
      var last := ks[|ks| - 1];
      assert Covers(m, prefix);
      assert Distinct(prefix);
      MergeKeysGet(acc, m, prefix, k);
      assert ks == prefix + [last];
      MergeEntryGet(MergeKeys(acc, m, prefix), last, m[last], k);
      if k == last {
        assert k !in prefix;
      }
    }
  }

  /** One inner iteration changes only the record of its own strike. */
  lemma MergeEntryGet(acc: StrikeTable, k0: real, data: StrikeAgg, k: real)
    requires acc.Valid()
    ensures Get(MergeEntry(acc, k0, data), k) == if k == k0 then Join(Get(acc, k), Some(data)) else Get(acc, k)
  {
  }

  /** What all the tables hold for `k`, joined in order. */
  function Gather(ts: seq<StrikeTable>, k: real): Option<StrikeAgg> {
    if ts == [] then None else Join(Gather(ts[..|ts| - 1], k), Get(ts[|ts| - 1], k))
  }

  lemma {:induction false} MergeAllGet(ts: seq<StrikeTable>, k: real)
    requires AllValid(ts)
    ensures Get(MergeAll(ts), k) == Gather(ts, k)
  {
    if ts != [] {
      var t := ts[|ts| - 1];
      MergeAllGet(ts[..|ts| - 1], k);
      assert Distinct(t.keys) && Covers(t.entries, t.keys);
      MergeKeysGet(MergeAll(ts[..|ts| - 1]), t.entries, t.keys, k);
    }
  }

  /** Sum of the totals of `k` over the tables that hold it. */
  function SumTotals(ts: seq<StrikeTable>, k: real): Exposures {
    if ts == [] then NoExposures
    else
      var t := ts[|ts| - 1];
      var prev := SumTotals(ts[..|ts| - 1], k);
      if k in t.entries then prev.Plus(t.entries[k].totals) else prev
  }

  function SumCallOi(ts: seq<StrikeTable>, k: real): int {
    if ts == [] then 0
    else
      var t := ts[|ts| - 1];
      SumCallOi(ts[..|ts| - 1], k) + if k in t.entries then t.entries[k].callOi else 0
  }

  function SumPutOi(ts: seq<StrikeTable>, k: real): int {
    if ts == [] then 0
    else
      var t := ts[|ts| - 1];
      SumPutOi(ts[..|ts| - 1], k) + if k in t.entries then t.entries[k].putOi else 0
  }

  /** Some table holds `k`. */
  predicate Seen(ts: seq<StrikeTable>, k: real) {
    exists i :: 0 <= i < |ts| && k in ts[i].entries
  }

  /** The index of the first table that holds `k`. */
  function FirstHolding(ts: seq<StrikeTable>, k: real): (i: int)
    requires Seen(ts, k)
    ensures 0 <= i < |ts| && k in ts[i].entries
    ensures forall j :: 0 <= j < i ==> k !in ts[j].entries
  {
    if k in ts[0].entries then 0
    else
      assert Seen(ts[1..], k) by {
        var i :| 0 <= i < |ts| && k in ts[i].entries;
        assert ts[1..][i - 1] == ts[i];
      }
      var i := FirstHolding(ts[1..], k);
      assert forall j :: 1 <= j <= i ==> ts[j] == ts[1..][j - 1];
      i + 1
  }

  /**
   * A strike is present after the merge iff some expiration had it; its record
   * holds the sums over the expirations that had it, with the contract list of
   * the first one.
   */
  lemma {:induction false} GatherSums(ts: seq<StrikeTable>, k: real)
    ensures Gather(ts, k).Some? <==> Seen(ts, k)
    ensures Seen(ts, k) ==>
      Gather(ts, k) == Some(StrikeAgg(SumTotals(ts, k), SumCallOi(ts, k), SumPutOi(ts, k),
                                      ts[FirstHolding(ts, k)].entries[k].contracts))
  {
    if ts != [] {
      var prefix := ts[..|ts| - 1];
      var t := ts[|ts| - 1];
      GatherSums(prefix, k);
      assert Seen(prefix, k) ==> Seen(ts, k) by {
        if Seen(prefix, k) {
          var i :| 0 <= i < |prefix| && k in prefix[i].entries;
          assert ts[i] == prefix[i];
        }
      }
      assert Seen(ts, k) ==> Seen(prefix, k) || k in t.entries by {
        if Seen(ts, k) {
          var i :| 0 <= i < |ts| && k in ts[i].entries;
          if i < |prefix| {
            assert prefix[i] == ts[i];
          }
        }
      }
      if Seen(prefix, k) {
        var f := FirstHolding(prefix, k);
        assert prefix[f] == ts[f];
        assert FirstHolding(ts, k) == f by {
          FirstIsUnique(ts, k, f);
        }
      } else if k in t.entries {
        UnseenSumsZero(prefix, k);
        assert FirstHolding(ts, k) == |ts| - 1 by {
          assert forall j :: 0 <= j < |ts| - 1 ==> ts[j] == prefix[j];
          FirstIsUnique(ts, k, |ts| - 1);
        }
      }
    }
  }

  /** A strike no table holds sums to zero. */
  lemma {:induction false} UnseenSumsZero(ts: seq<StrikeTable>, k: real)
    requires !Seen(ts, k)
    ensures SumTotals(ts, k) == NoExposures && SumCallOi(ts, k) == 0 && SumPutOi(ts, k) == 0
  {
    if ts != [] {
      var prefix := ts[..|ts| - 1];
      assert forall i :: 0 <= i < |prefix| ==> prefix[i] == ts[i];
      UnseenSumsZero(prefix, k);
      assert k !in ts[|ts| - 1].entries;
    }
  }

  /** The first holder is the only index with no earlier holder. */
  lemma FirstIsUnique(ts: seq<StrikeTable>, k: real, f: int)
    requires 0 <= f < |ts| && k in ts[f].entries
    requires forall j :: 0 <= j < f ==> k !in ts[j].entries
    ensures Seen(ts, k) && FirstHolding(ts, k) == f
  {
  }

  /** The merged strike set is the union of the expirations' strike sets. */
  lemma MergedKeys(ts: seq<StrikeTable>, k: real)
    requires AllValid(ts)
    ensures k in MergeAll(ts).entries <==> Seen(ts, k)
  {
    MergeAllGet(ts, k);
    GatherSums(ts, k);
  }

  /** Each merged record sums its strike over the expirations that had it. */
  lemma MergedRecord(ts: seq<StrikeTable>, k: real)
    requires AllValid(ts) && Seen(ts, k)
    ensures k in MergeAll(ts).entries
    ensures MergeAll(ts).entries[k] ==
      StrikeAgg(SumTotals(ts, k), SumCallOi(ts, k), SumPutOi(ts, k), ts[FirstHolding(ts, k)].entries[k].contracts)
  {
    MergeAllGet(ts, k);
    GatherSums(ts, k);
  }

  /** An expiration with no strikes (its chain failed or was empty) changes nothing. */
  lemma EmptyTableIsSkipped(ts: seq<StrikeTable>, t: StrikeTable)
    requires AllValid(ts) && t.Valid() && t.keys == []
    ensures AllValid(ts + [t])
    ensures MergeAll(ts + [t]) == MergeAll(ts)
  {
    MergeAllSnoc(ts, t);
  }

  /** Merging one more table folds it into the merge of the ones before. */
  lemma MergeAllSnoc(ts: seq<StrikeTable>, t: StrikeTable)
    requires AllValid(ts) && t.Valid()
    ensures AllValid(ts + [t])
    ensures MergeAll(ts + [t]) == MergeTable(MergeAll(ts), t)
  {
    assert (ts + [t])[..|ts|] == ts;
  }

  /** The inner merge loop over one expiration's strikes, in their order. */
  method MergeInto(acc: StrikeTable, t: StrikeTable) returns (r: StrikeTable)
    requires acc.Valid() && t.Valid()
    ensures r == MergeTable(acc, t)
  {
    r := acc;
    ghost var done: seq<real> := [];
    for i := 0 to |t.keys|
      invariant done == t.keys[..i] && Covers(t.entries, done)
      invariant r == MergeKeys(acc, t.entries, done)
    {
      var strike := t.keys[i];
      var data := t.entries[strike];
      assert (done + [strike])[..i] == done;
      if strike !in r.entries {
        r := r.Put(strike, data);
      } else {
        r := r.Put(strike, Combine(r.entries[strike], data));
      }
      done := done + [strike];
    }
    assert done == t.keys;
  }
}
