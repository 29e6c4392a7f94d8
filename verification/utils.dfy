/** The client's chart-data helpers (realtime-visualizer/src/utils.js):
    first-letter capitalisation, the running per-label emotion totals behind
    the pie and radar charts, and the append-only line series.

    The JavaScript object `emotionMap` is modelled as an association list of
    entries whose order is the object's key order: assigning to a key that is
    present overwrites its value in place, assigning to a new key appends it.
    That is the order `Object.keys` reports for keys that are not integer-like,
    which the emotion labels never are. */
module Utils {
  import opened Wrappers
  import opened Seqs

  /** One `{label, value}` item of the pie chart series; `name` is the `label` field. */
  datatype Entry = Entry(name: string, value: int)

  /** The labels of a series, position by position. */
  function Labels(es: seq<Entry>): (ls: seq<string>)
    ensures |ls| == |es|
    ensures forall i :: 0 <= i < |es| ==> ls[i] == es[i].name
  {
    seq(|es|, i requires 0 <= i < |es| => es[i].name)
  }

  /* ---------------------------------------------------------------- */
  /* capitalizeText                                                    */
  /* ---------------------------------------------------------------- */

  /** Upper-case mapping of one character, for the ASCII letters. */
  function ToUpper(c: char): (u: char)
    ensures 'a' <= c <= 'z' ==> 'A' <= u <= 'Z' && u as int + 32 == c as int
    ensures !('a' <= c <= 'z') ==> u == c
  {
    if 'a' <= c <= 'z' then (c as int - 32) as char else c
  }

  /** `capitalizeText`: the first character upper-cased, the rest untouched;
      `charAt(0)` of the empty string is empty, so "" maps to "". */
  function CapitalizeText(s: string): (r: string)
    ensures |r| == |s|
    ensures s == [] ==> r == []
    ensures s != [] ==> r[0] == ToUpper(s[0])
    ensures forall i :: 1 <= i < |s| ==> r[i] == s[i]
  {
    if s == [] then [] else [ToUpper(s[0])] + s[1..]
  }

  /** Capitalising twice is capitalising once. */
  lemma CapitalizeIdempotent(s: string)
    ensures CapitalizeText(CapitalizeText(s)) == CapitalizeText(s)
  {
    if s != [] {
      var r := CapitalizeText(s);
      assert ToUpper(r[0]) == r[0];
      assert r[1..] == s[1..];
    }
  }

  /* ---------------------------------------------------------------- */
  /* The emotion map: a JavaScript object from label to number         */
  /* ---------------------------------------------------------------- */

  /** `emotionMap[l]`: the value under `l`, or None for `undefined`. */
  function Find(m: seq<Entry>, l: string): (r: Option<int>)
    ensures r.Some? <==> l in Labels(m)
  {
    if l in Labels(m) then Some(m[FirstIndex(Labels(m), l)].value) else None
  }

  /** `emotionMap[l] = v`: an existing key keeps its place and takes the new
      value; a new key is appended after all existing ones. */
  function Put(m: seq<Entry>, l: string, v: int): seq<Entry>
  {
    if l in Labels(m) then m[FirstIndex(Labels(m), l) := Entry(l, v)] else m + [Entry(l, v)]
  }

  /** Put is assignment to an object property: the key order gains `l` at the
      end if it was missing, reading `l` gives `v`, and every other key reads
      as before. */
  lemma PutSpec(m: seq<Entry>, l: string, v: int)
    ensures Labels(Put(m, l, v)) == if l in Labels(m) then Labels(m) else Labels(m) + [l]
    ensures forall k :: Find(Put(m, l, v), k) == if k == l then Some(v) else Find(m, k)
  {
    var r := Put(m, l, v);
    if l in Labels(m) {
      assert Labels(r) == Labels(m);
    } else {
      assert Labels(r) == Labels(m) + [l];
      forall k | k in Labels(m) ensures FirstIndex(Labels(r), k) == FirstIndex(Labels(m), k) {
        assert Labels(r)[..|m|] == Labels(m);
      }
    }
  }

  /** One step of the batch loop: an existing label is incremented by the
      entry's value, a new label is created with it. */
  function Increment(m: seq<Entry>, e: Entry): seq<Entry>
  {
    if Find(m, e.name).Some? then Put(m, e.name, Find(m, e.name).value + e.value)
    else Put(m, e.name, e.value)
  }

  /** Increment adds the entry's value to the label's total, counting a
      missing label as 0, and leaves every other label alone. */
  lemma IncrementSpec(m: seq<Entry>, e: Entry)
    ensures Labels(Increment(m, e)) == if e.name in Labels(m) then Labels(m) else Labels(m) + [e.name]
    ensures forall k :: Find(Increment(m, e), k) ==
              if k == e.name then Some(Find(m, k).GetOr(0) + e.value) else Find(m, k)
  {
    PutSpec(m, e.name, Find(m, e.name).GetOr(0) + e.value);
  }

  /** The initial loop over the previous series: `emotionMap[item.label] = item.value`
      for every item in order. */
  function LoadAll(p: seq<Entry>): seq<Entry>
    decreases |p|
  {
    if p == [] then []
    else
      var n := |p| - 1;
      Put(LoadAll(p[..n]), p[n].name, p[n].value)
  }

  /** The loop over the new batch, applying Increment to every entry in order. */
  function AddAll(m: seq<Entry>, b: seq<Entry>): seq<Entry>
    decreases |b|
  {
    if b == [] then m
    else
      var n := |b| - 1;
      Increment(AddAll(m, b[..n]), b[n])
  }

  /** `updatePieChartData(prevData, newEmotions)`. A null or undefined
      argument is None; each loop runs only when its list is non-empty,
      and those guards change nothing: the result is the two loops run over
      the lists, null read as empty. PieLabels and PieTotals state what the
      result holds. */
  function UpdatePieChartData(prevData: Option<seq<Entry>>, newEmotions: Option<seq<Entry>>): (r: seq<Entry>)
    ensures r == AddAll(LoadAll(prevData.GetOr([])), newEmotions.GetOr([]))
  {
    var m0 := if prevData.Some? && |prevData.value| > 0 then LoadAll(prevData.value) else [];
    if newEmotions.Some? && |newEmotions.value| > 0 then AddAll(m0, newEmotions.value) else m0
  }

  /* ---------------------------------------------------------------- */
  /* Reference definitions of what the chart should show               */
  /* ---------------------------------------------------------------- */

  /** The value of the last entry labelled `l`. */
  function LastValue(p: seq<Entry>, l: string): Option<int>
    decreases |p|
  {
    if p == [] then None
    else if p[|p| - 1].name == l then Some(p[|p| - 1].value)
    else LastValue(p[..|p| - 1], l)
  }

  /** The sum of the values of all entries labelled `l`. */
  function BatchSum(b: seq<Entry>, l: string): int
    decreases |b|
  {
    if b == [] then 0
    else BatchSum(b[..|b| - 1], l) + (if b[|b| - 1].name == l then b[|b| - 1].value else 0)
  }

  /** The total the chart should show for `l` after merging `batch` into
      `prev`: its last previous value (0 if none) plus everything the batch
      adds, or no entry at all when neither list mentions `l`. */
  function ExpectedTotal(prev: seq<Entry>, batch: seq<Entry>, l: string): Option<int>
  {
    if l in Labels(prev) || l in Labels(batch)
    then Some(LastValue(prev, l).GetOr(0) + BatchSum(batch, l))
    else None
  }

  /* ---------------------------------------------------------------- */
  /* Lemmas                                                            */
  /* ---------------------------------------------------------------- */

  lemma LabelsConcat(a: seq<Entry>, b: seq<Entry>)
    ensures Labels(a + b) == Labels(a) + Labels(b)
  {
  }

  lemma LabelsSnoc(b: seq<Entry>)
    requires b != []
    ensures Labels(b) == Labels(b[..|b| - 1]) + [b[|b| - 1].name]
  {
  }

  lemma LabelsPrefix(p: seq<Entry>, n: nat)
    requires n <= |p|
    ensures Labels(p[..n]) == Labels(p)[..n]
  {
  }

  lemma AppendAssoc<T>(a: seq<T>, b: seq<T>, c: seq<T>)
    ensures a + (b + c) == (a + b) + c
  {
  }

  lemma {:induction false} BatchSumConcat(a: seq<Entry>, b: seq<Entry>, l: string)
    ensures BatchSum(a + b, l) == BatchSum(a, l) + BatchSum(b, l)
    decreases |b|
  {
    if b == [] {
      assert a + b == a;
    } else {
      var n := |b| - 1;
      SnocAppend(a, b);
      BatchSumConcat(a, b[..n], l);

    }
  }

  /** Loading the previous series keeps each label once, at its first
      position, with its last value. */
  lemma {:induction false} LoadAllSpec(p: seq<Entry>)
    ensures Labels(LoadAll(p)) == Dedup(Labels(p))
    ensures forall l :: Find(LoadAll(p), l) == LastValue(p, l)
    decreases |p|
  {
    if p != [] {
      var n := |p| - 1;
      LoadAllSpec(p[..n]);
      LabelsSnoc(p);
      PutSpec(LoadAll(p[..n]), p[n].name, p[n].value);
    }
  }

  /** Folding a batch into a map that lists the labels of `xs` once each. */
  lemma {:induction false} AddAllLabels(m: seq<Entry>, xs: seq<string>, b: seq<Entry>)
    requires Labels(m) == Dedup(xs)
    ensures Labels(AddAll(m, b)) == Dedup(xs + Labels(b))
    decreases |b|
  {
    if b == [] {
      assert xs + Labels(b) == xs;
    } else {
      var n := |b| - 1;
      var l := b[n].name;
      AddAllLabels(m, xs, b[..n]);
      IncrementSpec(AddAll(m, b[..n]), b[n]);
      var before := AddAll(m, b[..n]);
      var ys := xs + Labels(b);
      var ys' := xs + Labels(b[..n]);
      LabelsSnoc(b);
      AppendAssoc(xs, Labels(b[..n]), [l]);
      DedupSnoc(ys', l);
    }
  }

  /** What folding `b` into `m` should give for label `l`. */
  function MergedValue(m: seq<Entry>, b: seq<Entry>, l: string): Option<int>
  {
    if Find(m, l).Some? || l in Labels(b)
    then Some(Find(m, l).GetOr(0) + BatchSum(b, l))
    else None
  }

  /** A label the batch never mentions gets nothing from it. */
  lemma {:induction false} BatchSumAbsent(b: seq<Entry>, l: string)
    requires l !in Labels(b)
    ensures BatchSum(b, l) == 0
    decreases |b|
  {
    if b != [] {
      LabelsSnoc(b);
      BatchSumAbsent(b[..|b| - 1], l);
    }
  }

  /** MergedValue of a batch extended by one entry, from that of the batch. */
  lemma MergedValueSnoc(m: seq<Entry>, b: seq<Entry>, l: string)
    requires b != []
    ensures var n := |b| - 1;
            var e := b[n];
            MergedValue(m, b, l) ==
              if l == e.name then Some(MergedValue(m, b[..n], l).GetOr(0) + e.value)
              else MergedValue(m, b[..n], l)
  {
    var n := |b| - 1;
    LabelsSnoc(b);
    assert l in Labels(b) <==> l in Labels(b[..n]) || l == b[n].name;
    if l !in Labels(b[..n]) {
      BatchSumAbsent(b[..n], l);
    }
  }

  /** Folding a batch adds, for every label, the sum of the batch's values. */
  lemma {:induction false} AddAllTotals(m: seq<Entry>, b: seq<Entry>)
    ensures forall l :: Find(AddAll(m, b), l) == MergedValue(m, b, l)
    decreases |b|
  {
    if b != [] {
      var n := |b| - 1;
      var e := b[n];
      var before := AddAll(m, b[..n]);
      AddAllTotals(m, b[..n]);
      IncrementSpec(before, e);
      assert AddAll(m, b) == Increment(before, e);
      forall l ensures Find(AddAll(m, b), l) == MergedValue(m, b, l) {
        MergedValueSnoc(m, b, l);
        assert Find(before, l) == MergedValue(m, b[..n], l);
      }
    }
  }

  /** The merged series lists every label once, exactly the labels of the
      previous series and of the batch: the previous labels first in their
      own order, then the labels new in the batch in first-occurrence order. */
  lemma PieLabels(prevData: Option<seq<Entry>>, newEmotions: Option<seq<Entry>>)
    ensures Labels(UpdatePieChartData(prevData, newEmotions))
         == Dedup(Labels(prevData.GetOr([])) + Labels(newEmotions.GetOr([])))
    ensures Distinct(Labels(UpdatePieChartData(prevData, newEmotions)))
    ensures forall l :: l in Labels(UpdatePieChartData(prevData, newEmotions)) <==>
              l in Labels(prevData.GetOr([])) || l in Labels(newEmotions.GetOr([]))
  {
    var p := prevData.GetOr([]);
    var b := newEmotions.GetOr([]);
    LoadAllSpec(p);
    AddAllLabels(LoadAll(p), Labels(p), b);
    DedupDistinct(Labels(p) + Labels(b));
    DedupMembers(Labels(p) + Labels(b));
  }

  /** Every label's value is its previous value (the last one, if the
      previous series repeats it) plus the sum of the batch's values for it. */
  lemma PieTotals(prevData: Option<seq<Entry>>, newEmotions: Option<seq<Entry>>)
    ensures forall l :: Find(UpdatePieChartData(prevData, newEmotions), l)
                     == ExpectedTotal(prevData.GetOr([]), newEmotions.GetOr([]), l)
  {
    var p := prevData.GetOr([]);
    var b := newEmotions.GetOr([]);
    var m := LoadAll(p);
    LoadAllSpec(p);
    AddAllTotals(m, b);
    forall l ensures MergedValue(m, b, l) == ExpectedTotal(p, b, l) {
      FoldTotal(m, p, b, l);
    }
  }

  /** Merging into a map that reads `l` as the previous series' last value
      gives the expected total. */
  lemma FoldTotal(m: seq<Entry>, p: seq<Entry>, b: seq<Entry>, l: string)
    requires Find(m, l) == LastValue(p, l)
    ensures MergedValue(m, b, l) == ExpectedTotal(p, b, l)
  {
    LastValueSome(p, l);
  }

  /** The previous series has a last value for `l` exactly when it mentions `l`. */
  lemma {:induction false} LastValueSome(p: seq<Entry>, l: string)
    ensures LastValue(p, l).Some? <==> l in Labels(p)
    decreases |p|
  {
    if p != [] {
      LabelsSnoc(p);
      LastValueSome(p[..|p| - 1], l);
    }
  }

  /** Reloading a series whose labels are already distinct gives it back. */
  lemma {:induction false} LoadAllDistinct(r: seq<Entry>)
    requires Distinct(Labels(r))
    ensures LoadAll(r) == r
    decreases |r|
  {
    if r != [] {
      var n := |r| - 1;
      LabelsSnoc(r);
      assert Distinct(Labels(r[..n]));
      LoadAllDistinct(r[..n]);
      PutSpec(r[..n], r[n].name, r[n].value);
      assert r[n].name !in Labels(r[..n]) by {
        forall i | 0 <= i < n ensures Labels(r[..n])[i] != r[n].name {
          assert Labels(r)[i] != Labels(r)[n];
        }
      }
      assert r == r[..n] + [r[n]];
    }
  }

  lemma {:induction false} AddAllConcat(m: seq<Entry>, a: seq<Entry>, b: seq<Entry>)
    ensures AddAll(AddAll(m, a), b) == AddAll(m, a + b)
    decreases |b|
  {
    if b == [] {
      assert a + b == a;
    } else {
      var n := |b| - 1;
      AddAllConcat(m, a, b[..n]);
      SnocAppend(a, b);
      assert AddAll(m, a + b) == Increment(AddAll(m, a + b[..n]), b[n]);
    }
  }

  /** With a null or empty batch the result is the previous series with
      repeated labels folded together (last value wins), and a series
      without repeats comes back unchanged. */
  lemma PieEmptyBatch(prevData: Option<seq<Entry>>)
    ensures UpdatePieChartData(prevData, None) == UpdatePieChartData(prevData, Some([]))
    ensures Labels(UpdatePieChartData(prevData, None)) == Dedup(Labels(prevData.GetOr([])))
    ensures forall l :: Find(UpdatePieChartData(prevData, None), l) == LastValue(prevData.GetOr([]), l)
    ensures Distinct(Labels(prevData.GetOr([]))) ==> UpdatePieChartData(prevData, None) == prevData.GetOr([])
  {
    LoadAllSpec(prevData.GetOr([]));
    if Distinct(Labels(prevData.GetOr([]))) {
      LoadAllDistinct(prevData.GetOr([]));
    }
  }

  /** Merging batch A and then batch B into the chart gives exactly the
      series that merging A ++ B in one call gives. */
  lemma PieBatchesCompose(prevData: Option<seq<Entry>>, a: Option<seq<Entry>>, b: Option<seq<Entry>>)
    ensures UpdatePieChartData(Some(UpdatePieChartData(prevData, a)), b)
         == UpdatePieChartData(prevData, Some(a.GetOr([]) + b.GetOr([])))
  {
    var r := UpdatePieChartData(prevData, a);
    PieLabels(prevData, a);
    LoadAllDistinct(r);
    AddAllConcat(LoadAll(prevData.GetOr([])), a.GetOr([]), b.GetOr([]));
  }

  /** Batch order does not matter for the totals: merging A then B gives
      every label the same value as merging B then A. */
  lemma PieTotalsCommute(prevData: Option<seq<Entry>>, a: Option<seq<Entry>>, b: Option<seq<Entry>>)
    ensures forall l ::
              Find(UpdatePieChartData(Some(UpdatePieChartData(prevData, a)), b), l) ==
              Find(UpdatePieChartData(Some(UpdatePieChartData(prevData, b)), a), l)
  {
    var xa := a.GetOr([]);
    var xb := b.GetOr([]);
    PieBatchesCompose(prevData, a, b);
    PieBatchesCompose(prevData, b, a);
    PieTotals(prevData, Some(xa + xb));
    PieTotals(prevData, Some(xb + xa));
    forall l ensures ExpectedTotal(prevData.GetOr([]), xa + xb, l) == ExpectedTotal(prevData.GetOr([]), xb + xa, l) {
      ExpectedTotalSwap(prevData.GetOr([]), xa, xb, l);
    }
  }

  /** The expected total does not depend on the order of two batches. */
  lemma ExpectedTotalSwap(p: seq<Entry>, a: seq<Entry>, b: seq<Entry>, l: string)
    ensures ExpectedTotal(p, a + b, l) == ExpectedTotal(p, b + a, l)
  {
    LabelsConcat(a, b);
    LabelsConcat(b, a);
    BatchSumConcat(a, b, l);
    BatchSumConcat(b, a, l);
  }

  /* ---------------------------------------------------------------- */
  /* updateRadarChartData                                              */
  /* ---------------------------------------------------------------- */

  /** The series `Object.keys(obj).map(label => ({label, value: obj[label]}))`
      for an object with values `values` and key order `keys`. */
  function View(keys: seq<string>, values: map<string, int>): (r: seq<Entry>)
    requires forall i :: 0 <= i < |keys| ==> keys[i] in values
    ensures Labels(r) == keys
  {
    seq(|keys|, i requires 0 <= i < |keys| => Entry(keys[i], values[keys[i]]))
  }

  /** `updateRadarChartData`, written as the loops over a JavaScript object
      (a key-to-value map plus its key order) rather than as a fold: the
      source's copy of the pie function, and it computes the same series. */
  method UpdateRadarChartData(prevData: Option<seq<Entry>>, newEmotions: Option<seq<Entry>>)
    returns (aggregated: seq<Entry>)
    ensures aggregated == UpdatePieChartData(prevData, newEmotions)
  {
    var keys: seq<string> := [];
    var values: map<string, int> := map[];
    if prevData.Some? && |prevData.value| > 0 {
      keys, values := AssignAll(prevData.value);
    }
    if newEmotions.Some? && |newEmotions.value| > 0 {
      keys, values := IncrementAll(keys, values, newEmotions.value);
    }
    aggregated := View(keys, values);
  }

  /** The object after `emotionMap[item.label] = item.value` for every item
      of `p`, starting from `{}`. */
  method AssignAll(p: seq<Entry>) returns (keys: seq<string>, values: map<string, int>)
    ensures Distinct(keys)
    ensures forall k :: k in values <==> k in keys
    ensures View(keys, values) == LoadAll(p)
  {
    keys, values := [], map[];
    var i := 0;
    while i < |p|
      invariant 0 <= i <= |p|
      invariant Distinct(keys)
      invariant forall k :: k in values <==> k in keys
      invariant View(keys, values) == LoadAll(p[..i])
    {
      var item := p[i];
      if item.name !in values {
        ViewAssignNew(keys, values, item.name, item.value);
        keys := keys + [item.name];
      } else {
        ViewAssignPresent(keys, values, item.name, item.value);
      }
      values := values[item.name := item.value];
      assert p[..i + 1][..i] == p[..i];
      i := i + 1;
    }
    assert p[..i] == p;
  }

  /** The object after the increment-or-create step for every entry of `b`. */
  method IncrementAll(keys0: seq<string>, values0: map<string, int>, b: seq<Entry>)
    returns (keys: seq<string>, values: map<string, int>)
    requires Distinct(keys0)
    requires forall k :: k in values0 <==> k in keys0
    ensures Distinct(keys)
    ensures forall k :: k in values <==> k in keys
    ensures View(keys, values) == AddAll(View(keys0, values0), b)
  {
    keys, values := keys0, values0;
    var j := 0;
    while j < |b|
      invariant 0 <= j <= |b|
      invariant Distinct(keys)
      invariant forall k :: k in values <==> k in keys
      invariant View(keys, values) == AddAll(View(keys0, values0), b[..j])
    {
      var emotion := b[j];
      ViewIncrement(keys, values, emotion);
      if emotion.name in values {
        values := values[emotion.name := values[emotion.name] + emotion.value];
      } else {
        keys := keys + [emotion.name];
        values := values[emotion.name := emotion.value];
      }
      assert b[..j + 1][..j] == b[..j];
      j := j + 1;
    }
    assert b[..j] == b;
  }

  /** The increment-or-create step on the object is Increment on its view. */
  lemma ViewIncrement(keys: seq<string>, values: map<string, int>, e: Entry)
    requires Distinct(keys)
    requires forall k :: k in values <==> k in keys
    ensures e.name in values ==>
              View(keys, values[e.name := values[e.name] + e.value]) == Increment(View(keys, values), e)
    ensures e.name !in values ==>
              && Distinct(keys + [e.name])
              && View(keys + [e.name], values[e.name := e.value]) == Increment(View(keys, values), e)
  {
    ViewFind(keys, values, e.name);
    if e.name in values {
      ViewAssignPresent(keys, values, e.name, values[e.name] + e.value);
    } else {
      ViewAssignNew(keys, values, e.name, e.value);
    }
  }

  /** Reading `obj[l]` through the view is Find on the view. */
  lemma ViewFind(keys: seq<string>, values: map<string, int>, l: string)
    requires Distinct(keys)
    requires forall k :: k in values <==> k in keys
    ensures Find(View(keys, values), l) == if l in values then Some(values[l]) else None
  {
  }

  /** `obj[l] = v` for a key already present: Put on the view. */
  lemma ViewAssignPresent(keys: seq<string>, values: map<string, int>, l: string, v: int)
    requires Distinct(keys)
    requires forall k :: k in values <==> k in keys
    requires l in values
    ensures View(keys, values[l := v]) == Put(View(keys, values), l, v)
  {
    var now := View(keys, values[l := v]);
    var r := Put(View(keys, values), l, v);
    var i := FirstIndex(keys, l);
    forall k | 0 <= k < |now| ensures now[k] == r[k] {
      if k != i {
        assert keys[k] != l;
      }
    }
  }

  /** `obj[l] = v` for a new key: the key joins the order at the end, and
      the view changes as Put says. */
  lemma ViewAssignNew(keys: seq<string>, values: map<string, int>, l: string, v: int)
    requires Distinct(keys)
    requires forall k :: k in values <==> k in keys
    requires l !in values
    ensures Distinct(keys + [l])
    ensures View(keys + [l], values[l := v]) == Put(View(keys, values), l, v)
  {
    var before := View(keys, values);
    var now := View(keys + [l], values[l := v]);
    var r := Put(before, l, v);
    forall k | 0 <= k < |now| ensures now[k] == r[k] {
      if k < |before| {
        assert keys[k] != l;
      }
    }
  }

  /* ---------------------------------------------------------------- */
  /* updateLineChartData                                               */
  /* ---------------------------------------------------------------- */

  /** `updateLineChartData`: the previous points followed by the new ones,
      a null or undefined argument counting as an empty list. */
  function UpdateLineChartData<T>(prevData: Option<seq<T>>, newData: Option<seq<T>>): (r: seq<T>)
    ensures |r| == |prevData.GetOr([])| + |newData.GetOr([])|
    ensures r[..|prevData.GetOr([])|] == prevData.GetOr([])
    ensures r[|prevData.GetOr([])|..] == newData.GetOr([])
  {
    prevData.GetOr([]) + newData.GetOr([])
  }

  /** Appending two batches one after the other is appending their
      concatenation once. */
  lemma LineBatchesCompose<T>(prevData: Option<seq<T>>, a: Option<seq<T>>, b: Option<seq<T>>)
    ensures UpdateLineChartData(Some(UpdateLineChartData(prevData, a)), b)
         == UpdateLineChartData(prevData, Some(a.GetOr([]) + b.GetOr([])))
  {
    var p := prevData.GetOr([]);
    var xa := a.GetOr([]);
    var xb := b.GetOr([]);
    assert (p + xa) + xb == p + (xa + xb);
  }
}
