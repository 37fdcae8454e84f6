/**
 * The response analyzer: folds response records into one entry per answer
 * key, holding the key's current kind (`type`), every value seen for it
 * (`values`) and a frequency table of stringified answers (`counts`).
 */
module FieldAnalyzer {
  import opened ResponseValues

  /** The `type` of an analysis entry. */
  datatype Kind = Unknown | Categorical | Numerical | Multiple

  /** Only strings, booleans, numbers and arrays set a field's kind. */
  predicate SetsKind(v: Value)
  {
    v.Str? || v.Bool? || v.Num? || v.Arr?
  }

  /** The kind after one more value: a value of another shape keeps the previous kind. */
  function Classify(previous: Kind, v: Value): Kind
  {
    match v
    case Str(_) => Categorical
    case Bool(_) => Categorical
    case Num(_) => Numerical
    case Arr(_) => Multiple
    case _ => previous
  }

  /** A `counts` object: its keys in insertion order and the count under each. */
  datatype Counter = Counter(keys: seq<string>, tally: map<string, nat>)
  {
    ghost predicate Valid()
    {
      && (forall i, j :: 0 <= i < j < |keys| ==> keys[i] != keys[j])
      && (forall s :: s in tally <==> s in keys)
      && (forall s :: s in tally ==> tally[s] > 0)
    }

    /** `counts[s] || 0` */
    function Get(s: string): nat
    {
      if s in tally then tally[s] else 0
    }

    /** `counts[s] = (counts[s] || 0) + 1`: a new key goes to the end of the key order. */
    function Bump(s: string): (c: Counter)
      ensures forall t :: c.Get(t) == Get(t) + (if t == s then 1 else 0)
      ensures Valid() ==> c.Valid()
      ensures keys <= c.keys
    {
      if s in tally then Counter(keys, tally[s := tally[s] + 1])
      else Counter(keys + [s], tally[s := 1])
    }
  }

  const NoCounts := Counter([], map[])

  /** How many of `items` stringify to `s`. */
  function TextCount(items: seq<Value>, s: string, fmt: NumberText): nat
  {
    if items == [] then 0
    else
      TextCount(items[..|items| - 1], s, fmt)
        + (if Stringify(items[|items| - 1], fmt) == s then 1 else 0)
  }

  /** `value.forEach(item => counts[String(item)]++)` */
  function CountElements(c: Counter, items: seq<Value>, fmt: NumberText): (r: Counter)
    ensures forall s :: r.Get(s) == c.Get(s) + TextCount(items, s, fmt)
    ensures c.Valid() ==> r.Valid()
    ensures c.keys <= r.keys
  {
    if items == [] then c
    else CountElements(c, items[..|items| - 1], fmt).Bump(Stringify(items[|items| - 1], fmt))
  }

  /** One entry of the analysis table. */
  datatype FieldStats = FieldStats(kind: Kind, values: seq<Value>, counts: Counter)

  const NewField := FieldStats(Unknown, [], NoCounts)

  /** The update one value makes to its field's entry. */
  function Observe(f: FieldStats, v: Value, fmt: NumberText): FieldStats
  {
    FieldStats(
      Classify(f.kind, v),
      f.values + [v],
      match v
      case Str(_) => f.counts.Bump(Stringify(v, fmt))
      case Bool(_) => f.counts.Bump(Stringify(v, fmt))
      case Arr(items) => CountElements(f.counts, items, fmt)
      case _ => f.counts)
  }

  /** An entry after a run of values, one after the other. */
  function ObserveAll(f: FieldStats, vs: seq<Value>, fmt: NumberText): FieldStats
  {
    if vs == [] then f
    else Observe(ObserveAll(f, vs[..|vs| - 1], fmt), vs[|vs| - 1], fmt)
  }

  /**
   * Independent reference for `counts`: what one value adds under key `s`.
   * Strings and booleans add one when their text is `s`, arrays add their
   * elements whose text is `s`, numbers and other values add nothing.
   */
  function Contribution(v: Value, s: string, fmt: NumberText): nat
  {
    match v
    case Str(_) => if Stringify(v, fmt) == s then 1 else 0
    case Bool(_) => if Stringify(v, fmt) == s then 1 else 0
    case Arr(items) => TextCount(items, s, fmt)
    case _ => 0
  }

  function Occurrences(vs: seq<Value>, s: string, fmt: NumberText): nat
  {
    if vs == [] then 0
    else Occurrences(vs[..|vs| - 1], s, fmt) + Contribution(vs[|vs| - 1], s, fmt)
  }

  /** `String(item)` for each element of an array answer, in order. */
  function ItemTexts(items: seq<Value>, fmt: NumberText): (r: seq<string>)
    ensures |r| == |items|
    ensures forall i :: 0 <= i < |items| ==> r[i] == Stringify(items[i], fmt)
  {
    if items == [] then []
    else ItemTexts(items[..|items| - 1], fmt) + [Stringify(items[|items| - 1], fmt)]
  }

  /** The texts one answer is counted under, in counting order. */
  function TextsOf(v: Value, fmt: NumberText): seq<string>
  {
    match v
    case Str(_) => [Stringify(v, fmt)]
    case Bool(_) => [Stringify(v, fmt)]
    case Arr(items) => ItemTexts(items, fmt)
    case _ => []
  }

  /** Independent reference for the order of `counts`: every counted text of a run of answers, repeats included. */
  function AllTexts(vs: seq<Value>, fmt: NumberText): seq<string>
  {
    if vs == [] then []
    else AllTexts(vs[..|vs| - 1], fmt) + TextsOf(vs[|vs| - 1], fmt)
  }

  /** The analysis table: its keys in discovery order and the entry under each. */
  datatype Analysis = Analysis(order: seq<string>, fields: map<string, FieldStats>)

  const NoAnalysis := Analysis([], map[])

  ghost predicate Consistent(a: Analysis)
  {
    && (forall i, j :: 0 <= i < j < |a.order| ==> a.order[i] != a.order[j])
    && (forall k :: k in a.fields <==> k in a.order)
    && (forall k :: k in a.fields ==> a.fields[k].counts.Valid())
  }

  function FieldOf(a: Analysis, key: string): FieldStats
  {
    if key in a.fields then a.fields[key] else NewField
  }

  /** One answer: create the entry if it is missing, then observe the value. */
  function AddEntry(a: Analysis, key: string, v: Value, fmt: NumberText): Analysis
  {
    Analysis(
      if key in a.fields then a.order else a.order + [key],
      a.fields[key := Observe(FieldOf(a, key), v, fmt)])
  }

  /** All answers of one record, in key order. */
  function AddRecord(a: Analysis, data: Data, fmt: NumberText): Analysis
  {
    if data == [] then a
    else
      var (key, v) := data[|data| - 1];
      AddEntry(AddRecord(a, data[..|data| - 1], fmt), key, v, fmt)
  }

  /** The table `analyzeResults` builds from a list of records. */
  function Analyze(records: seq<Record>, fmt: NumberText): Analysis
  {
    if records == [] then NoAnalysis
    else AddRecord(Analyze(records[..|records| - 1], fmt), records[|records| - 1].data, fmt)
  }

  /** Independent reference for `values`: the key's value in each record that has it, in record order. */
  function ValuesOf(records: seq<Record>, key: string): seq<Value>
  {
    if records == [] then []
    else
      ValuesOf(records[..|records| - 1], key)
        + match Get(records[|records| - 1].data, key)
          case Some(v) => [v]
          case None => []
  }

  /** `analyzeResults(results)`: one pass over the records, one over each record's keys. */
  method AnalyzeResults(results: seq<Record>, fmt: NumberText) returns (analysis: Analysis)
    ensures analysis == Analyze(results, fmt)
  {
    if |results| == 0 {
      return NoAnalysis;
    }
    analysis := NoAnalysis;
    for i := 0 to |results|
      invariant analysis == Analyze(results[..i], fmt)
    {
      assert results[..i + 1][..i] == results[..i];
      analysis := AnalyzeRecord(analysis, results[i].data, fmt);
    }
    assert results[..|results|] == results;
  }

  /** The body of the outer `forEach`: every key of one record's data. */
  method AnalyzeRecord(a: Analysis, data: Data, fmt: NumberText) returns (r: Analysis)
    ensures r == AddRecord(a, data, fmt)
  {
    var order, fields := a.order, a.fields;
    for j := 0 to |data|
      invariant Analysis(order, fields) == AddRecord(a, data[..j], fmt)
    {
      var (key, value) := data[j];
      assert data[..j + 1][..j] == data[..j];
      ghost var before := Analysis(order, fields);
      if key !in fields {
        fields := fields[key := NewField];
        order := order + [key];
      }
      var f := ObserveAnswer(fields[key], value, fmt);
      fields := fields[key := f];
      assert Analysis(order, fields) == AddEntry(before, key, value, fmt);
    }
    assert data[..|data|] == data;
    r := Analysis(order, fields);
  }

  /** The body of the inner `forEach`: push the value, then retype and count it. */
  method ObserveAnswer(field: FieldStats, value: Value, fmt: NumberText) returns (f: FieldStats)
    ensures f == Observe(field, value, fmt)
  {
    f := field.(values := field.values + [value]);
    match value {
      case Str(_) =>
        f := f.(kind := Categorical, counts := f.counts.Bump(Stringify(value, fmt)));
      case Bool(_) =>
        f := f.(kind := Categorical, counts := f.counts.Bump(Stringify(value, fmt)));
      case Num(_) =>
        f := f.(kind := Numerical);
      case Arr(items) =>
        var counts := CountItems(f.counts, items, fmt);
        f := f.(kind := Multiple, counts := counts);
      case _ =>
    }
  }

  /** The inner `value.forEach` over an array answer's elements. */
  method CountItems(c: Counter, items: seq<Value>, fmt: NumberText) returns (r: Counter)
    ensures r == CountElements(c, items, fmt)
  {
    r := c;
    for m := 0 to |items|
      invariant r == CountElements(c, items[..m], fmt)
    {
      assert items[..m + 1][..m] == items[..m];
      r := r.Bump(Stringify(items[m], fmt));
    }
    assert items[..|items|] == items;
  }

  // ---------------------------------------------------------------------
  // Properties of one field's entry

  lemma {:induction false} ObserveAllContents(f: FieldStats, vs: seq<Value>, fmt: NumberText)
    ensures ObserveAll(f, vs, fmt).values == f.values + vs
    ensures forall s :: ObserveAll(f, vs, fmt).counts.Get(s) == f.counts.Get(s) + Occurrences(vs, s, fmt)
    ensures f.counts.Valid() ==> ObserveAll(f, vs, fmt).counts.Valid()
    ensures f.counts.keys <= ObserveAll(f, vs, fmt).counts.keys
  {
    if vs != [] {
      var p, v := vs[..|vs| - 1], vs[|vs| - 1];
      ObserveAllContents(f, p, fmt);
      assert p + [v] == vs;
    }
  }

  /** The kind after a run of values; the field's other parts play no role in it. */
  function KindAfter(k: Kind, vs: seq<Value>): Kind
  {
    if vs == [] then k else Classify(KindAfter(k, vs[..|vs| - 1]), vs[|vs| - 1])
  }

  lemma {:induction false} ObserveAllKind(f: FieldStats, vs: seq<Value>, fmt: NumberText)
    ensures ObserveAll(f, vs, fmt).kind == KindAfter(f.kind, vs)
  {
    if vs != [] {
      ObserveAllKind(f, vs[..|vs| - 1], fmt);
    }
  }

  /** Counting a text appends it to the key order exactly when it is new. */
  lemma BumpKeys(c: Counter, s: string)
    requires c.Valid()
    ensures c.Bump(s).keys == KeepFirst(c.keys, [s])
  {
    KeepFirstOne(c.keys, s);
  }

  /** An array answer's new texts join the key order in element order. */
  lemma {:induction false} CountElementsKeys(c: Counter, items: seq<Value>, fmt: NumberText)
    requires c.Valid()
    ensures CountElements(c, items, fmt).keys == KeepFirst(c.keys, ItemTexts(items, fmt))
  {
    if items == [] {
    } else {
      var init := items[..|items| - 1];
      var t := Stringify(items[|items| - 1], fmt);
      CountElementsKeys(c, init, fmt);
      BumpKeys(CountElements(c, init, fmt), t);
      KeepFirstAppend(c.keys, ItemTexts(init, fmt), [t]);
    }
  }

  lemma ObserveKeys(f: FieldStats, v: Value, fmt: NumberText)
    requires f.counts.Valid()
    ensures Observe(f, v, fmt).counts.keys == KeepFirst(f.counts.keys, TextsOf(v, fmt))
  {
    match v
    case Str(_) => BumpKeys(f.counts, Stringify(v, fmt));
    case Bool(_) => BumpKeys(f.counts, Stringify(v, fmt));
    case Arr(items) => CountElementsKeys(f.counts, items, fmt);
    case _ =>
  }

  /** Over a run of answers, each text enters the key order where it is first counted. */
  lemma {:induction false} ObserveAllKeys(f: FieldStats, vs: seq<Value>, fmt: NumberText)
    requires f.counts.Valid()
    ensures ObserveAll(f, vs, fmt).counts.keys == KeepFirst(f.counts.keys, AllTexts(vs, fmt))
  {
    if vs != [] {
      var init, v := vs[..|vs| - 1], vs[|vs| - 1];
      ObserveAllKeys(f, init, fmt);
      ObserveAllContents(f, init, fmt);
      ObserveKeys(ObserveAll(f, init, fmt), v, fmt);
      KeepFirstAppend(f.counts.keys, AllTexts(init, fmt), TextsOf(v, fmt));
    }
  }

  /** The kind is set by the most recent value that has a kind of its own. */
  lemma {:induction false} KindIsMostRecent(k: Kind, vs: seq<Value>)
    ensures (forall i :: 0 <= i < |vs| ==> !SetsKind(vs[i])) ==> KindAfter(k, vs) == k
    ensures forall i ::
      0 <= i < |vs| && SetsKind(vs[i]) && (forall j :: i < j < |vs| ==> !SetsKind(vs[j]))
      ==> KindAfter(k, vs) == Classify(Unknown, vs[i])
  {
    if vs != [] {
      var p, v := vs[..|vs| - 1], vs[|vs| - 1];
      KindIsMostRecent(k, p);
      assert forall i :: 0 <= i < |p| ==> p[i] == vs[i];
      forall i | 0 <= i < |vs| && SetsKind(vs[i]) && (forall j :: i < j < |vs| ==> !SetsKind(vs[j]))
        ensures KindAfter(k, vs) == Classify(Unknown, vs[i])
      {
        if i < |p| {
          assert !SetsKind(v);
          assert forall j :: i < j < |p| ==> !SetsKind(p[j]);
        }
      }
    }
  }

  // ---------------------------------------------------------------------
  // From the whole table to one field

  lemma {:induction false} AddRecordField(a: Analysis, data: Data, key: string, fmt: NumberText)
    requires DistinctKeys(data)
    ensures key in AddRecord(a, data, fmt).fields <==> key in a.fields || Get(data, key).Some?
    ensures FieldOf(AddRecord(a, data, fmt), key) ==
      match Get(data, key)
      case Some(v) => Observe(FieldOf(a, key), v, fmt)
      case None => FieldOf(a, key)
  {
    if data != [] {
      var p := data[..|data| - 1];
      assert DistinctKeys(p) by {
        assert forall i :: 0 <= i < |p| ==> p[i] == data[i];
      }
      AddRecordField(a, p, key, fmt);
      if data[|data| - 1].0 == key {
        assert Get(p, key).None? by {
          assert forall i :: 0 <= i < |p| ==> p[i] == data[i];
        }
      }
    }
  }

  lemma {:induction false} AddRecordConsistent(a: Analysis, data: Data, fmt: NumberText)
    requires Consistent(a)
    ensures Consistent(AddRecord(a, data, fmt))
  {
    if data != [] {
      var (key, v) := data[|data| - 1];
      var b := AddRecord(a, data[..|data| - 1], fmt);
      AddRecordConsistent(a, data[..|data| - 1], fmt);
      ObserveAllContents(FieldOf(b, key), [v], fmt);
      assert ObserveAll(FieldOf(b, key), [v], fmt) == Observe(FieldOf(b, key), v, fmt) by {
        assert [v][..0] == [];
      }
    }
  }

  lemma {:induction false} AnalyzeConsistent(records: seq<Record>, fmt: NumberText)
    ensures Consistent(Analyze(records, fmt))
  {
    if records != [] {
      AnalyzeConsistent(records[..|records| - 1], fmt);
      AddRecordConsistent(Analyze(records[..|records| - 1], fmt), records[|records| - 1].data, fmt);
    }
  }

  lemma {:induction false} AnalyzeField(records: seq<Record>, key: string, fmt: NumberText)
    requires WellFormed(records)
    ensures key in Analyze(records, fmt).fields <==> ValuesOf(records, key) != []
    ensures FieldOf(Analyze(records, fmt), key) == ObserveAll(NewField, ValuesOf(records, key), fmt)
  {
    if records != [] {
      var p, last := records[..|records| - 1], records[|records| - 1];
      assert WellFormed(p) by {
        assert forall i :: 0 <= i < |p| ==> p[i] == records[i];
      }
      AnalyzeField(p, key, fmt);
      AddRecordField(Analyze(p, fmt), last.data, key, fmt);
      var vs := ValuesOf(p, key);
      assert Analyze(records, fmt) == AddRecord(Analyze(p, fmt), last.data, fmt);
      match Get(last.data, key)
      case Some(v) =>
        assert ValuesOf(records, key) == vs + [v];
        assert (vs + [v])[..|vs|] == vs;
        assert ObserveAll(NewField, vs + [v], fmt) == Observe(ObserveAll(NewField, vs, fmt), v, fmt);
      case None =>
        assert ValuesOf(records, key) == vs;
    }
  }

  lemma {:induction false} ValuesOfNonEmpty(records: seq<Record>, key: string)
    ensures ValuesOf(records, key) != [] <==> key in AllKeys(records)
  {
    if records != [] {
      var p, last := records[..|records| - 1], records[|records| - 1];
      ValuesOfNonEmpty(p, key);
      if key in AllKeys(p) {
        var i, j :| 0 <= i < |p| && 0 <= j < |p[i].data| && p[i].data[j].0 == key;
        assert records[i].data[j].0 == key;
      }
      if Get(last.data, key).Some? {
        var j :| 0 <= j < |last.data| && last.data[j].0 == key;
        assert records[|records| - 1].data[j].0 == key;
      }
      if key in AllKeys(records) {
        var i, j :| 0 <= i < |records| && 0 <= j < |records[i].data| && records[i].data[j].0 == key;
        if i < |p| {
          assert p[i].data[j].0 == key;
        } else {
          assert last.data[j].0 == key;
        }
      }
    }
  }

  // ---------------------------------------------------------------------
  // What `analyzeResults` promises

  /** The table has exactly one entry per key found in any record, each listed once (their order is `AnalyzeOrder`'s). */
  lemma AnalyzeKeys(records: seq<Record>, fmt: NumberText)
    requires WellFormed(records)
    ensures records == [] ==> Analyze(records, fmt) == NoAnalysis
    ensures Analyze(records, fmt).fields.Keys == AllKeys(records)
    ensures forall k :: k in Analyze(records, fmt).order <==> k in AllKeys(records)
    ensures forall i, j :: 0 <= i < j < |Analyze(records, fmt).order| ==>
      Analyze(records, fmt).order[i] != Analyze(records, fmt).order[j]
  {
    AnalyzeConsistent(records, fmt);
    forall k
      ensures k in Analyze(records, fmt).fields <==> k in AllKeys(records)
    {
      AnalyzeField(records, k, fmt);
      ValuesOfNonEmpty(records, k);
    }
  }

  /** The keys of one record's data, in the order they are enumerated. */
  function KeysOf(data: Data): (ks: seq<string>)
    ensures |ks| == |data|
    ensures forall i :: 0 <= i < |data| ==> ks[i] == data[i].0
  {
    if data == [] then [] else KeysOf(data[..|data| - 1]) + [data[|data| - 1].0]
  }

  /** Every key of every record, record by record, repeats included. */
  function KeySequence(records: seq<Record>): seq<string>
  {
    if records == [] then []
    else KeySequence(records[..|records| - 1]) + KeysOf(records[|records| - 1].data)
  }

  /** `seen` followed by each key of `ks` that is not already among the keys before it. */
  function KeepFirst(seen: seq<string>, ks: seq<string>): seq<string>
  {
    if ks == [] then seen
    else
      var before := KeepFirst(seen, ks[..|ks| - 1]);
      var k := ks[|ks| - 1];
      if k in before then before else before + [k]
  }

  /** Independent reference for the key order: each key at its first occurrence, record by record and key by key. */
  function FirstSeen(records: seq<Record>): seq<string>
  {
    KeepFirst([], KeySequence(records))
  }

  lemma {:induction false} KeepFirstAppend(seen: seq<string>, ks: seq<string>, ts: seq<string>)
    ensures KeepFirst(seen, ks + ts) == KeepFirst(KeepFirst(seen, ks), ts)
    decreases |ts|
  {
    if ts == [] {
      assert ks + ts == ks;
    } else {
      var us := ks + ts;
      assert us[..|us| - 1] == ks + ts[..|ts| - 1];
      KeepFirstAppend(seen, ks, ts[..|ts| - 1]);
    }
  }

  /** One record extends the key order by its keys the table has not met yet, in its own key order. */
  lemma {:induction false} AddRecordOrder(a: Analysis, data: Data, fmt: NumberText)
    requires Consistent(a)
    ensures AddRecord(a, data, fmt).order == KeepFirst(a.order, KeysOf(data))
  {
    if data != [] {
      var init := data[..|data| - 1];
      AddRecordOrder(a, init, fmt);
      AddRecordConsistent(a, init, fmt);
      assert KeysOf(data)[..|data| - 1] == KeysOf(init);
    }
  }

  /** `analysis` lists its keys in the order they are first met, record by record and key by key. */
  lemma {:induction false} AnalyzeOrder(records: seq<Record>, fmt: NumberText)
    ensures Analyze(records, fmt).order == FirstSeen(records)
  {
    if records != [] {
      var init := records[..|records| - 1];
      var data := records[|records| - 1].data;
      AnalyzeOrder(init, fmt);
      AnalyzeConsistent(init, fmt);
      AddRecordOrder(Analyze(init, fmt), data, fmt);
      KeepFirstAppend([], KeySequence(init), KeysOf(data));
    }
  }

  /** Keys `a`, `b` in one record and `c`, `a` in the next are listed `a`, `b`, `c`. */
  lemma FirstSeenExample()
    ensures FirstSeen([Record("1", 1, "c", [("a", Null), ("b", Null)]),
                       Record("2", 2, "c", [("c", Null), ("a", Null)])]) == ["a", "b", "c"]
  {
    KeySequenceExample();
    KeepFirstExample();
  }

  lemma KeySequenceExample()
    ensures KeySequence([Record("1", 1, "c", [("a", Null), ("b", Null)]),
                         Record("2", 2, "c", [("c", Null), ("a", Null)])]) == ["a", "b", "c", "a"]
  {
    var r1 := Record("1", 1, "c", [("a", Null), ("b", Null)]);
    var r2 := Record("2", 2, "c", [("c", Null), ("a", Null)]);
    var rs := [r1, r2];
    assert rs[..1] == [r1] && [r1][..0] == [];
    assert KeysOf(r1.data) == ["a", "b"] && KeysOf(r2.data) == ["c", "a"];
    assert KeySequence([r1]) == KeysOf(r1.data);
  }

  lemma KeepFirstExample()
    ensures KeepFirst([], ["a", "b", "c", "a"]) == ["a", "b", "c"]
  {
    KeepFirstOne([], "a");
    KeepFirstOne(["a"], "b");
    KeepFirstOne(["a", "b"], "c");
    KeepFirstOne(["a", "b", "c"], "a");
    assert ["a", "b", "c", "a"] == ["a"] + ["b"] + ["c"] + ["a"];
    KeepFirstAppend([], ["a"], ["b"]);
    KeepFirstAppend([], ["a"] + ["b"], ["c"]);
    KeepFirstAppend([], ["a"] + ["b"] + ["c"], ["a"]);
  }

  /** One more key is appended exactly when it has not been seen. */
  lemma KeepFirstOne(seen: seq<string>, k: string)
    ensures KeepFirst(seen, [k]) == if k in seen then seen else seen + [k]
  {
    assert [k][..0] == [];
  }

  /**
   * A key's entry holds its value from every record that has it, in record
   * order, and counts every string, boolean and array element by its text.
   */
  lemma FieldContents(records: seq<Record>, key: string, s: string, fmt: NumberText)
    requires WellFormed(records)
    requires key in AllKeys(records)
    ensures key in Analyze(records, fmt).fields
    ensures Analyze(records, fmt).fields[key].values == ValuesOf(records, key)
    ensures Analyze(records, fmt).fields[key].counts.Get(s) == Occurrences(ValuesOf(records, key), s, fmt)
    ensures Analyze(records, fmt).fields[key].counts.Valid()
  {
    AnalyzeField(records, key, fmt);
    ValuesOfNonEmpty(records, key);
    ObserveAllContents(NewField, ValuesOf(records, key), fmt);
  }

  /** A key's `counts` lists each text once, where it is first counted going through the records. */
  lemma FieldCountOrder(records: seq<Record>, key: string, fmt: NumberText)
    requires WellFormed(records)
    requires key in AllKeys(records)
    ensures key in Analyze(records, fmt).fields
    ensures Analyze(records, fmt).fields[key].counts.keys == KeepFirst([], AllTexts(ValuesOf(records, key), fmt))
  {
    AnalyzeField(records, key, fmt);
    ValuesOfNonEmpty(records, key);
    ObserveAllKeys(NewField, ValuesOf(records, key), fmt);
  }

  /**
   * A key's kind is that of its most recent string, boolean, number or array
   * value, and stays Unknown when it never had one.
   */
  lemma FieldKind(records: seq<Record>, key: string, fmt: NumberText)
    requires WellFormed(records)
    requires key in AllKeys(records)
    ensures key in Analyze(records, fmt).fields
    ensures var vs := ValuesOf(records, key);
      (forall i :: 0 <= i < |vs| ==> !SetsKind(vs[i])) ==>
        Analyze(records, fmt).fields[key].kind == Unknown
    ensures var vs := ValuesOf(records, key);
      forall i :: 0 <= i < |vs| && SetsKind(vs[i]) && (forall j :: i < j < |vs| ==> !SetsKind(vs[j]))
        ==> Analyze(records, fmt).fields[key].kind == Classify(Unknown, vs[i])
  {
    AnalyzeField(records, key, fmt);
    ValuesOfNonEmpty(records, key);
    ObserveAllKind(NewField, ValuesOf(records, key), fmt);
    KindIsMostRecent(Unknown, ValuesOf(records, key));
  }

  /** Numbers and non-kind values never touch `counts`; `true` and `"true"` add to one key. */
  lemma ContributionFacts(x: real, s: string, fmt: NumberText)
    ensures Contribution(Num(x), s, fmt) == 0
    ensures Contribution(Null, s, fmt) == 0 && Contribution(Obj, s, fmt) == 0
    ensures Occurrences([Bool(true), Str("true")], "true", fmt) == 2
  {
    assert [Bool(true), Str("true")][..1] == [Bool(true)];
    assert [Bool(true)][..0] == [];
  }

  /** Earlier entries of `counts` survive a later change of kind. */
  lemma CountsPersist(f: FieldStats, vs: seq<Value>, s: string, fmt: NumberText)
    ensures f.counts.Get(s) <= ObserveAll(f, vs, fmt).counts.Get(s)
    ensures f.counts.keys <= ObserveAll(f, vs, fmt).counts.keys
  {
    ObserveAllContents(f, vs, fmt);
  }

  /** Three responses to a one-question survey. */
  function MoodRecords(): seq<Record>
  {
    [ Record("r1", 1, "c", [("mood", Str("happy"))]),
      Record("r2", 2, "c", [("mood", Str("sad"))]),
      Record("r3", 3, "c", [("mood", Str("happy"))]) ]
  }

  lemma MoodValues()
    ensures WellFormed(MoodRecords())
    ensures "mood" in AllKeys(MoodRecords())
    ensures ValuesOf(MoodRecords(), "mood") == [Str("happy"), Str("sad"), Str("happy")]
  {
    var rs := MoodRecords();
    assert rs[0].data[0].0 == "mood";
    assert rs[..2][..1] == rs[..1];
    assert rs[..1][..0] == [];
    assert ValuesOf(rs[..1], "mood") == [Str("happy")];
    assert ValuesOf(rs[..2], "mood") == [Str("happy"), Str("sad")];
  }

  lemma MoodOccurrences(s: string, fmt: NumberText)
    ensures Occurrences([Str("happy"), Str("sad"), Str("happy")], s, fmt)
      == (if s == "happy" then 2 else if s == "sad" then 1 else 0)
  {
    var vs := [Str("happy"), Str("sad"), Str("happy")];
    assert vs[..2][..1] == vs[..1];
    assert vs[..1][..0] == [];
    assert Occurrences(vs[..1], s, fmt) == (if s == "happy" then 1 else 0);
    assert Occurrences(vs[..2], s, fmt) == (if s == "happy" || s == "sad" then 1 else 0);
  }

  /** Any records whose `mood` answers are happy, sad, happy, in that order. */
  lemma MoodSummary(rs: seq<Record>, fmt: NumberText)
    requires WellFormed(rs) && "mood" in AllKeys(rs)
    requires ValuesOf(rs, "mood") == [Str("happy"), Str("sad"), Str("happy")]
    ensures "mood" in Analyze(rs, fmt).fields
    ensures Analyze(rs, fmt).fields["mood"].kind == Categorical
    ensures Analyze(rs, fmt).fields["mood"].counts.tally == map["happy" := 2, "sad" := 1]
  {
    var vs := [Str("happy"), Str("sad"), Str("happy")];
    FieldKind(rs, "mood", fmt);
    assert SetsKind(vs[2]);
    var c := Analyze(rs, fmt).fields["mood"].counts;
    forall s
      ensures c.Get(s) == (if s == "happy" then 2 else if s == "sad" then 1 else 0)
    {
      FieldContents(rs, "mood", s, fmt);
      MoodOccurrences(s, fmt);
    }
    FieldContents(rs, "mood", "", fmt);
    assert c.Valid();
    forall s
      ensures s in c.tally <==> s == "happy" || s == "sad"
    {
      assert c.Get(s) == (if s == "happy" then 2 else if s == "sad" then 1 else 0);
      assert s in c.tally ==> c.tally[s] > 0;
    }
    assert c.tally.Keys == {"happy", "sad"};
    assert c.tally["happy"] == c.Get("happy") && c.tally["sad"] == c.Get("sad");
  }

  /** The `mood` example: categorical, with happy counted twice and sad once. */
  lemma MoodExample(fmt: NumberText)
    ensures "mood" in Analyze(MoodRecords(), fmt).fields
    ensures Analyze(MoodRecords(), fmt).fields["mood"].kind == Categorical
    ensures Analyze(MoodRecords(), fmt).fields["mood"].counts.tally == map["happy" := 2, "sad" := 1]
  {
    MoodValues();
    MoodSummary(MoodRecords(), fmt);
  }
}
