/**
 * The field-selection screen: which analysed keys can be charted, the
 * human-readable name and the one-line type description shown for each, and
 * the checkboxes the user ticks before asking for charts.
 */
module Selection {
  import opened ResponseValues
  import opened FieldAnalyzer
  import Binner

  // ---------------------------------------------------------------------------
  // Eligible keys
  // ---------------------------------------------------------------------------

  /** A key is offered for charting when its entry exists and its kind is known. */
  predicate Chartable(a: Analysis, key: string)
  {
    key in a.fields && a.fields[key].kind != Unknown
  }

  /** `xs` is `ys` with some elements dropped, order kept. */
  ghost predicate SubsequenceOf(xs: seq<string>, ys: seq<string>)
    decreases |ys|
  {
    if xs == [] then true
    else if ys == [] then false
    else if xs[|xs| - 1] == ys[|ys| - 1] then SubsequenceOf(xs[..|xs| - 1], ys[..|ys| - 1])
    else SubsequenceOf(xs, ys[..|ys| - 1])
  }

  /** The keys of `order` that are chartable, in order. */
  function KeepChartable(a: Analysis, order: seq<string>): (keys: seq<string>)
    ensures forall k :: k in keys <==> k in order && Chartable(a, k)
    ensures forall i :: 0 <= i < |keys| ==> Chartable(a, keys[i])
  {
    if order == [] then []
    else
      var last := order[|order| - 1];
      KeepChartable(a, order[..|order| - 1]) + (if Chartable(a, last) then [last] else [])
  }

  /** `fieldKeys`: the analysed keys whose type is not `unknown`, in discovery order. */
  function EligibleKeys(a: Analysis): (keys: seq<string>)
    ensures forall k :: k in keys <==> k in a.order && Chartable(a, k)
    ensures forall i :: 0 <= i < |keys| ==> Chartable(a, keys[i])
  {
    KeepChartable(a, a.order)
  }

  lemma {:induction false} KeepChartableInOrder(a: Analysis, order: seq<string>)
    ensures SubsequenceOf(KeepChartable(a, order), order)
  {
    if order != [] {
      var init := order[..|order| - 1];
      KeepChartableInOrder(a, init);
      var last := order[|order| - 1];
      var keys := KeepChartable(a, order);
      if Chartable(a, last) {
        assert keys[..|keys| - 1] == KeepChartable(a, init);
      } else {
        assert keys == KeepChartable(a, init);
        SubsequenceExtend(keys, init, last);
      }
    }
  }

  lemma {:induction false} SubsequenceExtend(xs: seq<string>, ys: seq<string>, y: string)
    requires SubsequenceOf(xs, ys)
    ensures SubsequenceOf(xs, ys + [y])
    decreases |ys|, 1
  {
    var zs := ys + [y];
    assert zs[..|zs| - 1] == ys;
    if xs != [] && xs[|xs| - 1] == y {
      // Matching `y` against the last of `xs` is the other way the predicate can succeed.
      SubsequenceDrop(xs, ys);
    }
  }

  /** Dropping the last element of a subsequence keeps it a subsequence. */
  lemma {:induction false} SubsequenceDrop(xs: seq<string>, ys: seq<string>)
    requires xs != [] && SubsequenceOf(xs, ys)
    ensures SubsequenceOf(xs[..|xs| - 1], ys)
    decreases |ys|, 0
  {
    var init := ys[..|ys| - 1];
    if xs[|xs| - 1] == ys[|ys| - 1] {
      SubsequenceExtend(xs[..|xs| - 1], init, ys[|ys| - 1]);
      assert init + [ys[|ys| - 1]] == ys;
    } else {
      SubsequenceDrop(xs, init);
      SubsequenceExtend(xs[..|xs| - 1], init, ys[|ys| - 1]);
      assert init + [ys[|ys| - 1]] == ys;
    }
  }

  /**
   * The keys offered are exactly the analysed keys of known kind, none twice,
   * in the order the analysis discovered them.
   */
  lemma EligibleKeysFacts(a: Analysis)
    requires Consistent(a)
    ensures forall k :: k in EligibleKeys(a) <==> k in a.fields && a.fields[k].kind != Unknown
    ensures SubsequenceOf(EligibleKeys(a), a.order)
  {
    KeepChartableInOrder(a, a.order);
  }

  /** The keys offered after analysing records are the chartable ones among the keys in the order first met. */
  lemma EligibleKeysInDiscoveryOrder(records: seq<Record>, fmt: NumberText)
    ensures EligibleKeys(Analyze(records, fmt)) == KeepChartable(Analyze(records, fmt), FirstSeen(records))
  {
    AnalyzeOrder(records, fmt);
  }

  // ---------------------------------------------------------------------------
  // Field names
  // ---------------------------------------------------------------------------

  predicate IsCapital(c: char) { 'A' <= c <= 'Z' }

  /** The characters `.` does not match in a JavaScript regular expression. */
  predicate IsLineTerminator(c: char)
  {
    c == '\n' || c == '\r' || c == '\U{2028}' || c == '\U{2029}'
  }

  /** toUpperCase on one character; letters outside ASCII are not modelled and left as they are. */
  function ToUpper(c: char): char
  {
    if 'a' <= c <= 'z' then (c as int - 32) as char else c
  }

  /** `replace(/([A-Z])/g, ' $1')`: a space before every capital letter. */
  function SpaceBeforeCapitals(s: string): string
  {
    if s == [] then []
    else
      var c := s[|s| - 1];
      SpaceBeforeCapitals(s[..|s| - 1]) + (if IsCapital(c) then [' ', c] else [c])
  }

  /** `replace(/^./, str => str.toUpperCase())`: the first character, unless it is a line terminator. */
  function CapitalizeFirst(s: string): (r: string)
    ensures |r| == |s|
    ensures forall i :: 0 < i < |s| ==> r[i] == s[i]
    ensures s != [] ==> r[0] == (if IsLineTerminator(s[0]) then s[0] else ToUpper(s[0]))
  {
    if s == [] || IsLineTerminator(s[0]) then s else [ToUpper(s[0])] + s[1..]
  }

  /** The label shown for an answer key. */
  function FieldName(key: string): string
  {
    CapitalizeFirst(SpaceBeforeCapitals(key))
  }

  /** Removes the space directly before each capital letter: the inverse of `SpaceBeforeCapitals`. */
  function DropSpaceBeforeCapitals(r: string): string
  {
    if r == [] then []
    else
      var c := r[|r| - 1];
      if IsCapital(c) && |r| >= 2 && r[|r| - 2] == ' ' then DropSpaceBeforeCapitals(r[..|r| - 2]) + [c]
      else DropSpaceBeforeCapitals(r[..|r| - 1]) + [c]
  }

  function Capitals(s: string): nat
  {
    if s == [] then 0 else Capitals(s[..|s| - 1]) + (if IsCapital(s[|s| - 1]) then 1 else 0)
  }

  /** Spacing adds exactly one character per capital. */
  lemma {:induction false} SpacingLength(s: string)
    ensures |SpaceBeforeCapitals(s)| == |s| + Capitals(s)
  {
    if s != [] {
      SpacingLength(s[..|s| - 1]);
    }
  }

  /** Nothing is lost by spacing: dropping the inserted spaces gives the key back. */
  lemma {:induction false} SpacingRoundTrip(s: string)
    ensures DropSpaceBeforeCapitals(SpaceBeforeCapitals(s)) == s
  {
    if s != [] {
      var init := s[..|s| - 1];
      var c := s[|s| - 1];
      SpacingRoundTrip(init);
      DropLast(SpaceBeforeCapitals(init), c);
      assert init + [c] == s;
    }
  }

  /** Dropping undoes one spaced character at the end. */
  lemma DropLast(p: string, c: char)
    ensures var added := if IsCapital(c) then [' ', c] else [c];
      DropSpaceBeforeCapitals(p + added) == DropSpaceBeforeCapitals(p) + [c]
  {
    if IsCapital(c) {
      var r := p + [' ', c];
      assert r[..|r| - 2] == p;
    } else {
      var r := p + [c];
      assert r[..|r| - 1] == p;
    }
  }

  /** Every capital letter of the spaced key has a space right before it. */
  lemma {:induction false} CapitalsArePreceded(s: string)
    ensures forall i :: 0 <= i < |SpaceBeforeCapitals(s)| && IsCapital(SpaceBeforeCapitals(s)[i]) ==>
      i >= 1 && SpaceBeforeCapitals(s)[i - 1] == ' '
  {
    if s != [] {
      CapitalsArePreceded(s[..|s| - 1]);
    }
  }

  /** The replacement works character by character, so it distributes over concatenation. */
  lemma {:induction false} SpacingAppend(s: string, t: string)
    ensures SpaceBeforeCapitals(s + t) == SpaceBeforeCapitals(s) + SpaceBeforeCapitals(t)
    decreases |t|
  {
    if t == [] {
      assert s + t == s;
    } else {
      var u := s + t;
      assert u[..|u| - 1] == s + t[..|t| - 1];
      SpacingAppend(s, t[..|t| - 1]);
    }
  }

  /** A key without capitals is not changed by spacing. */
  lemma {:induction false} SpacingNoCapitals(s: string)
    requires forall i :: 0 <= i < |s| ==> !IsCapital(s[i])
    ensures SpaceBeforeCapitals(s) == s
  {
    if s != [] {
      SpacingNoCapitals(s[..|s| - 1]);
    }
  }

  lemma FieldNameCamelCase()
    ensures FieldName("favoriteColor") == "Favorite Color"
  {
    assert "favoriteColor" == "favorite" + ("C" + "olor");
    SpacingAppend("favorite", "C" + "olor");
    SpacingAppend("C", "olor");
    SpacingNoCapitals("favorite");
    SpacingNoCapitals("olor");
    assert SpaceBeforeCapitals("C") == " C";
  }

  /** A key that starts with a capital gets a leading space, and the space is what gets "capitalised". */
  lemma FieldNameLeadingCapital()
    ensures FieldName("Age") == " Age"
    ensures FieldName("") == ""
  {
    assert "Age" == "A" + "ge";
    SpacingAppend("A", "ge");
    SpacingNoCapitals("ge");
    assert SpaceBeforeCapitals("A") == " A";
  }

  // ---------------------------------------------------------------------------
  // Type descriptions
  // ---------------------------------------------------------------------------

  /** The type description of a field, without its formatting. */
  datatype TypeDescription =
    | CategoricalInfo(uniqueValues: nat)
    | NumericalInfo(min: real, max: real)
    | MultipleInfo(totalOptions: nat)
    | NoInfo

  predicate AllNumbers(vs: seq<Value>)
  {
    forall i :: 0 <= i < |vs| ==> vs[i].Num?
  }

  /** A numerical field whose recorded values are all numbers, at least one. */
  predicate NumbersOnly(f: FieldStats)
  {
    f.kind == Numerical ==> |f.values| > 0 && AllNumbers(f.values)
  }

  function NumbersOf(vs: seq<Value>): (r: seq<real>)
    requires AllNumbers(vs)
    ensures |r| == |vs|
    ensures forall i :: 0 <= i < |vs| ==> r[i] == vs[i].x
  {
    if vs == [] then [] else NumbersOf(vs[..|vs| - 1]) + [vs[|vs| - 1].x]
  }

  /**
   * The `typeDescription` switch: distinct answers for a categorical field,
   * the smallest and largest value for a numerical one, distinct options for
   * a multiple-choice one.
   */
  function Describe(f: FieldStats): (d: TypeDescription)
    requires NumbersOnly(f)
    ensures f.kind == Unknown <==> d.NoInfo?
    ensures f.kind == Categorical <==> d.CategoricalInfo?
    ensures f.kind == Multiple <==> d.MultipleInfo?
    ensures f.kind == Numerical <==> d.NumericalInfo?
    ensures d.CategoricalInfo? && f.counts.Valid() ==> d.uniqueValues == |f.counts.tally.Keys|
    ensures d.MultipleInfo? && f.counts.Valid() ==> d.totalOptions == |f.counts.tally.Keys|
    ensures d.NumericalInfo? ==>
      && (exists i :: 0 <= i < |f.values| && f.values[i] == Num(d.min))
      && (exists i :: 0 <= i < |f.values| && f.values[i] == Num(d.max))
      && (forall i :: 0 <= i < |f.values| ==> d.min <= f.values[i].x <= d.max)
  {
    match f.kind
    case Categorical =>
      DistinctCount(f.counts);
      CategoricalInfo(|f.counts.keys|)
    case Numerical =>
      var xs := NumbersOf(f.values);
      var lo, hi := Binner.SeqMin(xs), Binner.SeqMax(xs);
      assert forall i :: 0 <= i < |f.values| ==> f.values[i] == Num(xs[i]) && xs[i] in xs;
      NumericalInfo(lo, hi)
    case Multiple =>
      DistinctCount(f.counts);
      MultipleInfo(|f.counts.keys|)
    case Unknown => NoInfo
  }

  /** The length of a counter's key list is the number of distinct texts it counts. */
  lemma DistinctCount(c: Counter)
    ensures c.Valid() ==> |c.keys| == |c.tally.Keys|
  {
    if c.Valid() {
      DistinctCardinality(c.keys);
      assert c.tally.Keys == set k | k in c.keys;
    }
  }

  lemma {:induction false} DistinctCardinality(keys: seq<string>)
    requires forall i, j :: 0 <= i < j < |keys| ==> keys[i] != keys[j]
    ensures |set k | k in keys| == |keys|
  {
    if keys != [] {
      var init := keys[..|keys| - 1];
      DistinctCardinality(init);
      assert (set k | k in keys) == (set k | k in init) + {keys[|keys| - 1]};
      assert keys[|keys| - 1] !in init;
    }
  }

  /** One row of the selection list: label, description and number of responses. */
  datatype FieldInfo = FieldInfo(key: string, name: string, description: TypeDescription, responses: nat)

  predicate NumbersOnlyAll(a: Analysis)
  {
    forall k :: k in a.fields ==> NumbersOnly(a.fields[k])
  }

  /** The rows of the field list, one per eligible key. */
  function FieldRows(a: Analysis, keys: seq<string>): (rows: seq<FieldInfo>)
    requires NumbersOnlyAll(a)
    requires forall i :: 0 <= i < |keys| ==> keys[i] in a.fields
    ensures |rows| == |keys|
    ensures forall i :: 0 <= i < |keys| ==>
      rows[i] == FieldInfo(keys[i], FieldName(keys[i]), Describe(a.fields[keys[i]]), |a.fields[keys[i]].values|)
  {
    if keys == [] then []
    else
      var k := keys[|keys| - 1];
      FieldRows(a, keys[..|keys| - 1]) + [FieldInfo(k, FieldName(k), Describe(a.fields[k]), |a.fields[k].values|)]
  }

  // ---------------------------------------------------------------------------
  // The checkboxes
  // ---------------------------------------------------------------------------

  /** The keys whose checkbox is ticked, in page order. */
  function CheckedKeys(keys: seq<string>, checked: seq<bool>): (r: seq<string>)
    requires |keys| == |checked|
    ensures |r| <= |keys|
  {
    if keys == [] then []
    else
      CheckedKeys(keys[..|keys| - 1], checked[..|checked| - 1])
        + (if checked[|checked| - 1] then [keys[|keys| - 1]] else [])
  }

  /** A key is selected exactly when some checkbox carrying it is ticked. */
  lemma {:induction false} CheckedKeysMembership(keys: seq<string>, checked: seq<bool>)
    requires |keys| == |checked|
    ensures forall k :: k in CheckedKeys(keys, checked) <==> exists i :: 0 <= i < |keys| && keys[i] == k && checked[i]
  {
    if keys != [] {
      var n := |keys| - 1;
      CheckedKeysMembership(keys[..n], checked[..n]);
      assert forall i :: 0 <= i < n ==> keys[..n][i] == keys[i] && checked[..n][i] == checked[i];
    }
  }

  /** The ticked keys keep their page order: the selection is a subsequence of the keys. */
  lemma {:induction false} CheckedKeysInOrder(keys: seq<string>, checked: seq<bool>)
    requires |keys| == |checked|
    ensures SubsequenceOf(CheckedKeys(keys, checked), keys)
  {
    if keys != [] {
      var n := |keys| - 1;
      var init := CheckedKeys(keys[..n], checked[..n]);
      CheckedKeysInOrder(keys[..n], checked[..n]);
      var r := CheckedKeys(keys, checked);
      assert keys[..n] + [keys[n]] == keys;
      if checked[n] {
        assert r[..|r| - 1] == init;
      } else {
        assert r == init;
        SubsequenceExtend(r, keys[..n], keys[n]);
      }
    }
  }

  /** All boxes ticked selects every key in order; none ticked selects nothing. */
  lemma {:induction false} CheckedKeysAllOrNone(keys: seq<string>, checked: seq<bool>, b: bool)
    requires |keys| == |checked|
    requires forall i :: 0 <= i < |checked| ==> checked[i] == b
    ensures CheckedKeys(keys, checked) == (if b then keys else [])
  {
    if keys != [] {
      var n := |keys| - 1;
      CheckedKeysAllOrNone(keys[..n], checked[..n], b);
      assert keys[..n] + [keys[n]] == keys;
    }
  }

  /** The field checklist: one checkbox per offered key, each initially ticked. */
  class FieldSelection {
    var keys: seq<string>
    var checked: seq<bool>

    ghost predicate Valid()
      reads this
    {
      |keys| == |checked|
    }

    /** Renders one ticked checkbox per key. */
    constructor (fieldKeys: seq<string>)
      ensures Valid()
      ensures keys == fieldKeys
      ensures forall i :: 0 <= i < |checked| ==> checked[i]
    {
      keys := fieldKeys;
      var ticks := [];
      while |ticks| < |fieldKeys|
        invariant |ticks| <= |fieldKeys|
        invariant forall i :: 0 <= i < |ticks| ==> ticks[i]
      {
        ticks := ticks + [true];
      }
      checked := ticks;
    }

    /** `selectAllFields(selectAll)`: every box ticked, or every box cleared. */
    method SelectAllFields(selectAll: bool)
      requires Valid()
      modifies this
      ensures Valid()
      ensures keys == old(keys)
      ensures forall i :: 0 <= i < |checked| ==> checked[i] == selectAll
    {
      var i := 0;
      while i < |checked|
        invariant 0 <= i <= |checked| && |checked| == |keys|
        invariant keys == old(keys)
        invariant forall j :: 0 <= j < i ==> checked[j] == selectAll
      {
        checked := checked[i := selectAll];
        i := i + 1;
      }
    }

    /** The user clicks the checkbox at position `i`. */
    method Toggle(i: nat)
      requires Valid()
      modifies this
      ensures Valid()
      ensures keys == old(keys)
      ensures checked == if i < |old(checked)| then old(checked)[i := !old(checked)[i]] else old(checked)
    {
      if i < |checked| {
        checked := checked[i := !checked[i]];
      }
    }

    /** The values of the ticked checkboxes, in page order. */
    method SelectedFields() returns (selected: seq<string>)
      requires Valid()
      ensures selected == CheckedKeys(keys, checked)
    {
      selected := [];
      var i := 0;
      while i < |keys|
        invariant 0 <= i <= |keys|
        invariant selected == CheckedKeys(keys[..i], checked[..i])
      {
        assert keys[..i + 1][..i] == keys[..i];
        assert checked[..i + 1][..i] == checked[..i];
        if checked[i] {
          selected := selected + [keys[i]];
        }
        i := i + 1;
      }
      assert keys[..i] == keys;
      assert checked[..i] == checked;
    }
  }
}
