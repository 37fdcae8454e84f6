/**
 * Chart orchestration: what chart each selected field gets (a pie for
 * categorical and multiple-choice fields, a frequency histogram for
 * numerical ones) and the dashboard state that owns the live charts, the
 * current records and their analysis.
 */
module ChartOrchestrator {
  import opened ResponseValues
  import opened FieldAnalyzer
  import opened Binner
  import opened Selection
  import ResultsPager

  /** The fill colours of pie slices, in slice order. */
  const Palette: seq<string> :=
    ["#FF6384", "#36A2EB", "#FFCE56", "#4BC0C0", "#9966FF", "#FF9F40", "#FF6384", "#C9CBCF"]

  /** The configuration a chart is created with. */
  datatype ChartSpec =
    | Pie(labels: seq<string>, data: seq<nat>, colors: seq<string>)
    | Bar(ranges: seq<BinRange>, frequencies: seq<nat>)

  /** `Object.values(counts)`: the count under each key, in key order. */
  function TalliesOf(c: Counter, keys: seq<string>): (r: seq<nat>)
    ensures |r| == |keys|
    ensures forall i :: 0 <= i < |keys| ==> r[i] == c.Get(keys[i])
  {
    if keys == [] then [] else TalliesOf(c, keys[..|keys| - 1]) + [c.Get(keys[|keys| - 1])]
  }

  /** `colors.slice(0, labels.length)`: one palette entry per slice, at most the eight there are. */
  function PieColors(n: nat): (colors: seq<string>)
    ensures |colors| == Min(8, n)
    ensures colors <= Palette
  {
    Palette[..Min(8, n)]
  }

  /** The chart `createChart` draws for one field of known kind. */
  function ChartFor(f: FieldStats): (chart: ChartSpec)
    requires f.kind != Unknown && NumbersOnly(f)
    ensures chart.Pie? <==> f.kind == Categorical || f.kind == Multiple
    ensures chart.Pie? ==>
      && chart.labels == f.counts.keys
      && |chart.data| == |chart.labels|
      && (forall i :: 0 <= i < |chart.data| ==> chart.data[i] == f.counts.Get(chart.labels[i]))
      && chart.colors == PieColors(|chart.labels|)
    ensures chart.Bar? ==>
      && |chart.ranges| == |chart.frequencies| == BinCount(|f.values|)
      && chart.ranges == HistogramOf(NumbersOf(f.values)).labels
      && chart.frequencies == HistogramOf(NumbersOf(f.values)).bins
  {
    if f.kind == Categorical || f.kind == Multiple then
      Pie(f.counts.keys, TalliesOf(f.counts, f.counts.keys), PieColors(|f.counts.keys|))
    else
      var h := HistogramOf(NumbersOf(f.values));
      HistogramShape(NumbersOf(f.values));
      Bar(h.labels, h.bins)
  }

  /** Every slice of a field's pie is the number of answers with that text, and every slice is non-empty. */
  lemma PieSlicesCountAnswers(records: seq<Record>, key: string, fmt: NumberText, i: nat)
    requires WellFormed(records) && key in AllKeys(records)
    requires var f := FieldOf(Analyze(records, fmt), key);
      (f.kind == Categorical || f.kind == Multiple) && i < |f.counts.keys|
    ensures var chart := ChartFor(FieldOf(Analyze(records, fmt), key));
      && chart.data[i] == Occurrences(ValuesOf(records, key), chart.labels[i], fmt)
      && chart.data[i] > 0
  {
    var f := FieldOf(Analyze(records, fmt), key);
    FieldContents(records, key, f.counts.keys[i], fmt);
    assert f.counts.keys[i] in f.counts.tally;
  }

  /** A pie's slices come in the order their texts were first counted, each text once. */
  lemma PieSlicesInFirstCountedOrder(records: seq<Record>, key: string, fmt: NumberText)
    requires WellFormed(records) && key in AllKeys(records)
    requires var f := FieldOf(Analyze(records, fmt), key); f.kind == Categorical || f.kind == Multiple
    ensures ChartFor(FieldOf(Analyze(records, fmt), key)).labels == KeepFirst([], AllTexts(ValuesOf(records, key), fmt))
  {
    FieldCountOrder(records, key, fmt);
  }

  /** The charts for a list of selected keys: keys without an entry or of unknown kind are skipped. */
  function ChartsFor(a: Analysis, selected: seq<string>): (charts: seq<(string, ChartSpec)>)
    requires NumbersOnlyAll(a)
    ensures |charts| <= |selected|
    ensures forall p :: p in charts ==> p.0 in selected && Chartable(a, p.0) && p.1 == ChartFor(a.fields[p.0])
  {
    if selected == [] then []
    else
      var key := selected[|selected| - 1];
      ChartsFor(a, selected[..|selected| - 1])
        + (if Chartable(a, key) then [(key, ChartFor(a.fields[key]))] else [])
  }

  /** Keys taken from the offered list (each chartable, by `EligibleKeys`) are never skipped: each gets its chart, in selection order. */
  lemma {:induction false} OfferedKeysAllCharted(a: Analysis, selected: seq<string>)
    requires NumbersOnlyAll(a)
    requires forall i :: 0 <= i < |selected| ==> Chartable(a, selected[i])
    ensures |ChartsFor(a, selected)| == |selected|
    ensures forall i :: 0 <= i < |selected| ==>
      Chartable(a, selected[i]) && ChartsFor(a, selected)[i] == (selected[i], ChartFor(a.fields[selected[i]]))
  {
    if selected != [] {
      var n := |selected| - 1;
      var init := selected[..n];
      assert forall i :: 0 <= i < n ==> init[i] == selected[i];
      OfferedKeysAllCharted(a, init);
      var before := ChartsFor(a, init);
      var charts := ChartsFor(a, selected);
      ChartsForLast(a, selected);
      forall i | 0 <= i < |selected|
        ensures Chartable(a, selected[i]) && charts[i] == (selected[i], ChartFor(a.fields[selected[i]]))
      {
        if i < n {
          assert init[i] == selected[i];
          assert charts[i] == charts[..n][i] == before[i];
        } else {
          assert i == |before|;
        }
      }
    }
  }

  /** A chartable last key puts its chart after the others'. */
  lemma ChartsForLast(a: Analysis, selected: seq<string>)
    requires NumbersOnlyAll(a) && selected != []
    requires Chartable(a, selected[|selected| - 1])
    ensures var key := selected[|selected| - 1];
      var charts := ChartsFor(a, selected);
      var before := ChartsFor(a, selected[..|selected| - 1]);
      && |charts| == |before| + 1
      && charts[..|before|] == before
      && charts[|before|] == (key, ChartFor(a.fields[key]))
  {
  }

  /** One more selected key adds its chart, or nothing when it is skipped. */
  lemma ChartsForStep(a: Analysis, selected: seq<string>, j: nat)
    requires NumbersOnlyAll(a) && j < |selected|
    ensures var key := selected[j];
      ChartsFor(a, selected[..j + 1]) ==
        ChartsFor(a, selected[..j]) + (if Chartable(a, key) then [(key, ChartFor(a.fields[key]))] else [])
  {
    assert selected[..j + 1][..j] == selected[..j];
  }

  type ChartId = nat

  /** What happens to charts, in order: the log the dashboard keeps of its chart library calls. */
  datatype Event = Destroyed(id: ChartId) | Created(id: ChartId)

  function DestroyEvents(ids: seq<ChartId>): (es: seq<Event>)
    ensures |es| == |ids|
    ensures forall i :: 0 <= i < |ids| ==> es[i] == Destroyed(ids[i])
  {
    if ids == [] then [] else DestroyEvents(ids[..|ids| - 1]) + [Destroyed(ids[|ids| - 1])]
  }

  function CreateEvents(ids: seq<ChartId>): (es: seq<Event>)
    ensures |es| == |ids|
    ensures forall i :: 0 <= i < |ids| ==> es[i] == Created(ids[i])
  {
    if ids == [] then [] else CreateEvents(ids[..|ids| - 1]) + [Created(ids[|ids| - 1])]
  }

  /** The set of the ids in a list. */
  function IdSet(ids: seq<ChartId>): (r: set<ChartId>)
    ensures forall id :: id in r <==> id in ids
  {
    if ids == [] then {} else IdSet(ids[..|ids| - 1]) + {ids[|ids| - 1]}
  }

  /** The ids `start`, `start + 1`, ..., `start + n - 1`. */
  function Consecutive(start: nat, n: nat): (ids: seq<ChartId>)
    ensures |ids| == n
    ensures forall i :: 0 <= i < n ==> ids[i] == start + i
  {
    if n == 0 then [] else Consecutive(start, n - 1) + [start + n - 1]
  }

  /**
   * The chart bookkeeping is sound: no chart is live twice, none is live
   * after being destroyed, none is leaked (every id issued is destroyed or
   * live), and `drawn` remembers exactly the ids issued.
   */
  ghost predicate Healthy(active: seq<ChartId>, destroyed: set<ChartId>, next: ChartId,
                          drawn: map<ChartId, (string, ChartSpec)>)
  {
    && (forall i, j :: 0 <= i < j < |active| ==> active[i] != active[j])
    && (forall i :: 0 <= i < |active| ==> active[i] < next && active[i] !in destroyed)
    && (forall id :: id in destroyed ==> id < next)
    && (forall id: ChartId :: id < next ==> id in destroyed || id in active)
    && (forall id: ChartId :: id in drawn <==> id < next)
  }

  /** Destroying every live chart keeps the bookkeeping sound and leaves the destroyed ids exactly the ids issued. */
  lemma TeardownLeavesNothingLive(active: seq<ChartId>, destroyed: set<ChartId>, next: ChartId,
                                  drawn: map<ChartId, (string, ChartSpec)>)
    requires Healthy(active, destroyed, next, drawn)
    ensures Healthy([], destroyed + IdSet(active), next, drawn)
    ensures forall id: ChartId :: id in destroyed + IdSet(active) <==> id < next
  {
  }

  /** The `forEach` over the live charts: each one, in order, is destroyed and the call logged. */
  ghost method DestroyEach(charts: seq<ChartId>, destroyed: set<ChartId>, events: seq<Event>)
    returns (gone: set<ChartId>, log: seq<Event>)
    ensures gone == destroyed + IdSet(charts)
    ensures log == events + DestroyEvents(charts)
  {
    gone, log := destroyed, events;
    for i := 0 to |charts|
      invariant gone == destroyed + IdSet(charts[..i])
      invariant log == events + DestroyEvents(charts[..i])
    {
      assert charts[..i + 1][..i] == charts[..i];
      gone := gone + {charts[i]};
      log := log + [Destroyed(charts[i])];
    }
    assert charts[..|charts|] == charts;
  }

  /**
   * After creating `charts` from id `start` on: the live ids are the
   * consecutive fresh ones, each shows its chart, the charts created before
   * are remembered unchanged, and one creation was logged per chart.
   */
  ghost predicate Built(active: seq<ChartId>, next: ChartId, drawn: map<ChartId, (string, ChartSpec)>, log: seq<Event>,
                        start: ChartId, drawnBefore: map<ChartId, (string, ChartSpec)>, logBefore: seq<Event>,
                        charts: seq<(string, ChartSpec)>)
  {
    && active == Consecutive(start, |charts|)
    && next == start + |charts|
    && (forall id: ChartId :: id in drawn <==> id < next)
    && (forall k :: 0 <= k < |charts| ==> start + k in drawn && drawn[start + k] == charts[k])
    && (forall id :: id in drawnBefore && id < start ==> id in drawn && drawn[id] == drawnBefore[id])
    && log == logBefore + CreateEvents(active)
  }

  lemma BuiltStep(active: seq<ChartId>, next: ChartId, drawn: map<ChartId, (string, ChartSpec)>, log: seq<Event>,
                  start: ChartId, drawnBefore: map<ChartId, (string, ChartSpec)>, logBefore: seq<Event>,
                  charts: seq<(string, ChartSpec)>, chart: (string, ChartSpec))
    requires Built(active, next, drawn, log, start, drawnBefore, logBefore, charts)
    ensures Built(active + [next], next + 1, drawn[next := chart], log + [Created(next)],
                  start, drawnBefore, logBefore, charts + [chart])
  {
    var active' := active + [next];
    assert active'[..|active|] == active;
  }

  /** Charts built on a fully torn-down dashboard leave no chart leaked or live twice. */
  lemma BuiltIsValid(active: seq<ChartId>, next: ChartId, drawn: map<ChartId, (string, ChartSpec)>, log: seq<Event>,
                     start: ChartId, drawnBefore: map<ChartId, (string, ChartSpec)>, logBefore: seq<Event>,
                     charts: seq<(string, ChartSpec)>, destroyed: set<ChartId>)
    requires Built(active, next, drawn, log, start, drawnBefore, logBefore, charts)
    requires forall id: ChartId :: id in destroyed <==> id < start
    ensures Healthy(active, destroyed, next, drawn)
  {
    forall id: ChartId | start <= id < next
      ensures id in active
    {
      assert active[id - start] == id;
    }
  }

  /**
   * The page state shared by the results browser, the field selection and
   * the charts: `currentResults`, `currentPage`, `availableFields` and
   * `activeCharts`. Every chart ever created has an id below `nextChart`;
   * `drawn` remembers what it shows.
   */
  class Dashboard {
    const fmt: NumberText
    var currentResults: seq<Record>
    var currentPage: nat
    var availableFields: Analysis
    var activeCharts: seq<ChartId>
    var drawn: map<ChartId, (string, ChartSpec)>
    var nextChart: ChartId
    ghost var destroyed: set<ChartId>
    ghost var events: seq<Event>

    /** No chart is live twice, none is live after being destroyed, and none is leaked. */
    ghost predicate Valid()
      reads this
    {
      Healthy(activeCharts, destroyed, nextChart, drawn)
    }

    constructor (numberText: NumberText)
      ensures Valid()
      ensures fmt == numberText
      ensures currentResults == [] && currentPage == 1 && availableFields == NoAnalysis
      ensures activeCharts == [] && nextChart == 0 && destroyed == {} && events == []
    {
      fmt := numberText;
      currentResults := [];
      currentPage := 1;
      availableFields := NoAnalysis;
      activeCharts := [];
      drawn := map[];
      nextChart := 0;
      destroyed := {};
      events := [];
    }

    /** The records of this classroom arrive: newest first, back to page 1. */
    method LoadResults(results: array<Record>) returns (view: ResultsPager.PageView<Record>)
      requires Valid()
      modifies this, results
      ensures Valid()
      ensures currentResults == results[..]
      ensures ResultsPager.NewestFirst(currentResults)
      ensures multiset(currentResults) == multiset(old(results[..]))
      ensures currentPage == 1 && ResultsPager.Renders(view, currentResults, 1)
      ensures availableFields == old(availableFields)
      ensures activeCharts == old(activeCharts) && drawn == old(drawn) && nextChart == old(nextChart)
      ensures destroyed == old(destroyed) && events == old(events)
    {
      ResultsPager.SortNewestFirst(results);
      currentResults := results[..];
      currentPage := 1;
      view := ResultsPager.DisplayResultsPage(currentResults, 1);
    }

    /** `goToPage(page)`: remember the page and render it. */
    method GoToPage(page: nat) returns (view: ResultsPager.PageView<Record>)
      requires Valid() && page >= 1
      modifies this`currentPage
      ensures Valid()
      ensures currentPage == page
      ensures ResultsPager.Renders(view, currentResults, page)
    {
      currentPage := page;
      view := ResultsPager.DisplayResultsPage(currentResults, page);
    }

    /**
     * `showFieldSelectionInterface()`: analyse the records and offer one
     * ticked checkbox per chartable field. Nothing is offered, and the
     * analysis is kept, when there are no records.
     */
    method ShowFieldSelectionInterface() returns (selection: FieldSelection?, rows: seq<FieldInfo>)
      requires Valid()
      requires NumbersOnlyAll(Analyze(currentResults, fmt))
      modifies this`availableFields
      ensures Valid()
      ensures availableFields == if currentResults == [] then old(availableFields) else Analyze(currentResults, fmt)
      ensures selection != null <==> currentResults != [] && EligibleKeys(availableFields) != []
      ensures selection != null ==>
        && fresh(selection) && selection.Valid()
        && selection.keys == EligibleKeys(availableFields)
        && (forall i :: 0 <= i < |selection.checked| ==> selection.checked[i])
        && rows == FieldRows(availableFields, selection.keys)
      ensures selection == null ==> rows == []
    {
      rows := [];
      if |currentResults| == 0 {
        return null, [];
      }
      availableFields := AnalyzeResults(currentResults, fmt);
      var fieldKeys := EligibleKeys(availableFields);
      if |fieldKeys| == 0 {
        return null, [];
      }
      for i := 0 to |fieldKeys|
        invariant rows == FieldRows(availableFields, fieldKeys[..i])
      {
        var key := fieldKeys[i];
        var field := availableFields.fields[key];
        assert fieldKeys[..i + 1][..i] == fieldKeys[..i];
        rows := rows + [FieldInfo(key, FieldName(key), Describe(field), |field.values|)];
      }
      assert fieldKeys[..|fieldKeys|] == fieldKeys;
      selection := new FieldSelection(fieldKeys);
    }

    /**
     * `generateSelectedCharts()`: the ticked keys, in page order; with none
     * ticked nothing changes, otherwise the charts are regenerated for them.
     */
    method GenerateSelectedCharts(selection: FieldSelection) returns (generated: bool)
      requires Valid() && selection.Valid() && NumbersOnlyAll(availableFields)
      modifies this
      ensures Valid()
      ensures generated <==> CheckedKeys(selection.keys, selection.checked) != []
      ensures !generated ==>
        && activeCharts == old(activeCharts) && drawn == old(drawn) && nextChart == old(nextChart)
        && destroyed == old(destroyed) && events == old(events)
      ensures currentResults == old(currentResults) && currentPage == old(currentPage)
      ensures availableFields == old(availableFields)
      ensures generated ==> Replaced(CheckedKeys(selection.keys, selection.checked))
    {
      var selectedFields := selection.SelectedFields();
      if |selectedFields| == 0 {
        return false;
      }
      GenerateChartsForFields(selectedFields);
      generated := true;
    }

    /**
     * What a regeneration for `selected` leaves behind, against the state
     * before it: every chart that was live is destroyed, and then one chart
     * with a fresh id is created for each chartable key, in order.
     */
    twostate predicate Replaced(selected: seq<string>)
      reads this
      requires NumbersOnlyAll(availableFields)
    {
      && destroyed == old(destroyed) + IdSet(old(activeCharts))
      && Built(activeCharts, nextChart, drawn, events,
               old(nextChart), old(drawn), old(events) + DestroyEvents(old(activeCharts)),
               ChartsFor(availableFields, selected))
    }

    /** `generateChartsForFields(selectedFields)`: tear every live chart down, then create the new ones. */
    method GenerateChartsForFields(selectedFields: seq<string>)
      requires Valid() && NumbersOnlyAll(availableFields)
      modifies this
      ensures Valid()
      ensures currentResults == old(currentResults) && currentPage == old(currentPage)
      ensures availableFields == old(availableFields)
      ensures Replaced(selectedFields)
    {
      DestroyActiveCharts();
      CreateCharts(selectedFields);
    }

    /** `activeCharts.forEach(chart => chart.destroy()); activeCharts = []` */
    method DestroyActiveCharts()
      requires Valid()
      modifies this`destroyed, this`events, this`activeCharts
      ensures activeCharts == []
      ensures destroyed == old(destroyed) + IdSet(old(activeCharts))
      ensures events == old(events) + DestroyEvents(old(activeCharts))
      ensures Valid()
    {
      ghost var gone, log := DestroyEach(activeCharts, destroyed, events);
      TeardownLeavesNothingLive(activeCharts, destroyed, nextChart, drawn);
      destroyed := gone;
      events := log;
      activeCharts := [];
    }

    /** The delayed `selectedFields.forEach`: one `createChart` per key that has a known kind. */
    method CreateCharts(selectedFields: seq<string>)
      requires Valid() && NumbersOnlyAll(availableFields) && activeCharts == []
      modifies this`activeCharts, this`nextChart, this`drawn, this`events
      ensures Valid()
      ensures Built(activeCharts, nextChart, drawn, events, old(nextChart), old(drawn), old(events),
                    ChartsFor(availableFields, selectedFields))
    {
      for j := 0 to |selectedFields|
        invariant Built(activeCharts, nextChart, drawn, events, old(nextChart), old(drawn), old(events),
                        ChartsFor(availableFields, selectedFields[..j]))
      {
        var fieldKey := selectedFields[j];
        ChartsForStep(availableFields, selectedFields, j);
        if fieldKey in availableFields.fields && availableFields.fields[fieldKey].kind != Unknown {
          BuiltStep(activeCharts, nextChart, drawn, events, old(nextChart), old(drawn), old(events),
            ChartsFor(availableFields, selectedFields[..j]), (fieldKey, ChartFor(availableFields.fields[fieldKey])));
          CreateChart(fieldKey, availableFields.fields[fieldKey]);
        }
      }
      assert selectedFields[..|selectedFields|] == selectedFields;
      assert Valid() by {
        BuiltIsValid(activeCharts, nextChart, drawn, events, old(nextChart), old(drawn), old(events),
          ChartsFor(availableFields, selectedFields), destroyed);
      }
    }

    /** `createChart` for one field: build its configuration and register the new chart as live. */
    method CreateChart(questionKey: string, analysis: FieldStats)
      requires analysis.kind != Unknown && NumbersOnly(analysis)
      modifies this`activeCharts, this`nextChart, this`drawn, this`events
      ensures activeCharts == old(activeCharts) + [old(nextChart)]
      ensures nextChart == old(nextChart) + 1
      ensures drawn == old(drawn)[old(nextChart) := (questionKey, ChartFor(analysis))]
      ensures events == old(events) + [Created(old(nextChart))]
      ensures destroyed == old(destroyed)
      ensures currentResults == old(currentResults) && currentPage == old(currentPage)
      ensures availableFields == old(availableFields)
    {
      var config: ChartSpec;
      if analysis.kind == Categorical || analysis.kind == Multiple {
        var labels := analysis.counts.keys;
        var data := TalliesOf(analysis.counts, labels);
        config := Pie(labels, data, PieColors(|labels|));
      } else {
        var h := BuildHistogram(NumbersOf(analysis.values));
        config := Bar(h.labels, h.bins);
      }
      var chart := nextChart;
      nextChart := nextChart + 1;
      drawn := drawn[chart := (questionKey, config)];
      activeCharts := activeCharts + [chart];
      events := events + [Created(chart)];
    }
  }
}
