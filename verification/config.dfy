/**
 * The configuration loaders.  The YAML document, once parsed and validated
 * against the schema, is a tree of dictionaries; here each dictionary the
 * loaders read is a datatype whose optional keys are `Option` fields (None
 * where the key is absent).  The `_load_*` functions build fresh metrics,
 * filters and actions from that tree; the settings classes are updated in
 * place by their `load` methods.
 */
module Config {
  import opened Ami
  import opened Sequences
  import opened MetricValues
  import opened EventFilters
  import opened Actions

  // ---------------------------------------------------------------------
  // The parsed configuration
  // ---------------------------------------------------------------------

  /** One entry of a metric's "labels" list. */
  datatype LabelEntry = LabelEntry(name: string, value: string)

  /** A metric's "value" dictionary: its "type" and the optional value expressions. */
  datatype ValueEntry = ValueEntry(
    kind: string,
    incrementValue: Option<string>,
    setValue: Option<string>,
    valueOnScrapeStart: Option<real>)

  datatype MetricEntry = MetricEntry(
    name: string, description: string, labels: Option<seq<LabelEntry>>, value: ValueEntry)

  /** A filter's dictionary: the "event" text and the optional "metrics" list. */
  datatype FilterEntry = FilterEntry(event: string, metrics: Option<seq<MetricEntry>>)

  datatype ActionEntry = ActionEntry(
    name: string,
    until: string,
    responseTimeout: Option<int>,
    eventTimeout: Option<int>,
    actionPriority: Option<int>,
    actionContext: Option<string>,
    actionCallerId: Option<string>,
    collect: Option<seq<FilterEntry>>)

  // ---------------------------------------------------------------------
  // Labels
  // ---------------------------------------------------------------------

  /**
   * `labels[name] = value` on a Python dict: a new name goes to the end of
   * the key order, a known one keeps its place and takes the new value.
   */
  function SetLabel(l: Labels, name: string, value: string): (r: Labels)
    ensures r.exprs == l.exprs[name := value]
    ensures r.names == if name in l.exprs then l.names else l.names + [name]
  {
    if name in l.exprs then LabelSpec(l.names, l.exprs[name := value])
    else LabelSpec(l.names + [name], l.exprs[name := value])
  }

  /** The dict built by assigning every entry in list order. */
  function LabelsOf(es: seq<LabelEntry>): Labels
    decreases |es|
  {
    if |es| == 0 then LabelSpec([], map[])
    else SetLabel(LabelsOf(es[..|es| - 1]), es[|es| - 1].name, es[|es| - 1].value)
  }

  function EntryNames(es: seq<LabelEntry>): (ns: seq<string>)
    ensures |ns| == |es| && forall i :: 0 <= i < |es| ==> ns[i] == es[i].name
  {
    seq(|es|, i requires 0 <= i < |es| => es[i].name)
  }

  /** The labels of a metric entry: none when the "labels" key is absent. */
  function MetricLabels(mc: MetricEntry): Labels {
    match mc.labels
    case None => LabelSpec([], map[])
    case Some(es) => LabelsOf(es)
  }

  /** _load_metric_labels */
  method LoadMetricLabels(mc: MetricEntry) returns (labels: Labels)
    ensures labels == MetricLabels(mc)
  {
    if mc.labels.None? {
      return LabelSpec([], map[]);
    }
    var es := mc.labels.value;
    var names: seq<string> := [];
    var exprs: map<string, string> := map[];
    for i := 0 to |es|
      invariant LabelSpec(names, exprs) == LabelsOf(es[..i])
    {
      assert es[..i + 1][..i] == es[..i];
      if es[i].name !in exprs {
        names := names + [es[i].name];
      }
      exprs := exprs[es[i].name := es[i].value];
    }
    assert es[..|es|] == es;
    labels := LabelSpec(names, exprs);
  }

  /** The label names are exactly the names of the entries. */
  lemma {:induction false} LabelsKeys(es: seq<LabelEntry>, n: string)
    ensures n in LabelsOf(es).exprs <==> n in EntryNames(es)
    ensures n in LabelsOf(es).names <==> n in EntryNames(es)
    decreases |es|
  {
    if |es| > 0 {
      var front := es[..|es| - 1];
      LabelsKeys(front, n);
      assert EntryNames(es) == EntryNames(front) + [es[|es| - 1].name];
    }
  }

  /** A name takes the value of its last entry: later duplicates overwrite earlier ones. */
  lemma {:induction false} LabelsLastWins(es: seq<LabelEntry>, i: nat)
    requires i < |es|
    requires forall j :: i < j < |es| ==> es[j].name != es[i].name
    ensures es[i].name in LabelsOf(es).exprs && LabelsOf(es).exprs[es[i].name] == es[i].value
    decreases |es|
  {
    if i < |es| - 1 {
      var front := es[..|es| - 1];
      forall j | i < j < |front| ensures front[j].name != front[i].name {
        assert front[j] == es[j];
      }
      LabelsLastWins(front, i);
      assert front[i] == es[i];
    }
  }

  /** Appending an element does not move the first position of a name already present. */
  lemma {:induction false} IndexOfPrefix(s: seq<string>, x: string, y: string)
    requires x in s
    ensures IndexOf(s + [y], x) == IndexOf(s, x)
    decreases |s|
  {
    assert (s + [y])[0] == s[0];
    if s[0] != x {
      assert (s + [y])[1..] == s[1..] + [y];
      IndexOfPrefix(s[1..], x, y);
    }
  }

  /** The label names keep the order in which each name first appears in the list. */
  lemma {:induction false} LabelsOrder(es: seq<LabelEntry>, a: nat, b: nat)
    requires a < b < |LabelsOf(es).names|
    ensures LabelsOf(es).names[a] in EntryNames(es) && LabelsOf(es).names[b] in EntryNames(es)
    ensures IndexOf(EntryNames(es), LabelsOf(es).names[a]) < IndexOf(EntryNames(es), LabelsOf(es).names[b])
    decreases |es|
  {
    var front := es[..|es| - 1];
    var last := es[|es| - 1].name;
    var ns := LabelsOf(es).names;
    var fns := LabelsOf(front).names;
    assert EntryNames(es) == EntryNames(front) + [last];
    LabelsKeys(front, ns[a]);
    if b < |fns| {
      LabelsOrder(front, a, b);
      LabelsKeys(front, ns[b]);
      IndexOfPrefix(EntryNames(front), ns[a], last);
      IndexOfPrefix(EntryNames(front), ns[b], last);
    } else {
      // The last name is new: it first appears at the end.
      assert last !in LabelsOf(front).exprs && ns[b] == last;
      LabelsKeys(front, last);
      IndexOfPrefix(EntryNames(front), ns[a], last);
      assert EntryNames(es)[|es| - 1] == last;
    }
  }

  // ---------------------------------------------------------------------
  // Metrics
  // ---------------------------------------------------------------------

  /** The counter's settings: the increment expression defaults to "1". */
  function CounterConfigOf(vc: ValueEntry, name: string, description: string, labels: Labels): CounterConfig {
    CounterConfig(name, description, labels, vc.incrementValue.GetOr("1"))
  }

  /** The gauge's settings: each value expression is absent unless configured. */
  function GaugeConfigOf(vc: ValueEntry, name: string, description: string, labels: Labels): GaugeConfig {
    GaugeConfig(name, description, labels, vc.setValue, vc.incrementValue, vc.valueOnScrapeStart)
  }

  /** The metric _load_metric builds, already initialised; None for an unknown type. */
  function LoadedMetric(mc: MetricEntry): Option<MetricSnap> {
    var labels := MetricLabels(mc);
    if mc.value.kind == "counter" then
      var c := CounterConfigOf(mc.value, mc.name, mc.description, labels);
      Some(CounterSnap(c, CounterInit(c, NewCounter).0))
    else if mc.value.kind == "gauge" then
      var g := GaugeConfigOf(mc.value, mc.name, mc.description, labels);
      Some(GaugeSnap(g, GaugeInit(g, NewGauge).0))
    else None
  }

  /** The defaults of the two loaders, and the error for any other type. */
  lemma LoadedMetricKinds(mc: MetricEntry)
    ensures LoadedMetric(mc).Some? <==> mc.value.kind == "counter" || mc.value.kind == "gauge"
    ensures mc.value.kind == "counter" ==>
      LoadedMetric(mc).value.CounterSnap? &&
      LoadedMetric(mc).value.cc.incrementValue == (if mc.value.incrementValue.None? then "1" else mc.value.incrementValue.value)
    ensures mc.value.kind == "gauge" && mc.value.setValue.None? ==> LoadedMetric(mc).value.gc.setValue.None?
    ensures mc.value.kind == "gauge" && mc.value.incrementValue.None? ==> LoadedMetric(mc).value.gc.incrementValue.None?
    ensures mc.value.kind == "gauge" && mc.value.valueOnScrapeStart.None? ==> LoadedMetric(mc).value.gc.valueOnScrapeStart.None?
  {
  }

  /** A loaded metric exists in Prometheus, and its scrape end never raises. */
  lemma LoadedMetricReady(mc: MetricEntry)
    requires LoadedMetric(mc).Some?
    ensures LoadedMetric(mc).value.Inv() && LoadedMetric(mc).value.Initialized()
    ensures LoadedMetric(mc).value.Committed() && !LoadedMetric(mc).value.UninitializedGauge()
  {
  }

  /** _load_metric_value_counter */
  method LoadCounter(vc: ValueEntry, name: string, description: string, labels: Labels) returns (c: MetricValueCounter)
    ensures fresh(c) && c.Valid() && c.config == CounterConfigOf(vc, name, description, labels)
    ensures c.State() == CounterInit(c.config, NewCounter).0
  {
    c := new MetricValueCounter(CounterConfigOf(vc, name, description, labels));
    var raised := c.Init();
  }

  /** _load_metric_value_gauge */
  method LoadGauge(vc: ValueEntry, name: string, description: string, labels: Labels) returns (g: MetricValueGauge)
    ensures fresh(g) && g.Valid() && g.config == GaugeConfigOf(vc, name, description, labels)
    ensures g.State() == GaugeInit(g.config, NewGauge).0
  {
    g := new MetricValueGauge(GaugeConfigOf(vc, name, description, labels));
    var raised := g.Init();
  }

  /** _load_metric; None where it raises "Invalid metric type". */
  method LoadMetric(mc: MetricEntry) returns (m: Option<MetricValue>)
    ensures m.Some? <==> LoadedMetric(mc).Some?
    ensures m.Some? ==> fresh(m.value.Obj()) && m.value.Valid() && m.value.Snap() == LoadedMetric(mc).value
  {
    var labels := LoadMetricLabels(mc);
    if mc.value.kind == "counter" {
      var c := LoadCounter(mc.value, mc.name, mc.description, labels);
      return Some(Counter(c));
    } else if mc.value.kind == "gauge" {
      var g := LoadGauge(mc.value, mc.name, mc.description, labels);
      return Some(Gauge(g));
    }
    m := None;
  }

  // ---------------------------------------------------------------------
  // Event filters
  // ---------------------------------------------------------------------

  /** The names a filter reacts to: the parts between '|' if there is one, the raw text otherwise. */
  function EventNamesOf(event: string): EventNames {
    if '|' in event then NameList(Split(event, '|')) else RawName(event)
  }

  /** Text without '|' is kept whole; other text is cut into two or more '|'-free parts that join back to it. */
  lemma EventNamesSplit(event: string)
    ensures EventNamesOf(event).RawName? <==> '|' !in event
    ensures EventNamesOf(event).RawName? ==> EventNamesOf(event).text == event
    ensures EventNamesOf(event).NameList? ==>
      var parts := EventNamesOf(event).names;
      |parts| >= 2 && Join(parts, '|') == event &&
      forall i :: 0 <= i < |parts| ==> '|' !in parts[i]
  {
    JoinSplit(event, '|');
    SplitParts(event, '|');
  }

  /** The metrics of a filter entry, in list order; None once one has an unknown type. */
  function LoadedMetrics(ms: seq<MetricEntry>): Option<seq<MetricSnap>>
    decreases |ms|
  {
    if |ms| == 0 then Some([])
    else
      match LoadedMetrics(ms[..|ms| - 1])
      case None => None
      case Some(front) =>
        match LoadedMetric(ms[|ms| - 1])
        case None => None
        case Some(m) => Some(front + [m])
  }

  /** The list loads exactly when every entry has a known type, and then holds their metrics in order. */
  lemma {:induction false} LoadedMetricsFacts(ms: seq<MetricEntry>)
    ensures LoadedMetrics(ms).Some? <==> forall i :: 0 <= i < |ms| ==> LoadedMetric(ms[i]).Some?
    ensures LoadedMetrics(ms).Some? ==>
      |LoadedMetrics(ms).value| == |ms| &&
      forall i :: 0 <= i < |ms| ==> LoadedMetrics(ms).value[i] == LoadedMetric(ms[i]).value
    decreases |ms|
  {
    if |ms| > 0 {
      var front := ms[..|ms| - 1];
      LoadedMetricsFacts(front);
      assert forall i :: 0 <= i < |front| ==> front[i] == ms[i];
    }
  }

  /** The filter _load_event_filter builds; None where loading one of its metrics raises. */
  function LoadedFilter(fc: FilterEntry): Option<FilterSnap> {
    match LoadedMetrics(fc.metrics.GetOr([]))
    case None => None
    case Some(ms) => Some(FilterSnap(EventNamesOf(fc.event), None, ms))
  }

  /** A loaded filter is a standing filter whose metrics all exist, so neither scrape hook raises. */
  lemma LoadedFilterReady(fc: FilterEntry)
    requires LoadedFilter(fc).Some?
    ensures LoadedFilter(fc).value.Inv() && LoadedFilter(fc).value.actionId.None?
    ensures LoadedFilter(fc).value.Committed() && !LoadedFilter(fc).value.HasUninitializedGauge()
  {
    var ms := fc.metrics.GetOr([]);
    LoadedMetricsFacts(ms);
    var f := LoadedFilter(fc).value;
    forall i | 0 <= i < |f.metrics|
      ensures f.metrics[i].Inv() && f.metrics[i].Committed() && !f.metrics[i].UninitializedGauge()
    {
      LoadedMetricReady(ms[i]);
    }
  }

  /** The metrics mvs were loaded, in order, from the entries ms, and are distinct objects. */
  ghost predicate LoadedMetricValues(mvs: seq<MetricValue>, ms: seq<MetricEntry>)
    reads MetricObjects(mvs)
  {
    |mvs| == |ms| && DistinctObjects(mvs) &&
    forall i :: 0 <= i < |mvs| ==>
      LoadedMetric(ms[i]).Some? && mvs[i].Valid() && mvs[i].Snap() == LoadedMetric(ms[i]).value
  }

  /** A valid metric whose object is new to a loaded list extends it. */
  lemma LoadedMetricSnoc(mvs: seq<MetricValue>, m: MetricValue, ms: seq<MetricEntry>, mc: MetricEntry)
    requires LoadedMetricValues(mvs, ms) && m.Obj() !in MetricObjects(mvs)
    requires m.Valid() && LoadedMetric(mc).Some? && m.Snap() == LoadedMetric(mc).value
    ensures LoadedMetricValues(mvs + [m], ms + [mc])
    ensures MetricObjects(mvs + [m]) == MetricObjects(mvs) + {m.Obj()}
  {
    var ns := mvs + [m];
    assert MetricObjects(ns) == MetricObjects(mvs) + {m.Obj()} by {
      forall o | o in MetricObjects(ns) ensures o in MetricObjects(mvs) + {m.Obj()} {
        var i :| 0 <= i < |ns| && ns[i].Obj() == o;
        if i < |mvs| {
          assert ns[i] == mvs[i];
        }
      }
      forall o | o in MetricObjects(mvs) ensures o in MetricObjects(ns) {
        var i :| 0 <= i < |mvs| && mvs[i].Obj() == o;
        assert ns[i] == mvs[i];
      }
      assert ns[|mvs|] == m;
    }
    forall i, j | 0 <= i < |ns| && 0 <= j < |ns| && i != j ensures ns[i].Obj() != ns[j].Obj() {
      if j == |mvs| {
        assert ns[i] == mvs[i];
      } else if i == |mvs| {
        assert ns[j] == mvs[j];
      }
    }
  }

  /** _load_metric on the next entry of a list whose metrics are loaded so far. */
  method LoadNextMetric(ghost mvs: seq<MetricValue>, ghost ms: seq<MetricEntry>, ghost r: set<object>, mc: MetricEntry)
    returns (m: Option<MetricValue>)
    requires r == MetricObjects(mvs) && LoadedMetricValues(mvs, ms)
    ensures m.Some? <==> LoadedMetric(mc).Some?
    ensures m.Some? ==> fresh(m.value.Obj()) && LoadedMetricValues(mvs + [m.value], ms + [mc])
    ensures m.Some? ==> MetricObjects(mvs + [m.value]) == MetricObjects(mvs) + {m.value.Obj()}
  {
    m := LoadMetric(mc);
    if m.Some? {
      assert unchanged(r);
      LoadedMetricSnoc(mvs, m.value, ms, mc);
    }
  }

  /** The loop of _load_event_filter over the "metrics" list; false where a metric raises. */
  method LoadMetricList(ms: seq<MetricEntry>) returns (mvs: seq<MetricValue>, ok: bool)
    ensures ok <==> LoadedMetrics(ms).Some?
    ensures ok ==> fresh(MetricObjects(mvs)) && LoadedMetricValues(mvs, ms)
  {
    mvs := [];
    for i := 0 to |ms|
      invariant fresh(MetricObjects(mvs)) && LoadedMetricValues(mvs, ms[..i])
    {
      var m := LoadNextMetric(mvs, ms[..i], MetricObjects(mvs), ms[i]);
      if m.None? {
        LoadedMetricsFacts(ms);
        return mvs, false;
      }
      TakeSnoc(ms, i);
      mvs := mvs + [m.value];
    }
    assert ms[..|ms|] == ms;
    LoadedMetricsFacts(ms);
    ok := true;
  }

  /** The states of loaded metrics are the metrics the entries describe. */
  lemma LoadedSnaps(mvs: seq<MetricValue>, ms: seq<MetricEntry>, r: set<object>)
    requires Within(mvs, r) && LoadedMetricValues(mvs, ms)
    ensures LoadedMetrics(ms).Some? && MetricSnaps(mvs, r) == LoadedMetrics(ms).value
  {
    LoadedMetricsFacts(ms);
  }

  /** The EventFilter constructor on metrics loaded from ms. */
  method NewFilter(eventNames: EventNames, mvs: seq<MetricValue>, ghost ms: seq<MetricEntry>, ghost r: set<object>)
    returns (filter: EventFilter)
    requires r == MetricObjects(mvs) && LoadedMetricValues(mvs, ms)
    ensures fresh(filter) && filter.Repr == {filter} + r && filter.Valid()
    ensures LoadedMetrics(ms).Some? && filter.Snap() == FilterSnap(eventNames, None, LoadedMetrics(ms).value)
  {
    filter := new EventFilter(eventNames, mvs);
    assert unchanged(r);
    LoadedSnaps(mvs, ms, filter.Repr);
  }

  /** _load_event_filter; None where it raises. */
  method LoadEventFilter(fc: FilterEntry) returns (f: Option<EventFilter>)
    ensures f.Some? <==> LoadedFilter(fc).Some?
    ensures f.Some? ==> fresh(f.value.Repr) && LoadedFilters([f.value], [fc])
  {
    var eventNames := RawName(fc.event);
    if '|' in fc.event {
      eventNames := NameList(Split(fc.event, '|'));
    }
    var metricValues: seq<MetricValue> := [];
    ghost var ms := fc.metrics.GetOr([]);
    if fc.metrics.Some? {
      var ok;
      metricValues, ok := LoadMetricList(fc.metrics.value);
      if !ok {
        return None;
      }
    }
    var filter := NewFilter(eventNames, metricValues, ms, MetricObjects(metricValues));
    f := Some(filter);
  }

  /** The step by which loading a list of filters stops: the first filter that cannot be loaded raises. */
  function FilterLoadStep(): FilterEntry -> (FilterEntry, bool) {
    fc => (fc, LoadedFilter(fc).None?)
  }

  /** How many filters of the list load before the first one raises. */
  function LoadableFilters(cs: seq<FilterEntry>): (n: nat)
    ensures n <= |cs|
  {
    FirstRaise(FilterLoadStep(), cs)
  }

  /** Loading stops at the first entry that cannot be loaded. */
  lemma LoadableFiltersAt(cs: seq<FilterEntry>, k: nat)
    requires k <= |cs| && forall j :: 0 <= j < k ==> LoadedFilter(cs[j]).Some?
    requires k < |cs| ==> LoadedFilter(cs[k]).None?
    ensures LoadableFilters(cs) == k
  {
    FirstRaiseFacts(FilterLoadStep(), cs);
  }

  /** A list loaded up to k, and stopped there, loads exactly k filters. */
  lemma LoadedFiltersAt(fs: seq<EventFilter>, cs: seq<FilterEntry>, k: nat)
    requires k <= |cs| && LoadedFilters(fs, cs[..k])
    requires k < |cs| ==> LoadedFilter(cs[k]).None?
    ensures LoadableFilters(cs) == k
  {
    forall j | 0 <= j < k ensures LoadedFilter(cs[j]).Some? {
      assert cs[..k][j] == cs[j];
    }
    LoadableFiltersAt(cs, k);
  }

  /** The filters fs were loaded, in order, from the entries cs, and own disjoint objects. */
  ghost predicate LoadedFilters(fs: seq<EventFilter>, cs: seq<FilterEntry>)
    reads fs, FiltersRepr(fs)
  {
    |fs| == |cs| && Apart(fs) &&
    forall i :: 0 <= i < |fs| ==> LoadedFilter(cs[i]).Some? && fs[i].Snap() == LoadedFilter(cs[i]).value
  }

  /** A valid filter owning none of the objects of a loaded list extends it. */
  lemma LoadedFilterSnoc(fs: seq<EventFilter>, f: EventFilter, cs: seq<FilterEntry>, c: FilterEntry)
    requires LoadedFilters(fs, cs) && LoadedFilters([f], [c]) && f.Repr !! FiltersRepr(fs)
    ensures LoadedFilters(fs + [f], cs + [c]) && FiltersRepr(fs + [f]) == FiltersRepr(fs) + f.Repr
  {
    var gs := fs + [f];
    FiltersReprSnoc(gs, |fs|);
    assert gs[..|fs|] == fs;
    forall i, j | 0 <= i < j < |gs| ensures gs[i].Repr !! gs[j].Repr {
      if j == |fs| {
        assert gs[i] == fs[i];
      }
    }
  }

  /** _load_event_filter on the next entry of a list whose filters are loaded so far. */
  method LoadNextFilter(ghost fs: seq<EventFilter>, ghost cs: seq<FilterEntry>, ghost r: set<object>, c: FilterEntry)
    returns (f: Option<EventFilter>)
    requires r == FiltersRepr(fs) && LoadedFilters(fs, cs)
    ensures f.Some? <==> LoadedFilter(c).Some?
    ensures f.Some? ==> fresh(f.value.Repr) && LoadedFilters(fs + [f.value], cs + [c])
    ensures f.Some? ==> FiltersRepr(fs + [f.value]) == FiltersRepr(fs) + f.value.Repr
    ensures f.None? ==> LoadedFilters(fs, cs)
  {
    f := LoadEventFilter(c);
    if f.Some? {
      assert unchanged(r) && f.value.Repr !! r;
      LoadedFilterSnoc(fs, f.value, cs, c);
    } else {
      assert unchanged(r);
    }
  }

  /** The loop that loads a filter list: each entry in turn, up to the first that raises. */
  method LoadFilterList(cs: seq<FilterEntry>) returns (fs: seq<EventFilter>, raised: bool)
    ensures raised <==> LoadableFilters(cs) < |cs|
    ensures |fs| == LoadableFilters(cs) && fresh(FiltersRepr(fs)) && LoadedFilters(fs, cs[..|fs|])
  {
    fs, raised := [], false;
    var i := 0;
    while i < |cs|
      invariant i <= |cs| && |fs| == i && fresh(FiltersRepr(fs)) && LoadedFilters(fs, cs[..i])
    {
      var f := LoadNextFilter(fs, cs[..i], FiltersRepr(fs), cs[i]);
      if f.None? {
        raised := true;
        break;
      }
      TakeSnoc(cs, i);
      fs := fs + [f.value];
      i := i + 1;
    }
    LoadedFiltersAt(fs, cs, i);
  }

  // ---------------------------------------------------------------------
  // Actions
  // ---------------------------------------------------------------------

  /** The filter entries of an action: none when the "collect" key is absent. */
  function CollectEntries(ac: ActionEntry): seq<FilterEntry> {
    ac.collect.GetOr([])
  }

  /** The action a was loaded from the entry ac, its absent settings taken from d. */
  ghost predicate LoadedAction(a: Action, ac: ActionEntry, d: DefaultConfig)
    reads d, a.filterList, FiltersRepr(a.filterList)
  {
    a.name == ac.name && a.until == ac.until &&
    a.responseTimeout == ac.responseTimeout.GetOr(d.actionResponseTimeout) &&
    a.eventTimeout == ac.eventTimeout.GetOr(d.actionEventTimeout) &&
    a.actionPriority == ac.actionPriority.GetOr(d.actionPriority) &&
    a.actionContext == ac.actionContext.GetOr(d.actionContext) &&
    a.actionCallerId == ac.actionCallerId.GetOr(d.actionCallerId) &&
    LoadedFilters(a.filterList, CollectEntries(ac))
  }

  /** _load_action; None where loading one of its filters raises. */
  method LoadAction(ac: ActionEntry, d: DefaultConfig) returns (a: Option<Action>)
    ensures a.Some? <==> LoadableFilters(CollectEntries(ac)) == |CollectEntries(ac)|
    ensures a.Some? ==> fresh(FiltersRepr(a.value.filterList)) && LoadedAction(a.value, ac, d)
  {
    var responseTimeout := ac.responseTimeout.GetOr(d.actionResponseTimeout);
    var eventTimeout := ac.eventTimeout.GetOr(d.actionEventTimeout);
    var actionPriority := ac.actionPriority.GetOr(d.actionPriority);
    var actionContext := ac.actionContext.GetOr(d.actionContext);
    var actionCallerId := ac.actionCallerId.GetOr(d.actionCallerId);
    var filterList, raised := LoadFilterList(CollectEntries(ac));
    if raised {
      return None;
    }
    assert CollectEntries(ac)[..|filterList|] == CollectEntries(ac);
    a := Some(Action(ac.name, filterList, ac.until, responseTimeout, eventTimeout,
                     actionPriority, actionContext, actionCallerId));
  }

  /** Whether every filter of the action entry loads. */
  predicate ActionLoads(ac: ActionEntry) {
    LoadableFilters(CollectEntries(ac)) == |CollectEntries(ac)|
  }

  function ActionLoadStep(): ActionEntry -> (ActionEntry, bool) {
    ac => (ac, !ActionLoads(ac))
  }

  /** How many actions of the list load before the first one raises. */
  function LoadableActions(acs: seq<ActionEntry>): (n: nat)
    ensures n <= |acs|
  {
    FirstRaise(ActionLoadStep(), acs)
  }

  /** Loading stops at the first action that cannot be loaded. */
  lemma LoadableActionsAt(acs: seq<ActionEntry>, k: nat)
    requires k <= |acs| && forall j :: 0 <= j < k ==> ActionLoads(acs[j])
    requires k < |acs| ==> !ActionLoads(acs[k])
    ensures LoadableActions(acs) == k
  {
    FirstRaiseFacts(ActionLoadStep(), acs);
  }

  /** An action list loaded up to k, and stopped there, loads exactly k actions. */
  lemma LoadedActionsAt(acts: seq<Action>, acs: seq<ActionEntry>, d: DefaultConfig, k: nat)
    requires k <= |acs| && LoadedActions(acts, acs[..k], d)
    requires k < |acs| ==> !ActionLoads(acs[k])
    ensures LoadableActions(acs) == k
  {
    forall j | 0 <= j < k ensures ActionLoads(acs[j]) {
      assert acs[..k][j] == acs[j];
      assert LoadedAction(acts[j], acs[j], d);
      var cs := CollectEntries(acs[j]);
      assert cs[..|cs|] == cs;
      LoadedFiltersAt(acts[j].filterList, cs, |cs|);
    }
    LoadableActionsAt(acs, k);
  }

  /** The filters of a list and every object they own. */
  ghost function Owned(fs: seq<EventFilter>): set<object> {
    FiltersRepr(fs) + set f | f in fs :: f as object
  }

  /** The filters of the actions and every object they own. */
  ghost function ActionsRepr(acts: seq<Action>): (r: set<object>)
    ensures forall i :: 0 <= i < |acts| ==> FiltersRepr(acts[i].filterList) <= r
    ensures forall i, f :: 0 <= i < |acts| && f in acts[i].filterList ==> f in r
    decreases |acts|
  {
    if |acts| == 0 then {}
    else
      var last := acts[|acts| - 1].filterList;
      ActionsRepr(acts[..|acts| - 1]) + Owned(last)
  }

  /** The actions acts were loaded, in order, from the entries acs. */
  ghost predicate LoadedActions(acts: seq<Action>, acs: seq<ActionEntry>, d: DefaultConfig)
    reads d, ActionsRepr(acts)
  {
    |acts| == |acs| && forall i :: 0 <= i < |acts| ==> LoadedAction(acts[i], acs[i], d)
  }

  lemma LoadedActionSnoc(acts: seq<Action>, a: Action, acs: seq<ActionEntry>, ac: ActionEntry, d: DefaultConfig)
    requires LoadedActions(acts, acs, d) && LoadedAction(a, ac, d)
    ensures LoadedActions(acts + [a], acs + [ac], d)
    ensures ActionsRepr(acts + [a]) == ActionsRepr(acts) + Owned(a.filterList)
  {
    var bs := acts + [a];
    assert bs[..|acts|] == acts;
    forall i | 0 <= i < |bs| ensures LoadedAction(bs[i], (acs + [ac])[i], d) {
      if i < |acts| {
        assert bs[i] == acts[i] && (acs + [ac])[i] == acs[i];
      }
    }
  }

  /** _load_action on the next entry of a list whose actions are loaded so far. */
  method LoadNextAction(ghost acts: seq<Action>, ghost acs: seq<ActionEntry>, ghost r: set<object>, ac: ActionEntry, d: DefaultConfig)
    returns (a: Option<Action>)
    requires r == ActionsRepr(acts) && LoadedActions(acts, acs, d)
    ensures a.Some? <==> ActionLoads(ac)
    ensures a.Some? ==> LoadedActions(acts + [a.value], acs + [ac], d)
    ensures a.Some? ==> ActionsRepr(acts + [a.value]) == r + Owned(a.value.filterList)
    ensures a.Some? ==> fresh(Owned(a.value.filterList))
    ensures a.None? ==> LoadedActions(acts, acs, d)
  {
    a := LoadAction(ac, d);
    if a.Some? {
      assert unchanged(r);
      LoadedActionSnoc(acts, a.value, acs, ac, d);
      forall f | f in a.value.filterList ensures f in FiltersRepr(a.value.filterList) {
        var k :| 0 <= k < |a.value.filterList| && a.value.filterList[k] == f;
        assert f.Valid();
      }
    } else {
      assert unchanged(r);
    }
  }

  /** The loop of __ScrapeConfig.load over the "actions" list, up to the first action that raises. */
  method LoadActionList(acs: seq<ActionEntry>, d: DefaultConfig) returns (acts: seq<Action>, raised: bool)
    ensures raised <==> LoadableActions(acs) < |acs|
    ensures |acts| == LoadableActions(acs) && fresh(ActionsRepr(acts)) && LoadedActions(acts, acs[..|acts|], d)
  {
    acts, raised := [], false;
    var i := 0;
    while i < |acs|
      invariant i <= |acs| && |acts| == i && fresh(ActionsRepr(acts)) && LoadedActions(acts, acs[..i], d)
    {
      var a := LoadNextAction(acts, acs[..i], ActionsRepr(acts), acs[i], d);
      if a.None? {
        raised := true;
        break;
      }
      TakeSnoc(acs, i);
      acts := acts + [a.value];
      i := i + 1;
    }
    LoadedActionsAt(acts, acs, d, i);
  }

  /**
   * The filters of a loaded action come from its entries in order and never
   * make exec raise: none of them holds a gauge that was never created.
   */
  lemma LoadedActionFilters(ac: ActionEntry)
    requires ActionLoads(ac)
    ensures forall i :: 0 <= i < |CollectEntries(ac)| ==>
      LoadedFilter(CollectEntries(ac)[i]).Some? && !LoadedFilter(CollectEntries(ac)[i]).value.HasUninitializedGauge()
  {
    var cs := CollectEntries(ac);
    FirstRaiseFacts(FilterLoadStep(), cs);
    forall i | 0 <= i < |cs| ensures LoadedFilter(cs[i]).Some? && !LoadedFilter(cs[i]).value.HasUninitializedGauge() {
      assert !FilterLoadStep()(cs[i]).1;
      LoadedFilterReady(cs[i]);
    }
  }

  // ---------------------------------------------------------------------
  // Settings
  // ---------------------------------------------------------------------

  datatype AmiClientSettings = AmiClientSettings(ip: string, port: int, username: string, secret: string)

  /** The AMI connection settings; every key is required. */
  class AmiClientConfig {
    var ip: string
    var port: int
    var username: string
    var secret: string

    function Values(): AmiClientSettings
      reads this
    {
      AmiClientSettings(ip, port, username, secret)
    }

    constructor ()
      ensures Values() == AmiClientSettings("undefined", 0, "undefined", "undefined")
    {
      ip, port, username, secret := "undefined", 0, "undefined", "undefined";
    }

    method Load(c: AmiClientSettings)
      modifies this
      ensures Values() == c
    {
      ip := c.ip;
      port := c.port;
      username := c.username;
      secret := c.secret;
    }
  }

  datatype GeneralSettings = GeneralSettings(
    logLevel: string,
    loginValidationTimeout: int,
    fullyBootedValidationTimeout: int,
    responseTimeout: int,
    pingTimeout: int)

  datatype GeneralEntries = GeneralEntries(
    logLevel: Option<string>,
    loginValidationTimeout: Option<int>,
    fullyBootedValidationTimeout: Option<int>,
    responseTimeout: Option<int>,
    pingTimeout: Option<int>)

  /** The general settings after a load: each present key replaces the current value. */
  function LoadGeneral(s: GeneralSettings, c: GeneralEntries): GeneralSettings {
    GeneralSettings(
      c.logLevel.GetOr(s.logLevel),
      c.loginValidationTimeout.GetOr(s.loginValidationTimeout),
      c.fullyBootedValidationTimeout.GetOr(s.fullyBootedValidationTimeout),
      c.responseTimeout.GetOr(s.responseTimeout),
      c.pingTimeout.GetOr(s.pingTimeout))
  }

  /** An empty dictionary changes nothing, a full one decides everything, and loading twice is loading once. */
  lemma LoadGeneralKeeps(s: GeneralSettings, t: GeneralSettings, c: GeneralEntries)
    ensures LoadGeneral(s, GeneralEntries(None, None, None, None, None)) == s
    ensures (c.logLevel.Some? && c.loginValidationTimeout.Some? && c.fullyBootedValidationTimeout.Some? &&
             c.responseTimeout.Some? && c.pingTimeout.Some?) ==> LoadGeneral(s, c) == LoadGeneral(t, c)
    ensures LoadGeneral(LoadGeneral(s, c), c) == LoadGeneral(s, c)
  {
  }

  class GeneralConfig {
    var logLevel: string
    var loginValidationTimeout: int
    var fullyBootedValidationTimeout: int
    var responseTimeout: int
    var pingTimeout: int

    function Values(): GeneralSettings
      reads this
    {
      GeneralSettings(logLevel, loginValidationTimeout, fullyBootedValidationTimeout, responseTimeout, pingTimeout)
    }

    constructor ()
      ensures Values() == GeneralSettings("INFO", 10, 60, 10, 120)
    {
      logLevel, loginValidationTimeout, fullyBootedValidationTimeout := "INFO", 10, 60;
      responseTimeout, pingTimeout := 10, 120;
    }

    method Load(c: GeneralEntries)
      modifies this
      ensures Values() == LoadGeneral(old(Values()), c)
    {
      logLevel := c.logLevel.GetOr(logLevel);
      loginValidationTimeout := c.loginValidationTimeout.GetOr(loginValidationTimeout);
      fullyBootedValidationTimeout := c.fullyBootedValidationTimeout.GetOr(fullyBootedValidationTimeout);
      responseTimeout := c.responseTimeout.GetOr(responseTimeout);
      pingTimeout := c.pingTimeout.GetOr(pingTimeout);
    }
  }

  datatype DefaultSettings = DefaultSettings(
    scrapeInterval: int,
    actionResponseTimeout: int,
    actionEventTimeout: int,
    actionPriority: int,
    actionContext: string,
    actionCallerId: string)

  datatype DefaultEntries = DefaultEntries(
    scrapeInterval: Option<int>,
    actionResponseTimeout: Option<int>,
    actionEventTimeout: Option<int>,
    actionPriority: Option<int>,
    actionContext: Option<string>,
    actionCallerId: Option<string>)

  /** The defaults after a load: each present key replaces the current value. */
  function LoadDefaults(s: DefaultSettings, c: DefaultEntries): DefaultSettings {
    DefaultSettings(
      c.scrapeInterval.GetOr(s.scrapeInterval),
      c.actionResponseTimeout.GetOr(s.actionResponseTimeout),
      c.actionEventTimeout.GetOr(s.actionEventTimeout),
      c.actionPriority.GetOr(s.actionPriority),
      c.actionContext.GetOr(s.actionContext),
      c.actionCallerId.GetOr(s.actionCallerId))
  }

  /** An empty dictionary changes nothing, a full one decides everything, and loading twice is loading once. */
  lemma LoadDefaultsKeeps(s: DefaultSettings, t: DefaultSettings, c: DefaultEntries)
    ensures LoadDefaults(s, DefaultEntries(None, None, None, None, None, None)) == s
    ensures (c.scrapeInterval.Some? && c.actionResponseTimeout.Some? && c.actionEventTimeout.Some? &&
             c.actionPriority.Some? && c.actionContext.Some? && c.actionCallerId.Some?) ==> LoadDefaults(s, c) == LoadDefaults(t, c)
    ensures LoadDefaults(LoadDefaults(s, c), c) == LoadDefaults(s, c)
  {
  }

  /** The defaults for settings an action or the scrape section leaves out. */
  class DefaultConfig {
    var scrapeInterval: int
    var actionResponseTimeout: int
    var actionEventTimeout: int
    var actionPriority: int
    var actionContext: string
    var actionCallerId: string

    function Values(): DefaultSettings
      reads this
    {
      DefaultSettings(scrapeInterval, actionResponseTimeout, actionEventTimeout, actionPriority, actionContext, actionCallerId)
    }

    constructor ()
      ensures Values() == DefaultSettings(10, 5, 10, 1, "default", "python")
    {
      scrapeInterval, actionResponseTimeout, actionEventTimeout := 10, 5, 10;
      actionPriority, actionContext, actionCallerId := 1, "default", "python";
    }

    method Load(c: DefaultEntries)
      modifies this
      ensures Values() == LoadDefaults(old(Values()), c)
    {
      scrapeInterval := c.scrapeInterval.GetOr(scrapeInterval);
      actionResponseTimeout := c.actionResponseTimeout.GetOr(actionResponseTimeout);
      actionEventTimeout := c.actionEventTimeout.GetOr(actionEventTimeout);
      actionPriority := c.actionPriority.GetOr(actionPriority);
      actionContext := c.actionContext.GetOr(actionContext);
      actionCallerId := c.actionCallerId.GetOr(actionCallerId);
    }
  }

  /** The standing filters; each load appends to the list. */
  class FilterConfig {
    var filterList: seq<EventFilter>

    constructor ()
      ensures filterList == []
    {
      filterList := [];
    }

    /** Appends the filters of cs in order; one that raises ends the load, the ones before it stay. */
    method Load(cs: seq<FilterEntry>) returns (raised: bool)
      modifies this
      ensures raised <==> LoadableFilters(cs) < |cs|
      ensures |filterList| == |old(filterList)| + LoadableFilters(cs)
      ensures filterList[..|old(filterList)|] == old(filterList)
      ensures fresh(FiltersRepr(filterList[|old(filterList)|..]))
      ensures LoadedFilters(filterList[|old(filterList)|..], cs[..LoadableFilters(cs)])
    {
      var fs;
      fs, raised := LoadFilterList(cs);
      filterList := filterList + fs;
      assert filterList[|old(filterList)|..] == fs && filterList[..|old(filterList)|] == old(filterList);
    }
  }

  datatype ScrapeEntries = ScrapeEntries(interval: Option<int>, actions: Option<seq<ActionEntry>>)

  /** The scrape section: the interval and the actions run on every scrape. */
  class ScrapeConfig {
    var interval: int
    var actionList: seq<Action>

    constructor ()
      ensures interval == 0 && actionList == []
    {
      interval := 0;
      actionList := [];
    }

    /**
     * Sets the interval (the default configuration's scrape interval when
     * absent), then appends the actions in order; one that raises ends the
     * load, the ones before it stay.
     */
    method Load(c: ScrapeEntries, d: DefaultConfig) returns (raised: bool)
      modifies this
      ensures interval == c.interval.GetOr(d.scrapeInterval)
      ensures raised <==> LoadableActions(c.actions.GetOr([])) < |c.actions.GetOr([])|
      ensures |actionList| == |old(actionList)| + LoadableActions(c.actions.GetOr([]))
      ensures actionList[..|old(actionList)|] == old(actionList)
      ensures fresh(ActionsRepr(actionList[|old(actionList)|..]))
      ensures LoadedActions(actionList[|old(actionList)|..], c.actions.GetOr([])[..LoadableActions(c.actions.GetOr([]))], d)
    {
      interval := c.interval.GetOr(d.scrapeInterval);
      var actions;
      actions, raised := LoadActionList(c.actions.GetOr([]), d);
      actionList := actionList + actions;
      assert actionList[|old(actionList)|..] == actions && actionList[..|old(actionList)|] == old(actionList);
    }
  }
}
