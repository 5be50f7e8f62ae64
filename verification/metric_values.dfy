/**
 * Metric values: a counter or a gauge fed by AMI events.
 *
 * Each metric evaluates its configured expressions against an event (a
 * literal, or `$key` for the event attribute `key`), converts the text to a
 * number, and updates its series.  The Prometheus metric behind it (the
 * "exposed" series a scrape reads) is modelled as a map from label tuple to
 * value; an unlabelled metric has the single series keyed by the empty tuple.
 *
 * The behaviour is first given as pure transitions over state values
 * (CounterState, GaugeState) with lemmas about them; the classes below hold
 * the same state in fields and their methods are proved to follow the
 * transitions.
 */
module MetricValues {
  import opened Ami
  import opened NumberText
  import opened Sequences

  type SeriesKey = seq<string>
  type Series = map<SeriesKey, real>

  /** The labels of a metric: names in configuration order, each with its value expression. */
  datatype LabelSpec = LabelSpec(names: seq<string>, exprs: map<string, string>) {
    predicate WellFormed() {
      Distinct(names) && (forall n :: n in exprs ==> n in names) &&
      forall i :: 0 <= i < |names| ==> names[i] in exprs
    }
  }

  type Labels = l: LabelSpec | l.WellFormed() witness LabelSpec([], map[])

  // ---------------------------------------------------------------------
  // Expressions and numbers
  // ---------------------------------------------------------------------

  /** An expression evaluated against an event: `$key` is looked up, anything else is literal text. */
  function EvalValue(e: Event, expr: string): string {
    if |expr| == 0 then expr
    else if expr[0] == '$' then
      if expr[1..] in e.keys then e.keys[expr[1..]] else expr
    else expr
  }

  /** Text that does not start with '$' is its own value. */
  lemma EvalLiteral(e: Event, text: string)
    requires |text| == 0 || text[0] != '$'
    ensures EvalValue(e, text) == text
  {
  }

  /** `$key` is the event's attribute when present, and stays the unresolved text otherwise. */
  lemma EvalReference(e: Event, key: string)
    ensures key in e.keys ==> EvalValue(e, "$" + key) == e.keys[key]
    ensures key !in e.keys ==> EvalValue(e, "$" + key) == "$" + key
  {
    assert ("$" + key)[1..] == key;
  }

  /** Text as a number: float() of the text, or 0 where float() rejects it. */
  function ConvertValue(text: string): real {
    match ParseFloat(text)
    case Some(v) => v
    case None => 0.0
  }

  /** A reference to an attribute the event lacks contributes 0. */
  lemma UnresolvedReferenceIsZero(e: Event, key: string)
    requires key !in e.keys
    ensures ConvertValue(EvalValue(e, "$" + key)) == 0.0
  {
    EvalReference(e, key);
    ReferenceIsNotNumber("$" + key);
  }

  /** An integer attribute, as AMI renders it, converts to its value. */
  lemma ConvertIntegerText(n: int)
    ensures ConvertValue(IntToString(n)) == n as real
  {
    ParseFloatOfIntToString(n);
  }

  /** The label dictionary for an event: every configured label name, mapped to its evaluated expression. */
  method EvalLabels(labels: Labels, e: Event) returns (result: map<string, string>)
    ensures result.Keys == labels.exprs.Keys
    ensures forall n :: n in result ==> result[n] == EvalValue(e, labels.exprs[n])
  {
    result := map[];
    var i := 0;
    while i < |labels.names|
      invariant 0 <= i <= |labels.names|
      invariant forall n :: n in result <==> n in labels.names[..i]
      invariant forall n :: n in result ==> n in labels.exprs && result[n] == EvalValue(e, labels.exprs[n])
    {
      var name := labels.names[i];
      assert labels.names[..i + 1] == labels.names[..i] + [name];
      result := result[name := EvalValue(e, labels.exprs[name])];
      i := i + 1;
    }
    assert labels.names[..i] == labels.names;
  }

  /** The label tuple of a series: each label's evaluated expression, in label-name order. */
  function KeyOf(names: seq<string>, exprs: map<string, string>, e: Event): (key: SeriesKey)
    requires forall i :: 0 <= i < |names| ==> names[i] in exprs
    ensures |key| == |names|
    ensures forall i :: 0 <= i < |names| ==> key[i] == EvalValue(e, exprs[names[i]])
    decreases |names|
  {
    if |names| == 0 then []
    else KeyOf(names[..|names| - 1], exprs, e) + [EvalValue(e, exprs[names[|names| - 1]])]
  }

  function LabelKey(labels: Labels, e: Event): SeriesKey {
    KeyOf(labels.names, labels.exprs, e)
  }

  /** The tuple of a label dictionary's values in label-name order (the key process_event builds). */
  function Tuple(names: seq<string>, dict: map<string, string>): seq<string>
    requires forall i :: 0 <= i < |names| ==> names[i] in dict
  {
    seq(|names|, i requires 0 <= i < |names| => dict[names[i]])
  }

  /** The tuple of the evaluated label dictionary is the series key of the event. */
  lemma TupleOfEvaluatedLabels(labels: Labels, e: Event, dict: map<string, string>)
    requires dict.Keys == labels.exprs.Keys
    requires forall n :: n in dict ==> dict[n] == EvalValue(e, labels.exprs[n])
    ensures Tuple(labels.names, dict) == LabelKey(labels, e)
  {
  }

  /** The value of a series, 0 for one not yet created (as a Prometheus child starts). */
  function Get(m: Series, k: SeriesKey): real {
    if k in m then m[k] else 0.0
  }

  // ---------------------------------------------------------------------
  // Counter
  // ---------------------------------------------------------------------

  datatype CounterConfig = CounterConfig(name: string, description: string, labels: Labels, incrementValue: string)

  /** Whether the Prometheus counter exists yet, and its series. */
  datatype CounterState = CounterState(initialized: bool, series: Series)

  predicate CounterInv(c: CounterConfig, s: CounterState) {
    !s.initialized ==> s.series == map[]
  }

  const NewCounter := CounterState(false, map[])

  /** Creating the Prometheus counter; a second creation is refused (the name is already registered). */
  function CounterInit(c: CounterConfig, s: CounterState): (CounterState, bool) {
    if s.initialized then (s, true)
    else (CounterState(true, if c.labels.names == [] then map[[] := 0.0] else map[]), false)
  }

  function CounterIncrement(c: CounterConfig, e: Event): real {
    ConvertValue(EvalValue(e, c.incrementValue))
  }

  /** process_event: raise when not initialized, otherwise add the increment to the event's series. */
  function CounterProcess(c: CounterConfig, s: CounterState, e: Event): (CounterState, bool) {
    if !s.initialized then (s, true)
    else
      var key := LabelKey(c.labels, e);
      (s.(series := s.series[key := Get(s.series, key) + CounterIncrement(c, e)]), false)
  }

  /**
   * An event raises exactly when the counter is not initialized, and then changes
   * nothing; otherwise only the series keyed by the event's label values grows,
   * by the converted increment.
   */
  lemma CounterProcessChangesOneSeries(c: CounterConfig, s: CounterState, e: Event)
    ensures CounterProcess(c, s, e).1 <==> !s.initialized
    ensures !s.initialized ==> CounterProcess(c, s, e).0 == s
    ensures s.initialized ==>
      var t := CounterProcess(c, s, e).0;
      var key := LabelKey(c.labels, e);
      t.initialized && t.series.Keys == s.series.Keys + {key} &&
      t.series[key] == Get(s.series, key) + CounterIncrement(c, e) &&
      forall k :: k in s.series && k != key ==> t.series[k] == s.series[k]
  {
  }

  /** A sequence of events processed in order, stopping at the first that raises. */
  function CounterRun(c: CounterConfig, s: CounterState, es: seq<Event>): CounterState
    decreases |es|
  {
    if |es| == 0 then s
    else
      var r := CounterProcess(c, s, es[0]);
      if r.1 then r.0 else CounterRun(c, r.0, es[1..])
  }

  function IncrementSum(c: CounterConfig, es: seq<Event>): real
    decreases |es|
  {
    if |es| == 0 then 0.0 else CounterIncrement(c, es[0]) + IncrementSum(c, es[1..])
  }

  /** An unlabelled counter ends at its start value plus the sum of the events' increments. */
  lemma {:induction false} CounterRunSums(c: CounterConfig, s: CounterState, es: seq<Event>)
    requires c.labels.names == [] && s.initialized
    ensures CounterRun(c, s, es).initialized
    ensures Get(CounterRun(c, s, es).series, []) == Get(s.series, []) + IncrementSum(c, es)
    decreases |es|
  {
    if |es| > 0 {
      var t := CounterProcess(c, s, es[0]).0;
      assert LabelKey(c.labels, es[0]) == [];
      CounterRunSums(c, t, es[1..]);
    }
  }

  lemma CounterInvPreserved(c: CounterConfig, s: CounterState, e: Event)
    requires CounterInv(c, s)
    ensures CounterInv(c, CounterInit(c, s).0)
    ensures CounterInv(c, CounterProcess(c, s, e).0)
  {
  }

  // ---------------------------------------------------------------------
  // Gauge
  // ---------------------------------------------------------------------

  datatype GaugeConfig = GaugeConfig(
    name: string, description: string, labels: Labels,
    setValue: Option<string>, incrementValue: Option<string>, valueOnScrapeStart: Option<real>)

  /**
   * The gauge's buffer (the unlabelled value and the value of every label tuple
   * seen), the scrape-in-progress flag, and the exposed Prometheus series.
   */
  datatype GaugeState = GaugeState(
    initialized: bool, value: real, labelValues: Series, scraping: bool, exposed: Series)

  const NewGauge := GaugeState(false, 0.0, map[], false, map[])

  /** The buffered values by series: the unlabelled value under the empty tuple, or every tuple seen. */
  function Buffer(c: GaugeConfig, s: GaugeState): Series {
    if c.labels.names == [] then map[[] := s.value] else s.labelValues
  }

  /** A gauge is scraped only once it exists, and exposes only series it has buffered. */
  predicate GaugeInv(c: GaugeConfig, s: GaugeState) {
    (!s.initialized ==> !s.scraping && s.exposed == map[]) &&
    s.exposed.Keys <= Buffer(c, s).Keys
  }

  function GaugeInit(c: GaugeConfig, s: GaugeState): (GaugeState, bool) {
    if s.initialized then (s, true)
    else (s.(initialized := true, exposed := if c.labels.names == [] then map[[] := 0.0] else map[]), false)
  }

  /** __set_on_scrape_start_value: every buffered value back to the configured start value, if any. */
  function ResetValues(c: GaugeConfig, s: GaugeState): GaugeState {
    match c.valueOnScrapeStart
    case None => s
    case Some(v) =>
      if c.labels.names == [] then s.(value := v)
      else s.(labelValues := map k | k in s.labelValues :: v)
  }

  /** __update_gauge: every buffered value pushed to the exposed gauge; raises when not initialized. */
  function PushBuffer(c: GaugeConfig, s: GaugeState): (GaugeState, bool) {
    if !s.initialized then (s, true)
    else (s.(exposed := s.exposed + Buffer(c, s)), false)
  }

  /** on_scrape_start: nothing before initialization; then the flag goes up and values reset. */
  function GaugeScrapeStart(c: GaugeConfig, s: GaugeState): GaugeState {
    if !s.initialized then s else ResetValues(c, s.(scraping := true))
  }

  /** A series' value after an event: the set expression replaces it, then the increment adds to it. */
  function NextValue(c: GaugeConfig, e: Event, current: real): real {
    var afterSet := match c.setValue
      case Some(x) => ConvertValue(EvalValue(e, x))
      case None => current;
    match c.incrementValue
    case Some(x) => afterSet + ConvertValue(EvalValue(e, x))
    case None => afterSet
  }

  /** The buffer update of process_event; an unseen label tuple starts at 0. */
  function GaugeApply(c: GaugeConfig, s: GaugeState, e: Event): GaugeState {
    if c.labels.names == [] then s.(value := NextValue(c, e, s.value))
    else
      var key := LabelKey(c.labels, e);
      s.(labelValues := s.labelValues[key := NextValue(c, e, Get(s.labelValues, key))])
  }

  /** process_event: update the buffer, then push it unless a scrape is in progress. */
  function GaugeProcess(c: GaugeConfig, s: GaugeState, e: Event): (GaugeState, bool) {
    var t := GaugeApply(c, s, e);
    if t.scraping then (t, false) else PushBuffer(c, t)
  }

  /** Set is applied before increment: with both, the old value is forgotten. */
  lemma SetBeforeIncrement(c: GaugeConfig, e: Event, current: real)
    ensures c.setValue.Some? && c.incrementValue.Some? ==>
      NextValue(c, e, current) ==
        ConvertValue(EvalValue(e, c.setValue.value)) + ConvertValue(EvalValue(e, c.incrementValue.value))
    ensures c.setValue.None? && c.incrementValue.Some? ==>
      NextValue(c, e, current) == current + ConvertValue(EvalValue(e, c.incrementValue.value))
    ensures c.setValue.Some? && c.incrementValue.None? ==>
      NextValue(c, e, current) == ConvertValue(EvalValue(e, c.setValue.value))
    ensures c.setValue.None? && c.incrementValue.None? ==> NextValue(c, e, current) == current
  {
  }

  /**
   * An event changes the buffer only at the event's label tuple, which it
   * creates at 0 when unseen, whatever the flags; the exposed series stay
   * as they were when the gauge raises or a scrape is in progress.
   */
  lemma {:induction false} GaugeProcessChangesOneSeries(c: GaugeConfig, s: GaugeState, e: Event)
    ensures
      var t := GaugeProcess(c, s, e).0;
      var key := LabelKey(c.labels, e);
      Buffer(c, t).Keys == Buffer(c, s).Keys + {key} &&
      Buffer(c, t)[key] == NextValue(c, e, Get(Buffer(c, s), key)) &&
      (forall k :: k in Buffer(c, s) && k != key ==> Buffer(c, t)[k] == Buffer(c, s)[k]) &&
      t.initialized == s.initialized && t.scraping == s.scraping
    ensures GaugeProcess(c, s, e).1 <==> !s.initialized && !s.scraping
    ensures GaugeProcess(c, s, e).1 || s.scraping ==> GaugeProcess(c, s, e).0.exposed == s.exposed
  {
    var key := LabelKey(c.labels, e);
    if c.labels.names == [] {
      assert key == [];
    }
  }

  /** Merging a buffer into exposed series that it covers gives exactly the buffer. */
  lemma CoveredMerge(exposed: Series, buffer: Series)
    requires exposed.Keys <= buffer.Keys
    ensures exposed + buffer == buffer
  {
    assert (exposed + buffer).Keys == buffer.Keys;
  }

  /** Outside a scrape, an initialized gauge exposes its whole buffer after every event. */
  lemma GaugeProcessPushesWhenIdle(c: GaugeConfig, s: GaugeState, e: Event)
    requires GaugeInv(c, s) && s.initialized && !s.scraping
    ensures !GaugeProcess(c, s, e).1
    ensures GaugeProcess(c, s, e).0.exposed == Buffer(c, GaugeProcess(c, s, e).0)
  {
    var t := GaugeApply(c, s, e);
    GaugeProcessChangesOneSeries(c, s, e);
    CoveredMerge(t.exposed, Buffer(c, t));
  }

  /**
   * on_scrape_start raises the flag and resets the values of the existing series
   * (creating none) on an initialized gauge, and does nothing to one that is not.
   */
  lemma GaugeScrapeStartResets(c: GaugeConfig, s: GaugeState)
    ensures !s.initialized ==> GaugeScrapeStart(c, s) == s
    ensures s.initialized ==>
      var t := GaugeScrapeStart(c, s);
      t.scraping && t.initialized && t.exposed == s.exposed &&
      Buffer(c, t).Keys == Buffer(c, s).Keys &&
      (c.valueOnScrapeStart.None? ==> Buffer(c, t) == Buffer(c, s)) &&
      (c.valueOnScrapeStart.Some? ==> forall k :: k in Buffer(c, t) ==> Buffer(c, t)[k] == c.valueOnScrapeStart.value)
  {
  }

  /**
   * on_scrape_end makes an initialized gauge expose exactly its buffer and leaves
   * the buffer and the scrape flag as they were (the flag is never lowered); it
   * raises on a gauge that is not initialized, changing nothing.
   */
  lemma GaugeScrapeEndCommits(c: GaugeConfig, s: GaugeState)
    requires GaugeInv(c, s)
    ensures PushBuffer(c, s).1 <==> !s.initialized
    ensures !s.initialized ==> PushBuffer(c, s).0 == s
    ensures s.initialized ==>
      var t := PushBuffer(c, s).0;
      t.exposed == Buffer(c, t) && Buffer(c, t) == Buffer(c, s) &&
      t.scraping == s.scraping && t.initialized
  {
    if s.initialized {
      CoveredMerge(s.exposed, Buffer(c, s));
    }
  }

  /** A second on_scrape_end right after the first changes nothing more. */
  lemma GaugeScrapeEndIdempotent(c: GaugeConfig, s: GaugeState)
    requires GaugeInv(c, s)
    ensures PushBuffer(c, PushBuffer(c, s).0) == PushBuffer(c, s)
  {
    if s.initialized {
      CoveredMerge(s.exposed, Buffer(c, s));
      var t := PushBuffer(c, s).0;
      CoveredMerge(t.exposed, Buffer(c, t));
    }
  }

  lemma GaugeInvPreserved(c: GaugeConfig, s: GaugeState, e: Event)
    requires GaugeInv(c, s)
    ensures GaugeInv(c, GaugeInit(c, s).0)
    ensures GaugeInv(c, GaugeScrapeStart(c, s))
    ensures GaugeInv(c, PushBuffer(c, s).0)
    ensures GaugeInv(c, GaugeProcess(c, s, e).0)
  {
    GaugeProcessChangesOneSeries(c, s, e);
    var t := GaugeApply(c, s, e);
    assert Buffer(c, s).Keys <= Buffer(c, t).Keys;
  }

  // ---------------------------------------------------------------------
  // Either kind, as a filter holds them
  // ---------------------------------------------------------------------

  /** A metric's configuration together with its state. */
  datatype MetricSnap = CounterSnap(cc: CounterConfig, cs: CounterState) | GaugeSnap(gc: GaugeConfig, gs: GaugeState)
  {
    predicate Inv() {
      match this
      case CounterSnap(c, s) => CounterInv(c, s)
      case GaugeSnap(c, s) => GaugeInv(c, s)
    }

    predicate Initialized() {
      match this
      case CounterSnap(_, s) => s.initialized
      case GaugeSnap(_, s) => s.initialized
    }

    /** A gauge that exposes exactly its buffer; a counter always exposes its series. */
    predicate Committed() {
      match this
      case CounterSnap(_, _) => true
      case GaugeSnap(c, s) => s.exposed == Buffer(c, s)
    }

    /** Whether this is a gauge whose on_scrape_end would raise. */
    predicate UninitializedGauge() {
      GaugeSnap? && !gs.initialized
    }
  }

  function MetricProcess(m: MetricSnap, e: Event): (MetricSnap, bool) {
    match m
    case CounterSnap(c, s) => var r := CounterProcess(c, s, e); (CounterSnap(c, r.0), r.1)
    case GaugeSnap(c, s) => var r := GaugeProcess(c, s, e); (GaugeSnap(c, r.0), r.1)
  }

  /** on_scrape_start of the base class does nothing for a counter. */
  function MetricScrapeStart(m: MetricSnap): MetricSnap {
    match m
    case CounterSnap(_, _) => m
    case GaugeSnap(c, s) => GaugeSnap(c, GaugeScrapeStart(c, s))
  }

  /** on_scrape_end of the base class does nothing for a counter. */
  function MetricScrapeEnd(m: MetricSnap): (MetricSnap, bool) {
    match m
    case CounterSnap(_, _) => (m, false)
    case GaugeSnap(c, s) => var r := PushBuffer(c, s); (GaugeSnap(c, r.0), r.1)
  }

  /** Every step keeps the kind, the configuration, the invariant and whether the metric exists. */
  lemma MetricStepsKeepShape(m: MetricSnap, e: Event)
    requires m.Inv()
    ensures var r := MetricProcess(m, e).0;
      r.Inv() && r.Initialized() == m.Initialized() && r.CounterSnap? == m.CounterSnap? &&
      (r.CounterSnap? ==> r.cc == m.cc) && (r.GaugeSnap? ==> r.gc == m.gc)
    ensures var r := MetricScrapeStart(m);
      r.Inv() && r.Initialized() == m.Initialized() && r.CounterSnap? == m.CounterSnap? &&
      (r.CounterSnap? ==> r.cc == m.cc) && (r.GaugeSnap? ==> r.gc == m.gc)
    ensures var r := MetricScrapeEnd(m).0;
      r.Inv() && r.Initialized() == m.Initialized() && r.CounterSnap? == m.CounterSnap? &&
      (r.CounterSnap? ==> r.cc == m.cc) && (r.GaugeSnap? ==> r.gc == m.gc)
  {
    match m
    case CounterSnap(c, s) => CounterInvPreserved(c, s, e);
    case GaugeSnap(c, s) =>
      GaugeInvPreserved(c, s, e);
      GaugeProcessChangesOneSeries(c, s, e);
  }

  /** on_scrape_end raises exactly on an uninitialized gauge, and otherwise leaves the metric committed. */
  lemma MetricScrapeEndCommits(m: MetricSnap)
    requires m.Inv()
    ensures MetricScrapeEnd(m).1 <==> m.UninitializedGauge()
    ensures !MetricScrapeEnd(m).1 ==> MetricScrapeEnd(m).0.Committed()
  {
    if m.GaugeSnap? {
      GaugeScrapeEndCommits(m.gc, m.gs);
    }
  }

  // ---------------------------------------------------------------------
  // The objects
  // ---------------------------------------------------------------------

  /** The loop of __set_on_scrape_start_value: every existing series set to v, none created. */
  method ResetAll(values: Series, v: real) returns (r: Series)
    ensures r.Keys == values.Keys
    ensures forall k :: k in r ==> r[k] == v
  {
    r := values;
    var todo := values.Keys;
    while todo != {}
      invariant todo <= values.Keys && r.Keys == values.Keys
      invariant forall k :: k in r ==> r[k] == if k in todo then values[k] else v
      decreases |todo|
    {
      var k :| k in todo;
      r := r[k := v];
      todo := todo - {k};
    }
  }

  /** The loop of __update_gauge: gauge.labels(*key).set(value) for every buffered series. */
  method SetAll(exposed: Series, buffer: Series) returns (r: Series)
    ensures r == exposed + buffer
  {
    r := exposed;
    var todo := buffer.Keys;
    while todo != {}
      invariant todo <= buffer.Keys
      invariant r.Keys == exposed.Keys + (buffer.Keys - todo)
      invariant forall k :: k in r ==> r[k] == if k in buffer && k !in todo then buffer[k] else exposed[k]
      decreases |todo|
    {
      var k :| k in todo;
      r := r[k := buffer[k]];
      todo := todo - {k};
    }
  }

  class MetricValueCounter {
    const config: CounterConfig
    var initialized: bool
    var series: Series

    function State(): CounterState
      reads this
    {
      CounterState(initialized, series)
    }

    ghost predicate Valid()
      reads this
    {
      CounterInv(config, State())
    }

    constructor (config: CounterConfig)
      ensures this.config == config && State() == NewCounter && Valid()
    {
      this.config := config;
      initialized := false;
      series := map[];
    }

    method Init() returns (raised: bool)
      requires Valid()
      modifies this
      ensures Valid()
      ensures (State(), raised) == CounterInit(config, old(State()))
    {
      raised := initialized;
      if !raised {
        initialized := true;
        series := if config.labels.names == [] then map[[] := 0.0] else map[];
      }
    }

    method ProcessEvent(e: Event) returns (raised: bool)
      requires Valid()
      modifies this
      ensures Valid()
      ensures (State(), raised) == CounterProcess(config, old(State()), e)
    {
      if !initialized {
        return true;
      }
      raised := false;
      var increment := ConvertValue(EvalValue(e, config.incrementValue));
      var names := config.labels.names;
      if |names| == 0 {
        Inc([], increment);
        return;
      }
      var labels := EvalLabels(config.labels, e);
      var key := Tuple(names, labels);
      TupleOfEvaluatedLabels(config.labels, e, labels);
      Inc(key, increment);
    }

    /** Counter.inc on the child of one series (a child not yet created starts at 0). */
    method Inc(key: SeriesKey, amount: real)
      requires initialized
      modifies this
      ensures initialized && series == old(series)[key := Get(old(series), key) + amount]
    {
      series := series[key := Get(series, key) + amount];
    }
  }

  class MetricValueGauge {
    const config: GaugeConfig
    var initialized: bool
    var value: real
    var labelValues: Series
    var scraping: bool
    var exposed: Series

    function State(): GaugeState
      reads this
    {
      GaugeState(initialized, value, labelValues, scraping, exposed)
    }

    ghost predicate Valid()
      reads this
    {
      GaugeInv(config, State())
    }

    constructor (config: GaugeConfig)
      ensures this.config == config && State() == NewGauge && Valid()
    {
      this.config := config;
      initialized, value, labelValues, scraping, exposed := false, 0.0, map[], false, map[];
    }

    method Init() returns (raised: bool)
      requires Valid()
      modifies this
      ensures Valid()
      ensures (State(), raised) == GaugeInit(config, old(State()))
    {
      raised := initialized;
      if !raised {
        initialized := true;
        exposed := if config.labels.names == [] then map[[] := 0.0] else map[];
      }
    }

    method SetOnScrapeStartValue()
      modifies this
      ensures State() == ResetValues(config, old(State()))
    {
      if config.valueOnScrapeStart.None? {
        return;
      }
      var v := config.valueOnScrapeStart.value;
      if |config.labels.names| == 0 {
        value := v;
        return;
      }
      labelValues := ResetAll(labelValues, v);
    }

    method UpdateGauge() returns (raised: bool)
      modifies this
      ensures (State(), raised) == PushBuffer(config, old(State()))
    {
      if !initialized {
        return true;
      }
      raised := false;
      if |config.labels.names| == 0 {
        exposed := exposed + map[[] := value];
        return;
      }
      exposed := SetAll(exposed, labelValues);
    }

    method OnScrapeStart()
      requires Valid()
      modifies this
      ensures Valid()
      ensures State() == GaugeScrapeStart(config, old(State()))
    {
      if !initialized {
        return;
      }
      scraping := true;
      SetOnScrapeStartValue();
    }

    method OnScrapeEnd() returns (raised: bool)
      requires Valid()
      modifies this
      ensures Valid()
      ensures (State(), raised) == PushBuffer(config, old(State()))
    {
      raised := UpdateGauge();
    }

    /** A series' value after an event: set first (if configured), then increment (if configured). */
    method Next(e: Event, current: real) returns (r: real)
      ensures r == NextValue(config, e, current)
    {
      r := current;
      if config.setValue.Some? {
        r := ConvertValue(EvalValue(e, config.setValue.value));
      }
      if config.incrementValue.Some? {
        r := r + ConvertValue(EvalValue(e, config.incrementValue.value));
      }
    }

    /** The buffer update of process_event. */
    method ApplyEvent(e: Event)
      modifies this
      ensures State() == GaugeApply(config, old(State()), e)
    {
      var names := config.labels.names;
      if |names| == 0 {
        value := Next(e, value);
        return;
      }
      var labels := EvalLabels(config.labels, e);
      var key := Tuple(names, labels);
      TupleOfEvaluatedLabels(config.labels, e, labels);
      if key !in labelValues {
        labelValues := labelValues[key := 0.0];
      }
      var next := Next(e, labelValues[key]);
      labelValues := labelValues[key := next];
    }

    method ProcessEvent(e: Event) returns (raised: bool)
      requires Valid()
      modifies this
      ensures Valid()
      ensures (State(), raised) == GaugeProcess(config, old(State()), e)
    {
      GaugeInvPreserved(config, State(), e);
      ApplyEvent(e);
      raised := false;
      if !scraping {
        raised := UpdateGauge();
      }
    }
  }

  /** A metric of either kind, as the configuration builds it and a filter holds it. */
  datatype MetricValue = Counter(counter: MetricValueCounter) | Gauge(gauge: MetricValueGauge)
  {
    function Obj(): object {
      match this
      case Counter(c) => c
      case Gauge(g) => g
    }

    ghost predicate Valid()
      reads Obj()
    {
      match this
      case Counter(c) => c.Valid()
      case Gauge(g) => g.Valid()
    }

    function Snap(): MetricSnap
      reads Obj()
    {
      match this
      case Counter(c) => CounterSnap(c.config, c.State())
      case Gauge(g) => GaugeSnap(g.config, g.State())
    }

    lemma ValidSnap()
      requires Valid()
      ensures Snap().Inv()
    {
    }

    method ProcessEvent(e: Event) returns (raised: bool)
      requires Valid()
      modifies Obj()
      ensures Valid()
      ensures (Snap(), raised) == MetricProcess(old(Snap()), e)
    {
      match this
      case Counter(c) => raised := c.ProcessEvent(e);
      case Gauge(g) => raised := g.ProcessEvent(e);
    }

    method OnScrapeStart()
      requires Valid()
      modifies Obj()
      ensures Valid()
      ensures Snap() == MetricScrapeStart(old(Snap()))
    {
      match this
      case Counter(c) =>
      case Gauge(g) => g.OnScrapeStart();
    }

    method OnScrapeEnd() returns (raised: bool)
      requires Valid()
      modifies Obj()
      ensures Valid()
      ensures (Snap(), raised) == MetricScrapeEnd(old(Snap()))
    {
      match this
      case Counter(c) => raised := false;
      case Gauge(g) => raised := g.OnScrapeEnd();
    }
  }

  /** The objects behind a list of metrics. */
  function MetricObjects(ms: seq<MetricValue>): set<object> {
    set i | 0 <= i < |ms| :: ms[i].Obj()
  }

  /** No metric object appears twice in the list. */
  predicate DistinctObjects(ms: seq<MetricValue>) {
    forall i, j :: 0 <= i < |ms| && 0 <= j < |ms| && i != j ==> ms[i].Obj() != ms[j].Obj()
  }

  /** Every metric object of the list lies in r. */
  predicate Within(ms: seq<MetricValue>, r: set<object>) {
    forall i :: 0 <= i < |ms| ==> ms[i].Obj() in r
  }

  /** The states of the metrics, in list order. */
  function MetricSnaps(ms: seq<MetricValue>, r: set<object>): (s: seq<MetricSnap>)
    reads r
    requires Within(ms, r)
    ensures |s| == |ms| && forall i :: 0 <= i < |ms| ==> s[i] == ms[i].Snap()
    decreases |ms|
  {
    if |ms| == 0 then [] else MetricSnaps(ms[..|ms| - 1], r) + [ms[|ms| - 1].Snap()]
  }
}
