/**
 * Event filters.  A filter holds the event names it reacts to and a list of
 * metrics.  A standing filter (no action id) forwards every event with a
 * matching name to its metrics; a filter armed for an action (an action id
 * set by on_scrape_start) forwards only the events whose ActionID attribute
 * equals that id.
 */
module EventFilters {
  import opened Ami
  import opened Sequences
  import opened MetricValues

  /**
   * The configured names: a list (from text containing '|'), or the raw text
   * itself, in which case Python's `in` is a substring test.
   */
  datatype EventNames = NameList(names: seq<string>) | RawName(text: string)

  /** `a` occurs in `b` as a contiguous piece (Python's `a in b` on strings). */
  predicate IsSubstring(a: string, b: string)
    decreases |b|
  {
    a <= b || (|b| > 0 && IsSubstring(a, b[1..]))
  }

  predicate OccursAt(a: string, b: string, i: int) {
    0 <= i <= |b| - |a| && b[i..i + |a|] == a
  }

  /** IsSubstring holds exactly when `a` sits at some position of `b`. */
  lemma {:induction false} IsSubstringAt(a: string, b: string)
    ensures IsSubstring(a, b) <==> exists i :: OccursAt(a, b, i)
    decreases |b|
  {
    if a <= b {
      assert OccursAt(a, b, 0);
    } else if |b| > 0 {
      IsSubstringAt(a, b[1..]);
      if IsSubstring(a, b[1..]) {
        var i :| OccursAt(a, b[1..], i);
        assert b[i + 1..i + 1 + |a|] == b[1..][i..i + |a|];
        assert OccursAt(a, b, i + 1);
      }
      if exists i :: OccursAt(a, b, i) {
        var i :| OccursAt(a, b, i);
        if i > 0 {
          assert b[1..][i - 1..i - 1 + |a|] == b[i..i + |a|];
          assert OccursAt(a, b[1..], i - 1);
        }
      }
    }
  }

  /** `event.name in names`; None where Python raises TypeError (no name, raw-text names). */
  function NameTest(names: EventNames, name: Option<string>): Option<bool> {
    match names
    case NameList(ns) => Some(name.Some? && name.value in ns)
    case RawName(text) => if name.None? then None else Some(IsSubstring(name.value, text))
  }

  /** What process_event does with an event before touching any metric. */
  datatype Verdict = Forward | Drop | Fail

  function Admit(names: EventNames, actionId: Option<string>, e: Event): Verdict {
    match NameTest(names, e.name)
    case None => Fail
    case Some(false) => Drop
    case Some(true) =>
      match actionId
      case None => Forward
      case Some(id) =>
        if "ActionID" !in e.keys then Fail
        else if e.keys["ActionID"] != id then Drop
        else Forward
  }

  /** A filter's names, action id and the states of its metrics, in list order. */
  datatype FilterSnap = FilterSnap(eventNames: EventNames, actionId: Option<string>, metrics: seq<MetricSnap>)
  {
    predicate Inv() {
      forall i :: 0 <= i < |metrics| ==> metrics[i].Inv()
    }

    /** Whether some metric of the filter is a gauge whose on_scrape_end would raise. */
    predicate HasUninitializedGauge() {
      exists i :: 0 <= i < |metrics| && metrics[i].UninitializedGauge()
    }

    predicate Committed() {
      forall i :: 0 <= i < |metrics| ==> metrics[i].Committed()
    }
  }

  function ProcessStep(e: Event): MetricSnap -> (MetricSnap, bool) {
    m => MetricProcess(m, e)
  }

  function ScrapeEndStep(): MetricSnap -> (MetricSnap, bool) {
    m => MetricScrapeEnd(m)
  }

  /** process_event: an admitted event goes to every metric in order until one raises. */
  function FilterStep(f: FilterSnap, e: Event): (FilterSnap, bool) {
    match Admit(f.eventNames, f.actionId, e)
    case Fail => (f, true)
    case Drop => (f, false)
    case Forward =>
      var r := StepAll(ProcessStep(e), f.metrics);
      (f.(metrics := r.0), r.1)
  }

  /** on_scrape_start: arm the filter with the action id and signal every metric. */
  function FilterScrapeStart(f: FilterSnap, id: string): FilterSnap {
    f.(actionId := Some(id), metrics := seq(|f.metrics|, i requires 0 <= i < |f.metrics| => MetricScrapeStart(f.metrics[i])))
  }

  /** on_scrape_end: signal every metric in order until one raises; the action id stays. */
  function FilterScrapeEnd(f: FilterSnap): (FilterSnap, bool) {
    var r := StepAll(ScrapeEndStep(), f.metrics);
    (f.(metrics := r.0), r.1)
  }

  /** An event whose name is not configured reaches no metric. */
  lemma UnmatchedNameIgnored(f: FilterSnap, e: Event)
    requires NameTest(f.eventNames, e.name) == Some(false)
    ensures FilterStep(f, e) == (f, false)
  {
  }

  /** A listed name matches only itself; a raw name matches every piece of its text. */
  lemma NameTestMeaning(names: EventNames, name: string)
    ensures names.NameList? ==> (NameTest(names, Some(name)) == Some(true) <==> name in names.names)
    ensures names.RawName? ==>
      (NameTest(names, Some(name)) == Some(true) <==>
        exists i :: OccursAt(name, names.text, i))
    ensures NameTest(names, None) == if names.NameList? then Some(false) else None
  {
    if names.RawName? {
      IsSubstringAt(name, names.text);
    }
  }

  /** With raw-text names, a name that is only part of the text still matches. */
  lemma RawNameMatchesPiece()
    ensures NameTest(RawName("QueueMemberStatus"), Some("Queue")) == Some(true)
    ensures NameTest(NameList(["QueueMemberStatus"]), Some("Queue")) == Some(false)
  {
    assert "Queue" <= "QueueMemberStatus";
  }

  /**
   * An armed filter drops a matching event with another ActionID and raises on
   * one without an ActionID attribute, in both cases changing nothing.
   */
  lemma ArmedFilterChecksActionId(f: FilterSnap, e: Event)
    requires f.actionId.Some? && NameTest(f.eventNames, e.name) == Some(true)
    ensures "ActionID" !in e.keys ==> FilterStep(f, e) == (f, true)
    ensures "ActionID" in e.keys && e.keys["ActionID"] != f.actionId.value ==> FilterStep(f, e) == (f, false)
  {
  }

  /**
   * A standing filter forwards every matching event whatever its ActionID: each
   * metric processes it once, in order, up to and including the first that raises.
   */
  lemma StandingFilterForwards(f: FilterSnap, e: Event)
    requires f.actionId.None? && NameTest(f.eventNames, e.name) == Some(true)
    ensures var r := FilterStep(f, e);
      var k := FirstRaise(ProcessStep(e), f.metrics);
      |r.0.metrics| == |f.metrics| && (r.1 <==> k < |f.metrics|) &&
      forall i :: 0 <= i < |f.metrics| ==>
        r.0.metrics[i] == if i <= k then MetricProcess(f.metrics[i], e).0 else f.metrics[i]
  {
    StepAllFacts(ProcessStep(e), f.metrics);
  }

  /** process_event never changes the filter's names, action id or number of metrics. */
  lemma FilterStepKeepsIdentity(f: FilterSnap, e: Event)
    requires f.Inv()
    ensures var r := FilterStep(f, e).0;
      r.eventNames == f.eventNames && r.actionId == f.actionId &&
      |r.metrics| == |f.metrics| && r.Inv() && (r.HasUninitializedGauge() <==> f.HasUninitializedGauge())
  {
    var r := FilterStep(f, e).0;
    if Admit(f.eventNames, f.actionId, e) == Forward {
      ProcessKeepsShape(f.metrics, e);
    }
    assert KeptShape(r.metrics, f.metrics);
    if r.HasUninitializedGauge() {
      var i :| 0 <= i < |r.metrics| && r.metrics[i].UninitializedGauge();
      assert f.metrics[i].UninitializedGauge();
    }
    if f.HasUninitializedGauge() {
      var i :| 0 <= i < |f.metrics| && f.metrics[i].UninitializedGauge();
      assert r.metrics[i].UninitializedGauge();
    }
  }

  /** Every metric of rs is valid and is an uninitialized gauge exactly when its counterpart in ms is. */
  predicate KeptShape(rs: seq<MetricSnap>, ms: seq<MetricSnap>) {
    |rs| == |ms| &&
    forall i :: 0 <= i < |ms| ==> rs[i].Inv() && (rs[i].UninitializedGauge() <==> ms[i].UninitializedGauge())
  }

  /** Handing an event to the metrics of a list keeps their shape. */
  lemma ProcessKeepsShape(ms: seq<MetricSnap>, e: Event)
    requires forall i :: 0 <= i < |ms| ==> ms[i].Inv()
    ensures KeptShape(StepAll(ProcessStep(e), ms).0, ms)
  {
    StepAllFacts(ProcessStep(e), ms);
    forall i | 0 <= i < |ms|
      ensures MetricProcess(ms[i], e).0.Inv()
      ensures MetricProcess(ms[i], e).0.UninitializedGauge() <==> ms[i].UninitializedGauge()
    {
      MetricStepsKeepShape(ms[i], e);
    }
  }

  /** on_scrape_start arms the filter and keeps every metric's invariant and kind. */
  lemma FilterScrapeStartArms(f: FilterSnap, id: string)
    requires f.Inv()
    ensures var r := FilterScrapeStart(f, id);
      r.actionId == Some(id) && r.eventNames == f.eventNames && |r.metrics| == |f.metrics| &&
      r.Inv() && (r.HasUninitializedGauge() <==> f.HasUninitializedGauge())
  {
    var r := FilterScrapeStart(f, id);
    forall i | 0 <= i < |f.metrics|
      ensures r.metrics[i].Inv() && (r.metrics[i].UninitializedGauge() <==> f.metrics[i].UninitializedGauge())
    {
      MetricStepsKeepShape(f.metrics[i], Event(None, map[]));
    }
    if r.HasUninitializedGauge() {
      var i :| 0 <= i < |r.metrics| && r.metrics[i].UninitializedGauge();
      assert f.metrics[i].UninitializedGauge();
    }
    if f.HasUninitializedGauge() {
      var i :| 0 <= i < |f.metrics| && f.metrics[i].UninitializedGauge();
      assert r.metrics[i].UninitializedGauge();
    }
  }

  /**
   * on_scrape_end keeps the action id, raises exactly when some metric is an
   * uninitialized gauge, and otherwise leaves every metric committed.
   */
  lemma {:induction false} FilterScrapeEndCommits(f: FilterSnap)
    requires f.Inv()
    ensures FilterScrapeEnd(f).0.actionId == f.actionId
    ensures FilterScrapeEnd(f).1 <==> f.HasUninitializedGauge()
    ensures !FilterScrapeEnd(f).1 ==> FilterScrapeEnd(f).0.Committed()
  {
    var k := FirstRaise(ScrapeEndStep(), f.metrics);
    var r := FilterScrapeEnd(f);
    FirstRaiseFacts(ScrapeEndStep(), f.metrics);
    StepAllFacts(ScrapeEndStep(), f.metrics);
    forall i | 0 <= i < |f.metrics|
      ensures MetricScrapeEnd(f.metrics[i]).1 <==> f.metrics[i].UninitializedGauge()
      ensures !MetricScrapeEnd(f.metrics[i]).1 ==> MetricScrapeEnd(f.metrics[i]).0.Committed()
    {
      MetricScrapeEndCommits(f.metrics[i]);
    }
    if f.HasUninitializedGauge() {
      var i :| 0 <= i < |f.metrics| && f.metrics[i].UninitializedGauge();
      assert ScrapeEndStep()(f.metrics[i]).1;
      assert k <= i;
    }
    if r.1 {
      assert f.metrics[k].UninitializedGauge();
    }
  }

  class EventFilter {
    const eventNames: EventNames
    const metricValues: seq<MetricValue>
    var actionId: Option<string>
    ghost const Repr: set<object>

    ghost predicate Valid()
      reads this, Repr
    {
      this in Repr && Within(metricValues, Repr - {this}) && DistinctObjects(metricValues) &&
      forall i :: 0 <= i < |metricValues| ==> metricValues[i].Valid()
    }

    ghost function Snap(): FilterSnap
      reads this, Repr
      requires Valid()
    {
      FilterSnap(eventNames, actionId, MetricSnaps(metricValues, Repr))
    }

    lemma ValidSnap()
      requires Valid()
      ensures Snap().Inv()
    {
      forall i | 0 <= i < |metricValues| ensures Snap().metrics[i].Inv() {
        metricValues[i].ValidSnap();
      }
    }

    /** A filter none of whose objects changed is still valid and in the same state. */
    twostate lemma Stable()
      requires old(Valid()) && unchanged(Repr)
      ensures Valid() && Snap() == old(Snap())
    {
    }

    constructor (eventNames: EventNames, metricValues: seq<MetricValue>)
      requires DistinctObjects(metricValues)
      requires forall i :: 0 <= i < |metricValues| ==> metricValues[i].Valid()
      ensures Valid() && this.eventNames == eventNames && this.metricValues == metricValues
      ensures actionId.None? && Snap().metrics == MetricSnaps(metricValues, Repr)
      ensures Repr == {this} + MetricObjects(metricValues)
    {
      this.eventNames := eventNames;
      this.metricValues := metricValues;
      actionId := None;
      Repr := {this} + MetricObjects(metricValues);
    }

    method OnScrapeStart(id: string)
      requires Valid()
      modifies Repr
      ensures Valid()
      ensures Snap() == FilterScrapeStart(old(Snap()), id)
    {
      actionId := Some(id);
      ghost var before := MetricSnaps(metricValues, Repr);
      var i := 0;
      while i < |metricValues|
        invariant 0 <= i <= |metricValues|
        invariant actionId == Some(id)
        invariant forall j :: 0 <= j < |metricValues| ==> metricValues[j].Valid()
        invariant forall j :: 0 <= j < |metricValues| ==>
          metricValues[j].Snap() == if j < i then MetricScrapeStart(before[j]) else before[j]
      {
        metricValues[i].OnScrapeStart();
        i := i + 1;
      }
      assert MetricSnaps(metricValues, Repr) == FilterScrapeStart(old(Snap()), id).metrics;
    }

    method OnScrapeEnd() returns (raised: bool)
      requires Valid()
      modifies Repr
      ensures Valid()
      ensures (Snap(), raised) == FilterScrapeEnd(old(Snap()))
    {
      ghost var before := MetricSnaps(metricValues, Repr);
      var i := 0;
      raised := false;
      while i < |metricValues|
        invariant 0 <= i <= |metricValues| && !raised
        invariant unchanged(this)
        invariant forall j :: 0 <= j < |metricValues| ==> metricValues[j].Valid()
        invariant forall j :: 0 <= j < i ==> !MetricScrapeEnd(before[j]).1
        invariant forall j :: 0 <= j < |metricValues| ==>
          metricValues[j].Snap() == if j < i then MetricScrapeEnd(before[j]).0 else before[j]
      {
        raised := metricValues[i].OnScrapeEnd();
        if raised {
          break;
        }
        i := i + 1;
      }
      StepAllPointwise(ScrapeEndStep(), before, MetricSnaps(metricValues, Repr), i);
    }

    method ProcessEvent(e: Event) returns (raised: bool)
      requires Valid()
      modifies Repr
      ensures Valid()
      ensures (Snap(), raised) == FilterStep(old(Snap()), e)
    {
      var verdict := Admit(eventNames, actionId, e);
      if verdict == Fail {
        return true;
      }
      if verdict == Drop {
        return false;
      }
      ghost var before := MetricSnaps(metricValues, Repr);
      ghost var k;
      raised, k := Forward(e);
      StepAllPointwise(ProcessStep(e), before, MetricSnaps(metricValues, Repr), k);
    }

    /**
     * The loop of process_event: the event goes to each metric in order, and
     * the first metric that raises (at index k) ends the loop.
     */
    method Forward(e: Event) returns (raised: bool, ghost k: nat)
      requires Valid()
      modifies Repr
      ensures Valid() && unchanged(this)
      ensures k <= |metricValues| && (raised <==> k < |metricValues|)
      ensures forall j :: 0 <= j < k ==> !MetricProcess(old(metricValues[j].Snap()), e).1
      ensures k < |metricValues| ==> MetricProcess(old(metricValues[k].Snap()), e).1
      ensures forall j :: 0 <= j < |metricValues| ==>
        metricValues[j].Snap() == if j <= k then MetricProcess(old(metricValues[j].Snap()), e).0 else old(metricValues[j].Snap())
    {
      ghost var before := MetricSnaps(metricValues, Repr);
      var i := 0;
      raised := false;
      while i < |metricValues|
        invariant 0 <= i <= |metricValues| && !raised
        invariant unchanged(this)
        invariant forall j :: 0 <= j < |metricValues| ==> metricValues[j].Valid()
        invariant forall j :: 0 <= j < i ==> !MetricProcess(before[j], e).1
        invariant forall j :: 0 <= j < |metricValues| ==>
          metricValues[j].Snap() == if j < i then MetricProcess(before[j], e).0 else before[j]
      {
        raised := metricValues[i].ProcessEvent(e);
        if raised {
          break;
        }
        i := i + 1;
      }
      k := i;
    }
  }

  /** The filters each own their objects inside r, and no two share one. */
  ghost predicate Separate(fs: seq<EventFilter>, r: set<object>)
    reads r
  {
    (forall i :: 0 <= i < |fs| ==> fs[i] in r && fs[i].Repr <= r && fs[i].Valid()) &&
    forall i, j :: 0 <= i < |fs| && 0 <= j < |fs| && i != j ==> fs[i].Repr !! fs[j].Repr
  }

  /** All the objects the filters own. */
  ghost function FiltersRepr(fs: seq<EventFilter>): (r: set<object>)
    ensures forall i :: 0 <= i < |fs| ==> fs[i].Repr <= r
    decreases |fs|
  {
    if |fs| == 0 then {} else FiltersRepr(fs[..|fs| - 1]) + fs[|fs| - 1].Repr
  }

  /** The objects of a prefix grow by the owned objects of the next filter. */
  lemma FiltersReprSnoc(fs: seq<EventFilter>, i: nat)
    requires i < |fs|
    ensures fs[..i + 1] == fs[..i] + [fs[i]]
    ensures FiltersRepr(fs[..i + 1]) == FiltersRepr(fs[..i]) + fs[i].Repr
  {
    assert fs[..i + 1][..i] == fs[..i];
  }

  lemma {:induction false} FiltersReprDisjoint(fs: seq<EventFilter>, x: set<object>)
    requires forall i :: 0 <= i < |fs| ==> fs[i].Repr !! x
    ensures FiltersRepr(fs) !! x
    decreases |fs|
  {
    if |fs| > 0 {
      FiltersReprDisjoint(fs[..|fs| - 1], x);
    }
  }

  lemma {:induction false} FiltersReprWithin(fs: seq<EventFilter>, r: set<object>)
    requires forall i :: 0 <= i < |fs| ==> fs[i].Repr <= r
    ensures FiltersRepr(fs) <= r
    decreases |fs|
  {
    if |fs| > 0 {
      FiltersReprWithin(fs[..|fs| - 1], r);
    }
  }

  /** The states of the filters, in list order. */
  ghost function FilterSnaps(fs: seq<EventFilter>, r: set<object>): (s: seq<FilterSnap>)
    reads r
    requires forall i :: 0 <= i < |fs| ==> fs[i] in r && fs[i].Repr <= r && fs[i].Valid()
    ensures |s| == |fs| && forall i :: 0 <= i < |fs| ==> s[i] == fs[i].Snap()
    decreases |fs|
  {
    if |fs| == 0 then [] else FilterSnaps(fs[..|fs| - 1], r) + [fs[|fs| - 1].Snap()]
  }
}
