/**
 * Running an action: the executer arms the action's filters with a fresh
 * action id, attaches them and its own event callback to the client, sends
 * the action, waits for the action's terminal event, and detaches again.
 * Time is counted in ticks: the wait polls once per tick, and batch j of the
 * arrivals comes in during the j-th sleep.
 */
module Actions {
  import opened Ami
  import opened Sequences
  import opened NumberText
  import opened EventFilters
  import opened EventListeners
  import opened ClientWrappers

  /** An action of the configuration. */
  datatype Action = Action(
    name: string,
    filterList: seq<EventFilter>,
    until: string,
    responseTimeout: int,
    eventTimeout: int,
    actionPriority: int,
    actionContext: string,
    actionCallerId: string)

  /** The event that ends the wait: it carries the current action id and has the configured name. */
  predicate IsTerminalEvent(until: string, id: string, e: Event) {
    "ActionID" in e.keys && e.name == Some(until) && e.keys["ActionID"] == id
  }

  /** The action as sent: its name, and the four header fields in their string forms. */
  function ActionRequest(a: Action, id: string): (r: SimpleAction)
    ensures r.name == a.name && r.keys.Keys == {"Priority", "Context", "CallerID", "ActionID"}
    ensures r.keys["Priority"] == IntToString(a.actionPriority) && r.keys["ActionID"] == id
    ensures r.keys["Context"] == a.actionContext && r.keys["CallerID"] == a.actionCallerId
  {
    SimpleAction(a.name, map[
      "Priority" := IntToString(a.actionPriority),
      "Context" := a.actionContext,
      "CallerID" := a.actionCallerId,
      "ActionID" := id])
  }

  /** A response counts as success only when it arrived and its status is exactly "Success". */
  predicate ResponseSucceeded(response: Option<Response>) {
    response.Some? && response.value.status == "Success"
  }

  /**
   * One batch of events arriving during a sleep: the client delivers each
   * event, and the executer's callback, when it is registered at that moment,
   * marks a terminal event.
   */
  function CollectBatch(s: Session, finished: bool, until: string, id: string, es: seq<Event>, now: int): (Session, bool)
    decreases |es|
  {
    if |es| == 0 then (s, finished)
    else
      var r := CollectBatch(s, finished, until, id, es[..|es| - 1], now);
      var e := es[|es| - 1];
      (DeliverEvent(r.0, e, now), r.1 || (ExecuterOnEvent in r.0.callbacks && IsTerminalEvent(until, id, e)))
  }

  /**
   * The wait of __collect_events from poll j on: done once the flag is set,
   * given up once more ticks than the event timeout have passed, and
   * otherwise another sleep during which batch j arrives.
   */
  function Collect(s: Session, finished: bool, until: string, id: string, eventTimeout: int,
                   arrivals: seq<seq<Event>>, start: int, j: nat): (Session, bool)
    decreases Ticks(eventTimeout) + 1 - j
  {
    if finished then (s, true)
    else if j > Ticks(eventTimeout) then (s, false)
    else
      var batch := if j < |arrivals| then arrivals[j] else [];
      var r := CollectBatch(s, false, until, id, batch, start + j);
      Collect(r.0, r.1, until, id, eventTimeout, arrivals, start, j + 1)
  }

  /** Some batch from poll j up to the last poll before the timeout holds the terminal event. */
  predicate TerminalArrives(until: string, id: string, eventTimeout: int, arrivals: seq<seq<Event>>, j: nat) {
    exists k, i :: j <= k <= Ticks(eventTimeout) && k < |arrivals| && 0 <= i < |arrivals[k]| &&
      IsTerminalEvent(until, id, arrivals[k][i])
  }

  /** The executer's callback stays registered while events are delivered. */
  lemma DeliverKeepsExecuter(s: Session, e: Event, now: int)
    ensures ExecuterOnEvent in DeliverEvent(s, e, now).callbacks <==> ExecuterOnEvent in s.callbacks
  {
    DeliverEventCallbacks(s, e, now, ExecuterOnEvent);
  }

  /** With its callback registered, the executer marks a batch exactly when the batch holds the terminal event. */
  lemma {:induction false} CollectBatchMarks(s: Session, finished: bool, until: string, id: string, es: seq<Event>, now: int)
    requires ExecuterOnEvent in s.callbacks
    ensures ExecuterOnEvent in CollectBatch(s, finished, until, id, es, now).0.callbacks
    ensures CollectBatch(s, finished, until, id, es, now).1 <==>
      finished || exists i :: 0 <= i < |es| && IsTerminalEvent(until, id, es[i])
    decreases |es|
  {
    if |es| > 0 {
      var init := es[..|es| - 1];
      CollectBatchMarks(s, finished, until, id, init, now);
      var r := CollectBatch(s, finished, until, id, init, now);
      DeliverKeepsExecuter(r.0, es[|es| - 1], now);
      if exists i :: 0 <= i < |init| && IsTerminalEvent(until, id, init[i]) {
        var i :| 0 <= i < |init| && IsTerminalEvent(until, id, init[i]);
        assert es[i] == init[i];
      }
      if exists i :: 0 <= i < |es| && IsTerminalEvent(until, id, es[i]) {
        var i :| 0 <= i < |es| && IsTerminalEvent(until, id, es[i]);
        if i < |es| - 1 {
          assert init[i] == es[i];
        }
      }
    }
  }

  /**
   * With the executer's callback registered, the wait succeeds exactly when
   * the flag was already set or the terminal event arrives in time.
   */
  lemma {:induction false} CollectOutcome(s: Session, finished: bool, until: string, id: string, eventTimeout: int,
                                          arrivals: seq<seq<Event>>, start: int, j: nat)
    requires ExecuterOnEvent in s.callbacks
    ensures Collect(s, finished, until, id, eventTimeout, arrivals, start, j).1 <==>
      finished || TerminalArrives(until, id, eventTimeout, arrivals, j)
    decreases Ticks(eventTimeout) + 1 - j
  {
    if !finished && j <= Ticks(eventTimeout) {
      var batch := if j < |arrivals| then arrivals[j] else [];
      CollectBatchMarks(s, false, until, id, batch, start + j);
      var r := CollectBatch(s, false, until, id, batch, start + j);
      CollectOutcome(r.0, r.1, until, id, eventTimeout, arrivals, start, j + 1);
      if TerminalArrives(until, id, eventTimeout, arrivals, j) && !r.1 {
        var k, i :| j <= k <= Ticks(eventTimeout) && k < |arrivals| && 0 <= i < |arrivals[k]| &&
          IsTerminalEvent(until, id, arrivals[k][i]);
        assert k != j;
        assert TerminalArrives(until, id, eventTimeout, arrivals, j + 1);
      }
      if r.1 {
        var i :| 0 <= i < |batch| && IsTerminalEvent(until, id, batch[i]);
        assert TerminalArrives(until, id, eventTimeout, arrivals, j);
      }
      if TerminalArrives(until, id, eventTimeout, arrivals, j + 1) {
        var k, i :| j + 1 <= k <= Ticks(eventTimeout) && k < |arrivals| && 0 <= i < |arrivals[k]| &&
          IsTerminalEvent(until, id, arrivals[k][i]);
        assert TerminalArrives(until, id, eventTimeout, arrivals, j);
      }
    }
  }

  /** Keeping the shape is transitive over lists of filter states. */
  lemma SameShapesTrans(a: seq<FilterSnap>, b: seq<FilterSnap>, c: seq<FilterSnap>)
    requires SameShapes(a, b) && SameShapes(b, c)
    ensures SameShapes(a, c)
  {
  }

  /**
   * A batch keeps the shape of every filter, and without login callbacks it
   * leaves the callback list as it is.
   */
  lemma {:induction false} CollectBatchKeeps(s: Session, finished: bool, until: string, id: string, es: seq<Event>, now: int)
    requires AllInv(s.filters)
    ensures SameShapes(CollectBatch(s, finished, until, id, es, now).0.filters, s.filters)
    ensures NoLoginCallbacks(s.callbacks) ==> CollectBatch(s, finished, until, id, es, now).0.callbacks == s.callbacks
    decreases |es|
  {
    if |es| > 0 {
      var init := es[..|es| - 1];
      CollectBatchKeeps(s, finished, until, id, init, now);
      var r := CollectBatch(s, finished, until, id, init, now);
      DeliverEventKeepsShape(r.0, es[|es| - 1], now);
      SameShapesTrans(DeliverEvent(r.0, es[|es| - 1], now).filters, r.0.filters, s.filters);
      if NoLoginCallbacks(s.callbacks) {
        DeliverEventQuiet(r.0, es[|es| - 1], now);
      }
    }
  }

  /** The whole wait keeps the shape of every filter, and without login callbacks the callback list. */
  lemma {:induction false} CollectKeeps(s: Session, finished: bool, until: string, id: string, eventTimeout: int,
                                        arrivals: seq<seq<Event>>, start: int, j: nat)
    requires AllInv(s.filters)
    ensures SameShapes(Collect(s, finished, until, id, eventTimeout, arrivals, start, j).0.filters, s.filters)
    ensures NoLoginCallbacks(s.callbacks) ==>
      Collect(s, finished, until, id, eventTimeout, arrivals, start, j).0.callbacks == s.callbacks
    decreases Ticks(eventTimeout) + 1 - j
  {
    if !finished && j <= Ticks(eventTimeout) {
      var batch := if j < |arrivals| then arrivals[j] else [];
      CollectBatchKeeps(s, false, until, id, batch, start + j);
      var r := CollectBatch(s, false, until, id, batch, start + j);
      CollectKeeps(r.0, r.1, until, id, eventTimeout, arrivals, start, j + 1);
      SameShapesTrans(Collect(r.0, r.1, until, id, eventTimeout, arrivals, start, j + 1).0.filters, r.0.filters, s.filters);
    }
  }

  /**
   * The action's filters before exec: each valid, owning objects apart from
   * the client's, the executer and each other's.
   */
  ghost predicate Detachable(fs: seq<EventFilter>, c: ClientWrapper, x: object)
    reads c, c.listener, fs, FiltersRepr(fs)
  {
    Apart(fs) && FiltersRepr(fs) !! c.listener.Repr + {c, x}
  }

  /** Valid filters, no two of which share an object. */
  ghost predicate Apart(fs: seq<EventFilter>)
    reads fs, FiltersRepr(fs)
  {
    (forall i :: 0 <= i < |fs| ==> fs[i].Valid()) &&
    forall i, j :: 0 <= i < j < |fs| ==> fs[i].Repr !! fs[j].Repr
  }

  /** on_scrape_start on one filter of a list; the others stay as they were. */
  method ArmAt(fs: seq<EventFilter>, i: nat, id: string)
    requires Apart(fs) && i < |fs|
    modifies fs[i].Repr
    ensures Apart(fs)
    ensures fs[i].Snap() == FilterScrapeStart(old(fs[i].Snap()), id)
    ensures forall j :: 0 <= j < |fs| && j != i ==> fs[j].Snap() == old(fs[j].Snap())
  {
    fs[i].OnScrapeStart(id);
    forall j | 0 <= j < |fs| && j != i ensures fs[j].Valid() && fs[j].Snap() == old(fs[j].Snap()) {
      fs[j].Stable();
    }
  }

  /** The on_scrape_start loop of __attach_event_filter: every filter is armed with the id, in order. */
  method ArmFilters(fs: seq<EventFilter>, id: string)
    requires Apart(fs)
    modifies FiltersRepr(fs)
    ensures Apart(fs)
    ensures forall j :: 0 <= j < |fs| ==> fs[j].Snap() == FilterScrapeStart(old(fs[j].Snap()), id)
  {
    var i := 0;
    while i < |fs|
      invariant 0 <= i <= |fs| && Apart(fs)
      invariant forall j :: 0 <= j < |fs| ==>
        fs[j].Snap() == (if j < i then FilterScrapeStart(old(fs[j].Snap()), id) else old(fs[j].Snap()))
    {
      ArmAt(fs, i, id);
      i := i + 1;
    }
  }

  /** on_scrape_end as one step of a loop over filter states. */
  function ScrapeEndFilterStep(): FilterSnap -> (FilterSnap, bool) {
    f => FilterScrapeEnd(f)
  }

  /** The on_scrape_end loop of __detach_event_filter over filter states, stopping at the first raise. */
  function EndAll(ss: seq<FilterSnap>): (seq<FilterSnap>, bool) {
    StepAll(ScrapeEndFilterStep(), ss)
  }

  /**
   * The loop raises exactly when some filter holds an uninitialized gauge;
   * when it does not, every filter is committed and keeps its action id.
   */
  lemma EndAllOutcome(ss: seq<FilterSnap>)
    requires AllInv(ss)
    ensures EndAll(ss).1 <==> exists j :: 0 <= j < |ss| && ss[j].HasUninitializedGauge()
    ensures !EndAll(ss).1 ==> forall j :: 0 <= j < |ss| ==>
      EndAll(ss).0[j].Committed() && EndAll(ss).0[j].actionId == ss[j].actionId
  {
    var k := FirstRaise(ScrapeEndFilterStep(), ss);
    FirstRaiseFacts(ScrapeEndFilterStep(), ss);
    StepAllFacts(ScrapeEndFilterStep(), ss);
    forall j | 0 <= j < |ss|
      ensures FilterScrapeEnd(ss[j]).1 <==> ss[j].HasUninitializedGauge()
      ensures !FilterScrapeEnd(ss[j]).1 ==> FilterScrapeEnd(ss[j]).0.Committed()
      ensures FilterScrapeEnd(ss[j]).0.actionId == ss[j].actionId
    {
      FilterScrapeEndCommits(ss[j]);
    }
    if exists j :: 0 <= j < |ss| && ss[j].HasUninitializedGauge() {
      var j :| 0 <= j < |ss| && ss[j].HasUninitializedGauge();
      assert ScrapeEndFilterStep()(ss[j]).1;
      assert k <= j;
    }
    if EndAll(ss).1 {
      assert ss[k].HasUninitializedGauge();
    }
  }

  /** on_scrape_end on one filter of a list; the others stay as they were. */
  method EndAt(fs: seq<EventFilter>, i: nat) returns (raised: bool)
    requires Apart(fs) && i < |fs|
    modifies fs[i].Repr
    ensures Apart(fs)
    ensures (fs[i].Snap(), raised) == FilterScrapeEnd(old(fs[i].Snap()))
    ensures forall j :: 0 <= j < |fs| && j != i ==> fs[j].Snap() == old(fs[j].Snap())
  {
    raised := fs[i].OnScrapeEnd();
    forall j | 0 <= j < |fs| && j != i ensures fs[j].Valid() && fs[j].Snap() == old(fs[j].Snap()) {
      fs[j].Stable();
    }
  }

  /** The on_scrape_end loop of __detach_event_filter on the filter objects. */
  method EndScrapes(fs: seq<EventFilter>, ghost before: seq<FilterSnap>) returns (raised: bool)
    requires Apart(fs) && |before| == |fs|
    requires forall j :: 0 <= j < |fs| ==> fs[j].Snap() == before[j]
    modifies FiltersRepr(fs)
    ensures Apart(fs) && raised == EndAll(before).1
    ensures forall j :: 0 <= j < |fs| ==> fs[j].Snap() == EndAll(before).0[j]
  {
    var i := 0;
    raised := false;
    while i < |fs|
      invariant 0 <= i <= |fs| && Apart(fs)
      invariant forall j :: 0 <= j < i ==> !FilterScrapeEnd(before[j]).1
      invariant forall j :: 0 <= j < |fs| ==>
        fs[j].Snap() == (if j < i then FilterScrapeEnd(before[j]).0 else before[j])
    {
      raised := EndAt(fs, i);
      if raised {
        break;
      }
      i := i + 1;
    }
    StepAllPointwise(ScrapeEndFilterStep(), before, FilterSnaps(fs, FiltersRepr(fs)), i);
  }

  /**
   * The two parts of a valid listener's filter list are each apart and owned
   * by the listener, and the filters of the second part are distinct and
   * not in the first.
   */
  lemma PartsApart(l: EventListener, olds: seq<EventFilter>, fs: seq<EventFilter>)
    requires l.Valid() && l.eventFilter == olds + fs
    ensures Apart(olds) && FiltersRepr(olds) <= l.Repr - {l}
    ensures Apart(fs) && FiltersRepr(fs) <= l.Repr - {l}
    ensures Distinct(fs) && forall j :: 0 <= j < |fs| ==> fs[j] !in olds
    ensures forall k, j :: 0 <= k < |olds| && 0 <= j < |fs| ==> olds[k].Repr !! fs[j].Repr
  {
    forall i | 0 <= i < |olds| ensures olds[i].Valid() && olds[i].Repr <= l.Repr - {l} {
      assert olds[i] == l.eventFilter[i];
    }
    forall i, j | 0 <= i < j < |olds| ensures olds[i].Repr !! olds[j].Repr {
      assert olds[i] == l.eventFilter[i] && olds[j] == l.eventFilter[j];
    }
    forall i | 0 <= i < |fs| ensures fs[i].Valid() && fs[i].Repr <= l.Repr - {l} {
      assert fs[i] == l.eventFilter[|olds| + i];
    }
    forall i, j | 0 <= i < j < |fs| ensures fs[i].Repr !! fs[j].Repr && fs[i] != fs[j] {
      assert fs[i] == l.eventFilter[|olds| + i] && fs[j] == l.eventFilter[|olds| + j];
    }
    forall k, j | 0 <= k < |olds| && 0 <= j < |fs| ensures olds[k] != fs[j] && olds[k].Repr !! fs[j].Repr {
      assert l.eventFilter[k] == olds[k] && l.eventFilter[|olds| + j] == fs[j];
    }
    FiltersReprWithin(olds, l.Repr - {l});
    FiltersReprWithin(fs, l.Repr - {l});
  }

  /** Filters none of whose objects changed are still apart and in the same states. */
  twostate lemma FiltersStable(fs: seq<EventFilter>)
    requires old(Apart(fs) && allocated(FiltersRepr(fs))) && unchanged(FiltersRepr(fs))
    ensures Apart(fs)
    ensures forall j :: 0 <= j < |fs| ==> fs[j].Snap() == old(fs[j].Snap())
  {
    forall j | 0 <= j < |fs| ensures fs[j].Valid() && fs[j].Snap() == old(fs[j].Snap()) {
      fs[j].Stable();
    }
  }

  /** A listener whose filter list is olds + fs is valid again once both parts are. */
  lemma ListenerRestored(l: EventListener, olds: seq<EventFilter>, fs: seq<EventFilter>)
    requires l.eventFilter == olds + fs && l in l.Repr
    requires forall j :: 0 <= j < |olds| ==> olds[j] in l.Repr - {l} && olds[j].Repr <= l.Repr - {l} && olds[j].Valid()
    requires Apart(fs) && FiltersRepr(fs) <= l.Repr - {l}
    requires forall i, j :: 0 <= i < |l.eventFilter| && 0 <= j < |l.eventFilter| && i != j ==>
      l.eventFilter[i].Repr !! l.eventFilter[j].Repr
    ensures l.Valid()
  {
    forall i | 0 <= i < |l.eventFilter|
      ensures l.eventFilter[i] in l.Repr - {l} && l.eventFilter[i].Repr <= l.Repr - {l} && l.eventFilter[i].Valid()
    {
      if i >= |olds| {
        assert l.eventFilter[i] == fs[i - |olds|];
      }
    }
  }

  /** The on_scrape_end loop over the filters at the end of a listener's list. */
  method EndListed(l: EventListener, ghost olds: seq<EventFilter>, fs: seq<EventFilter>, ghost before: seq<FilterSnap>)
      returns (raised: bool)
    requires l.Valid() && l.eventFilter == olds + fs && Apart(fs) && |before| == |fs|
    requires forall j :: 0 <= j < |fs| ==> fs[j].Snap() == before[j]
    modifies l.Repr - {l}
    ensures l.Valid() && raised == EndAll(before).1
    ensures forall j :: 0 <= j < |fs| ==> fs[j].Valid() && fs[j].Snap() == EndAll(before).0[j]
    ensures forall j :: 0 <= j < |olds| ==> olds[j].Valid() && olds[j].Snap() == old(l.Filters())[j]
  {
    PartsApart(l, olds, fs);
    raised := EndScrapes(fs, before);
    forall j | 0 <= j < |olds| ensures olds[j].Valid() && olds[j].Snap() == old(l.Filters())[j] {
      assert olds[j] == l.eventFilter[j];
      FiltersReprDisjoint(fs, olds[j].Repr);
      olds[j].Stable();
    }
    ListenerRestored(l, olds, fs);
  }

  /**
   * What exec leaves behind, over filter states: filters that were armed
   * with the id and then only kept their shape raise on scrape end exactly
   * when one of them started with an uninitialized gauge; otherwise they end
   * committed and still carry the id.
   */
  lemma ExecOutcome(before: seq<FilterSnap>, collected: seq<FilterSnap>, id: string)
    requires AllInv(before) && |collected| == |before|
    requires forall j :: 0 <= j < |before| ==>
      collected[j] == ArmAll(before, id)[j] || SameShape(collected[j], ArmAll(before, id)[j])
    ensures EndAll(collected).1 <==> exists j :: 0 <= j < |before| && before[j].HasUninitializedGauge()
    ensures !EndAll(collected).1 ==> forall j :: 0 <= j < |collected| ==>
      EndAll(collected).0[j].Committed() && EndAll(collected).0[j].actionId == Some(id)
  {
    forall j | 0 <= j < |before|
      ensures collected[j].Inv() && collected[j].actionId == Some(id)
      ensures collected[j].HasUninitializedGauge() <==> before[j].HasUninitializedGauge()
    {
      FilterScrapeStartArms(before[j], id);
    }
    EndAllOutcome(collected);
  }

  /** Exec's callback, appended to a list without login callbacks, leaves none there; removing it restores the list. */
  lemma DeregisterAppended(cbs: seq<Callback>)
    ensures NoLoginCallbacks(cbs) ==> NoLoginCallbacks(cbs + [ExecuterOnEvent])
    ensures ExecuterOnEvent !in cbs ==> Deregister(cbs + [ExecuterOnEvent], ExecuterOnEvent) == cbs
  {
    if ExecuterOnEvent !in cbs {
      RemoveAppended(cbs, ExecuterOnEvent);
    }
  }

  /** Every filter of a list armed with the id by on_scrape_start. */
  function ArmAll(ss: seq<FilterSnap>, id: string): seq<FilterSnap> {
    seq(|ss|, j requires 0 <= j < |ss| => FilterScrapeStart(ss[j], id))
  }

  /** The session once exec has attached its action: the armed filters at the end of the list, its callback last. */
  function Attached(s: Session, before: seq<FilterSnap>, id: string): Session {
    s.(callbacks := s.callbacks + [ExecuterOnEvent], filters := s.filters + ArmAll(before, id))
  }

  /** The wait of exec: events are collected only when the response succeeded. */
  function AwaitReply(s: Session, finished: bool, a: Action, id: string, reply: Option<Response>,
                      arrivals: seq<seq<Event>>, start: int): (Session, bool)
  {
    if ResponseSucceeded(reply) then Collect(s, finished, a.until, id, a.eventTimeout, arrivals, start, 0)
    else (s, finished)
  }

  /**
   * The wait of exec, from the session it attached: after a failed response
   * nothing has happened; otherwise the flag ends set exactly when the
   * terminal event arrived in time, every filter keeps its shape, and without
   * login callbacks the callback list stays as attached.
   */
  lemma ExecWaitOutcome(s: Session, before: seq<FilterSnap>, a: Action, id: string, reply: Option<Response>,
                        arrivals: seq<seq<Event>>, start: int)
    requires AllInv(s.filters) && AllInv(before)
    ensures !ResponseSucceeded(reply) ==>
      AwaitReply(Attached(s, before, id), false, a, id, reply, arrivals, start) == (Attached(s, before, id), false)
    ensures AwaitReply(Attached(s, before, id), false, a, id, reply, arrivals, start).1 <==>
      ResponseSucceeded(reply) && TerminalArrives(a.until, id, a.eventTimeout, arrivals, 0)
    ensures SameShapes(AwaitReply(Attached(s, before, id), false, a, id, reply, arrivals, start).0.filters,
                       Attached(s, before, id).filters)
    ensures NoLoginCallbacks(s.callbacks) ==>
      AwaitReply(Attached(s, before, id), false, a, id, reply, arrivals, start).0.callbacks == s.callbacks + [ExecuterOnEvent]
  {
    var t := Attached(s, before, id);
    forall j | 0 <= j < |t.filters| ensures t.filters[j].Inv() {
      if j >= |s.filters| {
        FilterScrapeStartArms(before[j - |s.filters|], id);
      }
    }
    if ResponseSucceeded(reply) {
      CollectOutcome(t, false, a.until, id, a.eventTimeout, arrivals, start, 0);
      CollectKeeps(t, false, a.until, id, a.eventTimeout, arrivals, start, 0);
    }
  }

  /** A listener whose list is olds + fs, with olds in the states s and fs armed, holds s and the armed states. */
  lemma ListedFilters(l: EventListener, s: seq<FilterSnap>, olds: seq<EventFilter>, fs: seq<EventFilter>,
                      before: seq<FilterSnap>, id: string)
    requires l.Valid() && l.eventFilter == olds + fs && |s| == |olds| && |before| == |fs|
    requires forall j :: 0 <= j < |olds| ==> olds[j].Valid() && olds[j].Snap() == s[j]
    requires forall j :: 0 <= j < |fs| ==> fs[j].Valid() && fs[j].Snap() == FilterScrapeStart(before[j], id)
    ensures l.Filters() == s + ArmAll(before, id)
  {
    var now := l.Filters();
    forall j | 0 <= j < |now| ensures now[j] == (s + ArmAll(before, id))[j] {
      if j < |olds| {
        assert l.eventFilter[j] == olds[j];
      } else {
        assert l.eventFilter[j] == fs[j - |olds|];
      }
    }
  }

  class ActionExecuter {
    const client: ClientWrapper
    var finished: bool
    var actionId: string
    /** The action being run; None until exec first runs. */
    var action: Option<Action>

    /** The client is valid and the executer lies outside the listener's objects. */
    ghost predicate Valid()
      reads this, client, client.listener, client.listener.Repr
    {
      client.Valid() && this !in client.listener.Repr
    }

    constructor (client: ClientWrapper)
      requires client.Valid()
      ensures Valid() && this.client == client
      ensures !finished && actionId == "" && action.None?
    {
      this.client := client;
      finished := false;
      actionId := "";
      action := None;
    }

    /** __on_event: the terminal event of the current action sets the flag; nothing clears it. */
    method OnEvent(e: Event)
      requires action.Some?
      modifies this
      ensures action == old(action) && actionId == old(actionId)
      ensures finished == (old(finished) || IsTerminalEvent(action.value.until, actionId, e))
    {
      if "ActionID" !in e.keys {
        return;
      }
      if e.name == Some(action.value.until) && e.keys["ActionID"] == actionId {
        finished := true;
      }
    }

    /** The client receiving one event: every registered callback sees it, the executer's among them. */
    method ReceiveEvent(e: Event, now: int)
      requires Valid() && action.Some?
      modifies this, client, client.listener.Repr
      ensures Valid() && client.listener.Repr == old(client.listener.Repr)
      ensures client.listener.eventFilter == old(client.listener.eventFilter) && client.KeepsSettings()
      ensures action == old(action) && actionId == old(actionId)
      ensures client.State() == DeliverEvent(old(client.State()), e, now)
      ensures finished == (old(finished) || (ExecuterOnEvent in old(client.callbacks) && IsTerminalEvent(action.value.until, actionId, e)))
    {
      var registered := ExecuterOnEvent in client.callbacks;
      client.Deliver(e, now);
      if registered {
        OnEvent(e);
      }
    }

    /** One sleep of the wait: the client receives a batch of events at time now. */
    method ReceiveBatch(es: seq<Event>, now: int)
      requires Valid() && action.Some?
      modifies this, client, client.listener.Repr
      ensures Valid() && client.listener.Repr == old(client.listener.Repr)
      ensures client.listener.eventFilter == old(client.listener.eventFilter) && client.KeepsSettings()
      ensures action == old(action) && actionId == old(actionId)
      ensures (client.State(), finished) == CollectBatch(old(client.State()), old(finished), action.value.until, actionId, es, now)
    {
      var i := 0;
      while i < |es|
        invariant 0 <= i <= |es|
        invariant Valid() && client.listener.Repr == old(client.listener.Repr)
        invariant client.listener.eventFilter == old(client.listener.eventFilter) && client.KeepsSettings()
        invariant action == old(action) && actionId == old(actionId)
        invariant (client.State(), finished) ==
          CollectBatch(old(client.State()), old(finished), action.value.until, actionId, es[..i], now)
      {
        assert es[..i + 1][..i] == es[..i];
        ReceiveEvent(es[i], now);
        i := i + 1;
      }
      assert es[..|es|] == es;
    }

    /**
     * __collect_events: poll the flag once per tick; true as soon as it is
     * set, false once more ticks than the event timeout have passed.
     */
    method CollectEvents(arrivals: seq<seq<Event>>, start: int) returns (result: bool)
      requires Valid() && action.Some?
      modifies this, client, client.listener.Repr
      ensures Valid() && client.listener.Repr == old(client.listener.Repr)
      ensures client.listener.eventFilter == old(client.listener.eventFilter) && client.KeepsSettings()
      ensures action == old(action) && actionId == old(actionId) && finished == result
      ensures (client.State(), result) ==
        Collect(old(client.State()), old(finished), action.value.until, actionId, action.value.eventTimeout, arrivals, start, 0)
      ensures ExecuterOnEvent in old(client.callbacks) ==>
        (result <==> old(finished) || TerminalArrives(action.value.until, actionId, action.value.eventTimeout, arrivals, 0))
      ensures NoLoginCallbacks(old(client.callbacks)) ==> client.callbacks == old(client.callbacks)
      ensures forall k :: 0 <= k < |client.listener.eventFilter| ==>
        client.listener.eventFilter[k].Valid() &&
        SameShape(client.listener.eventFilter[k].Snap(), old(client.listener.eventFilter[k].Snap()))
    {
      ghost var s0 := client.State();
      client.listener.FiltersInv();
      var a := action.value;
      var j := 0;
      result := true;
      while !finished
        invariant Valid() && client.listener.Repr == old(client.listener.Repr)
        invariant client.listener.eventFilter == old(client.listener.eventFilter) && client.KeepsSettings()
        invariant action == old(action) && actionId == old(actionId)
        invariant Collect(client.State(), finished, a.until, actionId, a.eventTimeout, arrivals, start, j) ==
          Collect(s0, old(finished), a.until, actionId, a.eventTimeout, arrivals, start, 0)
        decreases Ticks(a.eventTimeout) + 1 - j
      {
        if j > Ticks(a.eventTimeout) {
          result := false;
          break;
        }
        var batch := if j < |arrivals| then arrivals[j] else [];
        ReceiveBatch(batch, start + j);
        j := j + 1;
      }
      CollectKeeps(s0, old(finished), a.until, actionId, a.eventTimeout, arrivals, start, 0);
      if ExecuterOnEvent in s0.callbacks {
        CollectOutcome(s0, old(finished), a.until, actionId, a.eventTimeout, arrivals, start, 0);
      }
    }

    /**
     * __attach_event_filter: arm every filter of the action with the action
     * id, in order; append them to the listener; then register the
     * executer's callback.
     */
    method AttachEventFilter(ghost before: seq<FilterSnap>)
      requires Valid() && action.Some? && Detachable(action.value.filterList, client, this)
      requires |before| == |action.value.filterList|
      requires forall j :: 0 <= j < |before| ==> action.value.filterList[j].Snap() == before[j]
      modifies client, client.listener, FiltersRepr(action.value.filterList)
      ensures Valid() && action == old(action) && actionId == old(actionId) && finished == old(finished)
      ensures client.listener.Repr == old(client.listener.Repr) + FiltersRepr(action.value.filterList)
      ensures client.listener.eventFilter == old(client.listener.eventFilter) + action.value.filterList
      ensures client.listener.lastEventReceived == old(client.listener.lastEventReceived)
      ensures client.callbacks == old(client.callbacks) + [ExecuterOnEvent] && client.KeepsSettings()
      ensures client.isLoginValidated == old(client.isLoginValidated)
      ensures client.isAsteriskFullyBooted == old(client.isAsteriskFullyBooted)
      ensures forall j :: 0 <= j < |action.value.filterList| ==>
        action.value.filterList[j].Valid() && action.value.filterList[j].Snap() == FilterScrapeStart(before[j], actionId)
      ensures client.State() == Attached(old(client.State()), before, actionId)
    {
      var fs := action.value.filterList;
      ghost var s0 := client.State();
      ArmFilters(fs, actionId);
      assert client.listener.Filters() == s0.filters;
      Join(fs, before);
    }

    /** The client side of __attach_event_filter: the armed filters join the listener, then the callback. */
    method Join(fs: seq<EventFilter>, ghost before: seq<FilterSnap>)
      requires Valid() && Detachable(fs, client, this) && |before| == |fs|
      requires forall j :: 0 <= j < |fs| ==> fs[j].Snap() == FilterScrapeStart(before[j], actionId)
      modifies client, client.listener
      ensures Valid() && client.listener.Repr == old(client.listener.Repr) + FiltersRepr(fs)
      ensures client.listener.eventFilter == old(client.listener.eventFilter) + fs
      ensures client.callbacks == old(client.callbacks) + [ExecuterOnEvent] && client.KeepsSettings()
      ensures forall j :: 0 <= j < |fs| ==> fs[j].Valid() && fs[j].Snap() == FilterScrapeStart(before[j], actionId)
      ensures client.State() == Attached(old(client.State()), before, actionId)
    {
      Hook(fs, before);
      client.AttachEventListener(ExecuterOnEvent);
      forall j | 0 <= j < |fs| ensures fs[j].Valid() && fs[j].Snap() == FilterScrapeStart(before[j], actionId) {
        assert fs[j] in client.listener.eventFilter;
      }
    }

    /** The armed filters join the listener, after the filters already there. */
    method Hook(fs: seq<EventFilter>, ghost before: seq<FilterSnap>)
      requires Valid() && Detachable(fs, client, this) && |before| == |fs|
      requires forall j :: 0 <= j < |fs| ==> fs[j].Snap() == FilterScrapeStart(before[j], actionId)
      modifies client.listener
      ensures Valid() && client.listener.Repr == old(client.listener.Repr) + FiltersRepr(fs)
      ensures client.listener.eventFilter == old(client.listener.eventFilter) + fs
      ensures client.listener.lastEventReceived == old(client.listener.lastEventReceived)
      ensures forall j :: 0 <= j < |fs| ==> fs[j].Valid() && fs[j].Snap() == FilterScrapeStart(before[j], actionId)
      ensures client.listener.Filters() == old(client.listener.Filters()) + ArmAll(before, actionId)
    {
      ghost var olds := client.listener.eventFilter;
      ghost var s0 := client.listener.Filters();
      client.AddEventFilter(fs);
      forall j | 0 <= j < |olds| ensures olds[j].Valid() && olds[j].Snap() == s0[j] {
        assert olds[j] in olds;
      }
      ListedFilters(client.listener, s0, olds, fs, before, actionId);
    }

    /**
     * __detach_event_filter: signal the end of the scrape to every filter of
     * the action, in order; once one raises, the error ends exec and nothing
     * else is undone.  Otherwise the filters leave the listener, the
     * executer's callback is deregistered and the flag is cleared.
     */
    method DetachEventFilter(ghost olds: seq<EventFilter>, ghost before: seq<FilterSnap>) returns (raised: bool)
      requires Valid() && action.Some? && client.listener.eventFilter == olds + action.value.filterList
      requires Apart(action.value.filterList) && |before| == |action.value.filterList|
      requires forall j :: 0 <= j < |before| ==> action.value.filterList[j].Snap() == before[j]
      modifies this, client, client.listener, client.listener.Repr
      ensures Valid() && action == old(action) && actionId == old(actionId) && raised == EndAll(before).1
      ensures forall j :: 0 <= j < |before| ==>
        action.value.filterList[j].Valid() && action.value.filterList[j].Snap() == EndAll(before).0[j]
      ensures forall j :: 0 <= j < |olds| ==> olds[j].Valid() && olds[j].Snap() == old(client.State()).filters[j]
      ensures raised ==> finished == old(finished) && client.callbacks == old(client.callbacks)
      ensures raised ==> client.listener.eventFilter == old(client.listener.eventFilter)
      ensures !raised ==> !finished && client.callbacks == Deregister(old(client.callbacks), ExecuterOnEvent)
      ensures !raised ==> client.listener.eventFilter == olds
      ensures !raised ==> client.listener.Repr == old(client.listener.Repr) - FiltersRepr(action.value.filterList)
      ensures client.listener.lastEventReceived == old(client.listener.lastEventReceived) && client.KeepsSettings()
      ensures client.isLoginValidated == old(client.isLoginValidated)
      ensures client.isAsteriskFullyBooted == old(client.isAsteriskFullyBooted)
    {
      var fs := action.value.filterList;
      raised := EndListed(client.listener, olds, fs, before);
      if !raised {
        PartsApart(client.listener, olds, fs);
        Unregister(olds);
      }
    }

    /**
     * The rest of __detach_event_filter once every filter has ended its
     * scrape: the filters leave the listener (they are there, so removing
     * them cannot raise), the callback is deregistered and the flag cleared.
     */
    method Unregister(ghost olds: seq<EventFilter>)
      requires Valid() && action.Some? && client.listener.eventFilter == olds + action.value.filterList
      requires Apart(olds) && Apart(action.value.filterList)
      modifies this, client, client.listener
      ensures Valid() && action == old(action) && actionId == old(actionId) && !finished
      ensures forall j :: 0 <= j < |action.value.filterList| ==>
        action.value.filterList[j].Valid() && action.value.filterList[j].Snap() == old(action.value.filterList[j].Snap())
      ensures forall j :: 0 <= j < |olds| ==> olds[j].Valid() && olds[j].Snap() == old(olds[j].Snap())
      ensures client.callbacks == Deregister(old(client.callbacks), ExecuterOnEvent)
      ensures client.listener.eventFilter == olds
      ensures client.listener.Repr == old(client.listener.Repr) - FiltersRepr(action.value.filterList)
      ensures client.listener.lastEventReceived == old(client.listener.lastEventReceived) && client.KeepsSettings()
      ensures client.isLoginValidated == old(client.isLoginValidated)
      ensures client.isAsteriskFullyBooted == old(client.isAsteriskFullyBooted)
    {
      var fs := action.value.filterList;
      PartsApart(client.listener, olds, fs);
      RemoveEachAppended(olds, fs);
      var missing := client.RemoveEventFilter(fs);
      client.DetachEventListener(ExecuterOnEvent);
      finished := false;
      FiltersStable(fs);
      FiltersStable(olds);
    }

    /**
     * exec: take the next action id, arm and attach the action's filters,
     * send the action, wait for its events when the response succeeded, and
     * detach.  The result says whether the scrape end raised, which ends exec
     * with that error.
     */
    method Exec(a: Action, reply: Option<Response>, arrivals: seq<seq<Event>>, start: int)
      returns (raised: bool, ghost before: seq<FilterSnap>, ghost waited: (Session, bool))
      requires Valid() && Detachable(a.filterList, client, this)
      modifies this, client, client.listener, client.listener.Repr, FiltersRepr(a.filterList)
      ensures Valid() && action == Some(a) && actionId == NatToString(old(client.actionCounter))
      ensures client.actionCounter == old(client.actionCounter) + 1
      ensures client.sent == old(client.sent) + [ActionRequest(a, actionId)] && client.timeout == a.responseTimeout
      ensures |before| == |a.filterList| && forall j :: 0 <= j < |a.filterList| ==> before[j] == old(a.filterList[j].Snap())
      ensures raised <==> exists j :: 0 <= j < |a.filterList| && before[j].HasUninitializedGauge()
      ensures waited == AwaitReply(Attached(old(client.State()), before, actionId), false, a, actionId, reply, arrivals, start)
      ensures |waited.0.filters| == |old(client.listener.eventFilter)| + |a.filterList|
      ensures forall j :: 0 <= j < |a.filterList| ==>
        a.filterList[j].Valid() && a.filterList[j].Snap() == EndAll(waited.0.filters[|old(client.listener.eventFilter)|..]).0[j]
      ensures forall j :: 0 <= j < |old(client.listener.eventFilter)| ==>
        old(client.listener.eventFilter)[j].Valid() && old(client.listener.eventFilter)[j].Snap() == waited.0.filters[j]
      ensures client.isLoginValidated == waited.0.loginValidated && client.isAsteriskFullyBooted == waited.0.fullyBooted
      ensures client.listener.lastEventReceived == waited.0.lastEvent
      ensures raised ==> finished == waited.1 && client.callbacks == waited.0.callbacks
      ensures !raised ==> client.callbacks == Deregister(waited.0.callbacks, ExecuterOnEvent)
      ensures client.validatedLogin == old(client.validatedLogin)
      ensures raised ==> client.listener.eventFilter == old(client.listener.eventFilter) + a.filterList
      ensures !raised ==> !finished && client.listener.eventFilter == old(client.listener.eventFilter)
      ensures !raised ==> client.listener.Repr == old(client.listener.Repr)
      ensures !raised ==> forall j :: 0 <= j < |a.filterList| ==>
        a.filterList[j].Valid() && a.filterList[j].Snap().Committed() && a.filterList[j].Snap().actionId == Some(actionId)
      ensures !raised && NoLoginCallbacks(old(client.callbacks)) && ExecuterOnEvent !in old(client.callbacks) ==>
        client.callbacks == old(client.callbacks)
    {
      var fs := a.filterList;
      ghost var olds := client.listener.eventFilter;
      before := FilterSnaps(fs, FiltersRepr(fs));
      forall j | 0 <= j < |fs| ensures before[j].Inv() {
        fs[j].ValidSnap();
      }
      ghost var cbs := client.callbacks;
      ghost var s0 := client.State();
      Arm(a, before);
      raised, waited := Finish(reply, arrivals, start, olds, before, cbs, s0);
    }

    /**
     * The rest of exec once the filters are attached, stated against the
     * session s0 and the filters' states before exec began.
     */
    method Finish(reply: Option<Response>, arrivals: seq<seq<Event>>, start: int, ghost olds: seq<EventFilter>,
                  ghost before: seq<FilterSnap>, ghost cbs: seq<Callback>, ghost s0: Session)
      returns (raised: bool, ghost waited: (Session, bool))
      requires Valid() && action.Some? && client.listener.eventFilter == olds + action.value.filterList
      requires Apart(action.value.filterList) && |before| == |action.value.filterList| && AllInv(before)
      requires forall j :: 0 <= j < |before| ==> action.value.filterList[j].Snap() == FilterScrapeStart(before[j], actionId)
      requires !finished && client.callbacks == cbs + [ExecuterOnEvent]
      requires client.State() == Attached(s0, before, actionId)
      modifies this, client, client.listener, client.listener.Repr
      ensures Valid() && action == old(action) && actionId == old(actionId)
      ensures client.actionCounter == old(client.actionCounter)
      ensures client.sent == old(client.sent) + [ActionRequest(action.value, actionId)]
      ensures client.timeout == action.value.responseTimeout
      ensures raised <==> exists j :: 0 <= j < |before| && before[j].HasUninitializedGauge()
      ensures waited == AwaitReply(Attached(s0, before, actionId), false, action.value, actionId, reply, arrivals, start)
      ensures |waited.0.filters| == |olds| + |before|
      ensures forall j :: 0 <= j < |before| ==>
        action.value.filterList[j].Valid() && action.value.filterList[j].Snap() == EndAll(waited.0.filters[|olds|..]).0[j]
      ensures forall j :: 0 <= j < |olds| ==> olds[j].Valid() && olds[j].Snap() == waited.0.filters[j]
      ensures client.isLoginValidated == waited.0.loginValidated && client.isAsteriskFullyBooted == waited.0.fullyBooted
      ensures client.listener.lastEventReceived == waited.0.lastEvent
      ensures raised ==> finished == waited.1 && client.callbacks == waited.0.callbacks
      ensures !raised ==> client.callbacks == Deregister(waited.0.callbacks, ExecuterOnEvent)
      ensures client.validatedLogin == old(client.validatedLogin)
      ensures raised ==> client.listener.eventFilter == olds + action.value.filterList
      ensures !raised ==> !finished && client.listener.eventFilter == olds
      ensures !raised ==> client.listener.Repr == old(client.listener.Repr) - FiltersRepr(action.value.filterList)
      ensures !raised ==> forall j :: 0 <= j < |before| ==>
        action.value.filterList[j].Valid() && action.value.filterList[j].Snap().Committed() &&
        action.value.filterList[j].Snap().actionId == Some(actionId)
      ensures !raised && NoLoginCallbacks(cbs) && ExecuterOnEvent !in cbs ==> client.callbacks == cbs
    {
      ghost var collected;
      raised, collected, waited := Conclude(reply, arrivals, start, olds, ArmAll(before, actionId));
      ExecOutcome(before, collected, actionId);
      DeregisterAppended(cbs);
    }

    /** The first half of exec: record the action, take an id, arm and attach the filters. */
    method Arm(a: Action, ghost before: seq<FilterSnap>)
      requires Valid() && Detachable(a.filterList, client, this) && |before| == |a.filterList|
      requires forall j :: 0 <= j < |before| ==> a.filterList[j].Snap() == before[j]
      modifies this, client, client.listener, FiltersRepr(a.filterList)
      ensures Valid() && action == Some(a) && !finished && actionId == NatToString(old(client.actionCounter))
      ensures client.actionCounter == old(client.actionCounter) + 1
      ensures client.sent == old(client.sent) && client.timeout == old(client.timeout)
      ensures client.validatedLogin == old(client.validatedLogin)
      ensures client.callbacks == old(client.callbacks) + [ExecuterOnEvent]
      ensures client.listener.eventFilter == old(client.listener.eventFilter) + a.filterList
      ensures client.listener.Repr == old(client.listener.Repr) + FiltersRepr(a.filterList)
      ensures Apart(a.filterList)
      ensures forall j :: 0 <= j < |before| ==> a.filterList[j].Snap() == FilterScrapeStart(before[j], actionId)
      ensures client.State() == Attached(old(client.State()), before, actionId)
    {
      ghost var olds := client.listener.eventFilter;
      ghost var s0 := client.State();
      Begin(a, before);
      assert client.State() == s0;
      AttachEventFilter(before);
      PartsApart(client.listener, olds, a.filterList);
    }

    /** The second half of exec: send, wait when the response succeeded, and detach. */
    method Conclude(reply: Option<Response>, arrivals: seq<seq<Event>>, start: int,
                    ghost olds: seq<EventFilter>, ghost armed: seq<FilterSnap>)
      returns (raised: bool, ghost collected: seq<FilterSnap>, ghost waited: (Session, bool))
      requires Valid() && action.Some? && client.listener.eventFilter == olds + action.value.filterList
      requires Apart(action.value.filterList) && |armed| == |action.value.filterList|
      requires forall j :: 0 <= j < |armed| ==> action.value.filterList[j].Snap() == armed[j]
      modifies this, client, client.listener, client.listener.Repr
      ensures Valid() && action == old(action) && actionId == old(actionId)
      ensures waited == AwaitReply(old(client.State()), old(finished), action.value, actionId, reply, arrivals, start)
      ensures |waited.0.filters| == |olds| + |armed| && collected == waited.0.filters[|olds|..]
      ensures forall j :: 0 <= j < |olds| ==> olds[j].Valid() && olds[j].Snap() == waited.0.filters[j]
      ensures raised ==> finished == waited.1 && client.callbacks == waited.0.callbacks
      ensures !raised ==> client.callbacks == Deregister(waited.0.callbacks, ExecuterOnEvent)
      ensures client.isLoginValidated == waited.0.loginValidated && client.isAsteriskFullyBooted == waited.0.fullyBooted
      ensures client.listener.lastEventReceived == waited.0.lastEvent
      ensures client.sent == old(client.sent) + [ActionRequest(action.value, actionId)]
      ensures client.timeout == action.value.responseTimeout && client.actionCounter == old(client.actionCounter)
      ensures |collected| == |armed| && raised == EndAll(collected).1
      ensures forall j :: 0 <= j < |armed| ==> collected[j] == armed[j] || SameShape(collected[j], armed[j])
      ensures forall j :: 0 <= j < |armed| ==>
        action.value.filterList[j].Valid() && action.value.filterList[j].Snap() == EndAll(collected).0[j]
      ensures client.validatedLogin == old(client.validatedLogin)
      ensures raised ==> client.listener.eventFilter == old(client.listener.eventFilter)
      ensures !raised ==> !finished && client.listener.eventFilter == olds
      ensures !raised ==> client.listener.Repr == old(client.listener.Repr) - FiltersRepr(action.value.filterList)
      ensures !raised && NoLoginCallbacks(old(client.callbacks)) ==>
        client.callbacks == Deregister(old(client.callbacks), ExecuterOnEvent)
    {
      var ok;
      ok, collected := Run(reply, arrivals, start, olds, armed);
      ghost var s := client.State();
      waited := (s, finished);
      forall j | 0 <= j < |armed| ensures s.filters[|olds| + j] == collected[j] {
        assert client.listener.eventFilter[|olds| + j] == action.value.filterList[j];
      }
      assert collected == s.filters[|olds|..];
      raised := DetachEventFilter(olds, collected);
    }

    /** The start of exec: the action and a fresh action id are recorded and the flag is cleared. */
    method Begin(a: Action, ghost before: seq<FilterSnap>)
      requires Valid() && Detachable(a.filterList, client, this) && |before| == |a.filterList|
      requires forall j :: 0 <= j < |before| ==> a.filterList[j].Snap() == before[j]
      modifies this, client
      ensures Valid() && Detachable(a.filterList, client, this)
      ensures action == Some(a) && !finished && actionId == NatToString(old(client.actionCounter))
      ensures client.actionCounter == old(client.actionCounter) + 1
      ensures client.sent == old(client.sent) && client.timeout == old(client.timeout)
      ensures client.callbacks == old(client.callbacks) && client.validatedLogin == old(client.validatedLogin)
      ensures client.isLoginValidated == old(client.isLoginValidated)
      ensures client.isAsteriskFullyBooted == old(client.isAsteriskFullyBooted)
      ensures forall j :: 0 <= j < |a.filterList| ==> a.filterList[j].Snap() == before[j]
    {
      action := Some(a);
      finished := false;
      actionId := client.GetNextActionId();
      FiltersStable(a.filterList);
    }

    /** The middle of exec: send the action and, when the response succeeded, wait for its events. */
    method Run(reply: Option<Response>, arrivals: seq<seq<Event>>, start: int,
               ghost olds: seq<EventFilter>, ghost armed: seq<FilterSnap>)
      returns (ok: bool, ghost collected: seq<FilterSnap>)
      requires Valid() && action.Some? && client.listener.eventFilter == olds + action.value.filterList
      requires Apart(action.value.filterList) && |armed| == |action.value.filterList|
      requires forall j :: 0 <= j < |armed| ==> action.value.filterList[j].Snap() == armed[j]
      modifies this, client, client.listener.Repr
      ensures Valid() && action == old(action) && actionId == old(actionId) && (ok <==> ResponseSucceeded(reply))
      ensures client.listener.eventFilter == old(client.listener.eventFilter)
      ensures client.listener.Repr == old(client.listener.Repr)
      ensures client.sent == old(client.sent) + [ActionRequest(action.value, actionId)]
      ensures client.timeout == action.value.responseTimeout && client.actionCounter == old(client.actionCounter)
      ensures client.validatedLogin == old(client.validatedLogin)
      ensures NoLoginCallbacks(old(client.callbacks)) ==> client.callbacks == old(client.callbacks)
      ensures Apart(action.value.filterList) && |collected| == |armed|
      ensures forall j :: 0 <= j < |armed| ==>
        action.value.filterList[j].Snap() == collected[j] && (collected[j] == armed[j] || SameShape(collected[j], armed[j]))
      ensures (client.State(), finished) ==
        AwaitReply(old(client.State()), old(finished), action.value, actionId, reply, arrivals, start)
    {
      var fs := action.value.filterList;
      PartsApart(client.listener, olds, fs);
      ok := SendAction(reply);
      assert client.State() == old(client.State());
      FiltersStable(fs);
      collected := Await(ok, arrivals, start, olds, armed);
    }

    /** The wait of exec: collect the action's events when the send succeeded; otherwise nothing happens. */
    method Await(ok: bool, arrivals: seq<seq<Event>>, start: int,
                 ghost olds: seq<EventFilter>, ghost armed: seq<FilterSnap>)
      returns (ghost collected: seq<FilterSnap>)
      requires Valid() && action.Some? && client.listener.eventFilter == olds + action.value.filterList
      requires Apart(action.value.filterList) && |armed| == |action.value.filterList|
      requires forall j :: 0 <= j < |armed| ==> action.value.filterList[j].Snap() == armed[j]
      modifies this, client, client.listener.Repr
      ensures Valid() && action == old(action) && actionId == old(actionId)
      ensures client.listener.eventFilter == old(client.listener.eventFilter)
      ensures client.listener.Repr == old(client.listener.Repr) && client.KeepsSettings()
      ensures NoLoginCallbacks(old(client.callbacks)) ==> client.callbacks == old(client.callbacks)
      ensures Apart(action.value.filterList) && |collected| == |armed|
      ensures forall j :: 0 <= j < |armed| ==>
        action.value.filterList[j].Snap() == collected[j] && (collected[j] == armed[j] || SameShape(collected[j], armed[j]))
      ensures (client.State(), finished) == if ok then
          Collect(old(client.State()), old(finished), action.value.until, actionId, action.value.eventTimeout, arrivals, start, 0)
        else (old(client.State()), old(finished))
    {
      var fs := action.value.filterList;
      collected := armed;
      if ok {
        var got := CollectEvents(arrivals, start);
        PartsApart(client.listener, olds, fs);
        collected := FilterSnaps(fs, FiltersRepr(fs));
        forall j | 0 <= j < |fs| ensures SameShape(collected[j], armed[j]) {
          assert fs[j] == client.listener.eventFilter[|olds| + j];
        }
      }
    }

    /** __send_action: set the response timeout, send the action, and classify the response. */
    method SendAction(reply: Option<Response>) returns (ok: bool)
      requires Valid() && action.Some?
      modifies client
      ensures Valid() && client.listener.Repr == old(client.listener.Repr)
      ensures ok <==> ResponseSucceeded(reply)
      ensures client.sent == old(client.sent) + [ActionRequest(action.value, actionId)]
      ensures client.timeout == action.value.responseTimeout && client.actionCounter == old(client.actionCounter)
      ensures client.callbacks == old(client.callbacks) && client.validatedLogin == old(client.validatedLogin)
      ensures client.isLoginValidated == old(client.isLoginValidated)
      ensures client.isAsteriskFullyBooted == old(client.isAsteriskFullyBooted)
    {
      var a := action.value;
      var request := ActionRequest(a, actionId);
      client.SetResponseTimeout(a.responseTimeout);
      var response := client.SendAction(request, reply);
      if response.None? {
        return false;
      }
      if response.value.status != "Success" {
        return false;
      }
      ok := true;
    }
  }
}
