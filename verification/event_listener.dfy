/**
 * The event listener registered with the AMI client: an ordered list of
 * event filters that every incoming event is handed to, and the time the
 * last event arrived (the connection health check compares it with the
 * ping timeout).  Times are clock ticks passed in by the caller.
 */
module EventListeners {
  import opened Ami
  import opened Sequences
  import opened EventFilters

  function FilterEventStep(e: Event): FilterSnap -> (FilterSnap, bool) {
    f => FilterStep(f, e)
  }

  /**
   * What on_event does to the filters: each processes the event in list
   * order; the first one that raises ends the loop, and the error is logged
   * and swallowed.
   */
  function Dispatch(fs: seq<FilterSnap>, e: Event): seq<FilterSnap> {
    StepAll(FilterEventStep(e), fs).0
  }

  /** What an event can never change about a filter. */
  predicate SameShape(a: FilterSnap, b: FilterSnap) {
    a.eventNames == b.eventNames && a.actionId == b.actionId && |a.metrics| == |b.metrics| &&
    a.Inv() && b.Inv() && (a.HasUninitializedGauge() <==> b.HasUninitializedGauge())
  }

  /** Two filter lists of the same length whose filters pair off with the same shape. */
  predicate SameShapes(a: seq<FilterSnap>, b: seq<FilterSnap>) {
    |a| == |b| && forall i :: 0 <= i < |a| ==> SameShape(a[i], b[i])
  }

  predicate AllInv(fs: seq<FilterSnap>) {
    forall i :: 0 <= i < |fs| ==> fs[i].Inv()
  }

  /** Dispatching an event keeps every filter's names, action id, invariant and uninitialized gauges. */
  lemma DispatchKeepsShape(fs: seq<FilterSnap>, e: Event)
    requires AllInv(fs)
    ensures |Dispatch(fs, e)| == |fs|
    ensures forall i :: 0 <= i < |fs| ==> SameShape(Dispatch(fs, e)[i], fs[i])
  {
    StepAllFacts(FilterEventStep(e), fs);
    forall i | 0 <= i < |fs| ensures SameShape(Dispatch(fs, e)[i], fs[i]) {
      FilterStepKeepsIdentity(fs[i], e);
    }
  }

  /** A filter that raises stops the dispatch: the filters after it do not see the event. */
  lemma DispatchStopsAtRaise(fs: seq<FilterSnap>, e: Event, k: nat)
    requires k < |fs| && FilterStep(fs[k], e).1
    requires forall j :: 0 <= j < k ==> !FilterStep(fs[j], e).1
    ensures forall j :: k < j < |fs| ==> Dispatch(fs, e)[j] == fs[j]
    ensures forall j :: 0 <= j <= k ==> Dispatch(fs, e)[j] == FilterStep(fs[j], e).0
  {
    assert FilterEventStep(e)(fs[k]).1;
    StepAllFacts(FilterEventStep(e), fs);
    FirstRaiseFacts(FilterEventStep(e), fs);
  }

  /** An event that no filter admits leaves all of them as they were. */
  lemma {:induction false} DispatchIgnored(fs: seq<FilterSnap>, e: Event)
    requires forall i :: 0 <= i < |fs| ==> Admit(fs[i].eventNames, fs[i].actionId, e) == Drop
    ensures Dispatch(fs, e) == fs
  {
    StepAllFacts(FilterEventStep(e), fs);
    forall i | 0 <= i < |fs| ensures Dispatch(fs, e)[i] == fs[i] {
      assert FilterStep(fs[i], e) == (fs[i], false);
    }
  }

  class EventListener {
    var eventFilter: seq<EventFilter>
    var lastEventReceived: int
    ghost var Repr: set<object>

    ghost predicate Valid()
      reads this, Repr
    {
      this in Repr && Separate(eventFilter, Repr - {this})
    }

    /** The states of the attached filters, in list order. */
    ghost function Filters(): seq<FilterSnap>
      reads this, Repr
      requires Valid()
    {
      FilterSnaps(eventFilter, Repr - {this})
    }

    lemma FiltersInv()
      requires Valid()
      ensures AllInv(Filters())
    {
      forall i | 0 <= i < |eventFilter| ensures Filters()[i].Inv() {
        eventFilter[i].ValidSnap();
      }
    }

    /** The listener is created with the current time as the time of the last event. */
    constructor (now: int)
      ensures Valid() && fresh(Repr - {this})
      ensures eventFilter == [] && lastEventReceived == now && Repr == {this}
    {
      eventFilter := [];
      lastEventReceived := now;
      Repr := {this};
    }

    /** add_event_filter: append the filter; the ones already there keep their order. */
    method AddEventFilter(f: EventFilter)
      requires Valid() && f.Valid() && f.Repr !! Repr
      modifies this
      ensures Valid() && Repr == old(Repr) + f.Repr
      ensures eventFilter == old(eventFilter) + [f] && lastEventReceived == old(lastEventReceived)
      ensures Filters() == old(Filters()) + [f.Snap()]
    {
      eventFilter := eventFilter + [f];
      Repr := Repr + f.Repr;
      assert Separate(eventFilter, Repr - {this}) by {
        forall i | 0 <= i < |eventFilter| ensures eventFilter[i].Repr <= Repr - {this} && eventFilter[i].Valid() {
          if i < |eventFilter| - 1 {
            assert eventFilter[i] == old(eventFilter)[i];
          }
        }
      }
    }

    /** remove_event_filter: list.remove, so the first occurrence goes and an absent filter raises. */
    method RemoveEventFilter(f: EventFilter) returns (raised: bool)
      requires Valid()
      modifies this
      ensures Valid() && lastEventReceived == old(lastEventReceived)
      ensures raised <==> f !in old(eventFilter)
      ensures raised ==> eventFilter == old(eventFilter) && Repr == old(Repr)
      ensures !raised ==> RemoveFirst(old(eventFilter), f) == Some(eventFilter) && Repr == old(Repr) - f.Repr
    {
      var r := RemoveFirst(eventFilter, f);
      if r.None? {
        return true;
      }
      raised := false;
      ghost var fs := eventFilter;
      ghost var k := IndexOf(fs, f);
      RemoveFirstAt(fs, f);
      eventFilter := r.value;
      Repr := Repr - f.Repr;
      assert eventFilter == fs[..k] + fs[k + 1..];
      SeparateWithout(fs, old(Repr) - {this}, k);
      assert Repr - {this} == old(Repr) - {this} - f.Repr;
    }

    /** reset: no filter stays attached. */
    method Reset()
      requires Valid()
      modifies this
      ensures Valid() && eventFilter == [] && Repr == {this}
      ensures lastEventReceived == old(lastEventReceived)
    {
      eventFilter := [];
      Repr := {this};
    }

    method GetTimeOfLastEvent() returns (t: int)
      ensures t == lastEventReceived
    {
      t := lastEventReceived;
    }

    method UpdateTimeOfLastEvent(now: int)
      modifies this
      ensures lastEventReceived == now
      ensures eventFilter == old(eventFilter) && Repr == old(Repr)
    {
      lastEventReceived := now;
    }

    /** on_event: record the time, then hand the event to every filter (see Dispatch). */
    method OnEvent(e: Event, now: int)
      requires Valid()
      modifies Repr
      ensures Valid() && eventFilter == old(eventFilter) && Repr == old(Repr)
      ensures lastEventReceived == now
      ensures Filters() == Dispatch(old(Filters()), e)
    {
      ghost var before := Filters();
      lastEventReceived := now;
      ghost var k := ProcessAll(e);
      StepAllPointwise(FilterEventStep(e), before, Filters(), k);
    }

    /** The loop of on_event; k is the index of the filter that raised, or the length of the list. */
    method ProcessAll(e: Event) returns (ghost k: nat)
      requires Valid()
      modifies Repr - {this}
      ensures Valid() && unchanged(this)
      ensures k <= |eventFilter|
      ensures forall j :: 0 <= j < k ==> !FilterStep(old(eventFilter[j].Snap()), e).1
      ensures k < |eventFilter| ==> FilterStep(old(eventFilter[k].Snap()), e).1
      ensures forall j :: 0 <= j < |eventFilter| ==>
        eventFilter[j].Snap() == if j <= k then FilterStep(old(eventFilter[j].Snap()), e).0 else old(eventFilter[j].Snap())
    {
      ghost var before := Filters();
      var i := 0;
      while i < |eventFilter|
        invariant 0 <= i <= |eventFilter|
        invariant unchanged(this) && Valid()
        invariant forall j :: 0 <= j < i ==> !FilterStep(before[j], e).1
        invariant forall j :: 0 <= j < |eventFilter| ==>
          eventFilter[j].Snap() == if j < i then FilterStep(before[j], e).0 else before[j]
      {
        var raised := ProcessAt(i, e);
        if raised {
          break;
        }
        i := i + 1;
      }
      k := i;
    }

    /** One filter processes the event; the others stay as they were. */
    method ProcessAt(i: nat, e: Event) returns (raised: bool)
      requires Valid() && i < |eventFilter|
      modifies eventFilter[i].Repr
      ensures Valid()
      ensures (eventFilter[i].Snap(), raised) == FilterStep(old(eventFilter[i].Snap()), e)
      ensures forall j :: 0 <= j < |eventFilter| && j != i ==> eventFilter[j].Snap() == old(eventFilter[j].Snap())
    {
      raised := eventFilter[i].ProcessEvent(e);
      forall j | 0 <= j < |eventFilter| && j != i
        ensures eventFilter[j].Valid() && eventFilter[j].Snap() == old(eventFilter[j].Snap())
      {
        eventFilter[j].Stable();
      }
    }
  }

  /** Dropping the filter at index k from a separated list keeps the rest separated inside the smaller set. */
  lemma SeparateWithout(fs: seq<EventFilter>, r: set<object>, k: nat)
    requires k < |fs| && Separate(fs, r)
    ensures Separate(fs[..k] + fs[k + 1..], r - fs[k].Repr)
  {
    var gs := fs[..k] + fs[k + 1..];
    forall i | 0 <= i < |gs| ensures gs[i] == fs[if i < k then i else i + 1] {
    }
    forall i | 0 <= i < |gs| ensures gs[i] in r - fs[k].Repr && gs[i].Repr <= r - fs[k].Repr {
      var i' := if i < k then i else i + 1;
      assert fs[i'].Repr !! fs[k].Repr;
      assert gs[i] in gs[i].Repr;
    }
  }
}
