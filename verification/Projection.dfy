/** The projection of outbox events into the realtime stream: a version gate per aggregate keeps repeated
    and reordered deliveries out of it. */
module Projection {
  import opened Options
  import opened DecimalText

  datatype Event = Event(id: string, aggregate: string, version: string, body: string)

  datatype Projection = Projection(stream: seq<Event>, markers: set<string>, versions: map<string, string>)

  const EMPTY := Projection([], {}, map[])

  datatype Step = Deliver(event: Event) | ExpireMarker(id: string)

  /** What the caller demands of an event; otherwise it raises and writes nothing. */
  predicate Valid(e: Event) {
    e.aggregate != [] && e.version != [] && Digits(e.version)
  }

  /** The script appends. */
  predicate Publishes(p: Projection, e: Event) {
    e.id !in p.markers && (e.aggregate in p.versions ==> IsGreater(e.version, p.versions[e.aggregate]))
  }

  function Publish(p: Projection, e: Event): Projection {
    if e.id in p.markers then p
    else if Publishes(p, e) then
      Projection(p.stream + [e], p.markers + {e.id}, p.versions[e.aggregate := e.version])
    else p.(markers := p.markers + {e.id})
  }

  function Next(p: Projection, step: Step): Projection {
    match step
    case Deliver(e) => if Valid(e) then Publish(p, e) else p
    case ExpireMarker(id) => p.(markers := p.markers - {id})
  }

  /** An event is remembered from its first valid delivery, published or not, until its marker expires; only a
      valid one leaves any trace. */
  lemma RememberedIff(p: Projection, step: Step, id: string)
    ensures id in Next(p, step).markers <==>
      (step.Deliver? && Valid(step.event) && step.event.id == id) || (id in p.markers && step != ExpireMarker(id))
    ensures step.Deliver? && !Valid(step.event) ==> Next(p, step) == p
    ensures step.ExpireMarker? ==> Next(p, step) == p.(markers := p.markers - {step.id})
  {}

  /** The first event of an aggregate is published whatever its number, if it names both. */
  lemma FirstIsPublished(p: Projection, e: Event)
    requires e.aggregate != "" && e.version != "" && forall i :: 0 <= i < |e.version| ==> '0' <= e.version[i] <= '9'
    requires e.id !in p.markers && e.aggregate !in p.versions
    ensures Next(p, Deliver(e)) == Projection(p.stream + [e], p.markers + {e.id}, p.versions[e.aggregate := e.version])
  {}

  function Run(steps: seq<Step>): Projection {
    if steps == [] then EMPTY else Next(Run(steps[..|steps| - 1]), steps[|steps| - 1])
  }

  /** The event was delivered in the run. */
  predicate Delivered(steps: seq<Step>, e: Event) {
    Valid(e) && Deliver(e) in steps
  }

  /** An event id fixes the event. */
  ghost predicate IdsFix(steps: seq<Step>) {
    forall d, e: Event :: Delivered(steps, d) && Delivered(steps, e) && d.id == e.id ==> d == e
  }

  /** No delivered event of the aggregate has a version above `bound`, and one has exactly it. */
  ghost predicate IsNewest(steps: seq<Step>, aggregate: string, bound: nat) {
    && (forall e: Event :: Delivered(steps, e) && e.aggregate == aggregate ==> Value(e.version) <= bound)
    && (exists e: Event :: Delivered(steps, e) && e.aggregate == aggregate && Value(e.version) == bound)
  }

  // --- Invariants.

  ghost predicate VersionsInv(p: Projection, steps: seq<Step>) {
    && (forall a :: a in p.versions ==> Digits(p.versions[a]) && IsNewest(steps, a, Value(p.versions[a])))
    && (forall e: Event :: Delivered(steps, e) ==> e.aggregate in p.versions)
  }

  ghost predicate MarkersInv(p: Projection, steps: seq<Step>) {
    forall id :: id in p.markers ==> exists e: Event :: Delivered(steps, e) && e.id == id
  }

  ghost predicate StreamInv(p: Projection, steps: seq<Step>) {
    && (forall i :: 0 <= i < |p.stream| ==> Delivered(steps, p.stream[i]))
    && (forall i, j :: 0 <= i < j < |p.stream| && p.stream[i].aggregate == p.stream[j].aggregate ==>
          Digits(p.stream[i].version) && Digits(p.stream[j].version)
          && Value(p.stream[i].version) < Value(p.stream[j].version))
  }

  ghost predicate Inv(p: Projection, steps: seq<Step>) {
    VersionsInv(p, steps) && MarkersInv(p, steps) && StreamInv(p, steps)
  }

  lemma DeliveredAppend(steps: seq<Step>, step: Step, e: Event)
    ensures Delivered(steps + [step], e) <==> Delivered(steps, e) || (Valid(e) && step == Deliver(e))
  {}

  /** The gate alone decides: a marker only ever stands for an event the gate would refuse again. */
  lemma MarkedIsRefused(p: Projection, steps: seq<Step>, e: Event)
    requires Inv(p, steps) && Valid(e) && IdsFix(steps + [Deliver(e)]) && e.id in p.markers
    ensures e.aggregate in p.versions && Value(e.version) <= Value(p.versions[e.aggregate])
  {
    var d: Event :| Delivered(steps, d) && d.id == e.id;
    DeliveredAppend(steps, Deliver(e), d);
    DeliveredAppend(steps, Deliver(e), e);
  }

  lemma PublishesIff(p: Projection, steps: seq<Step>, e: Event)
    requires Inv(p, steps) && Valid(e) && IdsFix(steps + [Deliver(e)])
    ensures Publishes(p, e) <==>
      forall d: Event :: Delivered(steps, d) && d.aggregate == e.aggregate ==> Value(d.version) < Value(e.version)
  {
    if e.id in p.markers {
      MarkedIsRefused(p, steps, e);
    }
    if e.aggregate in p.versions {
      IsGreaterIff(e.version, p.versions[e.aggregate]);
      assert IsNewest(steps, e.aggregate, Value(p.versions[e.aggregate]));
    }
  }

  lemma NewestAppend(steps: seq<Step>, e: Event, aggregate: string, bound: nat)
    requires Valid(e) && IsNewest(steps, aggregate, bound)
    requires e.aggregate == aggregate ==> Value(e.version) <= bound
    ensures IsNewest(steps + [Deliver(e)], aggregate, bound)
  {
    var d: Event :| Delivered(steps, d) && d.aggregate == aggregate && Value(d.version) == bound;
    DeliveredAppend(steps, Deliver(e), d);
  }

  lemma PublishKeepsVersions(p: Projection, steps: seq<Step>, e: Event)
    requires Inv(p, steps) && Valid(e) && IdsFix(steps + [Deliver(e)])
    ensures VersionsInv(Publish(p, e), steps + [Deliver(e)])
  {
    var t, all := Publish(p, e), steps + [Deliver(e)];
    PublishesIff(p, steps, e);
    DeliveredAppend(steps, Deliver(e), e);
    forall a | a in t.versions ensures Digits(t.versions[a]) && IsNewest(all, a, Value(t.versions[a])) {
      if Publishes(p, e) && a == e.aggregate {
        assert Delivered(all, e);
      } else {
        if a == e.aggregate {
          RefusedIsOld(p, steps, e);
        }
        NewestAppend(steps, e, a, Value(p.versions[a]));
      }
    }
    if !Publishes(p, e) {
      RefusedIsOld(p, steps, e);
    }
  }

  lemma RefusedIsOld(p: Projection, steps: seq<Step>, e: Event)
    requires Inv(p, steps) && Valid(e) && IdsFix(steps + [Deliver(e)])
    ensures Publishes(p, e) || (e.aggregate in p.versions && Value(e.version) <= Value(p.versions[e.aggregate]))
  {
    if e.id in p.markers {
      MarkedIsRefused(p, steps, e);
    } else if e.aggregate in p.versions {
      IsGreaterIff(e.version, p.versions[e.aggregate]);
    }
  }

  lemma PublishKeepsMarkers(p: Projection, steps: seq<Step>, e: Event)
    requires MarkersInv(p, steps) && Valid(e)
    ensures MarkersInv(Publish(p, e), steps + [Deliver(e)])
  {
    var all := steps + [Deliver(e)];
    DeliveredAppend(steps, Deliver(e), e);
    forall id | id in Publish(p, e).markers ensures exists d: Event :: Delivered(all, d) && d.id == id {
      if id in p.markers {
        var d: Event :| Delivered(steps, d) && d.id == id;
        DeliveredAppend(steps, Deliver(e), d);
      } else {
        assert Delivered(all, e);
      }
    }
  }

  lemma PublishKeepsStream(p: Projection, steps: seq<Step>, e: Event)
    requires Inv(p, steps) && Valid(e) && IdsFix(steps + [Deliver(e)])
    ensures StreamInv(Publish(p, e), steps + [Deliver(e)])
  {
    var all := steps + [Deliver(e)];
    PublishesIff(p, steps, e);
    DeliveredAppend(steps, Deliver(e), e);
    forall i | 0 <= i < |p.stream| ensures Delivered(all, p.stream[i]) {
      DeliveredAppend(steps, Deliver(e), p.stream[i]);
    }
    if Publishes(p, e) {
      forall i | 0 <= i < |p.stream| && p.stream[i].aggregate == e.aggregate
        ensures Digits(p.stream[i].version) && Value(p.stream[i].version) < Value(e.version)
      {
        assert Delivered(steps, p.stream[i]);
      }
    }
  }

  lemma ExpireKeepsInvariant(p: Projection, steps: seq<Step>, id: string)
    requires Inv(p, steps)
    ensures Inv(p.(markers := p.markers - {id}), steps + [ExpireMarker(id)])
  {
    SameDelivered(p, steps, ExpireMarker(id));
  }

  lemma SameDelivered(p: Projection, steps: seq<Step>, step: Step)
    requires Inv(p, steps) && (step.Deliver? ==> !Valid(step.event))
    ensures Inv(p, steps + [step])
  {
    var all := steps + [step];
    assert forall e: Event :: Delivered(all, e) <==> Delivered(steps, e);
    forall a | a in p.versions ensures IsNewest(all, a, Value(p.versions[a])) {
      assert IsNewest(steps, a, Value(p.versions[a]));
    }
  }

  lemma {:induction false} RunInv(steps: seq<Step>)
    requires IdsFix(steps)
    ensures Inv(Run(steps), steps)
  {
    if steps != [] {
      var front, last := steps[..|steps| - 1], steps[|steps| - 1];
      assert steps == front + [last];
      assert forall e: Event :: Delivered(front, e) ==> Delivered(steps, e);
      RunInv(front);
      if last.ExpireMarker? {
        ExpireKeepsInvariant(Run(front), front, last.id);
      } else if Valid(last.event) {
        PublishKeepsVersions(Run(front), front, last.event);
        PublishKeepsMarkers(Run(front), front, last.event);
        PublishKeepsStream(Run(front), front, last.event);
      } else {
        SameDelivered(Run(front), front, last);
      }
    }
  }

  // --- What the projection guarantees.

  /** For any order and repetition of deliveries and any expiry of markers, the stream holds each event at
      most once, and the versions it shows of one aggregate strictly increase. */
  lemma StreamIsOrdered(steps: seq<Step>, i: nat, j: nat)
    requires IdsFix(steps) && i < j < |Run(steps).stream|
    ensures var s := Run(steps).stream;
      && s[i].id != s[j].id && Valid(s[i]) && Valid(s[j])
      && (s[i].aggregate == s[j].aggregate ==> Value(s[i].version) < Value(s[j].version))
  {
    RunInv(steps);
    var s := Run(steps).stream;
    assert Delivered(steps, s[i]) && Delivered(steps, s[j]);
  }

  /** The version kept for an aggregate is the largest delivered, however the deliveries were ordered. */
  lemma VersionConverges(steps: seq<Step>, other: seq<Step>, aggregate: string)
    requires IdsFix(steps) && IdsFix(other)
    requires forall e: Event :: Delivered(steps, e) <==> Delivered(other, e)
    ensures var p, q := Run(steps), Run(other);
      && (aggregate in p.versions <==> aggregate in q.versions)
      && (aggregate in p.versions ==>
            && Digits(p.versions[aggregate]) && Digits(q.versions[aggregate])
            && Value(p.versions[aggregate]) == Value(q.versions[aggregate])
            && IsNewest(steps, aggregate, Value(p.versions[aggregate])))
  {
    RunInv(steps);
    RunInv(other);
  }

  /** Delivery `i` of a run reaches the stream exactly when every earlier one of its aggregate was older;
      the marker never matters. */
  lemma PublishedIff(steps: seq<Step>, i: nat)
    requires IdsFix(steps) && i < |steps| && steps[i].Deliver? && Valid(steps[i].event)
    ensures var e := steps[i].event;
      Run(steps[..i + 1]).stream == Run(steps[..i]).stream + [e] <==>
        forall j :: 0 <= j < i && steps[j].Deliver? && Valid(steps[j].event) && steps[j].event.aggregate == e.aggregate
                    ==> Value(steps[j].event.version) < Value(e.version)
  {
    var before, e := steps[..i], steps[i].event;
    RunInv(before);
    PublishesIff(Run(before), before, e);
    PublishAppendsIff(Run(before), e);
    RunAppend(steps, i);
    EarlierDeliveries(steps, i);
  }

  lemma RunAppend(steps: seq<Step>, i: nat)
    requires i < |steps|
    ensures Run(steps[..i + 1]) == Next(Run(steps[..i]), steps[i])
  {
    assert steps[..i + 1][..i] == steps[..i];
  }

  lemma PublishAppendsIff(p: Projection, e: Event)
    ensures Publish(p, e).stream == p.stream + [e] <==> Publishes(p, e)
  {
    if !Publishes(p, e) {
      assert |Publish(p, e).stream| == |p.stream|;
    }
  }

  lemma EarlierDeliveries(steps: seq<Step>, i: nat)
    requires i < |steps|
    ensures forall d: Event :: Delivered(steps[..i], d) <==> Valid(d) && exists j :: 0 <= j < i && steps[j] == Deliver(d)
  {
    forall d: Event | Delivered(steps[..i], d) ensures exists j :: 0 <= j < i && steps[j] == Deliver(d) {
      var j :| 0 <= j < i && steps[..i][j] == Deliver(d);
      assert steps[j] == Deliver(d);
    }
    forall d: Event, j | 0 <= j < i && steps[j] == Deliver(d) ensures Deliver(d) in steps[..i] {
      assert steps[..i][j] == steps[j];
    }
  }

  datatype Result = Published(position: nat) | Nothing | InvalidVersion

  class RealtimeEventStore {
    var stream: seq<Event>
    var processed: set<string>
    var businessVersions: map<string, string>

    constructor ()
      ensures State() == EMPTY
    {
      stream, processed, businessVersions := [], {}, map[];
    }

    ghost function State(): Projection
      reads this
    {
      Projection.Projection(stream, processed, businessVersions)
    }

    method PublishProjectedOnce(e: Event) returns (result: Result)
      modifies this
      ensures State() == Next(old(State()), Deliver(e))
      ensures (result == InvalidVersion) <==>
        (e.aggregate == "" || e.version == "" || exists i :: 0 <= i < |e.version| && !('0' <= e.version[i] <= '9'))
      ensures result == if !Valid(e) then InvalidVersion
                        else if Publishes(old(State()), e) then Published(|old(stream)|) else Nothing
    {
      if e.aggregate == [] || e.version == [] || !Digits(e.version) {
        return InvalidVersion;
      }
      if e.id in processed {
        return Nothing;
      }
      processed := processed + {e.id};
      if e.aggregate in businessVersions && !IsGreater(e.version, businessVersions[e.aggregate]) {
        return Nothing;
      }
      stream := stream + [e];
      businessVersions := businessVersions[e.aggregate := e.version];
      return Published(|stream| - 1);
    }
  }
}
