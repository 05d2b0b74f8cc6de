/** Violation event reconciliation (pkg/violations/violations.go): each
    notification of current policy violations is turned into Kubernetes
    events, one per (kind, name), created on first sight, bumped while the
    violation persists and deleted once it is gone. */
module Violations {
  import opened Wrappers

  datatype EventSource = EventSource(component: string, host: string)

  /** The source stamped on every event this reconciler posts. */
  const Source: EventSource := EventSource("violation-watch", "kube-mgmt")

  const Reason: string := "violation notification"
  const EventType: string := "Normal"
  const InvolvedNamespace: string := "opa"

  datatype ObjectReference = ObjectReference(kind: string, namespace: string, name: string)

  /** The fields of a Kubernetes event that the reconciler sets or reads;
      timestamps are not modelled. */
  datatype Event = Event(
    kind: string,
    name: string,
    reason: string,
    involved: ObjectReference,
    count: int,
    eventType: string,
    source: EventSource,
    message: string)

  /** `violationKey`: events are tracked by the kind and name of the
      violating object. */
  datatype Key = Key(kind: string, name: string)

  /** One element of a notification's result; `message` is the message as
      `fmt.Sprint` prints it. */
  datatype Violation = Violation(kind: string, name: string, message: string)

  /** A request to the events API. */
  datatype Call = Create(event: Event) | Update(event: Event) | Delete(name: string)

  function KeyOf(v: Violation): Key
  {
    Key(v.kind, v.name)
  }

  function EventKey(e: Event): Key
  {
    Key(e.kind, e.name)
  }

  // ---------------------------------------------------------------------------
  // The events tracked when the reconciler starts

  /** The existing events posted by this reconciler, by key; of two with the
      same key the later one in the list is kept. */
  function Tracked(current: seq<Event>): map<Key, Event>
    decreases |current|
  {
    if current == [] then map[]
    else
      var init := Tracked(current[..|current| - 1]);
      var e := current[|current| - 1];
      if e.source == Source then init[EventKey(e) := e] else init
  }

  /** A key is tracked exactly when some existing event with that key has
      this reconciler's source. */
  lemma {:induction false} TrackedKeys(current: seq<Event>, k: Key)
    ensures k in Tracked(current) <==>
      exists i :: 0 <= i < |current| && current[i].source == Source && EventKey(current[i]) == k
    ensures k in Tracked(current) ==> Tracked(current)[k].source == Source && EventKey(Tracked(current)[k]) == k
    decreases |current|
  {
    if current != [] {
      var init := current[..|current| - 1];
      TrackedKeys(init, k);
      assert forall i :: 0 <= i < |init| ==> init[i] == current[i];
    }
  }

  /** The loop at the start of `Track` over the listed events. */
  method InitialEvents(current: seq<Event>) returns (events: map<Key, Event>)
    ensures events == Tracked(current)
  {
    events := map[];
    var i := 0;
    while i < |current|
      invariant 0 <= i <= |current|
      invariant events == Tracked(current[..i])
    {
      assert current[..i + 1][..i] == current[..i];
      var e := current[i];
      if e.source == Source {
        events := events[EventKey(e) := e];
      }
      i := i + 1;
    }
    assert current[..i] == current;
  }

  // ---------------------------------------------------------------------------
  // One notification

  /** The event created for a violation seen for the first time. */
  function NewEvent(v: Violation): Event
  {
    Event(v.kind, v.name, Reason, ObjectReference(v.kind, InvolvedNamespace, v.name), 1, EventType, Source, v.message)
  }

  /** The request a violation leads to, given the events tracked before the
      notification: a tracked key has its event's count bumped and message
      replaced, any other key gets a new event. */
  function Sent(events: map<Key, Event>, v: Violation): Call
  {
    var k := KeyOf(v);
    if k in events then Update(events[k].(message := v.message, count := events[k].count + 1))
    else Create(NewEvent(v))
  }

  /** What `Sent` sends: a new event with count 1, the fixed reason, type,
      namespace and source for an untracked key; the tracked event with its
      count one higher and the new message, and nothing else changed,
      otherwise. */
  lemma SentEvent(events: map<Key, Event>, v: Violation)
    ensures KeyOf(v) !in events ==> (
      var e := Sent(events, v).event;
      Sent(events, v).Create? && e.count == 1 && e.reason == Reason && e.eventType == EventType &&
      e.source == Source && e.involved == ObjectReference(v.kind, InvolvedNamespace, v.name) &&
      EventKey(e) == KeyOf(v) && e.message == v.message)
    ensures KeyOf(v) in events ==> (
      var e := Sent(events, v).event;
      Sent(events, v).Update? && e.count == events[KeyOf(v)].count + 1 && e.message == v.message &&
      e.(count := events[KeyOf(v)].count, message := events[KeyOf(v)].message) == events[KeyOf(v)])
  {
  }

  /** The creates and updates for a notification's violations, in order. */
  function Writes(events: map<Key, Event>, vs: seq<Violation>): (r: seq<Call>)
    ensures |r| == |vs|
    decreases |vs|
  {
    if vs == [] then []
    else Writes(events, vs[..|vs| - 1]) + [Sent(events, vs[|vs| - 1])]
  }

  /** The map of the notification: for each key the event returned by the
      last request sent for it. `returned(n, e)` is the event the API answers
      to the n-th request, which sent `e`. */
  function Recorded(events: map<Key, Event>, vs: seq<Violation>, n: nat, returned: (nat, Event) -> Event): map<Key, Event>
    decreases |vs|
  {
    if vs == [] then map[]
    else
      var init := vs[..|vs| - 1];
      var v := vs[|vs| - 1];
      Recorded(events, init, n, returned)[KeyOf(v) := returned(n + |init|, Sent(events, v).event)]
  }

  /** The new map has a key for exactly the violations of the notification,
      including those whose request failed. */
  lemma {:induction false} RecordedKeys(events: map<Key, Event>, vs: seq<Violation>, n: nat, returned: (nat, Event) -> Event, k: Key)
    ensures k in Recorded(events, vs, n, returned) <==> exists i :: 0 <= i < |vs| && KeyOf(vs[i]) == k
    decreases |vs|
  {
    if vs != [] {
      var init := vs[..|vs| - 1];
      RecordedKeys(events, init, n, returned, k);
      assert forall i :: 0 <= i < |init| ==> init[i] == vs[i];
    }
  }

  /** When the API hands back what it was sent, a key's new event is the one
      sent for its last violation: count 1 for a new key, one more than
      before for a tracked key. */
  lemma {:induction false} RecordedLastSent(events: map<Key, Event>, vs: seq<Violation>, n: nat, returned: (nat, Event) -> Event, j: nat)
    requires forall m, e :: returned(m, e) == e
    requires j < |vs| && forall i :: j < i < |vs| ==> KeyOf(vs[i]) != KeyOf(vs[j])
    ensures KeyOf(vs[j]) in Recorded(events, vs, n, returned)
    ensures Recorded(events, vs, n, returned)[KeyOf(vs[j])] == Sent(events, vs[j]).event
    decreases |vs|
  {
    if j < |vs| - 1 {
      var init := vs[..|vs| - 1];
      assert init[j] == vs[j];
      RecordedLastSent(events, init, n, returned, j);
    }
  }

  /** The deletes for the stale keys, in the order they are visited. */
  function Deletes(events: map<Key, Event>, stale: seq<Key>): (r: seq<Call>)
    requires forall i :: 0 <= i < |stale| ==> stale[i] in events
    ensures |r| == |stale|
    ensures forall i :: 0 <= i < |stale| ==> r[i] == Delete(events[stale[i]].name)
  {
    seq(|stale|, i requires 0 <= i < |stale| => Delete(events[stale[i]].name))
  }

  /** `Track`'s state between notifications: the events of the last
      notification by key, and the requests sent to the events API so far. */
  class Tracker {
    var events: map<Key, Event>
    var calls: seq<Call>
    const returned: (nat, Event) -> Event

    /** Starts from the listed events. */
    constructor (current: seq<Event>, returned: (nat, Event) -> Event)
      ensures events == Tracked(current) && calls == [] && this.returned == returned
    {
      var initial := InitialEvents(current);
      events := initial;
      calls := [];
      this.returned := returned;
    }

    /** One turn of `Track`'s loop. A notification that does not decode
        (`None`) changes nothing. Otherwise every violation is created or
        bumped, in order; then every event tracked before whose key the
        notification lacks is deleted, in an order the model leaves open
        (`stale`); and the map of the notification replaces the tracked
        one. */
    method Step(notification: Option<seq<Violation>>) returns (ghost stale: seq<Key>)
      modifies this
      ensures notification.None? ==> events == old(events) && calls == old(calls)
      ensures notification.Some? ==>
        var vs := notification.value;
        (forall i :: 0 <= i < |stale| ==> stale[i] in old(events)) &&
        (forall i, j :: 0 <= i < j < |stale| ==> stale[i] != stale[j]) &&
        (forall k :: k in stale <==> k in old(events) && k !in events) &&
        calls == old(calls) + Writes(old(events), vs) + Deletes(old(events), stale) &&
        events == Recorded(old(events), vs, |old(calls)|, returned)
    {
      if notification.None? {
        return [];
      }
      var vs := notification.value;
      var newEvents := PostAll(vs);
      stale := DeleteStale(newEvents);
      events := newEvents;
    }

    /** The loop over a notification's violations. */
    method PostAll(vs: seq<Violation>) returns (newEvents: map<Key, Event>)
      modifies this
      ensures events == old(events)
      ensures calls == old(calls) + Writes(events, vs)
      ensures newEvents == Recorded(events, vs, |old(calls)|, returned)
    {
      newEvents := map[];
      var i := 0;
      while i < |vs|
        invariant 0 <= i <= |vs| && events == old(events)
        invariant calls == old(calls) + Writes(events, vs[..i])
        invariant newEvents == Recorded(events, vs[..i], |old(calls)|, returned)
      {
        var v := vs[i];
        assert vs[..i + 1][..i] == vs[..i] && vs[..i + 1][i] == v;
        var k := KeyOf(v);
        var n := |calls|;
        if k !in events {
          var e := NewEvent(v);
          calls := calls + [Create(e)];
          newEvents := newEvents[k := returned(n, e)];
        } else {
          var e := events[k].(message := v.message, count := events[k].count + 1);
          calls := calls + [Update(e)];
          newEvents := newEvents[k := returned(n, e)];
        }
        i := i + 1;
      }
      assert vs[..i] == vs;
    }

    /** The loop over the tracked events that deletes those the notification
        lacks. */
    method DeleteStale(newEvents: map<Key, Event>) returns (ghost stale: seq<Key>)
      modifies this
      ensures events == old(events)
      ensures forall i :: 0 <= i < |stale| ==> stale[i] in events
      ensures forall i, j :: 0 <= i < j < |stale| ==> stale[i] != stale[j]
      ensures forall k :: k in stale <==> k in events && k !in newEvents
      ensures calls == old(calls) + Deletes(events, stale)
    {
      stale := [];
      var keys := events.Keys;
      while keys != {}
        invariant keys <= events.Keys && events == old(events)
        invariant forall i :: 0 <= i < |stale| ==> stale[i] in events && stale[i] !in keys
        invariant forall i, j :: 0 <= i < j < |stale| ==> stale[i] != stale[j]
        invariant forall k :: k in stale <==> k in events && k !in keys && k !in newEvents
        invariant calls == old(calls) + Deletes(events, stale)
        decreases keys
      {
        var k :| k in keys;
        if k !in newEvents {
          calls := calls + [Delete(events[k].name)];
          stale := stale + [k];
        }
        keys := keys - {k};
      }
    }
  }
}
