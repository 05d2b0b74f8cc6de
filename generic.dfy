/** Replication of one Kubernetes resource kind into OPA (pkg/data/generic.go):
    the key of each object, the full-listing payload, the writes a listing and
    each watch event cause, and the retry loop with its back-off delay. The
    Kubernetes API is an input: a round gets the outcome of its List call, of
    its Watch call and the sequence of things its watch select sees. Delays are
    whole seconds and are returned, not waited for. */
module Generic {
  import opened Wrappers
  import opened Json
  import opened Strings
  import opened Types
  import Opa
  import Seqs
  import opened Writer
  import opened Delays

  /** The bounds of the back-off delay, in seconds. */
  const BackoffMin: nat := 1
  const BackoffMax: nat := 30

  /** The metadata meta.Accessor exposes. */
  datatype ObjectMeta = ObjectMeta(namespace: string, name: string)

  /** An object as the dynamic client returns it: its metadata, absent when
      meta.Accessor fails on it, and its JSON body. */
  datatype KubeObject = KubeObject(meta: Option<ObjectMeta>, body: Json)

  function NamespaceOf(o: KubeObject): string
  {
    if o.meta.Some? then o.meta.value.namespace else ""
  }

  function NameOf(o: KubeObject): string
  {
    if o.meta.Some? then o.meta.value.name else ""
  }

  /** Names and namespaces that Kubernetes accepts never contain `/`. */
  predicate SlashFree(o: KubeObject)
  {
    '/' !in NamespaceOf(o) && '/' !in NameOf(o)
  }

  predicate AllSlashFree(objs: seq<KubeObject>)
  {
    forall i :: 0 <= i < |objs| ==> SlashFree(objs[i])
  }

  predicate AllHaveMeta(objs: seq<KubeObject>)
  {
    forall i :: 0 <= i < |objs| ==> objs[i].meta.Some?
  }

  // ---------------------------------------------------------------------------
  // Keys

  /** `objPath`: `namespace/name` for a namespaced kind, `name` otherwise; an
      error when the object has no metadata. */
  function ObjPath(o: KubeObject, namespaced: bool): (r: Result<string, string>)
    ensures r.Failure? <==> o.meta.None?
  {
    match o.meta
    case None => Failure("object does not implement metav1.Object")
    case Some(m) => Success(if namespaced then m.namespace + "/" + m.name else m.name)
  }

  /** The key splits into the namespace and the name of a namespaced object,
      and is the bare name of a cluster-wide one. */
  lemma ObjPathSegments(o: KubeObject, namespaced: bool)
    requires o.meta.Some? && SlashFree(o)
    ensures namespaced ==> Split(ObjPath(o, namespaced).value, '/') == [NamespaceOf(o), NameOf(o)]
    ensures !namespaced ==> Split(ObjPath(o, namespaced).value, '/') == [NameOf(o)]
  {
    if namespaced {
      SplitPair(NamespaceOf(o), NameOf(o), '/');
    } else {
      SplitSingle(NameOf(o), '/');
    }
  }

  /** Two objects get the same key exactly when they have the same namespace
      (for a namespaced kind) and the same name. */
  lemma ObjPathInjective(o1: KubeObject, o2: KubeObject, namespaced: bool)
    requires o1.meta.Some? && o2.meta.Some? && SlashFree(o1) && SlashFree(o2)
    ensures ObjPath(o1, namespaced) == ObjPath(o2, namespaced) <==>
      NameOf(o1) == NameOf(o2) && (namespaced ==> NamespaceOf(o1) == NamespaceOf(o2))
  {
    ObjPathSegments(o1, namespaced);
    ObjPathSegments(o2, namespaced);
  }

  // ---------------------------------------------------------------------------
  // The full-listing payload

  /** The members of an object value; nothing for any other value. */
  function Dir(j: Json): map<string, Json>
  {
    if j.Obj? then j.fields else map[]
  }

  /** The payload after placing one more object: at `name`, or at `name`
      inside the object at `namespace`, which is created when missing. */
  function Place(p: map<string, Json>, o: KubeObject, namespaced: bool): map<string, Json>
  {
    if namespaced then
      var inner := if NamespaceOf(o) in p then Dir(p[NamespaceOf(o)]) else map[];
      p[NamespaceOf(o) := Obj(inner[NameOf(o) := o.body])]
    else p[NameOf(o) := o.body]
  }

  /** `generateSyncPayload` as a fold over the listing: the first object
      without metadata makes it fail. */
  function Payload(objs: seq<KubeObject>, namespaced: bool): Result<map<string, Json>, string>
    decreases |objs|
  {
    if objs == [] then Success(map[])
    else
      match Payload(objs[..|objs| - 1], namespaced)
      case Failure(e) => Failure(e)
      case Success(p) =>
        match ObjPath(objs[|objs| - 1], namespaced)
        case Failure(e) => Failure(e)
        case Success(_) => Success(Place(p, objs[|objs| - 1], namespaced))
  }

  predicate ObjectsOnly(p: map<string, Json>)
  {
    forall k :: k in p ==> p[k].Obj?
  }

  /** `generateSyncPayload`: one pass over the listing, putting each object at
      the segments of its key, the namespace's inner object created on first
      use and then updated in place. */
  method GenerateSyncPayload(objs: seq<KubeObject>, namespaced: bool) returns (r: Result<map<string, Json>, string>)
    requires AllSlashFree(objs)
    ensures r == Payload(objs, namespaced)
  {
    var combined: map<string, Json> := map[];
    var k := 0;
    while k < |objs|
      invariant 0 <= k <= |objs|
      invariant Payload(objs[..k], namespaced) == Success(combined)
      invariant namespaced ==> ObjectsOnly(combined)
    {
      assert objs[..k + 1][..k] == objs[..k];
      var obj := objs[k];
      match ObjPath(obj, namespaced)
      case Failure(e) =>
        assert Payload(objs[..k + 1], namespaced) == Failure(e);
        PayloadFailureSticks(objs, namespaced, k + 1);
        return Failure(e);
      case Success(path) =>
        ghost var placed := Place(combined, obj, namespaced);
        assert Payload(objs[..k + 1], namespaced) == Success(placed);
        var segments := Split(path, '/');
        ObjPathSegments(obj, namespaced);
        if |segments| == 2 {
          var next := if segments[0] in combined then combined[segments[0]] else EmptyObject;
          combined := combined[segments[0] := Obj(next.fields[segments[1] := obj.body])];
        } else {
          combined := combined[segments[0] := obj.body];
        }
        assert combined == placed;
        k := k + 1;
    }
    assert objs[..k] == objs;
    r := Success(combined);
  }

  /** Once a prefix of the listing fails, the whole listing fails the same
      way. */
  lemma {:induction false} PayloadFailureSticks(objs: seq<KubeObject>, namespaced: bool, k: nat)
    requires k <= |objs| && Payload(objs[..k], namespaced).Failure?
    ensures Payload(objs, namespaced) == Payload(objs[..k], namespaced)
    decreases |objs| - k
  {
    if k < |objs| {
      assert objs[..k + 1][..k] == objs[..k];
      PayloadFailureSticks(objs, namespaced, k + 1);
    } else {
      assert objs[..k] == objs;
    }
  }

  /** The listing yields a payload exactly when every object has metadata. */
  lemma {:induction false} PayloadSucceeds(objs: seq<KubeObject>, namespaced: bool)
    ensures Payload(objs, namespaced).Success? <==> AllHaveMeta(objs)
    decreases |objs|
  {
    if objs != [] {
      var init := objs[..|objs| - 1];
      PayloadSucceeds(init, namespaced);
      assert forall i :: 0 <= i < |init| ==> init[i] == objs[i];
      if !AllHaveMeta(init) {
        var i :| 0 <= i < |init| && init[i].meta.None?;
        assert objs[i].meta.None?;
      }
    }
  }

  /** No later object of the listing has the same key as the one at `i`. */
  predicate LastWithKey(objs: seq<KubeObject>, i: int, namespaced: bool)
    requires 0 <= i < |objs|
  {
    forall j :: i < j < |objs| ==>
      NameOf(objs[j]) != NameOf(objs[i]) || (namespaced && NamespaceOf(objs[j]) != NamespaceOf(objs[i]))
  }

  /** The names of the listed objects. */
  function Names(objs: seq<KubeObject>): set<string>
  {
    set i | 0 <= i < |objs| :: NameOf(objs[i])
  }

  /** The namespaces of the listed objects. */
  function Namespaces(objs: seq<KubeObject>): set<string>
  {
    set i | 0 <= i < |objs| :: NamespaceOf(objs[i])
  }

  /** The names of the listed objects in namespace `ns`. */
  function NamesIn(objs: seq<KubeObject>, ns: string): set<string>
  {
    set i | 0 <= i < |objs| && NamespaceOf(objs[i]) == ns :: NameOf(objs[i])
  }

  lemma NamesSnoc(objs: seq<KubeObject>)
    requires objs != []
    ensures Names(objs) == Names(objs[..|objs| - 1]) + {NameOf(objs[|objs| - 1])}
    ensures Namespaces(objs) == Namespaces(objs[..|objs| - 1]) + {NamespaceOf(objs[|objs| - 1])}
  {
    var init := objs[..|objs| - 1];
    assert forall i :: 0 <= i < |init| ==> init[i] == objs[i];
    forall k | k in Names(objs) ensures k in Names(init) + {NameOf(objs[|objs| - 1])} {
      var i :| 0 <= i < |objs| && NameOf(objs[i]) == k;
      if i < |init| {
        assert NameOf(init[i]) == k;
      }
    }
    forall k | k in Namespaces(objs) ensures k in Namespaces(init) + {NamespaceOf(objs[|objs| - 1])} {
      var i :| 0 <= i < |objs| && NamespaceOf(objs[i]) == k;
      if i < |init| {
        assert NamespaceOf(init[i]) == k;
      }
    }
  }

  lemma NamesInSnoc(objs: seq<KubeObject>, ns: string)
    requires objs != []
    ensures NamesIn(objs, ns) ==
      NamesIn(objs[..|objs| - 1], ns) + (if NamespaceOf(objs[|objs| - 1]) == ns then {NameOf(objs[|objs| - 1])} else {})
  {
    var init := objs[..|objs| - 1];
    assert forall i :: 0 <= i < |init| ==> init[i] == objs[i];
    forall k | k in NamesIn(objs, ns) ensures k in NamesIn(init, ns) || (NamespaceOf(objs[|objs| - 1]) == ns && k == NameOf(objs[|objs| - 1])) {
      var i :| 0 <= i < |objs| && NamespaceOf(objs[i]) == ns && NameOf(objs[i]) == k;
      if i < |init| {
        assert NamespaceOf(init[i]) == ns && NameOf(init[i]) == k;
      }
    }
  }

  /** For a cluster-wide kind the payload has one member per listed name and
      no other. */
  lemma {:induction false} PayloadClusterKeys(objs: seq<KubeObject>, p: map<string, Json>)
    requires Payload(objs, false) == Success(p)
    ensures p.Keys == Names(objs)
    decreases |objs|
  {
    if objs != [] {
      var init := objs[..|objs| - 1];
      PayloadClusterKeys(init, Payload(init, false).value);
      NamesSnoc(objs);
    }
  }

  /** For a cluster-wide kind the member at a name holds the body of the last
      object listed under that name. */
  lemma {:induction false} PayloadClusterLast(objs: seq<KubeObject>, p: map<string, Json>)
    requires Payload(objs, false) == Success(p)
    ensures forall i :: 0 <= i < |objs| && LastWithKey(objs, i, false) ==>
      NameOf(objs[i]) in p && p[NameOf(objs[i])] == objs[i].body
    decreases |objs|
  {
    if objs != [] {
      var n := |objs| - 1;
      var init := objs[..n];
      var p0 := Payload(init, false).value;
      PayloadClusterLast(init, p0);
      assert p == p0[NameOf(objs[n]) := objs[n].body];
      forall i | 0 <= i < n && LastWithKey(objs, i, false)
        ensures NameOf(objs[i]) in p && p[NameOf(objs[i])] == objs[i].body
      {
        assert init[i] == objs[i];
        assert LastWithKey(init, i, false);
      }
    }
  }

  /** For a namespaced kind the payload has one member per listed namespace
      and no other, and each of them is an object. */
  lemma {:induction false} PayloadNamespacedKeys(objs: seq<KubeObject>, p: map<string, Json>)
    requires Payload(objs, true) == Success(p)
    ensures p.Keys == Namespaces(objs)
    ensures ObjectsOnly(p)
    decreases |objs|
  {
    if objs != [] {
      var init := objs[..|objs| - 1];
      PayloadNamespacedKeys(init, Payload(init, true).value);
      NamesSnoc(objs);
    }
  }

  /** For a namespaced kind the object at a namespace has one member per name
      listed in that namespace and no other. */
  lemma {:induction false} PayloadNamespacedInner(objs: seq<KubeObject>, p: map<string, Json>, ns: string)
    requires Payload(objs, true) == Success(p)
    ensures ns in p ==> Dir(p[ns]).Keys == NamesIn(objs, ns)
    ensures ns !in p ==> NamesIn(objs, ns) == {}
    decreases |objs|
  {
    if objs != [] {
      var init := objs[..|objs| - 1];
      PayloadNamespacedInner(init, Payload(init, true).value, ns);
      PayloadNamespacedKeys(init, Payload(init, true).value);
      NamesInSnoc(objs, ns);
    }
  }

  /** For a namespaced kind the member at a namespace and name holds the body
      of the last object listed under them. */
  lemma {:induction false} PayloadNamespacedLast(objs: seq<KubeObject>, p: map<string, Json>)
    requires Payload(objs, true) == Success(p)
    ensures forall i :: 0 <= i < |objs| && LastWithKey(objs, i, true) ==>
      NamespaceOf(objs[i]) in p && NameOf(objs[i]) in Dir(p[NamespaceOf(objs[i])]) &&
      Dir(p[NamespaceOf(objs[i])])[NameOf(objs[i])] == objs[i].body
    decreases |objs|
  {
    if objs != [] {
      var n := |objs| - 1;
      var init := objs[..n];
      var p0 := Payload(init, true).value;
      PayloadNamespacedLast(init, p0);
      assert p == Place(p0, objs[n], true);
      forall i | 0 <= i < n && LastWithKey(objs, i, true)
        ensures NamespaceOf(objs[i]) in p && NameOf(objs[i]) in Dir(p[NamespaceOf(objs[i])]) &&
          Dir(p[NamespaceOf(objs[i])])[NameOf(objs[i])] == objs[i].body
      {
        assert init[i] == objs[i];
        assert LastWithKey(init, i, true);
      }
    }
  }

  /** The three nodes of the cluster-wide table test land at their names. */
  lemma ThreeNodes(b1: Json, b2: Json, b3: Json)
    ensures Payload([KubeObject(Some(ObjectMeta("", "node1")), b1),
                     KubeObject(Some(ObjectMeta("", "node2")), b2),
                     KubeObject(Some(ObjectMeta("", "node3")), b3)], false)
      == Success(map["node1" := b1, "node2" := b2, "node3" := b3])
  {
    var o1 := KubeObject(Some(ObjectMeta("", "node1")), b1);
    var o2 := KubeObject(Some(ObjectMeta("", "node2")), b2);
    var o3 := KubeObject(Some(ObjectMeta("", "node3")), b3);
    assert [o1, o2, o3][..2] == [o1, o2];
    assert [o1, o2][..1] == [o1];
    assert [o1][..0] == [];
    assert Payload([o1], false) == Success(map["node1" := b1]);
    assert Payload([o1, o2], false) == Success(map["node1" := b1, "node2" := b2]);
  }

  /** The pods of the namespaced table test: both pods of `ns1` share one
      inner object, and `pod1` of `ns2` is kept apart from `pod1` of `ns1`. */
  lemma NamespacedPods(b1: Json, b2: Json, b3: Json)
    ensures Payload([KubeObject(Some(ObjectMeta("ns1", "pod1")), b1),
                     KubeObject(Some(ObjectMeta("ns1", "pod2")), b2),
                     KubeObject(Some(ObjectMeta("ns2", "pod1")), b3)], true)
      == Success(map["ns1" := Obj(map["pod1" := b1, "pod2" := b2]), "ns2" := Obj(map["pod1" := b3])])
  {
    var o1 := KubeObject(Some(ObjectMeta("ns1", "pod1")), b1);
    var o2 := KubeObject(Some(ObjectMeta("ns1", "pod2")), b2);
    var o3 := KubeObject(Some(ObjectMeta("ns2", "pod1")), b3);
    assert [o1, o2, o3][..2] == [o1, o2];
    assert [o1, o2][..1] == [o1];
    assert [o1][..0] == [];
    assert Payload([o1], true) == Success(map["ns1" := Obj(map["pod1" := b1])]);
    var p1 := map["ns1" := Obj(map["pod1" := b1])];
    assert Dir(p1["ns1"]) == map["pod1" := b1];
    assert Place(p1, o2, true) == map["ns1" := Obj(map["pod1" := b1, "pod2" := b2])];
    assert Payload([o1, o2], true) == Success(map["ns1" := Obj(map["pod1" := b1, "pod2" := b2])]);
  }

  // ---------------------------------------------------------------------------
  // One round of `sync`: list, reset, watch

  datatype EventType = Added | Modified | Deleted | ErrorEvent | OtherEvent

  datatype WatchEvent = WatchEvent(kind: EventType, obj: KubeObject)

  /** What the select in `sync` takes next: an event from the watch channel or
      the quit signal. */
  datatype Step = Deliver(event: WatchEvent) | Quit

  /** The three error classes `loop` tells apart, with the context the error
      is wrapped in. */
  datatype SyncError = KubernetesError(context: string) | OpaFailure(context: string) | ChannelClosed

  /** How a round ends: `sync` returned nil on quit, it returned an error, or
      it is still watching when the input runs out. */
  datatype RoundEnd = Stopped | Failed(err: SyncError) | Watching

  datatype Outcome = Outcome(requests: seq<Request>, end: RoundEnd)

  /** What the Kubernetes API and the quit channel do during one round: the
      outcome of List, the error of Watch if any, what the select sees, and
      whether quit fires during the back-off wait that follows a failure. */
  datatype RoundInput = RoundInput(listing: Result<seq<KubeObject>, string>, watchError: Option<string>,
                                   steps: seq<Step>, quitDuringBackoff: bool)

  function EventContext(kind: EventType): string
  {
    match kind
    case Added => "add event"
    case Modified => "modify event"
    case _ => "delete event"
  }

  /** The write an event causes: `PutData` at the object's key for an
      addition or modification, a `remove` patch at it for a deletion, none
      for other events or an object without metadata. */
  function EventWrite(e: WatchEvent, namespaced: bool): Option<Request>
  {
    match ObjPath(e.obj, namespaced)
    case Failure(_) => None
    case Success(path) =>
      match e.kind
      case Added => Some(PutData(path, e.obj.body))
      case Modified => Some(PutData(path, e.obj.body))
      case Deleted => Some(PatchData(path, "remove"))
      case _ => None
  }

  /** The handling of one event by the watch loop of `sync`, the `n`th write
      of the trace being the next: `Watching` when the loop goes on. */
  function EventStep(e: WatchEvent, namespaced: bool, answer: nat -> Option<ErrValue>, n: nat): Outcome
  {
    match e.kind
    case ErrorEvent => Outcome([], Failed(KubernetesError("error event")))
    case OtherEvent => Outcome([], Failed(ChannelClosed))
    case _ =>
      match EventWrite(e, namespaced)
      case None => Outcome([], Failed(OpaFailure(EventContext(e.kind))))
      case Some(req) =>
        Outcome([req], if answer(n).Some? then Failed(OpaFailure(EventContext(e.kind))) else Watching)
  }

  /** The watch part of `sync`. */
  function Events(steps: seq<Step>, namespaced: bool, answer: nat -> Option<ErrValue>, n: nat): Outcome
    decreases |steps|
  {
    if steps == [] then Outcome([], Watching)
    else
      match steps[0]
      case Quit => Outcome([], Stopped)
      case Deliver(e) =>
        var first := EventStep(e, namespaced, answer, n);
        if !first.end.Watching? then first
        else
          var rest := Events(steps[1..], namespaced, answer, n + |first.requests|);
          Outcome(first.requests + rest.requests, rest.end)
  }

  /** `sync`: the reset write of the whole listing, then the watch. */
  function Round(namespaced: bool, input: RoundInput, answer: nat -> Option<ErrValue>, n: nat): Outcome
  {
    match input.listing
    case Failure(_) => Outcome([], Failed(KubernetesError("list")))
    case Success(objs) =>
      match Payload(objs, namespaced)
      case Failure(_) => Outcome([], Failed(OpaFailure("reset")))
      case Success(p) =>
        var reset := PutData("/", Obj(p));
        if answer(n).Some? then Outcome([reset], Failed(OpaFailure("reset")))
        else if input.watchError.Some? then Outcome([reset], Failed(KubernetesError("watch")))
        else
          var rest := Events(input.steps, namespaced, answer, n + 1);
          Outcome([reset] + rest.requests, rest.end)
  }

  /** A round writes nothing before the listing has been turned into a
      payload; once it has, its first write is a single `PutData("/", …)`
      of that payload, and a failure of that write ends the round as an OPA
      error. */
  lemma RoundStartsWithReset(namespaced: bool, input: RoundInput, answer: nat -> Option<ErrValue>, n: nat)
    ensures input.listing.Failure? ==> Round(namespaced, input, answer, n) == Outcome([], Failed(KubernetesError("list")))
    ensures input.listing.Success? && !AllHaveMeta(input.listing.value) ==>
      Round(namespaced, input, answer, n) == Outcome([], Failed(OpaFailure("reset")))
    ensures input.listing.Success? && AllHaveMeta(input.listing.value) ==>
      var r := Round(namespaced, input, answer, n);
      r.requests != [] && r.requests[0] == PutData("/", Obj(Payload(input.listing.value, namespaced).value)) &&
      (answer(n).Some? <==> r == Outcome([r.requests[0]], Failed(OpaFailure("reset"))))
  {
    if input.listing.Success? {
      PayloadSucceeds(input.listing.value, namespaced);
    }
  }

  /** The writes of the watch are those of the delivered events, one each and
      in order. */
  lemma {:induction false} EventsWrites(steps: seq<Step>, namespaced: bool, answer: nat -> Option<ErrValue>, n: nat)
    ensures var r := Events(steps, namespaced, answer, n);
      |r.requests| <= |steps| &&
      forall i :: 0 <= i < |r.requests| ==> steps[i].Deliver? && EventWrite(steps[i].event, namespaced) == Some(r.requests[i])
    decreases |steps|
  {
    if steps != [] && steps[0].Deliver? {
      var e := steps[0].event;
      var first := EventStep(e, namespaced, answer, n);
      if first.end.Watching? {
        assert first.requests == [EventWrite(e, namespaced).value];
        EventsWrites(steps[1..], namespaced, answer, n + 1);
        var rest := Events(steps[1..], namespaced, answer, n + 1);
        var r := Events(steps, namespaced, answer, n);
        assert r.requests == first.requests + rest.requests;
        forall i | 1 <= i < |r.requests|
          ensures steps[i].Deliver? && EventWrite(steps[i].event, namespaced) == Some(r.requests[i])
        {
          assert steps[1..][i - 1] == steps[i];
          assert rest.requests[i - 1] == r.requests[i];
        }
      }
    }
  }

  /** Every write of the watch but the last was accepted, and the last was
      too unless the round ends in an OPA error: a refused write ends the
      round. */
  lemma {:induction false} EventsStopAtRefusal(steps: seq<Step>, namespaced: bool, answer: nat -> Option<ErrValue>, n: nat)
    ensures var r := Events(steps, namespaced, answer, n);
      (forall j :: n <= j < n + |r.requests| - 1 ==> answer(j).None?) &&
      (r.requests != [] && answer(n + |r.requests| - 1).Some? ==> r.end.Failed? && r.end.err.OpaFailure?)
    decreases |steps|
  {
    if steps != [] && steps[0].Deliver? {
      var first := EventStep(steps[0].event, namespaced, answer, n);
      if first.end.Watching? {
        assert |first.requests| == 1 && answer(n).None?;
        var m := n + |first.requests|;
        EventsStopAtRefusal(steps[1..], namespaced, answer, m);
        var rest := Events(steps[1..], namespaced, answer, m);
        var r := Events(steps, namespaced, answer, n);
        assert r.requests == first.requests + rest.requests && r.end == rest.end;
        assert n + |r.requests| - 1 == m + |rest.requests| - 1;
      }
    }
  }

  /** The handling of one event: `syncAdd` for an addition or modification,
      `syncRemove` for a deletion, an error for the other kinds. */
  method HandleEvent(w: Recorder, e: WatchEvent, namespaced: bool) returns (end: RoundEnd)
    modifies w
    ensures w.trace == old(w.trace) + EventStep(e, namespaced, w.answer, |old(w.trace)|).requests
    ensures end == EventStep(e, namespaced, w.answer, |old(w.trace)|).end
  {
    var ok;
    match e.kind {
      case ErrorEvent =>
        return Failed(KubernetesError("error event"));
      case OtherEvent =>
        return Failed(ChannelClosed);
      case Added =>
        ok := SyncAdd(w, e.obj, namespaced);
      case Modified =>
        ok := SyncAdd(w, e.obj, namespaced);
      case Deleted =>
        ok := SyncRemove(w, e.obj, namespaced);
    }
    end := if ok then Watching else Failed(OpaFailure(EventContext(e.kind)));
  }

  /** `syncAdd`: a `PutData` of the object at its key; an object without
      metadata fails before anything is written. */
  method SyncAdd(w: Recorder, obj: KubeObject, namespaced: bool) returns (ok: bool)
    modifies w
    ensures match ObjPath(obj, namespaced)
      case Failure(_) => w.trace == old(w.trace) && !ok
      case Success(path) => w.trace == old(w.trace) + [PutData(path, obj.body)] && ok == w.answer(|old(w.trace)|).None?
  {
    match ObjPath(obj, namespaced)
    case Failure(_) =>
      ok := false;
    case Success(path) =>
      var err := w.Put(path, obj.body);
      ok := err.None?;
  }

  /** `syncRemove`: a `remove` patch at the object's key. */
  method SyncRemove(w: Recorder, obj: KubeObject, namespaced: bool) returns (ok: bool)
    modifies w
    ensures match ObjPath(obj, namespaced)
      case Failure(_) => w.trace == old(w.trace) && !ok
      case Success(path) => w.trace == old(w.trace) + [PatchData(path, "remove")] && ok == w.answer(|old(w.trace)|).None?
  {
    match ObjPath(obj, namespaced)
    case Failure(_) =>
      ok := false;
    case Success(path) =>
      var err := w.Patch(path, "remove");
      ok := err.None?;
  }

  /** `syncAll`: the payload of the whole listing, written at the root of the
      prefix in one `PutData`. */
  method SyncAll(w: Recorder, objs: seq<KubeObject>, namespaced: bool) returns (ok: bool)
    requires AllSlashFree(objs)
    modifies w
    ensures match Payload(objs, namespaced)
      case Failure(_) => w.trace == old(w.trace) && !ok
      case Success(p) => w.trace == old(w.trace) + [PutData("/", Obj(p))] && ok == w.answer(|old(w.trace)|).None?
  {
    var payload := GenerateSyncPayload(objs, namespaced);
    match payload
    case Failure(_) =>
      ok := false;
    case Success(p) =>
      var err := w.Put("/", Obj(p));
      ok := err.None?;
  }

  /** Unfolding `Events` at position `k` of the steps. */
  lemma EventsAt(steps: seq<Step>, k: nat, namespaced: bool, answer: nat -> Option<ErrValue>, n: nat, m: nat)
    requires k < |steps|
    requires steps[k].Deliver? ==> m == n + |EventStep(steps[k].event, namespaced, answer, n).requests|
    ensures steps[k].Quit? ==> Events(steps[k..], namespaced, answer, n) == Outcome([], Stopped)
    ensures steps[k].Deliver? ==>
      var first := EventStep(steps[k].event, namespaced, answer, n);
      var rest := Events(steps[k + 1..], namespaced, answer, m);
      Events(steps[k..], namespaced, answer, n) ==
        if first.end.Watching? then Outcome(first.requests + rest.requests, rest.end) else first
  {
    assert steps[k..][0] == steps[k] && steps[k..][1..] == steps[k + 1..];
  }

  /** One turn of the watch loop of `sync`, at position `k` of the steps: when
      the loop goes on, what is left of `Events` after it is what follows `k`;
      otherwise the turn completes `Events`. */
  method WatchTurn(w: Recorder, namespaced: bool, steps: seq<Step>, k: nat) returns (end: RoundEnd)
    requires k < |steps|
    modifies w
    ensures end.Watching? ==>
      old(w.trace) + Events(steps[k..], namespaced, w.answer, |old(w.trace)|).requests ==
        w.trace + Events(steps[k + 1..], namespaced, w.answer, |w.trace|).requests &&
      Events(steps[k..], namespaced, w.answer, |old(w.trace)|).end == Events(steps[k + 1..], namespaced, w.answer, |w.trace|).end
    ensures !end.Watching? ==>
      w.trace == old(w.trace) + Events(steps[k..], namespaced, w.answer, |old(w.trace)|).requests &&
      end == Events(steps[k..], namespaced, w.answer, |old(w.trace)|).end
  {
    if steps[k].Quit? {
      EventsAt(steps, k, namespaced, w.answer, |w.trace|, |w.trace|);
      return Stopped;
    }
    ghost var before := w.trace;
    ghost var step := EventStep(steps[k].event, namespaced, w.answer, |before|);
    end := HandleEvent(w, steps[k].event, namespaced);
    EventsAt(steps, k, namespaced, w.answer, |before|, |w.trace|);
    if end.Watching? {
      Seqs.Reassoc(before, step.requests, Events(steps[k + 1..], namespaced, w.answer, |w.trace|).requests);
    }
  }

  /** The watch loop of `sync`: the writes it makes and how it ends are those
      of `Events`. */
  method Watch(w: Recorder, namespaced: bool, steps: seq<Step>) returns (end: RoundEnd)
    modifies w
    ensures w.trace == old(w.trace) + Events(steps, namespaced, w.answer, |old(w.trace)|).requests
    ensures end == Events(steps, namespaced, w.answer, |old(w.trace)|).end
  {
    ghost var start := w.trace;
    ghost var spec := Events(steps, namespaced, w.answer, |start|);
    var k := 0;
    while k < |steps|
      invariant 0 <= k <= |steps|
      invariant start + spec.requests == w.trace + Events(steps[k..], namespaced, w.answer, |w.trace|).requests
      invariant spec.end == Events(steps[k..], namespaced, w.answer, |w.trace|).end
    {
      end := WatchTurn(w, namespaced, steps, k);
      if !end.Watching? {
        return;
      }
      k := k + 1;
    }
    assert steps[k..] == [];
    return Watching;
  }

  predicate ListingSlashFree(input: RoundInput)
  {
    input.listing.Success? ==> AllSlashFree(input.listing.value)
  }

  /** `sync`: the writes it makes and how it ends are those of `Round`. */
  method Sync(w: Recorder, namespaced: bool, input: RoundInput) returns (end: RoundEnd)
    requires ListingSlashFree(input)
    modifies w
    ensures w.trace == old(w.trace) + Round(namespaced, input, w.answer, |old(w.trace)|).requests
    ensures end == Round(namespaced, input, w.answer, |old(w.trace)|).end
  {
    if input.listing.Failure? {
      return Failed(KubernetesError("list"));
    }
    var ok := SyncAll(w, input.listing.value, namespaced);
    if !ok {
      return Failed(OpaFailure("reset"));
    }
    if input.watchError.Some? {
      return Failed(KubernetesError("watch"));
    }
    ghost var before := w.trace;
    end := Watch(w, namespaced, input.steps);
    Seqs.Reassoc(before[..|before| - 1], [before[|before| - 1]], Events(input.steps, namespaced, w.answer, |before|).requests);
  }

  // ---------------------------------------------------------------------------
  // The retry loop

  /** What `loop` does after a failed round, given the current delay: the new
      delay and the seconds it waits before the next round (none after a
      closed channel). */
  function Backoff(delay: nat, err: SyncError): (r: (nat, nat))
    ensures BackoffMin <= delay <= BackoffMax ==> BackoffMin <= r.0 <= BackoffMax
    ensures delay >= BackoffMin ==> (r.1 == 0 <==> err.ChannelClosed?)
    ensures r.1 != 0 ==> r.1 == r.0
    ensures !err.KubernetesError? ==> r.0 == BackoffMin
  {
    match err
    case ChannelClosed => (BackoffMin, 0)
    case OpaFailure(_) => (BackoffMin, BackoffMin)
    case KubernetesError(_) =>
      var d := if delay * 2 > BackoffMax then BackoffMax else delay * 2;
      (d, d)
  }

  /** The rounds `loop` runs: the writes they make, the wait after each failed
      round, and whether the loop returned. It returns when a round ends on
      quit or quit fires during a wait; it is still running when a round is
      left watching or the rounds run out. */
  datatype LoopOutcome = LoopOutcome(requests: seq<Request>, waits: seq<nat>, exited: bool)

  function Run(namespaced: bool, rounds: seq<RoundInput>, answer: nat -> Option<ErrValue>, n: nat, delay: nat): LoopOutcome
    decreases |rounds|, 1
  {
    if rounds == [] then LoopOutcome([], [], false)
    else AfterRound(namespaced, rounds, Round(namespaced, rounds[0], answer, n), answer, n, delay)
  }

  /** What `loop` does once the first of `rounds` has ended with `round`. */
  function AfterRound(namespaced: bool, rounds: seq<RoundInput>, round: Outcome, answer: nat -> Option<ErrValue>, n: nat, delay: nat): LoopOutcome
    requires rounds != []
    decreases |rounds|, 0
  {
    match round.end
    case Stopped => LoopOutcome(round.requests, [], true)
    case Watching => LoopOutcome(round.requests, [], false)
    case Failed(err) =>
      var (d, wait) := Backoff(delay, err);
      if wait > 0 && rounds[0].quitDuringBackoff then LoopOutcome(round.requests, [wait], true)
      else
        var rest := Run(namespaced, rounds[1..], answer, n + |round.requests|, d);
        LoopOutcome(round.requests + rest.requests, [wait] + rest.waits, rest.exited)
  }

  predicate ListingsSlashFree(rounds: seq<RoundInput>)
  {
    forall i :: 0 <= i < |rounds| ==> ListingSlashFree(rounds[i])
  }

  /** Unfolding `Run` when its first round fails and the loop goes on, the
      rest starting at position `m`. */
  lemma RunFailedStep(namespaced: bool, rounds: seq<RoundInput>, answer: nat -> Option<ErrValue>, n: nat, delay: nat, m: nat)
    requires rounds != [] && Round(namespaced, rounds[0], answer, n).end.Failed?
    requires Backoff(delay, Round(namespaced, rounds[0], answer, n).end.err).1 == 0 || !rounds[0].quitDuringBackoff
    requires m == n + |Round(namespaced, rounds[0], answer, n).requests|
    ensures Run(namespaced, rounds, answer, n, delay) ==
      LoopOutcome(
        Round(namespaced, rounds[0], answer, n).requests +
          Run(namespaced, rounds[1..], answer, m, Backoff(delay, Round(namespaced, rounds[0], answer, n).end.err).0).requests,
        [Backoff(delay, Round(namespaced, rounds[0], answer, n).end.err).1] +
          Run(namespaced, rounds[1..], answer, m, Backoff(delay, Round(namespaced, rounds[0], answer, n).end.err).0).waits,
        Run(namespaced, rounds[1..], answer, m, Backoff(delay, Round(namespaced, rounds[0], answer, n).end.err).0).exited)
  {
  }

  /** One turn of `loop`, at position `k` of the rounds: a round of `sync`
      and, when it fails, the back-off. When the loop goes on, what is left of
      `Run` after it is what follows `k`; otherwise the turn completes `Run`. */
  method LoopTurn(w: Recorder, namespaced: bool, rounds: seq<RoundInput>, k: nat, delay: nat)
    returns (goOn: bool, wait: seq<nat>, exited: bool, newDelay: nat)
    requires k < |rounds| && ListingSlashFree(rounds[k])
    modifies w
    ensures goOn ==>
      var before := Run(namespaced, rounds[k..], w.answer, |old(w.trace)|, delay);
      var after := Run(namespaced, rounds[k + 1..], w.answer, |w.trace|, newDelay);
      old(w.trace) + before.requests == w.trace + after.requests &&
      before.waits == wait + after.waits && before.exited == after.exited
    ensures !goOn ==>
      var before := Run(namespaced, rounds[k..], w.answer, |old(w.trace)|, delay);
      w.trace == old(w.trace) + before.requests && wait == before.waits && exited == before.exited
  {
    assert rounds[k..][0] == rounds[k] && rounds[k..][1..] == rounds[k + 1..];
    ghost var start := w.trace;
    ghost var round := Round(namespaced, rounds[k], w.answer, |start|);
    var end := Sync(w, namespaced, rounds[k]);
    match end
    case Stopped =>
      return false, [], true, delay;
    case Watching =>
      return false, [], false, delay;
    case Failed(err) =>
      var (d, pause) := Backoff(delay, err);
      wait := [pause];
      newDelay := d;
      if pause > 0 && rounds[k].quitDuringBackoff {
        return false, wait, true, newDelay;
      }
      ghost var tail := rounds[k..];
      assert tail[0] == rounds[k] && tail[1..] == rounds[k + 1..];
      RunFailedStep(namespaced, tail, w.answer, |start|, delay, |w.trace|);
      Seqs.Reassoc(start, round.requests, Run(namespaced, rounds[k + 1..], w.answer, |w.trace|, d).requests);
      goOn := true;
      exited := false;
  }

  /** `loop`: rounds of `sync` until one ends on quit, with the delay
      starting at `backoffMin`. */
  method Loop(w: Recorder, namespaced: bool, rounds: seq<RoundInput>) returns (waits: seq<nat>, exited: bool)
    requires ListingsSlashFree(rounds)
    modifies w
    ensures w.trace == old(w.trace) + Run(namespaced, rounds, w.answer, |old(w.trace)|, BackoffMin).requests
    ensures waits == Run(namespaced, rounds, w.answer, |old(w.trace)|, BackoffMin).waits
    ensures exited == Run(namespaced, rounds, w.answer, |old(w.trace)|, BackoffMin).exited
  {
    ghost var start := w.trace;
    ghost var spec := Run(namespaced, rounds, w.answer, |start|, BackoffMin);
    var delay := BackoffMin;
    waits := [];
    var k := 0;
    while k < |rounds|
      invariant 0 <= k <= |rounds|
      invariant start + spec.requests == w.trace + Run(namespaced, rounds[k..], w.answer, |w.trace|, delay).requests
      invariant spec.waits == waits + Run(namespaced, rounds[k..], w.answer, |w.trace|, delay).waits
      invariant spec.exited == Run(namespaced, rounds[k..], w.answer, |w.trace|, delay).exited
    {
      var goOn, wait;
      goOn, wait, exited, delay := LoopTurn(w, namespaced, rounds, k, delay);
      Seqs.Reassoc(waits, wait, Run(namespaced, rounds[k + 1..], w.answer, |w.trace|, delay).waits);
      waits := waits + wait;
      if !goOn {
        return;
      }
      k := k + 1;
    }
    assert rounds[k..] == [];
    return waits, false;
  }

  /** Every wait is either none, after a closed channel, or between
      `backoffMin` and `backoffMax`. */
  predicate WaitsBounded(waits: seq<nat>)
  {
    forall i :: 0 <= i < |waits| ==> waits[i] == 0 || BackoffMin <= waits[i] <= BackoffMax
  }

  /** The delay stays within [backoffMin, backoffMax], so every wait the
      loop makes is bounded. */
  lemma {:induction false} RunWaitsBounded(namespaced: bool, rounds: seq<RoundInput>, answer: nat -> Option<ErrValue>, n: nat, delay: nat)
    requires BackoffMin <= delay <= BackoffMax
    ensures WaitsBounded(Run(namespaced, rounds, answer, n, delay).waits)
    decreases |rounds|, 1
  {
    if rounds != [] {
      AfterRoundWaitsBounded(namespaced, rounds, Round(namespaced, rounds[0], answer, n), answer, n, delay);
    }
  }

  lemma {:induction false} AfterRoundWaitsBounded(namespaced: bool, rounds: seq<RoundInput>, round: Outcome,
                                                  answer: nat -> Option<ErrValue>, n: nat, delay: nat)
    requires rounds != [] && BackoffMin <= delay <= BackoffMax
    ensures WaitsBounded(AfterRound(namespaced, rounds, round, answer, n, delay).waits)
    decreases |rounds|, 0
  {
    if round.end.Failed? {
      var (d, wait) := Backoff(delay, round.end.err);
      RunWaitsBounded(namespaced, rounds[1..], answer, n + |round.requests|, d);
    }
  }

  /** A round that fails to list, with no quit during the wait, writes
      nothing, doubles the delay up to `backoffMax` and waits that long. */
  lemma RunListFailure(namespaced: bool, rounds: seq<RoundInput>, answer: nat -> Option<ErrValue>, n: nat, delay: nat)
    requires rounds != [] && rounds[0].listing.Failure? && !rounds[0].quitDuringBackoff
    ensures var d := Min(delay * 2, BackoffMax);
      var rest := Run(namespaced, rounds[1..], answer, n, d);
      Run(namespaced, rounds, answer, n, delay) == LoopOutcome(rest.requests, [d] + rest.waits, rest.exited)
  {
    assert Round(namespaced, rounds[0], answer, n) == Outcome([], Failed(KubernetesError("list")));
  }

  /** Rounds that all fail to list, with no quit, wait twice as long each
      time up to `backoffMax`: the `i`th wait is `delay * 2^(i+1)` capped at
      30 seconds, and nothing is written. */
  lemma {:induction false} RunKubernetesDoubling(namespaced: bool, rounds: seq<RoundInput>, answer: nat -> Option<ErrValue>, n: nat, delay: nat)
    requires forall i :: 0 <= i < |rounds| ==> rounds[i].listing.Failure? && !rounds[i].quitDuringBackoff
    ensures var r := Run(namespaced, rounds, answer, n, delay);
      r.requests == [] && !r.exited && |r.waits| == |rounds| &&
      forall i :: 0 <= i < |rounds| ==> r.waits[i] == Min(delay * Pow2(i + 1), BackoffMax)
    decreases |rounds|
  {
    if rounds != [] {
      var d := Min(delay * 2, BackoffMax);
      RunListFailure(namespaced, rounds, answer, n, delay);
      RunKubernetesDoubling(namespaced, rounds[1..], answer, n, d);
      var rest := Run(namespaced, rounds[1..], answer, n, d);
      var r := Run(namespaced, rounds, answer, n, delay);
      forall i | 1 <= i < |rounds|
        ensures r.waits[i] == Min(delay * Pow2(i + 1), BackoffMax)
      {
        assert r.waits[i] == rest.waits[i - 1];
        CapDouble(delay, i - 1, BackoffMax);
      }
    }
  }

  // ---------------------------------------------------------------------------
  // The synchroniser

  /** A GenericSync: the kind it replicates, the OPA client it writes through
      and the error of a failed construction. */
  datatype GenericSync = GenericSync(rt: ResourceType, opa: Opa.Client, createError: Option<string>)

  /** `NewFromInterface`: the client gets one more prefix, the resource name. */
  function NewFromInterface(opa: Opa.Client, rt: ResourceType): (s: GenericSync)
    ensures s.rt == rt && s.createError == None && s.opa.url == opa.url
  {
    GenericSync(rt, Opa.Prefix(opa, rt.resource), None)
  }

  /** The prefix of the new synchroniser's client is that of the client it
      was given followed by exactly one more segment, the resource name. */
  lemma NewFromInterfacePrefix(opa: Opa.Client, ps: seq<string>, rt: ResourceType)
    requires Opa.PrefixIs(opa, ps) && Opa.Segment(rt.resource)
    ensures Opa.PrefixIs(NewFromInterface(opa, rt).opa, ps + [rt.resource])
  {
    Opa.PrefixStep(opa, ps, rt.resource);
  }

  /** `New`: a failure to build the dynamic client is kept for `RunContext`
      to report; otherwise the synchroniser of `NewFromInterface`. */
  function New(clientError: Option<string>, opa: Opa.Client, rt: ResourceType): (s: GenericSync)
    ensures clientError.Some? ==> s.createError == clientError
    ensures clientError.None? ==> s == NewFromInterface(opa, rt)
  {
    match clientError
    case Some(e) => GenericSync(ResourceType(false, "", "", ""), Opa.Client("", ""), Some(e))
    case None => NewFromInterface(opa, rt)
  }

  /** `RunContext`: the construction error without writing anything, or
      the retry loop. */
  method RunContext(w: Recorder, s: GenericSync, rounds: seq<RoundInput>) returns (err: Option<string>, waits: seq<nat>)
    requires ListingsSlashFree(rounds)
    modifies w
    ensures s.createError.Some? ==> err == s.createError && w.trace == old(w.trace) && waits == []
    ensures s.createError.None? ==>
      err == None &&
      w.trace == old(w.trace) + Run(s.rt.namespaced, rounds, w.answer, |old(w.trace)|, BackoffMin).requests &&
      waits == Run(s.rt.namespaced, rounds, w.answer, |old(w.trace)|, BackoffMin).waits
  {
    if s.createError.Some? {
      return s.createError, [];
    }
    var exited;
    waits, exited := Loop(w, s.rt.namespaced, rounds);
    err := None;
  }
}
