/** The older replication of policy ConfigMaps (pkg/policies/configmap.go):
    a fixed matcher, every key inserted as a policy or deleted, and the error
    of a refused insert written back as an annotation. Key order is the
    order in which a Go map yields the keys; it is a parameter here. */
module Policies {
  import opened Wrappers
  import opened Writer
  import ConfigMaps
  import Opa
  import Seqs

  const PolicyLabelKey: string := "openpolicyagent.org/policy"
  const ErrorLabelKey: string := "openpolicyagent.org/policy-error"
  const PolicyLabelValueRego: string := "rego"
  const KubeFederationSchedulingPolicy: string := "kube-federation-scheduling-policy"

  type ConfigMap = ConfigMaps.ConfigMap

  predicate MatchLabel(cm: ConfigMap)
  {
    ConfigMaps.Get(cm.labels, PolicyLabelKey) == PolicyLabelValueRego
  }

  predicate MatchNamespace(cm: ConfigMap)
  {
    cm.namespace == KubeFederationSchedulingPolicy
  }

  /** `match`: the policy label says `rego`, or the ConfigMap lives in the
      federation's scheduling-policy namespace. */
  predicate Match(cm: ConfigMap)
  {
    MatchLabel(cm) || MatchNamespace(cm)
  }

  /** The label half of this matcher is the newer matcher watching every
      namespace with only policies enabled, under the same label. */
  lemma MatchLabelIsNewMatcher(cm: ConfigMap, dataLabelKey: string, dataLabelValue: string)
    ensures var cfg := ConfigMaps.MatcherConfig(["*"], true, false, PolicyLabelKey, PolicyLabelValueRego,
                                                dataLabelKey, dataLabelValue);
      ConfigMaps.Matcher(cfg, cm) == ConfigMaps.Classification(MatchLabel(cm), MatchLabel(cm))
  {
    var cfg := ConfigMaps.MatcherConfig(["*"], true, false, PolicyLabelKey, PolicyLabelValueRego,
                                        dataLabelKey, dataLabelValue);
    assert ["*"][0] == "*";
  }

  /** Unlike the newer matcher, a ConfigMap in the scheduling-policy
      namespace matches without any label. */
  lemma MatchWithoutLabel(cm: ConfigMap)
    requires cm.namespace == KubeFederationSchedulingPolicy && PolicyLabelKey !in cm.labels
    ensures Match(cm) && !MatchLabel(cm)
  {
  }

  /** The annotation written for a refused insert: the error's JSON, or
      nothing when it cannot be marshalled. */
  function ErrorAnnotations(e: ErrValue): (r: map<string, string>)
    ensures r.Keys == {ErrorLabelKey}
    ensures e.json.Some? ==> r[ErrorLabelKey] == e.json.value
  {
    map[ErrorLabelKey := if e.json.Some? then e.json.value else ""]
  }

  /** One key of `syncAdd`, the `n`th write of the trace being the next: the
      insert, and the error annotation when it is refused. */
  function AddKey(cm: ConfigMap, key: string, answer: nat -> Option<ErrValue>, n: nat): (r: seq<Request>)
    ensures r != [] && r[0] == InsertPolicy(ConfigMaps.Id(cm, key), ConfigMaps.Get(cm.data, key))
    ensures |r| == 1 <==> answer(n).None?
  {
    var insert := InsertPolicy(ConfigMaps.Id(cm, key), ConfigMaps.Get(cm.data, key));
    match answer(n)
    case None => [insert]
    case Some(e) => [insert, Annotate(cm.namespace, cm.name, ErrorAnnotations(e))]
  }

  /** `syncAdd` over the keys in `keys`. */
  function AddRequests(cm: ConfigMap, keys: seq<string>, answer: nat -> Option<ErrValue>, n: nat): seq<Request>
    decreases |keys|
  {
    if keys == [] then []
    else
      var first := AddKey(cm, keys[0], answer, n);
      first + AddRequests(cm, keys[1..], answer, n + |first|)
  }

  /** The policy inserts among a sequence of requests. */
  function Inserts(reqs: seq<Request>): (r: seq<Request>)
    ensures |r| <= |reqs|
    decreases |reqs|
  {
    if reqs == [] then []
    else (if reqs[0].InsertPolicy? then [reqs[0]] else []) + Inserts(reqs[1..])
  }

  lemma {:induction false} InsertsAppend(a: seq<Request>, b: seq<Request>)
    ensures Inserts(a + b) == Inserts(a) + Inserts(b)
    decreases |a|
  {
    if a == [] {
      assert a + b == b;
    } else {
      var head := if a[0].InsertPolicy? then [a[0]] else [];
      assert (a + b)[0] == a[0] && (a + b)[1..] == a[1..] + b;
      assert Inserts(a + b) == head + Inserts(a[1..] + b);
      InsertsAppend(a[1..], b);
      Seqs.Reassoc(head, Inserts(a[1..]), Inserts(b));
    }
  }

  lemma InsertsOfKey(cm: ConfigMap, key: string, answer: nat -> Option<ErrValue>, n: nat)
    ensures Inserts(AddKey(cm, key, answer, n)) == [InsertPolicy(ConfigMaps.Id(cm, key), ConfigMaps.Get(cm.data, key))]
  {
    var insert := InsertPolicy(ConfigMaps.Id(cm, key), ConfigMaps.Get(cm.data, key));
    var first := AddKey(cm, key, answer, n);
    assert Inserts([insert]) == [insert] + Inserts([]) by {
      assert [insert][1..] == [];
    }
    if answer(n).Some? {
      var patch := first[1];
      assert first == [insert, patch] && [insert, patch][1..] == [patch];
      assert Inserts([patch]) == [] by {
        assert [patch][1..] == [];
      }
    }
  }

  /** A refused insert does not stop the loop: every key is inserted, in
      order, at its id, whatever OPA answers. */
  lemma {:induction false} AddInsertsEveryKey(cm: ConfigMap, keys: seq<string>, answer: nat -> Option<ErrValue>, n: nat)
    ensures var ins := Inserts(AddRequests(cm, keys, answer, n));
      |ins| == |keys| &&
      forall i :: 0 <= i < |keys| ==> ins[i] == InsertPolicy(ConfigMaps.Id(cm, keys[i]), ConfigMaps.Get(cm.data, keys[i]))
    decreases |keys|
  {
    if keys != [] {
      var first := AddKey(cm, keys[0], answer, n);
      var rest := AddRequests(cm, keys[1..], answer, n + |first|);
      AddInsertsEveryKey(cm, keys[1..], answer, n + |first|);
      InsertsAppend(first, rest);
      InsertsOfKey(cm, keys[0], answer, n);
      var ins := Inserts(AddRequests(cm, keys, answer, n));
      forall i | 1 <= i < |keys|
        ensures ins[i] == InsertPolicy(ConfigMaps.Id(cm, keys[i]), ConfigMaps.Get(cm.data, keys[i]))
      {
        assert keys[1..][i - 1] == keys[i];
      }
    }
  }

  /** A request of `syncAdd`: an insert, or a patch of this ConfigMap that
      sets only the error annotation. */
  predicate InsertOrErrorPatch(cm: ConfigMap, r: Request)
  {
    r.InsertPolicy? ||
    (r.Annotate? && r.namespace == cm.namespace && r.name == cm.name && r.annotations.Keys == {ErrorLabelKey})
  }

  /** Every request of `syncAdd` that is not an insert is an annotation
      patch of this ConfigMap that sets only the error annotation. */
  lemma {:induction false} AddAnnotatesOnlyErrors(cm: ConfigMap, keys: seq<string>, answer: nat -> Option<ErrValue>, n: nat)
    ensures forall i :: 0 <= i < |AddRequests(cm, keys, answer, n)| ==> InsertOrErrorPatch(cm, AddRequests(cm, keys, answer, n)[i])
    decreases |keys|
  {
    if keys != [] {
      var first := AddKey(cm, keys[0], answer, n);
      var rest := AddRequests(cm, keys[1..], answer, n + |first|);
      AddAnnotatesOnlyErrors(cm, keys[1..], answer, n + |first|);
      assert forall i :: 0 <= i < |first| ==> InsertOrErrorPatch(cm, first[i]);
      var r := first + rest;
      forall i | 0 <= i < |r|
        ensures InsertOrErrorPatch(cm, r[i])
      {
        if i >= |first| {
          assert r[i] == rest[i - |first|];
        } else {
          assert r[i] == first[i];
        }
      }
    }
  }

  /** When OPA accepts every insert, `syncAdd` writes no annotation. */
  lemma {:induction false} AddAccepted(cm: ConfigMap, keys: seq<string>, answer: nat -> Option<ErrValue>, n: nat)
    requires forall j: nat :: j >= n ==> answer(j).None?
    ensures var r := AddRequests(cm, keys, answer, n);
      |r| == |keys| && forall i :: 0 <= i < |r| ==> r[i].InsertPolicy?
    decreases |keys|
  {
    if keys != [] {
      AddAccepted(cm, keys[1..], answer, n + 1);
    }
  }

  /** One key of `syncAdd`. */
  method AddOne(w: Recorder, cm: ConfigMap, key: string)
    modifies w
    ensures w.trace == old(w.trace) + AddKey(cm, key, w.answer, |old(w.trace)|)
  {
    var path := cm.namespace + "/" + cm.name;
    var id := path + "/" + key;
    var err := w.Insert(id, ConfigMaps.Get(cm.data, key));
    if err.Some? {
      w.PatchAnnotations(cm.namespace, cm.name, ErrorAnnotations(err.value));
    }
  }

  lemma AddRequestsAt(cm: ConfigMap, keys: seq<string>, i: nat, answer: nat -> Option<ErrValue>, n: nat)
    requires i < |keys|
    ensures var first := AddKey(cm, keys[i], answer, n);
      AddRequests(cm, keys[i..], answer, n) == first + AddRequests(cm, keys[i + 1..], answer, n + |first|)
  {
    assert keys[i..][0] == keys[i] && keys[i..][1..] == keys[i + 1..];
  }

  /** One turn of the key loop of `syncAdd`. */
  method AddTurn(w: Recorder, cm: ConfigMap, keys: seq<string>, i: nat)
    requires i < |keys|
    modifies w
    ensures old(w.trace) + AddRequests(cm, keys[i..], w.answer, |old(w.trace)|) ==
      w.trace + AddRequests(cm, keys[i + 1..], w.answer, |w.trace|)
  {
    AddRequestsAt(cm, keys, i, w.answer, |w.trace|);
    ghost var before := w.trace;
    ghost var first := AddKey(cm, keys[i], w.answer, |before|);
    AddOne(w, cm, keys[i]);
    assert w.trace == before + first && |w.trace| == |before| + |first|;
    Seqs.Reassoc(before, first, AddRequests(cm, keys[i + 1..], w.answer, |w.trace|));
  }

  /** `syncAdd`: inserts every key of the ConfigMap in `order`. */
  method SyncAdd(w: Recorder, cm: ConfigMap, order: seq<string>)
    requires multiset(order) == multiset(cm.data.Keys)
    modifies w
    ensures w.trace == old(w.trace) + AddRequests(cm, order, w.answer, |old(w.trace)|)
  {
    ghost var start := w.trace;
    var i := 0;
    while i < |order|
      invariant 0 <= i <= |order|
      invariant start + AddRequests(cm, order, w.answer, |start|) == w.trace + AddRequests(cm, order[i..], w.answer, |w.trace|)
    {
      AddTurn(w, cm, order, i);
      i := i + 1;
    }
    assert order[i..] == [];
  }

  /** `syncRemove`: one policy deletion per key, refusals only logged. */
  function RemoveRequests(cm: ConfigMap, keys: seq<string>): (r: seq<Request>)
    ensures |r| == |keys| && forall i :: 0 <= i < |keys| ==> r[i] == DeletePolicy(ConfigMaps.Id(cm, keys[i]))
    decreases |keys|
  {
    if keys == [] then []
    else
      var rest := RemoveRequests(cm, keys[1..]);
      assert forall i :: 1 <= i < |keys| ==> keys[1..][i - 1] == keys[i];
      [DeletePolicy(ConfigMaps.Id(cm, keys[0]))] + rest
  }

  lemma RemoveRequestsSnoc(cm: ConfigMap, keys: seq<string>, key: string)
    ensures RemoveRequests(cm, keys + [key]) == RemoveRequests(cm, keys) + [DeletePolicy(ConfigMaps.Id(cm, key))]
  {
    var r, r0 := RemoveRequests(cm, keys + [key]), RemoveRequests(cm, keys);
    forall i | 0 <= i < |r|
      ensures r[i] == (r0 + [DeletePolicy(ConfigMaps.Id(cm, key))])[i]
    {
      assert (keys + [key])[i] == if i < |keys| then keys[i] else key;
    }
  }

  /** `syncRemove`: deletes every key of the ConfigMap in `order`, going on
      after a refusal. */
  method SyncRemove(w: Recorder, cm: ConfigMap, order: seq<string>)
    requires multiset(order) == multiset(cm.data.Keys)
    modifies w
    ensures w.trace == old(w.trace) + RemoveRequests(cm, order)
  {
    var path := cm.namespace + "/" + cm.name;
    var i := 0;
    while i < |order|
      invariant 0 <= i <= |order|
      invariant w.trace == old(w.trace) + RemoveRequests(cm, order[..i])
    {
      var id := path + "/" + order[i];
      var err := w.Delete(id);
      assert order[..i + 1] == order[..i] + [order[i]];
      RemoveRequestsSnoc(cm, order[..i], order[i]);
      i := i + 1;
    }
    assert order[..i] == order;
  }

  /** `add` and `update`: a matching ConfigMap is inserted; `update` looks
      only at the new object, so one that loses its label is not removed. */
  method Add(w: Recorder, cm: ConfigMap, order: seq<string>)
    requires multiset(order) == multiset(cm.data.Keys)
    modifies w
    ensures w.trace == old(w.trace) + if Match(cm) then AddRequests(cm, order, w.answer, |old(w.trace)|) else []
  {
    if MatchLabel(cm) || MatchNamespace(cm) {
      SyncAdd(w, cm, order);
    }
  }

  method Update(w: Recorder, oldCm: ConfigMap, cm: ConfigMap, order: seq<string>)
    requires multiset(order) == multiset(cm.data.Keys)
    modifies w
    ensures w.trace == old(w.trace) + if Match(cm) then AddRequests(cm, order, w.answer, |old(w.trace)|) else []
  {
    if MatchLabel(cm) || MatchNamespace(cm) {
      SyncAdd(w, cm, order);
    }
  }

  /** `delete`: a matching ConfigMap's policies are deleted. */
  method Delete(w: Recorder, cm: ConfigMap, order: seq<string>)
    requires multiset(order) == multiset(cm.data.Keys)
    modifies w
    ensures w.trace == old(w.trace) + if Match(cm) then RemoveRequests(cm, order) else []
  {
    if MatchLabel(cm) || MatchNamespace(cm) {
      SyncRemove(w, cm, order);
    }
  }
}
