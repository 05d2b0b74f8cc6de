/** Replication of policies and data kept in ConfigMaps (pkg/configmap/configmap.go):
    which ConfigMaps are policies or data, when an update triggers a resync,
    the writes that publish or withdraw a ConfigMap's keys, the status and
    retry annotations written back, the reset loop after a failed removal, and
    the encodings of the error list. The informers that deliver the add,
    update and delete notifications are not modelled: each handler is a
    method called with the notification's objects. */
module ConfigMaps {
  import opened Wrappers
  import opened Json
  import opened Strings
  import opened Writer
  import opened Delays
  import Opa
  import Seqs

  const DefaultRetries: int := 2
  const StatusAnnotationKey: string := "openpolicyagent.org/kube-mgmt-status"
  const RetriesAnnotationKey: string := "openpolicyagent.org/kube-mgmt-retries"
  const SyncResetBackoffMin: nat := 1
  const SyncResetBackoffMax: nat := 30

  datatype ConfigMap = ConfigMap(namespace: string, name: string, resourceVersion: string,
                                 labels: map<string, string>, annotations: map<string, string>,
                                 data: map<string, string>)

  /** Indexing a Go map: the zero value for a missing key. */
  function Get(m: map<string, string>, k: string): string
  {
    if k in m then m[k] else ""
  }

  // ---------------------------------------------------------------------------
  // Classification

  /** The arguments of `DefaultConfigMapMatcher`. */
  datatype MatcherConfig = MatcherConfig(namespaces: seq<string>, enablePolicies: bool, enableData: bool,
                                         policyLabelKey: string, policyLabelValue: string,
                                         dataLabelKey: string, dataLabelValue: string)

  /** What a matcher returns: whether the ConfigMap is replicated, and
      whether as a policy. */
  datatype Classification = Classification(matched: bool, isPolicy: bool)

  /** `matchesLabel`: an absent label reads as the empty string. */
  predicate MatchesLabel(cm: ConfigMap, key: string, value: string)
  {
    Get(cm.labels, key) == value
  }

  /** `matchesNamespace`: the list names the ConfigMap's namespace or `*`. */
  function MatchesNamespace(cm: ConfigMap, namespaces: seq<string>): (r: bool)
    ensures r <==> exists i :: 0 <= i < |namespaces| && (namespaces[i] == cm.namespace || namespaces[i] == "*")
    decreases |namespaces|
  {
    if namespaces == [] then false
    else if namespaces[0] == cm.namespace || namespaces[0] == "*" then true
    else
      var r := MatchesNamespace(cm, namespaces[1..]);
      assert forall i :: 1 <= i < |namespaces| ==> namespaces[i] == namespaces[1..][i - 1];
      r
  }

  predicate DataMatch(cfg: MatcherConfig, cm: ConfigMap)
  {
    cfg.enableData && MatchesNamespace(cm, cfg.namespaces) && MatchesLabel(cm, cfg.dataLabelKey, cfg.dataLabelValue)
  }

  predicate PolicyMatch(cfg: MatcherConfig, cm: ConfigMap)
  {
    cfg.enablePolicies && MatchesNamespace(cm, cfg.namespaces) && MatchesLabel(cm, cfg.policyLabelKey, cfg.policyLabelValue)
  }

  /** The matcher `DefaultConfigMapMatcher` returns, applied to `cm`: data is
      tried first and wins over a policy label; a policy is always a match;
      with both features off nothing matches. */
  function Matcher(cfg: MatcherConfig, cm: ConfigMap): (r: Classification)
    ensures r.isPolicy ==> r.matched
    ensures r.matched <==> DataMatch(cfg, cm) || PolicyMatch(cfg, cm)
    ensures r.isPolicy <==> !DataMatch(cfg, cm) && PolicyMatch(cfg, cm)
    ensures !cfg.enablePolicies && !cfg.enableData ==> r == Classification(false, false)
  {
    var matched := cfg.enableData && MatchesNamespace(cm, cfg.namespaces) && MatchesLabel(cm, cfg.dataLabelKey, cfg.dataLabelValue);
    if !matched && cfg.enablePolicies then
      var m := MatchesNamespace(cm, cfg.namespaces) && MatchesLabel(cm, cfg.policyLabelKey, cfg.policyLabelValue);
      Classification(m, m)
    else Classification(matched, false)
  }

  // ---------------------------------------------------------------------------
  // The update gate

  /** What a handler goes on to do. */
  datatype Action = Skip | Publish(cm: ConfigMap, isPolicy: bool) | Withdraw(cm: ConfigMap, isPolicy: bool)

  /** The fingerprint of a ConfigMap hashes its labels and its data only. */
  type Fingerprint = (map<string, string>, map<string, string>) -> int

  /** `update`: a matching new object is published again only when its
      resource version moved and its content changed or its retry counter is
      not "0"; an object that stops matching is withdrawn as it was
      classified before. */
  function UpdateAction(cfg: MatcherConfig, fingerprint: Fingerprint, oldCm: ConfigMap, cm: ConfigMap): (a: Action)
    ensures a.Publish? <==>
      Matcher(cfg, cm).matched && cm.resourceVersion != oldCm.resourceVersion &&
      (fingerprint(cm.labels, cm.data) != fingerprint(oldCm.labels, oldCm.data) || Get(cm.annotations, RetriesAnnotationKey) != "0")
    ensures a.Publish? ==> a == Publish(cm, Matcher(cfg, cm).isPolicy)
    ensures a.Withdraw? <==> !Matcher(cfg, cm).matched && Matcher(cfg, oldCm).matched
    ensures a.Withdraw? ==> a == Withdraw(oldCm, Matcher(cfg, oldCm).isPolicy)
  {
    var c := Matcher(cfg, cm);
    if c.matched then
      if cm.resourceVersion != oldCm.resourceVersion then
        var newFp, oldFp := fingerprint(cm.labels, cm.data), fingerprint(oldCm.labels, oldCm.data);
        if newFp != oldFp || Get(cm.annotations, RetriesAnnotationKey) != "0" then Publish(cm, c.isPolicy) else Skip
      else Skip
    else
      var o := Matcher(cfg, oldCm);
      if o.matched then Withdraw(oldCm, o.isPolicy) else Skip
  }

  /** A resync that changed neither labels nor data and left the counter at
      "0" publishes nothing, whatever the fingerprint function: only its
      determinism matters. */
  lemma UpdateSkipsUnchanged(cfg: MatcherConfig, fingerprint: Fingerprint, oldCm: ConfigMap, cm: ConfigMap)
    requires cm.labels == oldCm.labels && cm.data == oldCm.data
    requires RetriesAnnotationKey in cm.annotations && cm.annotations[RetriesAnnotationKey] == "0"
    ensures !UpdateAction(cfg, fingerprint, oldCm, cm).Publish?
  {
  }

  /** A ConfigMap whose counter kube-mgmt set to a positive number is
      published again on its next update with a new resource version, even
      with the same content. */
  lemma UpdateRetriesPending(cfg: MatcherConfig, fingerprint: Fingerprint, oldCm: ConfigMap, cm: ConfigMap, r: nat)
    requires Matcher(cfg, cm).matched && cm.resourceVersion != oldCm.resourceVersion
    requires r > 0 && RetriesAnnotationKey in cm.annotations && cm.annotations[RetriesAnnotationKey] == Itoa(r)
    ensures UpdateAction(cfg, fingerprint, oldCm, cm) == Publish(cm, Matcher(cfg, cm).isPolicy)
  {
    DigitsOfNatToString(r);
    assert DigitsValue("0") == 0;
  }

  /** A notification of `delete`: the object itself, or the last state the
      informer knew of an object whose deletion it missed. */
  datatype Deletion = Deleted(cm: ConfigMap) | DeletedFinalStateUnknown(cm: ConfigMap)

  // ---------------------------------------------------------------------------
  // Publishing a ConfigMap: syncAdd

  /** The id of a key: `namespace/name/key`. */
  function Id(cm: ConfigMap, key: string): string
  {
    cm.namespace + "/" + cm.name + "/" + key
  }

  /** The path of a ConfigMap: `namespace/name`. */
  function Path(cm: ConfigMap): string
  {
    cm.namespace + "/" + cm.name
  }

  /** The id of a key splits back into namespace, name and key. */
  lemma IdSegments(cm: ConfigMap, key: string)
    requires '/' !in cm.namespace && '/' !in cm.name && '/' !in key
    ensures Split(Id(cm, key), '/') == [cm.namespace, cm.name, key]
  {
    var tail := cm.name + ['/'] + key;
    var id := Id(cm, key);
    assert id == cm.namespace + ['/'] + tail;
    calc {
      Split(id, '/');
      { SplitCons(cm.namespace, tail, '/'); }
      [cm.namespace] + Split(tail, '/');
      { SplitPair(cm.name, key, '/'); }
      [cm.namespace] + [cm.name, key];
    }
  }

  /** Parsing a data value as JSON text: the value or the syntax error.
      JSON syntax itself is not part of this model. */
  type Parser = string -> Result<Json, ErrValue>

  /** The name `encoding/json` gives the kind of a JSON value. */
  function JsonKind(j: Json): string
  {
    match j
    case Null => "null"
    case Bool(_) => "bool"
    case Num(_) => "number"
    case Str(_) => "string"
    case Arr(_) => "array"
    case Obj(_) => "object"
  }

  /** Unmarshalling parsed JSON into a Go `map[string]interface{}`: an object
      gives its fields, `null` leaves the map nil, any other value is a type
      error and a syntax error is passed on. */
  function UnmarshalMap(parsed: Result<Json, ErrValue>): (r: Result<Option<map<string, Json>>, ErrValue>)
    ensures r.Success? <==> parsed.Success? && (parsed.value.Obj? || parsed.value.Null?)
    ensures r.Success? ==> (r.value.Some? <==> parsed.value.Obj?)
    ensures r.Success? && r.value.Some? ==> r.value.value == parsed.value.fields
    ensures parsed.Failure? ==> r == Failure(parsed.error)
  {
    match parsed
    case Failure(e) => Failure(e)
    case Success(Obj(fields)) => Success(Some(fields))
    case Success(Null) => Success(None)
    case Success(j) =>
      Failure(ErrValue("json: cannot unmarshal " + JsonKind(j) + " into Go value of type map[string]interface {}", None))
  }

  datatype Publication = Publication(requests: seq<Request>, errors: seq<ErrValue>)

  function Errors(err: Option<ErrValue>): seq<ErrValue>
  {
    if err.Some? then [err.value] else []
  }

  /** A data value `syncAdd` can write: JSON text of an object or `null`. */
  predicate Unmarshals(parse: Parser, value: string)
  {
    parse(value).Success? && (parse(value).value.Obj? || parse(value).value.Null?)
  }

  /** One key of `syncAdd`, the `n`th write of the trace being the next: a
      policy is inserted; data is written when it unmarshals into a map, and
      counts as an error without a write when it does not. */
  function PublishKey(cm: ConfigMap, key: string, isPolicy: bool, parse: Parser,
                      answer: nat -> Option<ErrValue>, n: nat): (r: Publication)
    ensures |r.requests| <= 1 && |r.errors| <= 1
    ensures r.requests == [] <==> !isPolicy && !Unmarshals(parse, Get(cm.data, key))
    ensures r.requests == [] ==> r.errors != []
  {
    var id := Id(cm, key);
    var value := Get(cm.data, key);
    if isPolicy then Publication([InsertPolicy(id, value)], Errors(answer(n)))
    else
      match UnmarshalMap(parse(value))
      case Failure(e) => Publication([], [e])
      case Success(data) =>
        Publication([PutData(id, if data.Some? then Obj(data.value) else Null)], Errors(answer(n)))
  }

  function PublishKeys(cm: ConfigMap, keys: seq<string>, isPolicy: bool, parse: Parser,
                       answer: nat -> Option<ErrValue>, n: nat): Publication
    decreases |keys|
  {
    if keys == [] then Publication([], [])
    else
      var first := PublishKey(cm, keys[0], isPolicy, parse, answer, n);
      var rest := PublishKeys(cm, keys[1..], isPolicy, parse, answer, n + |first.requests|);
      Publication(first.requests + rest.requests, first.errors + rest.errors)
  }

  /** Policies: one `InsertPolicy` per key, in the order of the keys, at the
      key's id; the publication fails exactly when one of them is refused. */
  lemma {:induction false} PublishPolicies(cm: ConfigMap, keys: seq<string>, parse: Parser,
                                           answer: nat -> Option<ErrValue>, n: nat)
    ensures var p := PublishKeys(cm, keys, true, parse, answer, n);
      |p.requests| == |keys| &&
      (forall i :: 0 <= i < |keys| ==> p.requests[i] == InsertPolicy(Id(cm, keys[i]), Get(cm.data, keys[i]))) &&
      (p.errors == [] <==> forall j :: n <= j < n + |keys| ==> answer(j).None?)
    decreases |keys|
  {
    if keys != [] {
      PublishPolicies(cm, keys[1..], parse, answer, n + 1);
      var p := PublishKeys(cm, keys, true, parse, answer, n);
      var rest := PublishKeys(cm, keys[1..], true, parse, answer, n + 1);
      forall i | 1 <= i < |keys|
        ensures p.requests[i] == InsertPolicy(Id(cm, keys[i]), Get(cm.data, keys[i]))
      {
        assert p.requests[i] == rest.requests[i - 1];
        assert keys[1..][i - 1] == keys[i];
      }
    }
  }

  /** Data: every write is a `PutData`, at most one per key, and a value
      that does not unmarshal into a map is not written. */
  lemma {:induction false} PublishDataWrites(cm: ConfigMap, keys: seq<string>, parse: Parser,
                                             answer: nat -> Option<ErrValue>, n: nat)
    ensures var p := PublishKeys(cm, keys, false, parse, answer, n);
      (forall i :: 0 <= i < |p.requests| ==> p.requests[i].PutData?) &&
      |p.requests| <= |keys| &&
      ((exists i :: 0 <= i < |keys| && !Unmarshals(parse, Get(cm.data, keys[i]))) ==> |p.requests| < |keys|)
    decreases |keys|
  {
    if keys != [] {
      var first := PublishKey(cm, keys[0], false, parse, answer, n);
      PublishDataWrites(cm, keys[1..], parse, answer, n + |first.requests|);
      var p := PublishKeys(cm, keys, false, parse, answer, n);
      var rest := PublishKeys(cm, keys[1..], false, parse, answer, n + |first.requests|);
      assert forall i :: 1 <= i < |keys| ==> keys[1..][i - 1] == keys[i];
      forall i | 0 <= i < |p.requests|
        ensures p.requests[i].PutData?
      {
        if i >= |first.requests| {
          assert p.requests[i] == rest.requests[i - |first.requests|];
        }
      }
    }
  }

  /** Data: the publication succeeds exactly when every value unmarshals and
      every write is accepted. */
  lemma {:induction false} PublishDataSucceeds(cm: ConfigMap, keys: seq<string>, parse: Parser,
                                               answer: nat -> Option<ErrValue>, n: nat)
    ensures PublishKeys(cm, keys, false, parse, answer, n).errors == [] <==>
      (forall i :: 0 <= i < |keys| ==> Unmarshals(parse, Get(cm.data, keys[i]))) &&
      (forall j :: n <= j < n + |keys| ==> answer(j).None?)
    decreases |keys|
  {
    if keys != [] {
      var first := PublishKey(cm, keys[0], false, parse, answer, n);
      PublishDataSucceeds(cm, keys[1..], parse, answer, n + |first.requests|);
      assert forall i :: 1 <= i < |keys| ==> keys[1..][i - 1] == keys[i];
    }
  }

  /** `syncAdd`'s counter after a sync: no errors or data gives 0; a policy
      error counts a positive counter down, restarts a counter at 0 or a
      missing one at `defaultRetries`, and drops anything else to 0. The
      counter exceeds `defaultRetries` only when it was set above 3 by hand. */
  function NextRetries(annotations: map<string, string>, isPolicy: bool, failed: bool): (r: int)
    ensures r >= 0
    ensures r > DefaultRetries <==>
      failed && isPolicy && RetriesAnnotationKey in annotations &&
      Atoi(annotations[RetriesAnnotationKey]).Some? && Atoi(annotations[RetriesAnnotationKey]).value > 3
  {
    if !failed || !isPolicy then 0
    else if RetriesAnnotationKey !in annotations then DefaultRetries
    else
      match Atoi(annotations[RetriesAnnotationKey])
      case None => 0
      case Some(v) => if v > 0 then v - 1 else if v == 0 then DefaultRetries else 0
  }

  /** A counter kube-mgmt wrote itself is read back: after a failed policy
      sync it goes 2, 1, 0 and then back to 2. */
  lemma RetriesCountDown(annotations: map<string, string>, r: int)
    requires 0 <= r <= DefaultRetries
    ensures NextRetries(annotations[RetriesAnnotationKey := Itoa(r)], true, true) == if r > 0 then r - 1 else DefaultRetries
  {
    AtoiItoa(r);
  }

  /** The JSON of one error: its own encoding, or its text as `%q` quotes it
      when it has none. */
  function ErrorJson(e: ErrValue): string
  {
    if e.json.Some? then e.json.value else Quote(e.text)
  }

  function ErrorJsons(errs: seq<ErrValue>): (r: seq<string>)
    ensures |r| == |errs| && forall i :: 0 <= i < |errs| ==> r[i] == ErrorJson(errs[i])
    decreases |errs|
  {
    if errs == [] then [] else [ErrorJson(errs[0])] + ErrorJsons(errs[1..])
  }

  /** `errList.MarshalJSON`: `""` for no errors, the one error's JSON alone,
      or an array of them. */
  function ErrListJson(errs: seq<ErrValue>): (r: string)
    ensures errs == [] ==> r == "\"\""
    ensures |errs| == 1 ==> r == ErrorJson(errs[0])
    ensures |errs| >= 2 ==> r == "[" + Join(ErrorJsons(errs), ",") + "]"
  {
    if errs == [] then "\"\""
    else if |errs| == 1 then ErrorJson(errs[0])
    else "[" + Join(ErrorJsons(errs), ",") + "]"
  }

  /** A single error without a JSON encoding of its own is its quoted text,
      which reads back as that text; the status holding it marshals exactly
      when the text has no control character JSON cannot escape. */
  lemma ErrListJsonFallback(e: ErrValue)
    requires e.json.None?
    ensures Unquote(ErrListJson([e])) == Some(e.text)
    ensures StatusMarshals([e]) <==> forall j :: 0 <= j < |e.text| ==> JsonEscapable(e.text[j])
  {
    QuoteRoundTrip(e.text);
  }

  /** `errList.MarshalJSON`, building the list one error at a time. */
  method MarshalErrList(errs: seq<ErrValue>) returns (r: string)
    ensures r == ErrListJson(errs)
  {
    if |errs| == 0 {
      return "\"\"";
    }
    var list: seq<string> := [];
    var i := 0;
    while i < |errs|
      invariant 0 <= i <= |errs|
      invariant list == ErrorJsons(errs[..i])
    {
      assert errs[..i + 1] == errs[..i] + [errs[i]];
      ErrorJsonsAppend(errs[..i], errs[i]);
      if errs[i].json.Some? {
        list := list + [errs[i].json.value];
      } else {
        list := list + [Quote(errs[i].text)];
      }
      i := i + 1;
    }
    assert errs[..i] == errs;
    if |list| == 1 {
      return list[0];
    }
    r := "[" + Join(list, ",") + "]";
  }

  lemma ErrorJsonsAppend(errs: seq<ErrValue>, e: ErrValue)
    ensures ErrorJsons(errs + [e]) == ErrorJsons(errs) + [ErrorJson(e)]
  {
    var l := ErrorJsons(errs + [e]);
    var r := ErrorJsons(errs) + [ErrorJson(e)];
    assert |l| == |r|;
    forall i | 0 <= i < |l|
      ensures l[i] == r[i]
    {
      if i < |errs| {
        assert (errs + [e])[i] == errs[i];
      }
    }
  }

  function Texts(errs: seq<ErrValue>): (r: seq<string>)
    ensures |r| == |errs| && forall i :: 0 <= i < |errs| ==> r[i] == errs[i].text
    decreases |errs|
  {
    if errs == [] then [] else [errs[0].text] + Texts(errs[1..])
  }

  /** `errList.Error`: the messages joined by newlines, none for no errors. */
  function ErrListText(errs: seq<ErrValue>): string
  {
    if errs == [] then "" else Join(Texts(errs), "\n")
  }

  /** One-line messages can be read back from the joined text. */
  lemma ErrListTextSplits(errs: seq<ErrValue>)
    requires errs != [] && forall i :: 0 <= i < |errs| ==> '\n' !in errs[i].text
    ensures Split(ErrListText(errs), '\n') == Texts(errs)
  {
    SplitJoin(Texts(errs), '\n');
  }

  /** `errList.Error`, collecting the messages one error at a time. */
  method ErrorText(errs: seq<ErrValue>) returns (r: string)
    ensures r == ErrListText(errs)
  {
    if |errs| == 0 {
      return "";
    }
    var text: seq<string> := [];
    var i := 0;
    while i < |errs|
      invariant 0 <= i <= |errs|
      invariant text == Texts(errs[..i])
    {
      assert errs[..i + 1] == errs[..i] + [errs[i]];
      TextsAppend(errs[..i], errs[i]);
      text := text + [errs[i].text];
      i := i + 1;
    }
    assert errs[..i] == errs;
    r := Join(text, "\n");
  }

  lemma TextsAppend(errs: seq<ErrValue>, e: ErrValue)
    ensures Texts(errs + [e]) == Texts(errs) + [e.text]
  {
    var l := Texts(errs + [e]);
    var r := Texts(errs) + [e.text];
    assert |l| == |r|;
    forall i | 0 <= i < |l|
      ensures l[i] == r[i]
    {
      if i < |errs| {
        assert (errs + [e])[i] == errs[i];
      }
    }
  }

  /** `json.Marshal` compacts what a `MarshalJSON` method returns and, in
      doing so, writes `<`, `>`, `&`, U+2028 and U+2029 as `\u` escapes. */
  function HtmlEscapeChar(ch: char): string
  {
    if ch == '<' then "\\u003c"
    else if ch == '>' then "\\u003e"
    else if ch == '&' then "\\u0026"
    else if ch as int == 0x2028 then "\\u2028"
    else if ch as int == 0x2029 then "\\u2029"
    else [ch]
  }

  function HtmlEscape(s: string): string
    decreases |s|
  {
    if s == [] then "" else HtmlEscapeChar(s[0]) + HtmlEscape(s[1..])
  }

  predicate IsHtmlEscaped(ch: char)
  {
    ch == '<' || ch == '>' || ch == '&' || ch as int == 0x2028 || ch as int == 0x2029
  }

  /** After escaping, none of the five characters is left. */
  lemma {:induction false} HtmlEscapeRemoves(s: string)
    ensures forall i :: 0 <= i < |HtmlEscape(s)| ==> !IsHtmlEscaped(HtmlEscape(s)[i])
    decreases |s|
  {
    if s != [] {
      HtmlEscapeRemoves(s[1..]);
      var e := HtmlEscapeChar(s[0]);
      assert forall i :: 0 <= i < |e| ==> !IsHtmlEscaped(e[i]);
      assert HtmlEscape(s) == e + HtmlEscape(s[1..]);
    }
  }

  /** A text without any of the five characters is left as it is. */
  lemma {:induction false} HtmlEscapeKeeps(s: string)
    requires forall i :: 0 <= i < |s| ==> !IsHtmlEscaped(s[i])
    ensures HtmlEscape(s) == s
    decreases |s|
  {
    if s != [] {
      HtmlEscapeKeeps(s[1..]);
      assert s == [s[0]] + s[1..];
    }
  }

  /** A character whose `%q` form is also a JSON string character or escape:
      every character but the ASCII controls and DEL, and of those only
      backspace, form feed, newline, carriage return and tab. JSON has no
      `\a`, `\v` or `\x` escapes. */
  predicate JsonEscapable(ch: char)
  {
    !IsAsciiControl(ch) || ch as int == 0x08 || ch as int == 0x0c || ch == '\n' || ch == '\r' || ch == '\t'
  }

  /** `json.Marshal(st)` succeeds: every error that falls back to its quoted
      text quotes to valid JSON. */
  predicate StatusMarshals(errs: seq<ErrValue>)
  {
    forall i, j :: 0 <= i < |errs| && errs[i].json.None? && 0 <= j < |errs[i].text| ==> JsonEscapable(errs[i].text[j])
  }

  /** The JSON of `status` as `json.Marshal` writes it: `ok`, or `error` with
      the error list, HTML-escaped; an empty list is left out. */
  function StatusJson(errs: seq<ErrValue>): string
  {
    if errs == [] then "{\"status\":\"ok\"}"
    else "{\"status\":\"error\",\"error\":" + HtmlEscape(ErrListJson(errs)) + "}"
  }

  /** An error whose text has `<` in it and no JSON of its own. */
  lemma StatusEscapesHtml()
    ensures StatusJson([ErrValue("a<b", None)]) == "{\"status\":\"error\",\"error\":\"a\\u003cb\"}"
  {
    var e := ErrValue("a<b", None);
    QuoteLessThan();
    assert ErrListJson([e]) == "\"a<b\"";
    HtmlEscapeLessThan();
  }

  lemma QuoteLessThan()
    ensures Quote("a<b") == "\"a<b\""
  {
    assert Escape("b") == "b" + Escape("");
    assert Escape("<b") == "<" + Escape("b");
    assert Escape("a<b") == "a" + Escape("<b");
  }

  lemma HtmlEscapeLessThan()
    ensures HtmlEscape("\"a<b\"") == "\"a\\u003cb\""
  {
    assert HtmlEscape("\"") == "\"" + HtmlEscape("");
    assert HtmlEscape("b\"") == "b" + HtmlEscape("\"");
    assert HtmlEscape("<b\"") == "\\u003c" + HtmlEscape("b\"");
    assert HtmlEscape("a<b\"") == "a" + HtmlEscape("<b\"");
    assert HtmlEscape("\"a<b\"") == "\"" + HtmlEscape("a<b\"");
  }

  /** The annotations `setAnnotations` patches onto the ConfigMap. */
  function StatusAnnotations(errs: seq<ErrValue>, retries: int): (r: map<string, string>)
    ensures r.Keys == {StatusAnnotationKey, RetriesAnnotationKey}
    ensures MinInt64 <= retries <= MaxInt64 ==> Atoi(r[RetriesAnnotationKey]) == Some(retries)
  {
    var r := map[StatusAnnotationKey := StatusJson(errs), RetriesAnnotationKey := Itoa(retries)];
    if MinInt64 <= retries <= MaxInt64 then AtoiItoa(retries); r else r
  }

  /** `setAnnotations`: one patch of the status and the counter, or none
      when the status does not marshal. */
  function StatusPatch(cm: ConfigMap, errs: seq<ErrValue>, retries: int): seq<Request>
  {
    if StatusMarshals(errs) then [Annotate(cm.namespace, cm.name, StatusAnnotations(errs, retries))] else []
  }

  /** `syncAdd`: the keys in ascending order, then the annotation patch with
      the status and the counter. */
  ghost function AddRequests(cm: ConfigMap, isPolicy: bool, parse: Parser,
                             answer: nat -> Option<ErrValue>, n: nat): seq<Request>
  {
    var p := PublishKeys(cm, SortedOf(cm.data.Keys), isPolicy, parse, answer, n);
    var retries := NextRetries(cm.annotations, isPolicy, p.errors != []);
    p.requests + StatusPatch(cm, p.errors, retries)
  }

  /** The status reads "ok" exactly when there are no errors. */
  lemma StatusOkIffNoErrors(errs: seq<ErrValue>)
    ensures StatusJson(errs) == "{\"status\":\"ok\"}" <==> errs == []
  {
    if errs != [] {
      var e := StatusJson(errs);
      assert e[11] == 'e';
    }
  }

  /** `syncAdd` ends with at most one patch of the ConfigMap's own
      annotations, sent exactly when the status marshals, which it always
      does when no key failed; the patch reports "ok" with a counter of 0
      exactly when no key failed. */
  lemma AddReportsStatus(cm: ConfigMap, isPolicy: bool, parse: Parser, answer: nat -> Option<ErrValue>, n: nat)
    ensures var r := AddRequests(cm, isPolicy, parse, answer, n);
      var p := PublishKeys(cm, SortedOf(cm.data.Keys), isPolicy, parse, answer, n);
      |p.requests| <= |r| <= |p.requests| + 1 && r[..|p.requests|] == p.requests &&
      (|r| > |p.requests| <==> StatusMarshals(p.errors)) &&
      (p.errors == [] ==> |r| > |p.requests|) &&
      (|r| > |p.requests| ==>
        r[|r| - 1].Annotate? && r[|r| - 1].namespace == cm.namespace && r[|r| - 1].name == cm.name &&
        (p.errors == [] <==> r[|r| - 1].annotations[StatusAnnotationKey] == "{\"status\":\"ok\"}") &&
        (p.errors == [] ==> r[|r| - 1].annotations[RetriesAnnotationKey] == "0"))
  {
    var p := PublishKeys(cm, SortedOf(cm.data.Keys), isPolicy, parse, answer, n);
    var retries := NextRetries(cm.annotations, isPolicy, p.errors != []);
    var ann := StatusAnnotations(p.errors, retries);
    var r := AddRequests(cm, isPolicy, parse, answer, n);
    assert r == p.requests + StatusPatch(cm, p.errors, retries);
    assert r[..|p.requests|] == p.requests;
    assert ann[StatusAnnotationKey] == StatusJson(p.errors);
    StatusOkIffNoErrors(p.errors);
    assert p.errors == [] ==> ann[RetriesAnnotationKey] == Itoa(0);
  }

  /** An error text holding a vertical tab quotes to `\v`, which is not JSON:
      `setAnnotations` then sends no patch at all. */
  lemma VerticalTabStatusUnsent(cm: ConfigMap, retries: int)
    ensures StatusPatch(cm, [ErrValue([0x0b as char], None)], retries) == []
  {
    var errs := [ErrValue([0x0b as char], None)];
    assert !JsonEscapable(errs[0].text[0]);
  }

  /** One key of `syncAdd`. */
  method PublishOne(w: Recorder, cm: ConfigMap, key: string, isPolicy: bool, parse: Parser) returns (errs: seq<ErrValue>)
    modifies w
    ensures w.trace == old(w.trace) + PublishKey(cm, key, isPolicy, parse, w.answer, |old(w.trace)|).requests
    ensures errs == PublishKey(cm, key, isPolicy, parse, w.answer, |old(w.trace)|).errors
  {
    var id := cm.namespace + "/" + cm.name + "/" + key;
    var value := Get(cm.data, key);
    var err: Option<ErrValue>;
    if isPolicy {
      err := w.Insert(id, value);
    } else {
      match UnmarshalMap(parse(value))
      case Failure(e) =>
        err := Some(e);
      case Success(data) =>
        err := w.Put(id, if data.Some? then Obj(data.value) else Null);
    }
    errs := if err.Some? then [err.value] else [];
  }

  lemma PublishKeysAt(cm: ConfigMap, keys: seq<string>, i: nat, isPolicy: bool, parse: Parser,
                      answer: nat -> Option<ErrValue>, n: nat)
    requires i < |keys|
    ensures var first := PublishKey(cm, keys[i], isPolicy, parse, answer, n);
      var rest := PublishKeys(cm, keys[i + 1..], isPolicy, parse, answer, n + |first.requests|);
      PublishKeys(cm, keys[i..], isPolicy, parse, answer, n) == Publication(first.requests + rest.requests, first.errors + rest.errors)
  {
    assert keys[i..][0] == keys[i] && keys[i..][1..] == keys[i + 1..];
  }

  /** One turn of the key loop of `syncAdd`: the writes and errors of
      `keys[i..]` are those of `keys[i]` followed by those of the rest. */
  method PublishTurn(w: Recorder, cm: ConfigMap, keys: seq<string>, i: nat, isPolicy: bool, parse: Parser,
                     errsBefore: seq<ErrValue>) returns (errsAfter: seq<ErrValue>)
    requires i < |keys|
    modifies w
    ensures old(w.trace) + PublishKeys(cm, keys[i..], isPolicy, parse, w.answer, |old(w.trace)|).requests ==
      w.trace + PublishKeys(cm, keys[i + 1..], isPolicy, parse, w.answer, |w.trace|).requests
    ensures errsBefore + PublishKeys(cm, keys[i..], isPolicy, parse, w.answer, |old(w.trace)|).errors ==
      errsAfter + PublishKeys(cm, keys[i + 1..], isPolicy, parse, w.answer, |w.trace|).errors
  {
    PublishKeysAt(cm, keys, i, isPolicy, parse, w.answer, |w.trace|);
    ghost var before := w.trace;
    ghost var first := PublishKey(cm, keys[i], isPolicy, parse, w.answer, |before|);
    ghost var rest := PublishKeys(cm, keys[i + 1..], isPolicy, parse, w.answer, |before| + |first.requests|);
    var errs := PublishOne(w, cm, keys[i], isPolicy, parse);
    assert w.trace == before + first.requests && errs == first.errors;
    assert |w.trace| == |before| + |first.requests|;
    Seqs.Reassoc(before, first.requests, rest.requests);
    Seqs.Reassoc(errsBefore, errs, rest.errors);
    errsAfter := errsBefore + errs;
  }

  /** The key loop of `syncAdd`: publishes `keys` in order and collects
      the errors. */
  method PublishAll(w: Recorder, cm: ConfigMap, keys: seq<string>, isPolicy: bool, parse: Parser)
    returns (syncErr: seq<ErrValue>)
    modifies w
    ensures var spec := PublishKeys(cm, keys, isPolicy, parse, w.answer, |old(w.trace)|);
      w.trace == old(w.trace) + spec.requests && syncErr == spec.errors
  {
    ghost var start := w.trace;
    ghost var spec := PublishKeys(cm, keys, isPolicy, parse, w.answer, |start|);
    syncErr := [];
    var i := 0;
    while i < |keys|
      invariant 0 <= i <= |keys|
      invariant start + spec.requests == w.trace + PublishKeys(cm, keys[i..], isPolicy, parse, w.answer, |w.trace|).requests
      invariant spec.errors == syncErr + PublishKeys(cm, keys[i..], isPolicy, parse, w.answer, |w.trace|).errors
    {
      syncErr := PublishTurn(w, cm, keys, i, isPolicy, parse, syncErr);
      i := i + 1;
    }
    assert keys[i..] == [];
  }

  /** `syncAdd`: publishes every key in ascending order, collecting the
      errors, then patches the status and the counter onto the ConfigMap. */
  method SyncAdd(w: Recorder, cm: ConfigMap, isPolicy: bool, parse: Parser)
    modifies w
    ensures w.trace == old(w.trace) + AddRequests(cm, isPolicy, parse, w.answer, |old(w.trace)|)
  {
    var sortedKeys := SortStrings(cm.data.Keys);
    var syncErr := PublishAll(w, cm, sortedKeys, isPolicy, parse);
    var retries := NextRetries(cm.annotations, isPolicy, syncErr != []);
    if StatusMarshals(syncErr) {
      w.PatchAnnotations(cm.namespace, cm.name, StatusAnnotations(syncErr, retries));
    }
  }

  // ---------------------------------------------------------------------------
  // Withdrawing a ConfigMap: syncRemove and syncReset

  /** `m` writes starting at position `n` are the reset loop's: all refused
      but the last. */
  ghost predicate ResetAttempts(answer: nat -> Option<ErrValue>, n: nat, m: nat)
  {
    m >= 1 && answer(n + m - 1).None? && forall j :: n <= j < n + m - 1 ==> answer(j).Some?
  }

  lemma {:induction false} ResetAttemptsExist(answer: nat -> Option<ErrValue>, n: nat, k: nat)
    requires k >= n && answer(k).None?
    ensures exists m: nat :: ResetAttempts(answer, n, m)
    decreases k - n
  {
    if answer(n).None? {
      assert ResetAttempts(answer, n, 1);
    } else {
      ResetAttemptsExist(answer, n + 1, k);
      var m: nat :| ResetAttempts(answer, n + 1, m);
      assert ResetAttempts(answer, n, m + 1);
    }
  }

  lemma ResetAttemptsUnique(answer: nat -> Option<ErrValue>, n: nat, m1: nat, m2: nat)
    requires ResetAttempts(answer, n, m1) && ResetAttempts(answer, n, m2)
    ensures m1 == m2
  {
  }

  /** How many writes the reset loop makes from position `n`. */
  ghost function ResetLength(answer: nat -> Option<ErrValue>, n: nat): (m: nat)
    requires SucceedsAfter(answer, n)
    ensures ResetAttempts(answer, n, m)
  {
    var k: nat :| k >= n && answer(k).None?;
    ResetAttemptsExist(answer, n, k);
    var m: nat :| ResetAttempts(answer, n, m);
    m
  }

  /** `m` resets of the whole store. */
  function Resets(m: nat): (r: seq<Request>)
    ensures |r| == m && forall i :: 0 <= i < m ==> r[i] == PutData("/", EmptyObject)
  {
    if m == 0 then [] else Resets(m - 1) + [PutData("/", EmptyObject)]
  }

  /** The pauses before the first `m` retries of a reset. */
  function ResetWaits(m: nat): (r: seq<nat>)
    ensures |r| == m && forall i :: 0 <= i < m ==> r[i] == Min(Pow2(i), SyncResetBackoffMax)
  {
    if m == 0 then [] else ResetWaits(m - 1) + [Min(Pow2(m - 1), SyncResetBackoffMax)]
  }

  /** `syncReset`: `PutData("/", {})` until OPA accepts it, waiting 1s, 2s,
      4s, … capped at 30s between attempts. The loop never ends while OPA
      refuses, so it is only called where OPA accepts some later write. */
  method SyncReset(w: Recorder) returns (waits: seq<nat>)
    requires SucceedsAfter(w.answer, |w.trace|)
    modifies w
    ensures var m := ResetLength(w.answer, |old(w.trace)|);
      w.trace == old(w.trace) + Resets(m) && waits == ResetWaits(m - 1)
  {
    ghost var start := |w.trace|;
    ghost var target: nat :| target >= start && w.answer(target).None?;
    ghost var count: nat := 0;
    var d := SyncResetBackoffMin;
    waits := [];
    while true
      invariant |w.trace| == start + count <= target
      invariant w.trace == old(w.trace) + Resets(count)
      invariant forall j :: start <= j < start + count ==> w.answer(j).Some?
      invariant waits == ResetWaits(count) && d == Min(Pow2(count), SyncResetBackoffMax)
      decreases target - count
    {
      var err := w.Put("/", EmptyObject);
      assert Resets(count + 1) == Resets(count) + [PutData("/", EmptyObject)];
      Seqs.Reassoc(old(w.trace), Resets(count), [PutData("/", EmptyObject)]);
      count := count + 1;
      if err.None? {
        ResetAttemptsUnique(w.answer, start, count, ResetLength(w.answer, start));
        return;
      }
      assert ResetWaits(count) == ResetWaits(count - 1) + [d];
      waits := waits + [d];
      CapStep(count - 1, SyncResetBackoffMax);
      d := d * 2;
      if d > SyncResetBackoffMax {
        d := SyncResetBackoffMax;
      }
    }
  }

  /** How many resets follow a `remove` patch at position `n`: none when
      it is accepted, else the reset loop's. */
  ghost function RefusalResets(answer: nat -> Option<ErrValue>, n: nat): nat
    requires Recovers(answer)
  {
    if answer(n).None? then 0 else ResetLength(answer, n + 1)
  }

  /** The writes for one key of `syncRemove`, the `n`th write of the trace
      being the next: a policy deletion at the key's id, or a `remove` patch
      at the ConfigMap's path followed, when refused, by the reset loop. */
  ghost function KeyRemoval(cm: ConfigMap, key: string, isPolicy: bool,
                            answer: nat -> Option<ErrValue>, n: nat): seq<Request>
    requires isPolicy || Recovers(answer)
  {
    if isPolicy then [DeletePolicy(Id(cm, key))]
    else [PatchData(Path(cm), "remove")] + Resets(RefusalResets(answer, n))
  }

  /** `syncRemove`: the writes for every key in turn. */
  ghost function RemoveRequests(cm: ConfigMap, keys: seq<string>, isPolicy: bool,
                                answer: nat -> Option<ErrValue>, n: nat): seq<Request>
    requires isPolicy || Recovers(answer)
    decreases |keys|
  {
    if keys == [] then []
    else
      var first := KeyRemoval(cm, keys[0], isPolicy, answer, n);
      first + RemoveRequests(cm, keys[1..], isPolicy, answer, n + |first|)
  }

  /** Policies: one deletion per key at the key's id, whatever OPA answers. */
  lemma {:induction false} RemovePolicies(cm: ConfigMap, keys: seq<string>, answer: nat -> Option<ErrValue>, n: nat)
    ensures var r := RemoveRequests(cm, keys, true, answer, n);
      |r| == |keys| && forall i :: 0 <= i < |keys| ==> r[i] == DeletePolicy(Id(cm, keys[i]))
    decreases |keys|
  {
    if keys != [] {
      var first := KeyRemoval(cm, keys[0], true, answer, n);
      RemovePolicies(cm, keys[1..], answer, n + |first|);
      var r := RemoveRequests(cm, keys, true, answer, n);
      var rest := RemoveRequests(cm, keys[1..], true, answer, n + |first|);
      forall i | 1 <= i < |keys|
        ensures r[i] == DeletePolicy(Id(cm, keys[i]))
      {
        assert r[i] == rest[i - 1];
        assert keys[1..][i - 1] == keys[i];
      }
    }
  }

  function CountPatches(reqs: seq<Request>): nat
    decreases |reqs|
  {
    if reqs == [] then 0 else (if reqs[0].PatchData? then 1 else 0) + CountPatches(reqs[1..])
  }

  lemma {:induction false} CountPatchesAppend(a: seq<Request>, b: seq<Request>)
    ensures CountPatches(a + b) == CountPatches(a) + CountPatches(b)
    decreases |a|
  {
    if a != [] {
      CountPatchesAppend(a[1..], b);
      assert (a + b)[1..] == a[1..] + b;
    } else {
      assert a + b == b;
    }
  }

  lemma {:induction false} CountPatchesResets(m: nat)
    ensures CountPatches(Resets(m)) == 0
    decreases m
  {
    if m > 0 {
      CountPatchesResets(m - 1);
      CountPatchesAppend(Resets(m - 1), [PutData("/", EmptyObject)]);
    }
  }

  /** Data: one `remove` patch per key, each at the ConfigMap's path (not the
      key's id), and every other write is a reset of the whole store. */
  lemma {:induction false} RemoveData(cm: ConfigMap, keys: seq<string>, answer: nat -> Option<ErrValue>, n: nat)
    requires Recovers(answer)
    ensures var r := RemoveRequests(cm, keys, false, answer, n);
      CountPatches(r) == |keys| &&
      forall i :: 0 <= i < |r| ==> r[i] == PatchData(Path(cm), "remove") || r[i] == PutData("/", EmptyObject)
    decreases |keys|
  {
    if keys != [] {
      var resets := RefusalResets(answer, n);
      var head := KeyRemoval(cm, keys[0], false, answer, n);
      var rest := RemoveRequests(cm, keys[1..], false, answer, n + |head|);
      var r := RemoveRequests(cm, keys, false, answer, n);
      assert r == head + rest;
      RemoveData(cm, keys[1..], answer, n + |head|);
      assert head == [PatchData(Path(cm), "remove")] + Resets(resets);
      assert CountPatches(r) == |keys| by {
        CountPatchesAppend(head, rest);
        CountPatchesAppend([PatchData(Path(cm), "remove")], Resets(resets));
        CountPatchesResets(resets);
        assert CountPatches([PatchData(Path(cm), "remove")]) == 1;
      }
      forall i | 0 <= i < |r|
        ensures r[i] == PatchData(Path(cm), "remove") || r[i] == PutData("/", EmptyObject)
      {
        if i >= |head| {
          assert r[i] == rest[i - |head|];
        } else if i > 0 {
          assert r[i] == Resets(resets)[i - 1];
        }
      }
    }
  }

  /** Data, when OPA accepts every removal: exactly one `remove` patch per
      key and no reset. */
  lemma {:induction false} RemoveDataAccepted(cm: ConfigMap, keys: seq<string>, answer: nat -> Option<ErrValue>, n: nat)
    requires Recovers(answer) && forall j: nat :: j >= n ==> answer(j).None?
    ensures var r := RemoveRequests(cm, keys, false, answer, n);
      |r| == |keys| && forall i :: 0 <= i < |r| ==> r[i] == PatchData(Path(cm), "remove")
    decreases |keys|
  {
    if keys != [] {
      assert RefusalResets(answer, n) == 0;
      assert Resets(0) == [];
      assert |KeyRemoval(cm, keys[0], false, answer, n)| == 1;
      RemoveDataAccepted(cm, keys[1..], answer, n + 1);
    }
  }

  /** One key of `syncRemove`. */
  method WithdrawOne(w: Recorder, cm: ConfigMap, key: string, isPolicy: bool)
    requires isPolicy || Recovers(w.answer)
    modifies w
    ensures w.trace == old(w.trace) + KeyRemoval(cm, key, isPolicy, w.answer, |old(w.trace)|)
  {
    var path := cm.namespace + "/" + cm.name;
    var id := path + "/" + key;
    if isPolicy {
      var err := w.Delete(id);
    } else {
      var err := w.Patch(path, "remove");
      if err.Some? {
        var waits := SyncReset(w);
      }
    }
  }

  /** The writes for the first key, then those for the rest from position `m`
      just after them. */
  lemma RemoveRequestsCons(cm: ConfigMap, keys: seq<string>, isPolicy: bool, answer: nat -> Option<ErrValue>, n: nat, m: nat)
    requires keys != [] && (isPolicy || Recovers(answer))
    requires m == n + |KeyRemoval(cm, keys[0], isPolicy, answer, n)|
    ensures RemoveRequests(cm, keys, isPolicy, answer, n) ==
      KeyRemoval(cm, keys[0], isPolicy, answer, n) + RemoveRequests(cm, keys[1..], isPolicy, answer, m)
  {
  }

  /** After the writes for key `i`, what is still to come is the writes for
      the keys after it. */
  lemma RemoveStep(cm: ConfigMap, keys: seq<string>, i: nat, isPolicy: bool, answer: nat -> Option<ErrValue>,
                   before: seq<Request>, after: seq<Request>)
    requires i < |keys| && (isPolicy || Recovers(answer))
    requires after == before + KeyRemoval(cm, keys[i], isPolicy, answer, |before|)
    ensures before + RemoveRequests(cm, keys[i..], isPolicy, answer, |before|) ==
      after + RemoveRequests(cm, keys[i + 1..], isPolicy, answer, |after|)
  {
    var first := KeyRemoval(cm, keys[i], isPolicy, answer, |before|);
    var tail := keys[i..];
    assert tail[0] == keys[i] && tail[1..] == keys[i + 1..];
    RemoveRequestsCons(cm, tail, isPolicy, answer, |before|, |after|);
    Seqs.Reassoc(before, first, RemoveRequests(cm, keys[i + 1..], isPolicy, answer, |after|));
  }

  /** `syncRemove`: every key of the ConfigMap in `order`, the order in which
      the Go map yields them. */
  method SyncRemove(w: Recorder, cm: ConfigMap, isPolicy: bool, order: seq<string>)
    requires multiset(order) == multiset(cm.data.Keys)
    requires isPolicy || Recovers(w.answer)
    modifies w
    ensures w.trace == old(w.trace) + RemoveRequests(cm, order, isPolicy, w.answer, |old(w.trace)|)
  {
    ghost var start := w.trace;
    var i := 0;
    while i < |order|
      invariant 0 <= i <= |order|
      invariant start + RemoveRequests(cm, order, isPolicy, w.answer, |start|) ==
        w.trace + RemoveRequests(cm, order[i..], isPolicy, w.answer, |w.trace|)
    {
      ghost var before := w.trace;
      WithdrawOne(w, cm, order[i], isPolicy);
      RemoveStep(cm, order, i, isPolicy, w.answer, before, w.trace);
      i := i + 1;
    }
    assert order[i..] == [];
  }

  // ---------------------------------------------------------------------------
  // The handlers

  /** `add`: a matching ConfigMap is published as it is classified. */
  method Add(w: Recorder, cfg: MatcherConfig, cm: ConfigMap, parse: Parser)
    modifies w
    ensures Matcher(cfg, cm).matched ==>
      w.trace == old(w.trace) + AddRequests(cm, Matcher(cfg, cm).isPolicy, parse, w.answer, |old(w.trace)|)
    ensures !Matcher(cfg, cm).matched ==> w.trace == old(w.trace)
  {
    var c := Matcher(cfg, cm);
    if c.matched {
      SyncAdd(w, cm, c.isPolicy, parse);
    }
  }

  /** `update`: the action of the update gate. */
  method Update(w: Recorder, cfg: MatcherConfig, fingerprint: Fingerprint, oldCm: ConfigMap, cm: ConfigMap,
                parse: Parser, oldOrder: seq<string>)
    requires multiset(oldOrder) == multiset(oldCm.data.Keys)
    requires Matcher(cfg, oldCm).isPolicy || Recovers(w.answer)
    modifies w
    ensures match UpdateAction(cfg, fingerprint, oldCm, cm)
      case Skip => w.trace == old(w.trace)
      case Publish(c, isPolicy) => w.trace == old(w.trace) + AddRequests(c, isPolicy, parse, w.answer, |old(w.trace)|)
      case Withdraw(c, isPolicy) => w.trace == old(w.trace) + RemoveRequests(c, oldOrder, isPolicy, w.answer, |old(w.trace)|)
  {
    var c := Matcher(cfg, cm);
    if c.matched {
      if cm.resourceVersion != oldCm.resourceVersion {
        var newFp, oldFp := fingerprint(cm.labels, cm.data), fingerprint(oldCm.labels, oldCm.data);
        var rtrVal := Get(cm.annotations, RetriesAnnotationKey);
        if newFp != oldFp || rtrVal != "0" {
          SyncAdd(w, cm, c.isPolicy, parse);
        }
      }
    } else {
      var o := Matcher(cfg, oldCm);
      if o.matched {
        SyncRemove(w, oldCm, o.isPolicy, oldOrder);
      }
    }
  }

  /** `delete`: the ConfigMap, unwrapped from a missed-deletion notice, is
      withdrawn when it matches. */
  method Delete(w: Recorder, cfg: MatcherConfig, obj: Deletion, order: seq<string>)
    requires multiset(order) == multiset(obj.cm.data.Keys)
    requires Matcher(cfg, obj.cm).isPolicy || Recovers(w.answer)
    modifies w
    ensures Matcher(cfg, obj.cm).matched ==>
      w.trace == old(w.trace) + RemoveRequests(obj.cm, order, Matcher(cfg, obj.cm).isPolicy, w.answer, |old(w.trace)|)
    ensures !Matcher(cfg, obj.cm).matched ==> w.trace == old(w.trace)
  {
    var cm := match obj case Deleted(c) => c case DeletedFinalStateUnknown(c) => c;
    var c := Matcher(cfg, cm);
    if c.matched {
      SyncRemove(w, cm, c.isPolicy, order);
    }
  }
}
