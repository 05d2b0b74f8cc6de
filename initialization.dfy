/** The initializer controller step (pkg/initialization/initialization.go):
    a new object whose first pending initializer is this controller's gets a
    strategic-merge patch built from OPA's answer, with the pending list
    popped. */
module Initialization {
  import opened Wrappers
  import opened Json
  import Opa

  /** `metav1.Initializers`: the names of the pending initializers, in order,
      and the optional result status (kept as an opaque document). */
  datatype Initializers = Initializers(pending: seq<string>, result: Option<Json>)

  /** `getUpdatedInitializers`: nothing to do (`ok` false) unless the object
      has initializers and the first pending one is `name`; then the list
      without its head, or nil when that was the only one. */
  function UpdatedInitializers(inits: Option<Initializers>, name: string): (r: (Option<Initializers>, bool))
    ensures r.1 <==> inits.Some? && |inits.value.pending| > 0 && inits.value.pending[0] == name
    ensures !r.1 ==> r.0.None?
    ensures r.1 ==> (r.0.None? <==> |inits.value.pending| == 1)
    ensures r.1 && r.0.Some? ==> r.0.value.result == inits.value.result && |r.0.value.pending| == |inits.value.pending| - 1
  {
    if inits.None? then (None, false)
    else if |inits.value.pending| == 0 then (None, false)
    else if inits.value.pending[0] != name then (None, false)
    else if |inits.value.pending| == 1 then (None, true)
    else (Some(inits.value.(pending := inits.value.pending[1..])), true)
  }

  /** Popping loses only the head: putting `name` back in front of what
      remains gives the initializers the object had. */
  lemma PopRestores(inits: Option<Initializers>, name: string)
    requires UpdatedInitializers(inits, name).1
    ensures var rest := UpdatedInitializers(inits, name).0;
      var pending := if rest.Some? then rest.value.pending else [];
      inits.value.pending == [name] + pending
  {
    var p := inits.value.pending;
    assert p == [p[0]] + p[1..];
  }

  /** How `metav1.Initializers` marshals: nil is `null`; otherwise the
      pending entries as objects with a name, and the result when set. */
  function InitializersJson(inits: Option<Initializers>): Json
  {
    match inits
    case None => Null
    case Some(x) =>
      var pending := Arr(seq(|x.pending|, i requires 0 <= i < |x.pending| => Obj(map["name" := Str(x.pending[i])])));
      if x.result.Some? then Obj(map["pending" := pending, "result" := x.result.value])
      else Obj(map["pending" := pending])
  }

  /** `queryOPA`: an undefined result is an empty merge map; other client
      errors are returned; a result is unmarshalled into a map, where `null`
      gives the nil map (`None`), and any other kind of document is an
      error. The client's "no body" answer (a 2xx other than 200) has no
      bytes to unmarshal. */
  function QueryOpa(post: Result<Option<Json>, Opa.ClientError>): (r: Result<Option<map<string, Json>>, string>)
    ensures post == Failure(Opa.Undefined) ==> r == Success(Some(map[]))
    ensures post.Failure? && post.error != Opa.Undefined ==> r == Failure(Opa.ErrorText(post.error))
    ensures post.Success? ==> (r.Success? <==> post.value.Some? && (post.value.value.Obj? || post.value.value.Null?))
    ensures r.Success? && r.value.Some? && post.Success? ==> post.value == Some(Obj(r.value.value))
  {
    match post
    case Failure(Undefined) => Success(Some(map[]))
    case Failure(e) => Failure(Opa.ErrorText(e))
    case Success(None) => Failure("unexpected end of JSON input")
    case Success(Some(j)) =>
      match j
      case Obj(fields) => Success(Some(fields))
      case Null => Success(None)
      case _ => Failure("json: cannot unmarshal " + KindName(j) + " into Go value of type map[string]interface {}")
  }

  /** The name `encoding/json` gives the kind of a JSON value. */
  function KindName(j: Json): string
  {
    match j
    case Null => "null"
    case Bool(_) => "bool"
    case Num(_) => "number"
    case Str(_) => "string"
    case Arr(_) => "array"
    case Obj(_) => "object"
  }

  /** The patch: OPA's merge map with `metadata.initializers` set to the
      updated list; `metadata` is replaced by a fresh object when it is
      missing or not an object. */
  function Merged(merge: map<string, Json>, initializers: Json): (r: map<string, Json>)
  {
    var metadata := if "metadata" in merge && merge["metadata"].Obj? then merge["metadata"].fields else map[];
    merge["metadata" := Obj(metadata["initializers" := initializers])]
  }

  /** Only `metadata.initializers` is set: every other top-level member is
      kept, and so is every other member of an object-valued `metadata`. */
  lemma MergedKeeps(merge: map<string, Json>, initializers: Json)
    ensures var r := Merged(merge, initializers);
      r.Keys == merge.Keys + {"metadata"} &&
      (forall k :: k in merge && k != "metadata" ==> r[k] == merge[k]) &&
      r["metadata"].Obj? && "initializers" in r["metadata"].fields &&
      r["metadata"].fields["initializers"] == initializers &&
      ("metadata" in merge && merge["metadata"].Obj? ==>
        forall k :: k in merge["metadata"].fields && k != "initializers" ==>
          k in r["metadata"].fields && r["metadata"].fields[k] == merge["metadata"].fields[k])
  {
  }

  /** What `initializeResource` does with one new object. */
  datatype Outcome =
    | Untouched                                    // not this controller's turn: no query, no patch
    | QueryFailed(reason: string)                  // OPA could not be queried
    | Panic(what: string)                          // OPA answered `null`: the nil map is written to
    | Patched(body: Json, answer: Option<string>)  // the patch sent and what the API answered

  const NilMapPanic: string := "assignment to entry in nil map"

  /** The outcome of `initializeResource` given the object's initializers,
      the answer to the OPA query and the answer to the patch. */
  function Initialize(inits: Option<Initializers>, name: string,
                      post: Result<Option<Json>, Opa.ClientError>, patchErr: Option<string>): Outcome
  {
    var (updated, ok) := UpdatedInitializers(inits, name);
    if !ok then Untouched
    else match QueryOpa(post)
      case Failure(e) => QueryFailed(e)
      case Success(None) => Panic(NilMapPanic)
      case Success(Some(merge)) => Patched(Obj(Merged(merge, InitializersJson(updated))), patchErr)
  }

  /** `initializeResource`, updating OPA's merge map in place. */
  method InitializeResource(inits: Option<Initializers>, name: string,
                            post: Result<Option<Json>, Opa.ClientError>, patchErr: Option<string>)
    returns (out: Outcome)
    ensures out == Initialize(inits, name, post, patchErr)
  {
    var (initializers, ok) := UpdatedInitializers(inits, name);
    if !ok {
      return Untouched;
    }
    var queried := QueryOpa(post);
    if queried.Failure? {
      return QueryFailed(queried.error);
    }
    if queried.value.None? {
      return Panic(NilMapPanic);
    }
    var merge := queried.value.value;
    ghost var answered := merge;
    var metadata: map<string, Json>;
    if "metadata" in merge && merge["metadata"].Obj? {
      metadata := merge["metadata"].fields;
    } else {
      metadata := map[];
      merge := merge["metadata" := Obj(metadata)];
    }
    metadata := metadata["initializers" := InitializersJson(initializers)];
    merge := merge["metadata" := Obj(metadata)];
    assert merge == Merged(answered, InitializersJson(initializers));
    out := Patched(Obj(merge), patchErr);
  }

  /** Nothing happens unless this controller is first in line: no query and
      no patch. */
  lemma NotOursUntouched(inits: Option<Initializers>, name: string,
                         post: Result<Option<Json>, Opa.ClientError>, patchErr: Option<string>)
    requires inits.None? || inits.value.pending == [] || inits.value.pending[0] != name
    ensures Initialize(inits, name, post, patchErr) == Untouched
  {
  }

  /** An undefined decision still pops this controller: the patch holds only
      the updated initializers. */
  lemma UndefinedPopsOnly(inits: Option<Initializers>, name: string, patchErr: Option<string>)
    requires UpdatedInitializers(inits, name).1
    ensures Initialize(inits, name, Failure(Opa.Undefined), patchErr) ==
      Patched(Obj(map["metadata" := Obj(map["initializers" := InitializersJson(UpdatedInitializers(inits, name).0)])]), patchErr)
  {
    assert Merged(map[], InitializersJson(UpdatedInitializers(inits, name).0)) ==
      map["metadata" := Obj(map["initializers" := InitializersJson(UpdatedInitializers(inits, name).0)])];
  }

  /** When this controller was the last pending one, the patch sets
      `metadata.initializers` to `null`, which removes it. */
  lemma LastInitializerClears(inits: Option<Initializers>, name: string, merge: map<string, Json>, patchErr: Option<string>)
    requires inits.Some? && inits.value.pending == [name]
    ensures var out := Initialize(inits, name, Success(Some(Obj(merge))), patchErr);
      out.Patched? && out.body.fields["metadata"].fields["initializers"] == Null
  {
    MergedKeeps(merge, Null);
  }
}
