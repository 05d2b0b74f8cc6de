/** The outbound side of every synchroniser, recorded as a trace. The OPA
    client interfaces (pkg/opa/opa.go:34-52) and the annotation patches the
    ConfigMap synchronisers send to the Kubernetes API become requests appended
    to `trace`; whether a call fails is decided by `answer`, an oracle indexed
    by the call's position in the trace. Nothing is sent anywhere: the model
    states which calls are made, in which order, and how the callers react to
    the answers. */
module Writer {
  import opened Wrappers
  import opened Json

  /** An error value as the Go code sees it: the text its Error() method
      returns and, when encoding/json can marshal it, its JSON encoding. */
  datatype ErrValue = ErrValue(text: string, json: Option<string>)

  datatype Request =
    | PutData(path: string, value: Json)
    | PatchData(path: string, op: string)
    | InsertPolicy(id: string, source: string)
    | DeletePolicy(id: string)
    | Annotate(namespace: string, name: string, annotations: map<string, string>)

  /** The store accepts some write at or after position `n`. */
  ghost predicate SucceedsAfter(answer: nat -> Option<ErrValue>, n: nat)
  {
    exists k: nat :: k >= n && answer(k).None?
  }

  /** The store accepts writes again and again: however many calls have been
      made, a later one succeeds. */
  ghost predicate Recovers(answer: nat -> Option<ErrValue>)
  {
    forall n: nat :: SucceedsAfter(answer, n)
  }

  class Recorder {
    var trace: seq<Request>
    const answer: nat -> Option<ErrValue>

    constructor (answer: nat -> Option<ErrValue>)
      ensures trace == [] && this.answer == answer
    {
      this.trace := [];
      this.answer := answer;
    }

    method Put(path: string, value: Json) returns (err: Option<ErrValue>)
      modifies this
      ensures trace == old(trace) + [PutData(path, value)]
      ensures err == answer(|old(trace)|)
    {
      err := answer(|trace|);
      trace := trace + [PutData(path, value)];
    }

    method Patch(path: string, op: string) returns (err: Option<ErrValue>)
      modifies this
      ensures trace == old(trace) + [PatchData(path, op)]
      ensures err == answer(|old(trace)|)
    {
      err := answer(|trace|);
      trace := trace + [PatchData(path, op)];
    }

    method Insert(id: string, source: string) returns (err: Option<ErrValue>)
      modifies this
      ensures trace == old(trace) + [InsertPolicy(id, source)]
      ensures err == answer(|old(trace)|)
    {
      err := answer(|trace|);
      trace := trace + [InsertPolicy(id, source)];
    }

    method Delete(id: string) returns (err: Option<ErrValue>)
      modifies this
      ensures trace == old(trace) + [DeletePolicy(id)]
      ensures err == answer(|old(trace)|)
    {
      err := answer(|trace|);
      trace := trace + [DeletePolicy(id)];
    }

    /** A strategic-merge patch of annotations; its failure is only logged, so
        no answer is returned. */
    method PatchAnnotations(namespace: string, name: string, annotations: map<string, string>)
      modifies this
      ensures trace == old(trace) + [Annotate(namespace, name, annotations)]
    {
      trace := trace + [Annotate(namespace, name, annotations)];
    }
  }
}
