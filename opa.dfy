/** The path algebra of the OPA REST client (pkg/opa/opa.go): base URL
    normalisation, prefix composition, the request paths of the data and
    policy APIs, the one-entry JSON Patch document (RFC 6902, the `remove`
    operation is section 4.2; its `path` is a JSON Pointer, RFC 6901), status
    classification and error text. The HTTP transport itself is not modelled. */
module Opa {
  import opened Wrappers
  import opened Strings
  import opened Json
  import Seqs

  /** The client value: the server's base URL and the data prefix below
      `/data` that every data call is relative to. */
  datatype Client = Client(url: string, prefix: string)

  /** `New`: the base URL without trailing slashes, and no prefix. */
  function New(url: string): (c: Client)
    ensures c.prefix == ""
    ensures c.url != [] ==> c.url[|c.url| - 1] != '/'
    ensures |c.url| <= |url| && c.url == url[..|c.url|]
    ensures forall i :: |c.url| <= i < |url| ==> url[i] == '/'
  {
    Client(TrimRight(url, '/'), "")
  }

  /** Normalising an already normalised URL changes nothing. */
  lemma NewIdempotent(url: string)
    ensures New(New(url).url) == New(url)
  {
    var u := New(url).url;
    if u != [] {
      assert TrimRight(u, '/') == u;
    }
  }

  /** `Prefix`: a copy of the client whose prefix is extended by the trimmed
      argument; the URL is kept and the old prefix heads the new one. */
  function Prefix(c: Client, path: string): (r: Client)
    ensures r.url == c.url
    ensures c.prefix <= r.prefix
    ensures c.prefix == "" ==> r.prefix == Trim(path, '/')
  {
    var p := Trim(path, '/');
    Client(c.url, if c.prefix != "" then c.prefix + "/" + p else p)
  }

  /** Pushing the prefixes `segs` one after another. */
  function PrefixAll(c: Client, segs: seq<string>): Client
    decreases |segs|
  {
    if segs == [] then c else PrefixAll(Prefix(c, segs[0]), segs[1..])
  }

  predicate Segment(s: string)
  {
    s != [] && '/' !in s
  }

  predicate Segments(segs: seq<string>)
  {
    segs != [] && forall i :: 0 <= i < |segs| ==> Segment(segs[i])
  }

  /** The client's prefix is the segments `ps` joined with `/` (none at all
      when `ps` is empty). */
  predicate PrefixIs(c: Client, ps: seq<string>)
  {
    if ps == [] then c.prefix == "" else c.prefix != "" && c.prefix == Join(ps, "/")
  }

  /** Pushing one segment appends it to the segments of the prefix. */
  lemma PrefixStep(c: Client, ps: seq<string>, seg: string)
    requires Segment(seg) && PrefixIs(c, ps)
    ensures PrefixIs(Prefix(c, seg), ps + [seg])
  {
    TrimUnchanged(seg, '/');
    if ps != [] {
      JoinAppend(ps, [seg], "/");
      assert Join([seg], "/") == seg;
    } else {
      assert ps + [seg] == [seg];
    }
  }

  /** Pushing non-empty, slash-free prefixes one at a time onto a prefix made
      of the segments `ps` builds the path that joins all of them with `/`. */
  lemma {:induction false} PrefixAllJoins(c: Client, ps: seq<string>, segs: seq<string>)
    requires segs != [] && forall i :: 0 <= i < |segs| ==> Segment(segs[i])
    requires PrefixIs(c, ps)
    ensures PrefixAll(c, segs).url == c.url
    ensures PrefixIs(PrefixAll(c, segs), ps + segs)
    decreases |segs|
  {
    var rest := segs[1..];
    var c1 := Prefix(c, segs[0]);
    var ps1 := ps + [segs[0]];
    Seqs.Regroup(ps, segs);
    PrefixStep(c, ps, segs[0]);
    assert PrefixAll(c, segs) == PrefixAll(c1, rest);
    if rest != [] {
      PrefixAllJoins(c1, ps1, rest);
    } else {
      assert PrefixAll(c1, rest) == c1;
      assert ps1 + rest == ps1;
    }
  }

  /** From a fresh client, the pushed prefixes joined with `/`. */
  lemma PrefixAllFromNew(url: string, segs: seq<string>)
    requires Segments(segs)
    ensures PrefixAll(New(url), segs).url == New(url).url
    ensures PrefixAll(New(url), segs).prefix == Join(segs, "/")
  {
    PrefixAllJoins(New(url), [], segs);
    assert [] + segs == segs;
    assert PrefixIs(PrefixAll(New(url), segs), segs);
  }

  /** `Prefix("")` on a client that has a prefix leaves a trailing slash. */
  lemma PrefixEmptyLeavesSlash(c: Client)
    requires c.prefix != ""
    ensures Prefix(c, "").prefix == c.prefix + "/"
  {
  }

  /** The piece the data calls put between `/data` and the path: `/` with no
      prefix, `/` followed by the prefix otherwise. */
  function DataPrefix(c: Client): (r: string)
    ensures r != [] && r[0] == '/'
  {
    if c.prefix != "" then "/" + c.prefix else "/"
  }

  /** The request path of `PutData` and `PostData`. */
  function DataPath(c: Client, path: string): (r: string)
    ensures |r| >= 6 && r[..6] == "/data/"
  {
    "/data" + DataPrefix(c) + "/" + Trim(path, '/')
  }

  /** Without a prefix the data path carries a double slash. */
  lemma DataPathNoPrefix(c: Client, path: string)
    requires c.prefix == ""
    ensures DataPath(c, path) == "/data//" + Trim(path, '/')
  {
  }

  /** `PatchData`'s pointer as written: the prefix part runs straight into the
      trimmed path, with no `/` between them. */
  function PatchPointerAsWritten(c: Client, path: string): string
  {
    DataPrefix(c) + Trim(path, '/')
  }

  /** The pointer `PatchData` evidently means: the document `PutData` writes,
      relative to `/data`. */
  function PatchPointer(c: Client, path: string): (r: string)
    ensures r != [] && r[0] == '/'
  {
    var p := Trim(path, '/');
    DataPrefix(c) + (if c.prefix != "" && p != "" then "/" else "") + p
  }

  /** With a prefix and a path the intended pointer is the document
      `PutData` writes. */
  lemma PatchPointerIsData(c: Client, path: string)
    requires c.prefix != "" && Trim(path, '/') != ""
    ensures "/data" + PatchPointer(c, path) == DataPath(c, path)
  {
    var p := Trim(path, '/');
    var d := DataPrefix(c);
    assert PatchPointer(c, path) == d + "/" + p;
    assert DataPath(c, path) == "/data" + d + "/" + p;
    Seqs.Reassoc("/data", d + "/", p);
    Seqs.Reassoc("/data", d, "/");
  }

  /** Without a prefix, or with nothing left of the path, the intended
      pointer is the pointer as written. */
  lemma PatchPointerOtherwise(c: Client, path: string)
    requires c.prefix == "" || Trim(path, '/') == ""
    ensures PatchPointer(c, path) == PatchPointerAsWritten(c, path)
  {
    var p := Trim(path, '/');
    var d := DataPrefix(c);
    assert PatchPointer(c, path) == d + "" + p;
    assert d + "" + p == d + p;
  }

  /** The pointer as written fuses the prefix with the path: under prefix
      `kube` the object `node` is addressed as `/kubenode`, not `/kube/node`. */
  lemma PatchPointerAsWrittenFuses()
    ensures PatchPointerAsWritten(Client("http://opa", "kube"), "node") == "/kubenode"
    ensures PatchPointer(Client("http://opa", "kube"), "node") == "/kube/node"
    ensures DataPath(Client("http://opa", "kube"), "node") == "/data/kube/node"
  {
    PointerShapes(Client("http://opa", "kube"), "node");
    assert "/" + "kube" + "node" == "/kubenode";
    assert "/" + "kube" + "/" + "node" == "/kube/node";
    assert "/data/" + "kube" + "/" + "node" == "/data/kube/node";
  }

  /** The three paths for a prefix and a path with no `/` at either end. */
  lemma PointerShapes(c: Client, q: string)
    requires c.prefix != "" && q != "" && q[0] != '/' && q[|q| - 1] != '/'
    ensures PatchPointerAsWritten(c, q) == "/" + c.prefix + q
    ensures PatchPointer(c, q) == "/" + c.prefix + "/" + q
    ensures DataPath(c, q) == "/data/" + c.prefix + "/" + q
  {
    TrimUnchanged(q, '/');
    assert DataPrefix(c) == "/" + c.prefix;
  }

  /** Whenever both a prefix and a path are present the pointer as written
      names a different document from the one `PutData` wrote. */
  lemma PatchPointerAsWrittenDiffers(c: Client, path: string)
    requires c.prefix != "" && Trim(path, '/') != ""
    ensures "/data" + PatchPointerAsWritten(c, path) != DataPath(c, path)
  {
    assert |"/data" + PatchPointerAsWritten(c, path)| + 1 == |DataPath(c, path)|;
  }

  /** No token holds a `/`; the empty token of a rooted path is allowed. */
  predicate Tokens(ts: seq<string>)
  {
    forall i :: 0 <= i < |ts| ==> '/' !in ts[i]
  }

  lemma TokensAppend(xs: seq<string>, ys: seq<string>)
    requires Tokens(xs) && Tokens(ys)
    ensures Tokens(xs + ys)
  {
    assert forall i :: |xs| <= i < |xs + ys| ==> (xs + ys)[i] == ys[i - |xs|];
  }

  lemma SegmentsAppend(ps: seq<string>, qs: seq<string>)
    requires Segments(ps) && Segments(qs)
    ensures Segments(ps + qs)
  {
    assert forall i :: |ps| <= i < |ps + qs| ==> (ps + qs)[i] == qs[i - |ps|];
  }

  lemma JoinCons(x: string, xs: seq<string>)
    requires xs != []
    ensures Join([x] + xs, "/") == x + "/" + Join(xs, "/")
  {
    assert ([x] + xs)[1..] == xs;
  }

  /** The corrected pointer is its tokens joined with `/`: an empty first
      token, the prefix segments, then the path segments. */
  lemma PatchPointerJoins(c: Client, ps: seq<string>, qs: seq<string>)
    requires Segments(ps) && Segments(qs) && PrefixIs(c, ps)
    ensures PatchPointer(c, Join(qs, "/")) == "/" + Join(ps + qs, "/")
    ensures PatchPointer(c, Join(qs, "/")) == Join([""] + (ps + qs), "/")
  {
    JoinEnds(qs, '/');
    var p := Join(ps, "/");
    var q := Join(qs, "/");
    assert PatchPointer(c, q) == "/" + p + "/" + q;
    JoinAppend(ps, qs, "/");
    assert "/" + p + "/" + q == "/" + (p + "/" + q) by {
      Seqs.Reassoc("/" + p, "/", q);
      Seqs.Reassoc("/", p, "/");
      Seqs.Reassoc("/", p + "/", q);
    }
    JoinCons("", ps + qs);
  }

  /** The data path is its tokens joined with `/`: an empty first token,
      `data`, the prefix segments, then the path segments. */
  lemma DataPathJoins(c: Client, ps: seq<string>, qs: seq<string>)
    requires Segments(ps) && Segments(qs) && PrefixIs(c, ps)
    ensures DataPath(c, Join(qs, "/")) == Join([""] + (["data"] + (ps + qs)), "/")
  {
    var q := Join(qs, "/");
    var j := Join(ps + qs, "/");
    JoinEnds(qs, '/');
    DataPathExtendsPointer(c, ps, q);
    PatchPointerJoins(c, ps, qs);
    assert DataPath(c, q) == "/data" + ("/" + j);
    DataTokensJoin(ps + qs);
  }

  lemma DataTokensJoin(xs: seq<string>)
    requires xs != []
    ensures Join([""] + (["data"] + xs), "/") == "/data" + ("/" + Join(xs, "/"))
  {
    JoinCons("data", xs);
    JoinCons("", ["data"] + xs);
    var j := Join(xs, "/");
    assert "/data" + ("/" + j) == "" + "/" + ("data" + "/" + j);
  }

  lemma DataPathExtendsPointer(c: Client, ps: seq<string>, q: string)
    requires Segments(ps) && PrefixIs(c, ps) && q != [] && Trim(q, '/') == q
    ensures DataPath(c, q) == "/data" + PatchPointer(c, q)
  {
    PatchPointerIsData(c, q);
  }

  /** No token of the data path holds a `/`, so splitting it gives them
      back (SplitJoin). */
  lemma DataPathTokens(ps: seq<string>, qs: seq<string>)
    requires Segments(ps) && Segments(qs)
    ensures Tokens([""] + (["data"] + (ps + qs)))
  {
    SegmentsAppend(ps, qs);
    TokensAppend(ps, qs);
    TokensAppend(["data"], ps + qs);
    TokensAppend([""], ["data"] + (ps + qs));
  }

  /** Hence the corrected pointer's reference tokens are the prefix segments
      followed by the path segments. */
  lemma PatchPointerSegments(c: Client, ps: seq<string>, qs: seq<string>)
    requires Segments(ps) && Segments(qs) && PrefixIs(c, ps)
    ensures Split(PatchPointer(c, Join(qs, "/")), '/') == [""] + ps + qs
  {
    var ts := [""] + (ps + qs);
    PatchPointerJoins(c, ps, qs);
    TokensAppend(ps, qs);
    TokensAppend([""], ps + qs);
    SplitJoin(ts, '/');
    Seqs.Reassoc([""], ps, qs);
  }

  /** One JSON Patch operation. */
  datatype PatchOp = PatchOp(path: string, op: string, value: Json)

  /** The body `PatchData` sends to `/data`: exactly one operation. */
  function PatchDocument(c: Client, path: string, op: string, value: Json): (r: seq<PatchOp>)
    ensures |r| == 1 && r[0].op == op && r[0].value == value
    ensures c.prefix != "" && Trim(path, '/') != "" ==> "/data" + r[0].path == DataPath(c, path)
  {
    [PatchOp(PatchPointer(c, path), op, value)]
  }

  /** An HTTP request as the client sends it. */
  datatype HttpCall = HttpCall(verb: string, url: string)

  function Do(c: Client, verb: string, path: string): (r: HttpCall)
    ensures |c.url| <= |r.url| && r.url[..|c.url|] == c.url
  {
    HttpCall(verb, c.url + path)
  }

  function PutDataCall(c: Client, path: string): HttpCall
  {
    Do(c, "PUT", DataPath(c, path))
  }

  function PostDataCall(c: Client, path: string): HttpCall
  {
    Do(c, "POST", DataPath(c, path))
  }

  /** A patch always goes to `/data`; the document is named in its body. */
  function PatchDataCall(c: Client): HttpCall
  {
    Do(c, "PUT", "/data")
  }

  /** The request path of `InsertPolicy` and `DeletePolicy`. */
  function PolicyPath(id: string): (r: string)
    ensures |r| >= 10 && r[..10] == "/policies/"
  {
    "/policies/" + Trim(id, '/')
  }

  function InsertPolicyCall(c: Client, id: string): HttpCall
  {
    Do(c, "PUT", PolicyPath(id))
  }

  function DeletePolicyCall(c: Client, id: string): HttpCall
  {
    Do(c, "DELETE", PolicyPath(id))
  }

  /** A policy id made of slash-free segments (such as `ns/name/key`) is
      addressed by the tokens `""`, `policies` and those segments joined with
      `/`; no token holds a `/`, so splitting gives them back (SplitJoin). */
  lemma PolicyPathJoins(segs: seq<string>)
    requires Segments(segs)
    ensures PolicyPath(Join(segs, "/")) == Join([""] + (["policies"] + segs), "/")
    ensures Tokens([""] + (["policies"] + segs))
  {
    TokensAppend(["policies"], segs);
    TokensAppend([""], ["policies"] + segs);
    JoinEnds(segs, '/');
    var id := Join(segs, "/");
    JoinCons("policies", segs);
    JoinCons("", ["policies"] + segs);
    assert PolicyPath(id) == "" + "/" + ("policies" + "/" + id);
  }

  /** The error document OPA returns. */
  datatype OpaError = OpaError(code: string, message: string)

  /** The errors the client returns. */
  datatype ClientError =
    | Remote(e: OpaError)
    | DecodeFailure(reason: string)
    | Undefined

  /** `Error()` of each client error. */
  function ErrorText(e: ClientError): string
  {
    match e
    case Remote(oe) => "code " + oe.code + ": " + oe.message
    case DecodeFailure(reason) => reason
    case Undefined => "undefined"
  }

  /** Reads the code back out of an OPA error's text. */
  function ErrorCode(text: string): Option<string>
  {
    if |text| >= 5 && text[..5] == "code " then
      match IndexOf(text[5..], ':')
      case None => None
      case Some(i) => Some(text[5..][..i])
    else None
  }

  /** The text of an OPA error names its code, as long as the code holds no
      colon. */
  lemma ErrorCodeOfText(oe: OpaError)
    requires ':' !in oe.code
    ensures ErrorCode(ErrorText(Remote(oe))) == Some(oe.code)
  {
    var t := ErrorText(Remote(oe));
    assert t[5..] == oe.code + ": " + oe.message;
    assert t[5..][|oe.code|] == ':';
    assert t[5..][..|oe.code|] == oe.code;
  }

  /** `handleErrors`: a 2xx status is success; any other status yields the
      error document decoded from the body, or the decoding failure. */
  function HandleErrors(status: int, body: Result<OpaError, string>): (r: Option<ClientError>)
    ensures r.None? <==> 200 <= status < 300
    ensures r.Some? ==> r.value != Undefined
    ensures r.Some? && body.Success? ==> r.value == Remote(body.value)
  {
    if 200 <= status < 300 then None
    else match body
      case Success(oe) => Some(Remote(oe))
      case Failure(reason) => Some(DecodeFailure(reason))
  }

  /** A response to a query: its status and what its body decodes to, read as
      an OPA error document and read as a query result whose `result` member
      may be absent. */
  datatype Response = Response(status: int, asError: Result<OpaError, string>, asResult: Result<Option<Json>, string>)

  /** `PostData`'s outcome. `Success(None)` is the `nil, nil` the client
      returns for a 2xx status other than 200. */
  function PostData(resp: Response): (r: Result<Option<Json>, ClientError>)
    ensures r.Success? && r.value.Some? <==> resp.status == 200 && resp.asResult.Success? && resp.asResult.value.Some?
    ensures r.Success? && r.value.Some? ==> r.value == resp.asResult.value
    ensures r == Failure(Undefined) <==> resp.status == 200 && resp.asResult == Success(None)
    ensures !(200 <= resp.status < 300) ==> r.Failure?
  {
    if resp.status != 200 then
      match HandleErrors(resp.status, resp.asError)
      case None => Success(None)
      case Some(e) => Failure(e)
    else match resp.asResult
      case Failure(reason) => Failure(DecodeFailure(reason))
      case Success(None) => Failure(Undefined)
      case Success(Some(j)) => Success(Some(j))
  }

  /** A 2xx status other than 200 gives neither a result nor an error. */
  lemma PostDataOther2xx(resp: Response)
    requires 200 < resp.status < 300
    ensures PostData(resp) == Success(None)
  {
  }
}
