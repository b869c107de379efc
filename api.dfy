/**
  The boundary to the remote endpoint: the calls the page issues, the HTTP request
  `callApi` builds from a call, the JSON reply objects the page reads, and the
  three ways a call can end (a reply, a reply carrying `error`, a transport failure).
*/
module Api {

  datatype Option<+T> = None | Some(value: T) {
    function GetOr(default: T): T {
      match this
      case Some(v) => v
      case None => default
    }
  }

  /** A JavaScript object with string values, as its `(key, value)` pairs in
      `Object.keys` order. Records, form payloads and query parameters are all of this shape. */
  type Fields = seq<(string, string)>

  /** The keys of a JavaScript object are pairwise distinct. */
  predicate DistinctKeys(r: Fields) {
    forall i, j :: 0 <= i < j < |r| ==> r[i].0 != r[j].0
  }

  /** Property access `obj[key]`: the value stored under `key`, or `undefined` (None). */
  function Lookup(r: Fields, key: string): Option<string> {
    if r == [] then None
    else if r[0].0 == key then Some(r[0].1)
    else Lookup(r[1..], key)
  }

  /** Lookup finds something exactly when some pair has the key, and what it finds is
      the value of such a pair. */
  lemma {:induction false} LookupSpec(r: Fields, key: string)
    ensures Lookup(r, key).Some? <==> exists i :: 0 <= i < |r| && r[i].0 == key
    ensures Lookup(r, key).Some? ==> (key, Lookup(r, key).value) in r
  {
    if r != [] {
      LookupSpec(r[1..], key);
      if r[0].0 != key && Lookup(r, key).Some? {
        var i :| 0 <= i < |r[1..]| && r[1..][i].0 == key;
        assert r[i + 1].0 == key;
      }
      if r[0].0 != key && exists i :: 0 <= i < |r| && r[i].0 == key {
        var i :| 0 <= i < |r| && r[i].0 == key;
        assert r[1..][i - 1].0 == key;
      }
    }
  }

  /** An object without the key gives `undefined`. */
  lemma {:induction false} LookupAbsent(r: Fields, key: string)
    requires forall i :: 0 <= i < |r| ==> r[i].0 != key
    ensures Lookup(r, key) == None
  {
    LookupSpec(r, key);
  }

  /** In an object with distinct keys, a pair that is present is what lookup returns. */
  lemma {:induction false} LookupFindsPair(r: Fields, key: string, value: string)
    requires DistinctKeys(r) && (key, value) in r
    ensures Lookup(r, key) == Some(value)
  {
    if r[0] != (key, value) {
      assert (key, value) in r[1..];
      assert DistinctKeys(r[1..]);
      assert r[0].0 != key by {
        var j :| 0 <= j < |r| && r[j] == (key, value);
        assert j > 0;
      }
      LookupFindsPair(r[1..], key, value);
    }
  }

  /** In an object with distinct keys, looking up the key at a position gives its value. */
  lemma LookupAt(r: Fields, i: int)
    requires DistinctKeys(r) && 0 <= i < |r|
    ensures Lookup(r, r[i].0) == Some(r[i].1)
  {
    LookupFindsPair(r, r[i].0, r[i].1);
  }

  datatype HttpMethod = Get | Post

  /** `callApi(path, method, data)`; `data` is None when the caller passes no object. */
  datatype ApiCall = ApiCall(path: string, verb: HttpMethod, data: Option<Fields>)

  /** What `callApi` hands to `fetch`: the method, the query string of the URL (as
      parameter pairs in the order they are appended) and the JSON body, if any. */
  datatype HttpRequest = HttpRequest(verb: HttpMethod, query: Fields, body: Option<Fields>)

  /** The request `callApi` builds: `path` is always the first query parameter; a GET
      appends the data fields to the query, a POST sends them as the body. */
  function ToHttp(c: ApiCall): (h: HttpRequest)
    ensures h.verb == c.verb
    ensures |h.query| >= 1 && h.query[0] == ("path", c.path)
    ensures h.body.Some? ==> c.verb == Post && c.data.Some?
    ensures c.verb == Post ==> h.query == [("path", c.path)]
  {
    var query := [("path", c.path)];
    match (c.verb, c.data)
    case (Get, Some(d)) => HttpRequest(Get, query + d, None)
    case (Post, Some(d)) => HttpRequest(Post, query, Some(d))
    case (m, None) => HttpRequest(m, query, None)
  }

  /** The path the endpoint reads back out of a request: its first query parameter. */
  function PathOf(h: HttpRequest): Option<string> {
    if h.query != [] && h.query[0].0 == "path" then Some(h.query[0].1) else None
  }

  /** The data fields the endpoint receives: the query parameters after `path`, then the body. */
  function DataOf(h: HttpRequest): Fields {
    (if h.query == [] then [] else h.query[1..]) + h.body.GetOr([])
  }

  /** Whatever the method, the endpoint gets back the call's path and exactly its data fields
      (a missing data object reads as no fields); GET data rides in the query and POST data in the body. */
  lemma HttpRoundTrip(c: ApiCall)
    ensures PathOf(ToHttp(c)) == Some(c.path)
    ensures DataOf(ToHttp(c)) == c.data.GetOr([])
    ensures c.verb == Get ==> ToHttp(c).body == None && ToHttp(c).query[1..] == c.data.GetOr([])
    ensures c.verb == Post ==> ToHttp(c).body == c.data && ToHttp(c).query[1..] == []
  {
    var h := ToHttp(c);
    match (c.verb, c.data)
    case (Get, Some(d)) =>
      assert h.query[1..] == d;
    case (Post, Some(d)) =>
    case (m, None) =>
  }

  /** The fields of a reply object that the page reads. A string field that is missing
      and one that is empty are both falsy in the page's tests and are both "" here;
      `results` and `names` are None when the reply has no such field. */
  datatype Response = Response(error: string, sheetName: string, results: Option<seq<Fields>>, names: Option<seq<string>>)

  /** How a call ends: the endpoint replied with a (parsed) object, or the fetch, the
      HTTP status, the extraction of the JSON text or its parsing failed, with the
      message of the error thrown. */
  datatype Outcome = Replied(response: Response) | TransportFailed(reason: string)

  /** The three paths every `.then`/`.catch` chain of the page takes. */
  datatype Verdict = Accepted | AppError(message: string) | Unreachable

  /** A reply is an application error when its `error` field is truthy. */
  function Classify(o: Outcome): (v: Verdict)
    ensures v.Unreachable? <==> o.TransportFailed?
    ensures v.AppError? <==> o.Replied? && o.response.error != ""
    ensures v.AppError? ==> v.message == o.response.error
  {
    match o
    case TransportFailed(_) => Unreachable
    case Replied(r) => if r.error != "" then AppError(r.error) else Accepted
  }

  /** The message `callApi` puts on the page when a call fails in transport. */
  function ConnectionFailedMessage(reason: string): (m: string)
    ensures m != ""
  {
    "Connection failed: " + reason + ". Check console."
  }

  /** The calls issued by an operation that may short-circuit: none, or the one it built. */
  function Issued(c: Option<ApiCall>): (s: seq<ApiCall>)
    ensures |s| <= 1 && (s == [] <==> c.None?)
  {
    match c
    case None => []
    case Some(call) => [call]
  }
}
