/** What the config server answers for a variable, how the director checks the
    answer's shape, and how a dotted name walks into the fetched value. */
module ConfigFetch {
  import opened Wrappers
  import opened Values
  import opened PlaceholderNames

  /** A response body: text that is not JSON, or a parsed JSON document. */
  datatype Body = Unparsable | Json(doc: Value)

  /** An HTTP response: status code, reason phrase and body. */
  datatype Response = Response(code: nat, message: string, body: Body)

  /** The config server as the director sees it, one GET reply per full name. */
  type Store = map<string, Response>

  /** GET of a full name; a name the server does not hold answers 404. */
  function Reply(store: Store, name: string): (r: Response)
    ensures name in store ==> r == store[name]
    ensures name !in store ==> r.code == 404
  {
    if name in store then store[name] else Response(404, "Not Found", Unparsable)
  }

  /** Why a variable could not be fetched; each names the variable's full name. */
  datatype FetchError =
    | NotFound(name: string)
    | HttpError(name: string, code: nat)
    | InvalidJson(name: string)
    | DataNotArray(name: string)
    | DataEmpty(name: string)
    | NoValueKey(name: string)
    | MissingKey(name: string, parent: string, key: string)

  /** The `data` array of a response document, when it is one. */
  function DataItems(doc: Value): Option<seq<Value>> {
    match Get(doc, "data")
    case Some(Arr(items)) => Some(items)
    case _ => None
  }

  /** The value in a GET response for `name`: `data[0]['value']` of a 200 reply whose
      body has that shape; otherwise the first shape check that fails. */
  function ValueOf(name: string, r: Response): (res: Result<Value, FetchError>)
    ensures r.code == 404 <==> res == Failure(NotFound(name))
    ensures r.code != 200 && r.code != 404 <==> res == Failure(HttpError(name, r.code))
    ensures r.code == 200 && r.body.Unparsable? <==> res == Failure(InvalidJson(name))
    ensures res == Failure(DataNotArray(name)) <==>
      r.code == 200 && r.body.Json? && DataItems(r.body.doc).None?
    ensures res == Failure(DataEmpty(name)) <==>
      r.code == 200 && r.body.Json? && DataItems(r.body.doc) == Some([])
    ensures res == Failure(NoValueKey(name)) <==>
      r.code == 200 && r.body.Json? && DataItems(r.body.doc).Some?
      && |DataItems(r.body.doc).value| > 0 && Get(DataItems(r.body.doc).value[0], "value").None?
    ensures res.Success? <==>
      r.code == 200 && r.body.Json? && DataItems(r.body.doc).Some?
      && |DataItems(r.body.doc).value| > 0 && Get(DataItems(r.body.doc).value[0], "value").Some?
    ensures res.Success? ==> Get(DataItems(r.body.doc).value[0], "value") == Some(res.value)
    ensures res.Failure? ==> !res.error.MissingKey? && res.error.name == name
  {
    if r.code == 404 then Failure(NotFound(name))
    else if r.code != 200 then Failure(HttpError(name, r.code))
    else match r.body
      case Unparsable => Failure(InvalidJson(name))
      case Json(doc) =>
        match DataItems(doc)
        case None => Failure(DataNotArray(name))
        case Some(items) =>
          if items == [] then Failure(DataEmpty(name))
          else match Get(items[0], "value")
            case None => Failure(NoValueKey(name))
            case Some(v) => Success(v)
  }

  /** The keys of a dotted name as they are appended to its full name: `.x.y`. */
  function Dotted(keys: seq<string>): string {
    if keys == [] then "" else "." + keys[0] + Dotted(keys[1..])
  }

  /** Walks the keys of a dotted name into a fetched value; `parent` is the dotted
      path reached so far, named when the next key is missing. */
  function Walk(v: Value, name: string, parent: string, keys: seq<string>): Result<Value, FetchError>
    decreases |keys|
  {
    if keys == [] then Success(v)
    else match Get(v, keys[0])
      case None => Failure(MissingKey(name, parent, keys[0]))
      case Some(w) => Walk(w, name, parent + "." + keys[0], keys[1..])
  }

  /** A walk succeeds exactly when the keys lead somewhere in the value, and then
      yields what is there. */
  lemma {:induction false} WalkFinds(v: Value, name: string, parent: string, keys: seq<string>)
    ensures Walk(v, name, parent, keys).Success? <==> At(v, KeyPath(keys)).Some?
    ensures Walk(v, name, parent, keys).Success? ==>
      Walk(v, name, parent, keys).value == At(v, KeyPath(keys)).value
    decreases |keys|
  {
    if keys != [] {
      assert KeyPath(keys)[1..] == KeyPath(keys[1..]);
      match Get(v, keys[0])
      case None =>
      case Some(w) =>
        WalkFinds(w, name, parent + "." + keys[0], keys[1..]);
    }
  }

  /** Key i of a walk from `parent` is the missing one: the keys before it lead to a
      value that lacks it, and e names that parent path and that key. */
  ghost predicate MissingAt(v: Value, name: string, parent: string, keys: seq<string>, e: FetchError, i: int) {
    0 <= i < |keys| && e == MissingKey(name, parent + Dotted(keys[..i]), keys[i])
    && At(v, KeyPath(keys[..i])).Some?
    && Get(At(v, KeyPath(keys[..i])).value, keys[i]).None?
  }

  /** A failed walk names the deepest parent that exists: the keys before the missing
      one all lead somewhere, and the parent is that dotted path. */
  lemma {:induction false} WalkNamesDeepestParent(v: Value, name: string, parent: string, keys: seq<string>)
    requires Walk(v, name, parent, keys).Failure?
    ensures exists i :: MissingAt(v, name, parent, keys, Walk(v, name, parent, keys).error, i)
    decreases |keys|
  {
    var e := Walk(v, name, parent, keys).error;
    match Get(v, keys[0])
    case None =>
      assert keys[..0] == [];
      assert MissingAt(v, name, parent, keys, e, 0);
    case Some(w) =>
      var rest := keys[1..];
      var parent' := parent + "." + keys[0];
      assert Walk(w, name, parent', rest) == Walk(v, name, parent, keys);
      WalkNamesDeepestParent(w, name, parent', rest);
      var j :| MissingAt(w, name, parent', rest, e, j);
      DeeperParent(v, w, name, parent, keys, e, j);
  }

  /** One key further in: a missing key found below `keys[0]` is missing at index j + 1. */
  lemma DeeperParent(v: Value, w: Value, name: string, parent: string, keys: seq<string>, e: FetchError, j: int)
    requires |keys| > 0 && Get(v, keys[0]) == Some(w)
    requires MissingAt(w, name, parent + "." + keys[0], keys[1..], e, j)
    ensures MissingAt(v, name, parent, keys, e, j + 1)
  {
    var rest := keys[1..];
    var i := j + 1;
    assert keys[..i][1..] == rest[..j];
    assert keys[..i][0] == keys[0];
    assert Dotted(keys[..i]) == "." + keys[0] + Dotted(rest[..j]);
    assert (parent + "." + keys[0]) + Dotted(rest[..j]) == parent + Dotted(keys[..i]);
    assert KeyPath(keys[..i])[1..] == KeyPath(rest[..j]);
    assert At(v, KeyPath(keys[..i])) == At(w, KeyPath(rest[..j]));
  }

  /** The text of a fetch error, as it appears after `- ` in the consolidated message. */
  function FetchMessage(e: FetchError): (r: string)
    ensures var lead := if e.NotFound? then "Failed to find variable '" else "Failed to fetch variable '";
      r == lead + e.name + "' from config server: " + Reason(e)
  {
    if e.NotFound? then "Failed to find variable '" + e.name + "' from config server: HTTP code '404'"
    else "Failed to fetch variable '" + e.name + "' from config server: " + Reason(e)
  }

  /** Why a fetch failed; only a failed request reports a status code. */
  function Reason(e: FetchError): (r: string)
    ensures (e.NotFound? || e.HttpError?) <==> |r| >= 11 && r[..11] == "HTTP code '"
  {
    var r := match e
      case NotFound(_) => "HTTP code '404'"
      case HttpError(_, code) => "HTTP code '" + DecimalString(code) + "'"
      case InvalidJson(_) => "Invalid JSON response"
      case DataNotArray(_) => "Expected data to be an array"
      case DataEmpty(_) => "Expected data to be non empty array"
      case NoValueKey(_) => "Expected data[0] to have key 'value'"
      case MissingKey(_, parent, key) => "Expected parent '" + parent + "' hash to have key '" + key + "'";
    if e.NotFound? || e.HttpError? then
      assert r[..11] == "HTTP code '";
      r
    else
      assert r[0] == 'I' || r[0] == 'E';
      NotStatusCode(r);
      r
  }

  /** The reasons the client's tests expect after "from config server: ", for each
      malformed response and for a missing key of a dotted name. */
  lemma ReasonsOfTheTests(name: string, parent: string, key: string)
    ensures Reason(InvalidJson(name)) == "Invalid JSON response"
    ensures Reason(DataNotArray(name)) == "Expected data to be an array"
    ensures Reason(DataEmpty(name)) == "Expected data to be non empty array"
    ensures Reason(NoValueKey(name)) == "Expected data[0] to have key 'value'"
    ensures Reason(MissingKey(name, parent, key)) == "Expected parent '" + parent + "' hash to have key '" + key + "'"
  {
  }

  /** The reasons the tests expect for a missing variable and a refused request. */
  lemma StatusReasonsOfTheTests(name: string)
    ensures Reason(NotFound(name)) == "HTTP code '404'"
    ensures Reason(HttpError(name, 403)) == "HTTP code '403'"
  {
    assert DecimalString(403) == DecimalString(40) + ['3'];
    assert DecimalString(40) == DecimalString(4) + ['0'];
  }

  /** A text that does not start with 'H' does not start with a status code. */
  lemma NotStatusCode(t: string)
    requires |t| > 0 && t[0] != 'H'
    ensures !(|t| >= 11 && t[..11] == "HTTP code '")
  {
    if |t| >= 11 {
      assert t[..11][0] != 'H';
    }
  }
}
