/**
 * The document database and file bucket of the backend, as the server code
 * uses them: collections of documents kept in creation order, with
 * create/get/update/delete by id and a list call driven by queries.
 */
module DocStore {
  import opened Wrappers
  import opened JsValue

  /** A stored document: its id, creation timestamp and attributes. */
  datatype Doc = Doc(id: string, createdAt: string, attrs: map<string, Value>)

  /** The page size the backend applies when a list call carries no limit. */
  const DefaultLimit: nat := 25

  /** The error types the backend reports for id clashes and unknown ids. */
  const AlreadyExists: string := "document_already_exists"
  const NotFound: string := "document_not_found"

  /** The queries the storefront sends. */
  datatype Query =
    | Equal(attr: string, values: seq<Value>)  // the attribute equals one of the values
    | Limit(n: nat)
    | OrderDescCreated                          // newest first by `$createdAt`

  function Ids(c: seq<Doc>): (ids: seq<string>)
    ensures |ids| == |c|
    ensures forall i :: 0 <= i < |c| ==> ids[i] == c[i].id
  {
    if c == [] then [] else [c[0].id] + Ids(c[1..])
  }

  /** No two documents of a collection share an id. */
  predicate UniqueIds(c: seq<Doc>) {
    forall i, j :: 0 <= i < j < |c| ==> c[i].id != c[j].id
  }

  /** An attribute as a query sees it: the system attributes come first. */
  function Attr(d: Doc, a: string): Value {
    if a == "$id" then Str(d.id)
    else if a == "$createdAt" then Str(d.createdAt)
    else if a in d.attrs then d.attrs[a]
    else Undefined
  }

  /** The attributes as the SDK sends them: undefined ones are dropped, the rest go through JSON. */
  function Sent(data: map<string, Value>): (m: map<string, Value>)
    ensures forall k :: k in m <==> k in data && data[k] != Undefined
    ensures forall k :: k in m ==> m[k] == Normalize(data[k])
  {
    map k | k in data && data[k] != Undefined :: Normalize(data[k])
  }

  /** `createDocument`: appended under a fresh id; an existing id is refused. */
  function Create(c: seq<Doc>, id: string, createdAt: string, data: map<string, Value>): (r: Result<seq<Doc>, Thrown>)
    ensures r.Err? <==> id in Ids(c)
    ensures r.Err? ==> r.error == Backend(AlreadyExists)
    ensures r.Ok? ==> r.value == c + [Doc(id, createdAt, Sent(data))]
    ensures r.Ok? && UniqueIds(c) ==> UniqueIds(r.value)
  {
    if id in Ids(c) then Err(Backend(AlreadyExists))
    else Ok(c + [Doc(id, createdAt, Sent(data))])
  }

  /** The position of the document with that id, if any. */
  function IndexOf(c: seq<Doc>, id: string): (r: Option<nat>)
    ensures r.None? <==> id !in Ids(c)
    ensures r.Some? ==> r.value < |c| && c[r.value].id == id
    ensures r.Some? ==> forall i :: 0 <= i < r.value ==> c[i].id != id
  {
    if c == [] then None
    else if c[0].id == id then Some(0)
    else match IndexOf(c[1..], id)
      case None => None
      case Some(i) => Some(i + 1)
  }

  /** `getDocument`. */
  function GetDoc(c: seq<Doc>, id: string): (r: Result<Doc, Thrown>)
    ensures r.Err? <==> id !in Ids(c)
    ensures r.Err? ==> r.error == Backend(NotFound)
    ensures r.Ok? ==> r.value in c && r.value.id == id
  {
    match IndexOf(c, id)
    case None => Err(Backend(NotFound))
    case Some(i) => Ok(c[i])
  }

  /** `updateDocument`: the given attributes overwrite, the others stay. */
  function Update(c: seq<Doc>, id: string, data: map<string, Value>): (r: Result<seq<Doc>, Thrown>)
    ensures r.Err? <==> id !in Ids(c)
    ensures r.Err? ==> r.error == Backend(NotFound)
    ensures r.Ok? ==> |r.value| == |c| && Ids(r.value) == Ids(c)
    ensures r.Ok? ==> forall i :: 0 <= i < |c| && c[i].id != id ==> r.value[i] == c[i]
    ensures r.Ok? ==> forall i :: 0 <= i < |c| && c[i].id == id ==>
      r.value[i].createdAt == c[i].createdAt && r.value[i].attrs == c[i].attrs + Sent(data)
  {
    match IndexOf(c, id)
    case None => Err(Backend(NotFound))
    case Some(_) =>
      var r := seq(|c|, i requires 0 <= i < |c| =>
        if c[i].id == id then c[i].(attrs := c[i].attrs + Sent(data)) else c[i]);
      assert Ids(r) == Ids(c);
      Ok(r)
  }

  /** `deleteDocument`: every document with that id goes; an unknown id is refused. */
  function Delete(c: seq<Doc>, id: string): (r: Result<seq<Doc>, Thrown>)
    ensures r.Err? <==> id !in Ids(c)
    ensures r.Err? ==> r.error == Backend(NotFound)
    ensures r.Ok? ==> forall d :: d in r.value <==> d in c && d.id != id
  {
    if id !in Ids(c) then Err(Backend(NotFound)) else Ok(Without(c, id))
  }

  /** The collection without the documents of that id, in order. */
  function Without(c: seq<Doc>, id: string): (r: seq<Doc>)
    ensures forall d :: d in r <==> d in c && d.id != id
    ensures id !in Ids(r)
    ensures |r| <= |c|
    ensures id in Ids(c) ==> |r| < |c|
  {
    if c == [] then []
    else if c[0].id == id then Without(c[1..], id)
    else [c[0]] + Without(c[1..], id)
  }

  /** Deleting keeps the remaining ids distinct. */
  lemma {:induction false} WithoutUnique(c: seq<Doc>, id: string)
    requires UniqueIds(c)
    ensures UniqueIds(Without(c, id))
  {
    if c != [] {
      var rest := c[1..];
      UniqueTail(c);
      WithoutUnique(rest, id);
      if c[0].id != id {
        var w := Without(rest, id);
        assert Without(c, id) == [c[0]] + w;
        assert forall d :: d in w ==> d in rest;
        UniqueCons(c[0], w);
      }
    }
  }

  /** The tail of a collection with distinct ids has distinct ids, none of them the head's. */
  lemma UniqueTail(c: seq<Doc>)
    requires UniqueIds(c) && c != []
    ensures UniqueIds(c[1..])
    ensures forall d :: d in c[1..] ==> d.id != c[0].id
  {
    var rest := c[1..];
    forall i, j | 0 <= i < j < |rest|
      ensures rest[i].id != rest[j].id
    {
      assert rest[i] == c[i + 1] && rest[j] == c[j + 1];
    }
    forall d | d in rest
      ensures d.id != c[0].id
    {
      var k :| 0 <= k < |rest| && rest[k] == d;
      assert c[k + 1] == d;
    }
  }

  /** A document whose id is new may go in front of a collection with distinct ids. */
  lemma UniqueCons(x: Doc, s: seq<Doc>)
    requires UniqueIds(s)
    requires forall d :: d in s ==> d.id != x.id
    ensures UniqueIds([x] + s)
  {
    var r := [x] + s;
    forall i, j | 0 <= i < j < |r|
      ensures r[i].id != r[j].id
    {
      assert r[j] == s[j - 1];
      if i > 0 {
        assert r[i] == s[i - 1];
      }
    }
  }

  /** The document satisfies every equality query. */
  predicate Matches(d: Doc, queries: seq<Query>) {
    forall i :: 0 <= i < |queries| && queries[i].Equal? ==> Attr(d, queries[i].attr) in queries[i].values
  }

  /** The documents matching the equality queries, in collection order. */
  function Filter(c: seq<Doc>, queries: seq<Query>): (r: seq<Doc>)
    ensures forall d :: d in r <==> d in c && Matches(d, queries)
    ensures |r| <= |c|
  {
    if c == [] then []
    else if Matches(c[0], queries) then [c[0]] + Filter(c[1..], queries)
    else Filter(c[1..], queries)
  }

  function Reverse(c: seq<Doc>): (r: seq<Doc>)
    ensures |r| == |c|
    ensures forall i :: 0 <= i < |c| ==> r[i] == c[|c| - 1 - i]
    ensures forall d :: d in r <==> d in c
  {
    if c == [] then []
    else
      assert c == [c[0]] + c[1..];
      Reverse(c[1..]) + [c[0]]
  }

  /** The page size a query list asks for: the last limit, else the default. */
  function PageSize(queries: seq<Query>): nat {
    if queries == [] then DefaultLimit
    else if queries[|queries| - 1].Limit? then queries[|queries| - 1].n
    else PageSize(queries[..|queries| - 1])
  }

  /**
   * `listDocuments`: the matching documents, newest first when asked (the
   * collection is in creation order), cut to the page size.
   */
  function List(c: seq<Doc>, queries: seq<Query>): (r: seq<Doc>)
    ensures |r| <= PageSize(queries)
    ensures forall d :: d in r ==> d in c && Matches(d, queries)
    ensures |Filter(c, queries)| <= PageSize(queries) ==> forall d :: d in c && Matches(d, queries) ==> d in r
    ensures |r| == if |Filter(c, queries)| <= PageSize(queries) then |Filter(c, queries)| else PageSize(queries)
  {
    var matching := Filter(c, queries);
    var ordered := if OrderDescCreated in queries then Reverse(matching) else matching;
    var n := PageSize(queries);
    if |ordered| <= n then ordered else ordered[..n]
  }

  /**
   * `Promise.all` over document creations: every creation is attempted, the
   * successful ones stay, and the first failure in list order is reported.
   * The i-th document gets the id `newId(next + i)`.
   */
  function CreateAll(c: seq<Doc>, data: seq<map<string, Value>>, newId: nat -> string, next: nat, createdAt: string)
    : (r: (seq<Doc>, Option<Thrown>))
    ensures |c| <= |r.0| <= |c| + |data| && r.0[..|c|] == c
    ensures r.1.None? ==> |r.0| == |c| + |data|
    ensures r.1.Some? ==> r.1.value == Backend(AlreadyExists)
    ensures r.1.None? ==> forall i :: 0 <= i < |data| ==> r.0[|c| + i] == Doc(newId(next + i), createdAt, Sent(data[i]))
    decreases |data|
  {
    if data == [] then (c, None)
    else
      match Create(c, newId(next), createdAt, data[0])
      case Ok(c1) =>
        var r := CreateAll(c1, data[1..], newId, next + 1, createdAt);
        assert r.0[..|c|] == r.0[..|c1|][..|c|];
        r
      case Err(e) =>
        var r := CreateAll(c, data[1..], newId, next + 1, createdAt);
        (r.0, Some(e))
  }

  /** Creations under fresh, distinct ids all succeed. */
  lemma {:induction false} FreshIdsCreateAll(c: seq<Doc>, data: seq<map<string, Value>>, newId: nat -> string, next: nat, createdAt: string)
    requires forall k: nat :: next <= k < next + |data| ==> newId(k) !in Ids(c)
    requires forall k: nat, l: nat :: next <= k < l < next + |data| ==> newId(k) != newId(l)
    ensures CreateAll(c, data, newId, next, createdAt).1.None?
    decreases |data|
  {
    if data != [] {
      var c1 := c + [Doc(newId(next), createdAt, Sent(data[0]))];
      assert Create(c, newId(next), createdAt, data[0]) == Ok(c1);
      assert Ids(c1) == Ids(c) + [newId(next)];
      FreshIdsCreateAll(c1, data[1..], newId, next + 1, createdAt);
    }
  }

  /** The whole server-side state the storefront touches. */
  datatype Db = Db(orders: seq<Doc>, orderItems: seq<Doc>, products: seq<Doc>, files: seq<string>)

  /** The state after a server call together with what the call returned or threw. */
  datatype Outcome<T> = Outcome(db: Db, result: Result<T, Thrown>)
}
