// The object store (an S3 bucket) as the pipeline's stages see it: a map from
// key to stored document and last-modified time, a listing by prefix that the
// store's paginator returns, and the three operations the stages perform on it
// (put, server-side copy, delete). The network client is replaced by this
// state; refusals by the store are a fixed set of accesses it will not grant.

module ObjectStore {
  import opened Values
  import opened Text

  /** One response body of the measurement API: its `results` member, if any. */
  datatype Page = Page(results: Option<seq<Record>>)

  /** The content of a stored object, as the stages that read it parse it. */
  datatype Doc =
    | Pages(pages: seq<Page>)                          // raw API page list (JSON)
    | IdList(ids: seq<Json>)                           // sensor- or location-id list (JSON)
    | LocationMaps(maps: seq<map<int, Option<int>>>)   // sensor -> location maps (JSON)
    | Parquet(table: Table)                            // processed table (Parquet bytes)

  datatype StoredObject = StoredObject(doc: Doc, lastModified: int)

  /** The kinds of access a request needs on a key. */
  datatype Access = Read | Write | Remove

  /** The bucket the stages address: its name (empty when `S3_BUCKET` is unset, in
      which case the client rejects every request before sending it), its objects,
      the time the next write is stamped with, and the accesses the store refuses
      (permissions, faults). */
  datatype Bucket = Bucket(
    name: string,
    objects: map<string, StoredObject>,
    clock: int,
    denied: set<(Access, string)>)

  /** Why the store rejects access `a` to `key`, if it does. */
  function Refusal(b: Bucket, a: Access, key: string): Option<Error>
  {
    if b.name == "" then Some(ParamValidationError)
    else if (a, key) in b.denied then Some(ClientError)
    else None
  }

  /** The outcome of one store request: the bucket afterwards and what the client saw. */
  datatype Effect = Effect(state: Bucket, out: Outcome<Error>)

  /** `put_object`: writes (or overwrites) the key, stamped with the current time. */
  function PutObject(b: Bucket, key: string, doc: Doc): (e: Effect)
    ensures e.out.Pass? <==> Refusal(b, Write, key).None?
    ensures e.out.Pass? ==> key in e.state.objects && e.state.objects[key].doc == doc
    ensures e.out.Fail? ==> e.state == b && e.out.error == Refusal(b, Write, key).value
    ensures forall k :: k != key ==> (k in e.state.objects <==> k in b.objects)
    ensures forall k :: k != key && k in b.objects ==> e.state.objects[k] == b.objects[k]
    ensures e.state.name == b.name && e.state.denied == b.denied && e.state.clock >= b.clock
  {
    if Refusal(b, Write, key).Some? then Effect(b, Fail(Refusal(b, Write, key).value))
    else Effect(b.(objects := b.objects[key := StoredObject(doc, b.clock)], clock := b.clock + 1), Pass)
  }

  /** `copy_object`: the destination receives the source's document with a fresh
      modification time. The store refuses a missing source, a refused key, and a
      copy of an object onto itself. */
  function CopyObject(b: Bucket, src: string, dst: string): (e: Effect)
    ensures e.out.Pass? <==>
      Refusal(b, Read, src).None? && Refusal(b, Write, dst).None? && src in b.objects && src != dst
    ensures e.out.Pass? ==> dst in e.state.objects && e.state.objects[dst].doc == b.objects[src].doc
    ensures e.out.Fail? ==> e.state == b
    ensures forall k :: k != dst ==> (k in e.state.objects <==> k in b.objects)
    ensures forall k :: k != dst && k in b.objects ==> e.state.objects[k] == b.objects[k]
    ensures e.state.name == b.name && e.state.denied == b.denied
  {
    if Refusal(b, Read, src).Some? then Effect(b, Fail(Refusal(b, Read, src).value))
    else if Refusal(b, Write, dst).Some? then Effect(b, Fail(Refusal(b, Write, dst).value))
    else if src !in b.objects || src == dst then Effect(b, Fail(ClientError))
    else Effect(b.(objects := b.objects[dst := StoredObject(b.objects[src].doc, b.clock)], clock := b.clock + 1), Pass)
  }

  /** `delete_object`: removes the key; deleting a missing key succeeds as well. */
  function DeleteObject(b: Bucket, key: string): (e: Effect)
    ensures e.out.Pass? <==> Refusal(b, Remove, key).None?
    ensures e.out.Pass? ==> key !in e.state.objects
    ensures e.out.Fail? ==> e.state == b
    ensures forall k :: k != key ==> (k in e.state.objects <==> k in b.objects)
    ensures forall k :: k != key && k in b.objects ==> e.state.objects[k] == b.objects[k]
    ensures e.state.name == b.name && e.state.denied == b.denied && e.state.clock == b.clock
  {
    if Refusal(b, Remove, key).Some? then Effect(b, Fail(Refusal(b, Remove, key).value))
    else Effect(b.(objects := b.objects - {key}), Pass)
  }

  /** `get_object`: the stored document, or an error for a missing or refused key. */
  function GetObject(b: Bucket, key: string): (r: Result<Doc, Error>)
    ensures r.Ok? <==> Refusal(b, Read, key).None? && key in b.objects
    ensures r.Ok? ==> r.value == b.objects[key].doc
  {
    if Refusal(b, Read, key).Some? then Err(Refusal(b, Read, key).value)
    else if key !in b.objects then Err(ClientError)
    else Ok(b.objects[key].doc)
  }

  /** The bucket, as a mutable collaborator shared by the stages of one run. */
  class Store {
    const name: string
    var objects: map<string, StoredObject>
    var clock: int
    const denied: set<(Access, string)>

    function State(): Bucket
      reads this
    {
      Bucket(name, objects, clock, denied)
    }

    constructor (b: Bucket)
      ensures State() == b
    {
      name, objects, clock, denied := b.name, b.objects, b.clock, b.denied;
    }

    method Put(key: string, doc: Doc) returns (out: Outcome<Error>)
      modifies this
      ensures State() == PutObject(old(State()), key, doc).state
      ensures out == PutObject(old(State()), key, doc).out
    {
      var refusal := Refusal(State(), Write, key);
      if refusal.Some? {
        out := Fail(refusal.value);
      } else {
        objects := objects[key := StoredObject(doc, clock)];
        clock := clock + 1;
        out := Pass;
      }
    }

    method Copy(src: string, dst: string) returns (out: Outcome<Error>)
      modifies this
      ensures State() == CopyObject(old(State()), src, dst).state
      ensures out == CopyObject(old(State()), src, dst).out
    {
      var refusal := if Refusal(State(), Read, src).Some? then Refusal(State(), Read, src) else Refusal(State(), Write, dst);
      if refusal.Some? {
        out := Fail(refusal.value);
      } else if src !in objects || src == dst {
        out := Fail(ClientError);
      } else {
        objects := objects[dst := StoredObject(objects[src].doc, clock)];
        clock := clock + 1;
        out := Pass;
      }
    }

    method Delete(key: string) returns (out: Outcome<Error>)
      modifies this
      ensures State() == DeleteObject(old(State()), key).state
      ensures out == DeleteObject(old(State()), key).out
    {
      var refusal := Refusal(State(), Remove, key);
      if refusal.Some? {
        out := Fail(refusal.value);
      } else {
        objects := objects - {key};
        out := Pass;
      }
    }

    method Get(key: string) returns (r: Result<Doc, Error>)
      ensures r == GetObject(State(), key)
    {
      var refusal := Refusal(State(), Read, key);
      if refusal.Some? {
        r := Err(refusal.value);
      } else if key !in objects {
        r := Err(ClientError);
      } else {
        r := Ok(objects[key].doc);
      }
    }
  }

  /** One entry of a `list_objects_v2` page. */
  datatype ObjectInfo = ObjectInfo(key: string, lastModified: int)

  /** What the paginator yields for one prefix: its pages, or an exception raised
      while listing. */
  datatype Listing = ListFailed(error: Error) | Listed(pages: seq<seq<ObjectInfo>>)

  function Concat<T>(pages: seq<seq<T>>): seq<T>
  {
    if pages == [] then [] else Concat(pages[..|pages| - 1]) + pages[|pages| - 1]
  }

  /** Strict lexicographic order on keys (the order in which S3 lists them). */
  predicate LexLess(a: string, b: string)
  {
    exists i :: 0 <= i <= |a| && i <= |b| && a[..i] == b[..i] &&
      ((i == |a| && i < |b|) || (i < |a| && i < |b| && a[i] < b[i]))
  }

  /** `l` is what listing `prefix` in `b` can return: every stored key that starts
      with `prefix`, once, in ascending order, with its modification time. A
      listing may also fail. */
  predicate ListingOf(b: Bucket, prefix: string, l: Listing)
  {
    (b.name == "" ==> l == ListFailed(ParamValidationError)) &&
    (l.Listed? ==>
      var objs := Concat(l.pages);
      (forall i :: 0 <= i < |objs| ==>
         objs[i].key in b.objects && StartsWith(objs[i].key, prefix) &&
         objs[i].lastModified == b.objects[objs[i].key].lastModified) &&
      (forall k :: k in b.objects && StartsWith(k, prefix) ==> exists i :: 0 <= i < |objs| && objs[i].key == k) &&
      (forall i, j :: 0 <= i < j < |objs| ==> LexLess(objs[i].key, objs[j].key)))
  }
}
