/** The three booking handlers of server/routes/deviceRoutes.js, as
    transitions of an in-memory store that return the HTTP response.
    Whether the store operation succeeds and which `_id` a new document
    receives are decided outside this code, so they are parameters. */
module DeviceRoutes {
  import opened Wrappers
  import opened DeviceSchema
  import Seqs

  /** The collection's documents in the order `find()` returns them. */
  type Store = seq<Doc>

  /** A parsed JSON request body (string-valued fields only). */
  type Body = map<string, string>

  /** The JSON bodies the handlers send. */
  datatype Json =
    | Created(doc: Doc)
    | Docs(docs: seq<Doc>)
    | Error(error: string)
    | Message(message: string)

  datatype Response = Response(status: int, body: Json)

  /** A handler's response together with the store after the request. */
  datatype Reply = Reply(response: Response, store: Store)

  const SaveError := "Error saving the booking"
  const FetchError := "Error fetching devices"
  const DeleteError := "Error deleting booking"
  const DeleteMessage := "Booking deleted successfully"

  /** The fields the POST handler destructures from the body. */
  const BodyFields: set<string> := {"user", "type", "date", "startTime", "endTime"}

  function Ids(store: Store): set<string> {
    set d | d in store :: d.id
  }

  predicate UniqueIds(store: Store) {
    forall i, j :: 0 <= i < j < |store| ==> store[i].id != store[j].id
  }

  /** What the store holds when every document went through `save()`. */
  predicate WellFormed(store: Store) {
    && (forall i :: 0 <= i < |store| ==> Valid(store[i]))
    && UniqueIds(store)
  }

  function Field(body: Body, key: string): Option<string> {
    if key in body then Some(body[key]) else None
  }

  /** `new Device({ user, type, date, startTime, endTime })` built from the
      destructured request body, with the `_id` the store hands out. */
  function NewDoc(body: Body, id: string): Doc {
    Doc(id, Field(body, "user"), Field(body, "type"), Field(body, "date"),
        Field(body, "startTime"), Field(body, "endTime"))
  }

  /** The test DELETE filters the store by. */
  function OtherThan(id: string): Doc -> bool {
    (d: Doc) => d.id != id
  }

  /** POST `/`: save a new booking. `saved` is whether the store accepted the
      write; validation failure and store failure answer alike. */
  function Post(store: Store, body: Body, freshId: string, saved: bool): (r: Reply)
    requires freshId !in Ids(store)
    ensures r.response.status == 201 || r.response.status == 400
    ensures r.response.status == 201 <==> saved && Valid(NewDoc(body, freshId))
    ensures r.response.status == 201 ==>
              && r.response.body.Created?
              && r.response.body.doc == NewDoc(body, freshId)
              && |r.store| == |store| + 1
              && r.store[..|store|] == store
              && r.store[|store|] == r.response.body.doc
              && Ids(r.store) == Ids(store) + {freshId}
    ensures r.response.status == 400 ==>
              r.response.body == Error(SaveError) && r.store == store
  {
    var doc := NewDoc(body, freshId);
    if saved && Valid(doc) then
      var r := Reply(Response(201, Created(doc)), store + [doc]);
      assert r.store[..|store|] == store;
      assert forall d :: d in r.store <==> d in store || d == doc;
      r
    else
      Reply(Response(400, Error(SaveError)), store)
  }

  /** GET `/`: list every booking. `available` is whether `find()` succeeded. */
  function Get(store: Store, available: bool): (r: Reply)
    ensures r.store == store
    ensures r.response.status == 200 <==> available
    ensures available ==> r.response.body == Docs(store)
    ensures !available ==> r.response == Response(500, Error(FetchError))
  {
    if available then Reply(Response(200, Docs(store)), store)
    else Reply(Response(500, Error(FetchError)), store)
  }

  /** DELETE `/:id`: remove the booking with that id, if any. `available` is
      whether `findByIdAndDelete` succeeded. The model removes every document
      carrying the id, while `findByIdAndDelete` removes at most one; the two
      agree on a store with unique ids (`WellFormed`), which the collection's
      `_id` index guarantees, and `DeleteRemovesOne` states that case. */
  function Delete(store: Store, id: string, available: bool): (r: Reply)
    ensures r.response.status == 200 <==> available
    ensures available ==>
              && r.response.body == Message(DeleteMessage)
              && id !in Ids(r.store)
              && (forall d :: d in store && d.id != id ==> d in r.store)
              && (forall d: Doc :: d.id != id ==> multiset(r.store)[d] == multiset(store)[d])
              && Seqs.IsSubseq(r.store, store)
    ensures !available ==> r == Reply(Response(500, Error(DeleteError)), store)
  {
    if available then
      var rest := Seqs.Filter(store, OtherThan(id));
      Seqs.FilterMembers(store, OtherThan(id));
      Seqs.FilterIsSubseq(store, OtherThan(id));
      Seqs.FilterCount(store, OtherThan(id));
      assert forall d :: d in rest ==> OtherThan(id)(d);
      Reply(Response(200, Message(DeleteMessage)), rest)
    else
      Reply(Response(500, Error(DeleteError)), store)
  }

  /** Only the five destructured fields reach the document: any other body
      field (an `_id` included) is dropped. */
  lemma ExtraFieldsDropped(body: Body, key: string, value: string, id: string)
    requires key !in BodyFields
    ensures NewDoc(body[key := value], id) == NewDoc(body, id)
  {
  }

  /** A successful POST keeps every document valid and every id unique. */
  lemma PostPreservesWellFormed(store: Store, body: Body, freshId: string, saved: bool)
    requires WellFormed(store)
    requires freshId !in Ids(store)
    ensures WellFormed(Post(store, body, freshId, saved).store)
  {
  }

  /** DELETE keeps every document valid and every id unique. */
  lemma DeletePreservesWellFormed(store: Store, id: string, available: bool)
    requires WellFormed(store)
    ensures WellFormed(Delete(store, id, available).store)
  {
    if available {
      DeleteWithin(store, id);
    }
  }

  /** Filtering a well-formed store by id keeps it well-formed. */
  lemma {:induction false} DeleteWithin(store: Store, id: string)
    requires WellFormed(store)
    ensures WellFormed(Seqs.Filter(store, OtherThan(id)))
  {
    if |store| > 0 {
      var tail := store[1..];
      assert WellFormed(tail);
      DeleteWithin(tail, id);
      var rest := Seqs.Filter(tail, OtherThan(id));
      Seqs.FilterMembers(tail, OtherThan(id));
      if OtherThan(id)(store[0]) {
        var r := [store[0]] + rest;
        forall i, j | 0 <= i < j < |r| ensures r[i].id != r[j].id {
          if i == 0 {
            assert r[j] in tail;
          } else {
            assert r[i] == rest[i - 1] && r[j] == rest[j - 1];
          }
        }
      }
    }
  }

  /** DELETE of an id that is not stored answers 200 and changes nothing. */
  lemma DeleteAbsent(store: Store, id: string)
    requires id !in Ids(store)
    ensures Delete(store, id, true) == Reply(Response(200, Message(DeleteMessage)), store)
  {
    forall i | 0 <= i < |store| ensures OtherThan(id)(store[i]) {
      assert store[i] in store;
    }
    Seqs.FilterKeepsAll(store, OtherThan(id));
  }

  /** Repeating a DELETE gives the same response and the same store. */
  lemma DeleteIdempotent(store: Store, id: string, available: bool)
    ensures var once := Delete(store, id, available);
            Delete(once.store, id, available) == once
  {
    if available {
      Seqs.FilterIdempotent(store, OtherThan(id));
    }
  }

  /** With unique ids, a DELETE of a stored id removes that one document and
      leaves the others exactly where they were. */
  lemma DeleteRemovesOne(store: Store, k: nat)
    requires UniqueIds(store)
    requires k < |store|
    ensures Delete(store, store[k].id, true).store == store[..k] + store[k + 1..]
  {
    Seqs.FilterDropsOne(store, OtherThan(store[k].id), k);
  }

  /** A DELETE of the id a POST just assigned undoes the POST. */
  lemma PostThenDelete(store: Store, body: Body, freshId: string)
    requires freshId !in Ids(store)
    requires Post(store, body, freshId, true).response.status == 201
    ensures Delete(Post(store, body, freshId, true).store, freshId, true).store == store
  {
    var doc := NewDoc(body, freshId);
    forall i | 0 <= i < |store| ensures OtherThan(freshId)(store[i]) {
      assert store[i] in store;
    }
    Seqs.FilterKeepsAll(store, OtherThan(freshId));
    assert Seqs.Filter([doc], OtherThan(freshId)) == [];
    Seqs.FilterConcat(store, [doc], OtherThan(freshId));
  }

  /** After a successful POST, GET lists the old documents followed by exactly
      one document carrying the new id and the posted fields. */
  lemma PostThenGet(store: Store, body: Body, freshId: string)
    requires freshId !in Ids(store)
    requires Post(store, body, freshId, true).response.status == 201
    ensures var list := Get(Post(store, body, freshId, true).store, true).response.body.docs;
            && list[..|store|] == store
            && (forall i :: 0 <= i < |list| ==> (list[i].id == freshId <==> i == |store|))
            && list[|store|] == NewDoc(body, freshId)
  {
  }

  /** Two bookings created on an empty store, then the first deleted by its
      id: the list holds only the second. */
  lemma CreateTwoDeleteFirst(a: Body, b: Body, idA: string, idB: string)
    requires idA != idB
    requires Valid(NewDoc(a, idA)) && Valid(NewDoc(b, idB))
    ensures var s1 := Post([], a, idA, true).store;
            var s2 := Post(s1, b, idB, true).store;
            var s3 := Delete(s2, idA, true).store;
            Get(s3, true).response == Response(200, Docs([NewDoc(b, idB)]))
  {
  }
}
