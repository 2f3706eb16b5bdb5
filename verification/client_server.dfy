/** Where the client and the server meet: the JSON a record becomes on the
    way to the server and on the way back, and how the client's list tracks
    the store across the handlers of both sides. */
module ClientServer {
  import opened Wrappers
  import opened DeviceSchema
  import DeviceRoutes
  import DevicesLog
  import Seqs

  /** `JSON.stringify` of a client record: `undefined` fields are omitted. */
  function Serialize(d: DevicesLog.Device): (b: DeviceRoutes.Body)
    ensures b.Keys <= DeviceRoutes.BodyFields + {"_id"}
    ensures DeviceRoutes.Field(b, "user") == Some(d.user)
    ensures DeviceRoutes.Field(b, "type") == Some(d.deviceType)
    ensures DeviceRoutes.Field(b, "date") == Some(d.date)
    ensures DeviceRoutes.Field(b, "startTime") == d.startTime
    ensures DeviceRoutes.Field(b, "endTime") == d.endTime
    ensures DeviceRoutes.Field(b, "_id") == d.id
  {
    var body := map["user" := d.user, "type" := d.deviceType, "date" := d.date];
    var body := if d.startTime.Some? then body["startTime" := d.startTime.value] else body;
    var body := if d.endTime.Some? then body["endTime" := d.endTime.value] else body;
    if d.id.Some? then body["_id" := d.id.value] else body
  }

  /** A stored document as the client reads it from `res.json(...)`. A
      document saved through the schema always has its mandatory fields, so
      the `""` a missing one reads as here never arises for a stored one. The version key `__v`
      that Mongoose adds has no place in the client record. */
  function Deserialize(doc: Doc): (r: DevicesLog.Device)
    ensures r.id == Some(doc.id)
    ensures doc.user.Some? ==> r.user == doc.user.value
    ensures doc.deviceType.Some? ==> r.deviceType == doc.deviceType.value
    ensures doc.date.Some? ==> r.date == doc.date.value
    ensures doc.user.None? ==> r.user == ""
    ensures doc.deviceType.None? ==> r.deviceType == ""
    ensures doc.date.None? ==> r.date == ""
    ensures r.startTime == doc.startTime && r.endTime == doc.endTime
  {
    DevicesLog.Device(Some(doc.id), doc.user.GetOr(""), doc.deviceType.GetOr(""), doc.date.GetOr(""),
                      doc.startTime, doc.endTime)
  }

  /** The client list that shows a store. */
  function View(store: DeviceRoutes.Store): seq<DevicesLog.Device> {
    seq(|store|, i requires 0 <= i < |store| => Deserialize(store[i]))
  }

  /** Any client record survives the trip to the store and back, apart from
      the id the store assigns: whatever `_id` it carried is dropped. */
  lemma SerializeRoundTrip(d: DevicesLog.Device, id: string)
    ensures Deserialize(DeviceRoutes.NewDoc(Serialize(d), id)) == d.(id := Some(id))
  {
  }

  /** The client's mandatory-field check and the schema agree on every form
      the client can send: one passes exactly when the other does. */
  lemma ValidationAgrees(f: DevicesLog.Form, id: string)
    ensures DevicesLog.Complete(f) <==> Valid(DeviceRoutes.NewDoc(Serialize(DevicesLog.Compose(f)), id))
  {
    ValidIff(DeviceRoutes.NewDoc(Serialize(DevicesLog.Compose(f)), id));
  }

  /** A request the client sends is saved as sent: the record that comes
      back is the request with its new id, and it fills the form back in
      exactly as it was. */
  lemma SubmitRoundTrip(s: DevicesLog.State, store: DeviceRoutes.Store, id: string)
    requires DevicesLog.Submission(s).Some?
    requires id !in DeviceRoutes.Ids(store)
    ensures var req := DevicesLog.Submission(s).value;
            var reply := DeviceRoutes.Post(store, Serialize(req), id, true);
            && reply.response.status == 201
            && Deserialize(reply.response.body.doc) == req.(id := Some(id))
            && DevicesLog.FormOf(Deserialize(reply.response.body.doc)) == s.form
  {
  }

  /** Client-side deletion commutes with reading the store. */
  lemma {:induction false} FilterView(store: DeviceRoutes.Store, id: string)
    ensures Seqs.Filter(View(store), DevicesLog.OtherThan(Some(id)))
            == View(Seqs.Filter(store, DeviceRoutes.OtherThan(id)))
  {
    if |store| > 0 {
      var keepClient, keepServer := DevicesLog.OtherThan(Some(id)), DeviceRoutes.OtherThan(id);
      var head, tail := store[0], store[1..];
      assert View(store) == [Deserialize(head)] + View(tail);
      FilterView(tail, id);
      var rest := Seqs.Filter(tail, keepServer);
      assert keepClient(Deserialize(head)) == keepServer(head);
      if keepServer(head) {
        assert Seqs.Filter(store, keepServer) == [head] + rest;
        assert View([head] + rest) == [Deserialize(head)] + View(rest);
      } else {
        assert Seqs.Filter(store, keepServer) == rest;
      }
    }
  }

  /** The initial load of a successful GET shows exactly the store. */
  lemma LoadMirrors(s: DevicesLog.State, store: DeviceRoutes.Store)
    ensures var reply := DeviceRoutes.Get(store, true);
            DevicesLog.FetchDevices(s, DevicesLog.Loaded(View(reply.response.body.docs))).devices == View(store)
  {
  }

  /** A successful add on both sides keeps the client list equal to the view
      of the store. */
  lemma AddKeepsMirror(s: DevicesLog.State, store: DeviceRoutes.Store, id: string)
    requires s.devices == View(store)
    requires DevicesLog.Submission(s).Some?
    requires id !in DeviceRoutes.Ids(store)
    ensures var reply := DeviceRoutes.Post(store, Serialize(DevicesLog.Submission(s).value), id, true);
            DevicesLog.AddDevice(s, DevicesLog.Saved(Deserialize(reply.response.body.doc))).devices
            == View(reply.store)
  {
  }

  /** A delete that succeeds on the server keeps the client list equal to the
      view of the store. */
  lemma DeleteKeepsMirror(s: DevicesLog.State, store: DeviceRoutes.Store, id: string)
    requires s.devices == View(store)
    ensures DevicesLog.DeleteDevice(s, Some(id), DevicesLog.Responded(200)).devices
            == View(DeviceRoutes.Delete(store, id, true).store)
  {
    FilterView(store, id);
  }

  /** A delete that fails on the server still removes the row on the client,
      so the list no longer shows the store. */
  lemma DeleteDivergesOnFailure(s: DevicesLog.State, store: DeviceRoutes.Store, k: nat)
    requires s.devices == View(store)
    requires k < |store|
    ensures var id := store[k].id;
            && DeviceRoutes.Delete(store, id, false).response.status == 500
            && DeviceRoutes.Delete(store, id, false).store == store
            && DevicesLog.DeleteDevice(s, Some(id), DevicesLog.Responded(500)).devices != View(store)
  {
    var id := store[k].id;
    var r := DevicesLog.DeleteDevice(s, Some(id), DevicesLog.Responded(500));
    assert View(store)[k] in View(store);
    assert View(store)[k].id == Some(id);
  }

  /** A booking created without times comes back without them, and its row,
      the first of the table, shows "N/A" in both time cells. */
  lemma CreateWithoutTimes(id: string)
    ensures var body := map["user" := "alice", "type" := "Projector", "date" := "2024-05-01"];
            var reply := DeviceRoutes.Post([], body, id, true);
            && reply.response.status == 201
            && reply.response.body.doc.id == id
            && reply.response.body.doc.startTime.None?
            && reply.response.body.doc.endTime.None?
            && DevicesLog.Render(View(reply.store))
               == DevicesLog.Rows([DevicesLog.Row(1, "alice", "Projector", "2024-05-01", "N/A", "N/A")])
  {
  }
}
