# Device booking log — a Dafny model

A model of a small device-booking log. It has three parts:

- the React component `DevicesLog`. It holds a list of bookings, a five-field form (user, device type, date, start time, end time), an error line and an optional edit index;
- the Mongoose schema of a booking;
- the three Express handlers that create, list and delete bookings.

Every handler is a pure function. The client's network results are parameters:
- add: an ok response with the saved record, a response that is not ok, or a thrown `fetch`;
- delete: resolved with some status, or thrown;
- initial load: a parsed list, or thrown.

On the server, the store is a sequence of documents. Two things are parameters there: whether the store operation succeeds, and the `_id` a new document receives. That id must be fresh. Its uniqueness comes from the store, not from the handler code.

Modules:

- `Wrappers`: `Option`, which models a JavaScript field that may be `undefined`.
- `Seqs`: an order-preserving `Filter`, modelled on `Array.prototype.filter`, and the subsequence relation. Both the client's delete and the server's `findByIdAndDelete` use it.
- `DeviceSchema` (`server/models/Device.js`): a booking document and the schema as a table of paths. `Valid(d)` holds when every required path is satisfied.
- `DeviceRoutes` (`server/routes/deviceRoutes.js`): `Post`, `Get` and `Delete`. Each returns a status code, a JSON body and the new store.
- `DevicesLog` (`client/src/DevicesLog.tsx`): the component's state and its handlers (`AddDevice`, `DeleteDevice`, `EditDevice`, `ClearForm`, `FetchDevices`, the input and select `onChange`s), the button label, the select options and the table rendering.
- `ClientServer`: the JSON that passes between the two sides. It also proves that the client list keeps mirroring the store when operations succeed, and that it stops mirroring it when a delete fails on the server.

Quirks of the code that the model keeps as they are:

- `clearForm` does not reset `editIndex`.
- "Update Device" appends a new record through the same path as "Add Device".
- The "Seminar Hall" option submits the value `"Lab"`.
- The client drops a deleted row whenever the DELETE request resolves, whatever its status.
- The error line survives typing and is cleared only by a successful add.

Two facts about the code that are easy to misread:

- The schema accepts any non-empty `type`. The select offers only Projector, Smart Board and Lab, but edit-then-submit resends whatever type the row carries (`DevicesLog.EditThenSubmit`).
- A failed create always answers 400 with `{error: 'Error saving the booking'}` (`server/routes/deviceRoutes.js:12-14`), whether validation or the store failed.

Modelling decision: the schema's `required` on a String path means the value is present and is not the empty string. That is how Mongoose's String `required` validator behaves; it is a fact about the library, listed under "Left out". It makes the client's mandatory-field check and the server's validation agree exactly on every form the client can send (`ClientServer.ValidationAgrees`).

## Model

| member | source | states |
|---|---|---|
| Seqs.FilterMembers | client/src/DevicesLog.tsx:67 | an element survives `filter` exactly when it occurs in the input and passes the test |
| Seqs.FilterCount | client/src/DevicesLog.tsx:67 | `filter` keeps every passing element as many times as it occurs, and no failing element |
| Seqs.FilterIsSubseq | client/src/DevicesLog.tsx:67 | `filter` only deletes elements: the survivors keep their relative order |
| DeviceSchema.ValidIff | server/models/Device.js:3-9 | a document is valid exactly when `user`, `type` and `date` are all present and non-empty; no other path is checked |
| DeviceSchema.ValidIgnoresTimes | server/models/Device.js:7-8 | changing either time, or both, never changes validity: times are optional, and a start after the end is accepted |
| DeviceSchema.TypeUnrestricted | server/models/Device.js:5 | any non-empty `type` is accepted; validity then depends only on `user` and `date` |
| DeviceRoutes.Post | server/routes/deviceRoutes.js:6-15 | answers 201 exactly when the document is valid and the save succeeds. On 201 the body is the document built from the five body fields with the fresh id, and the store grows by exactly that document at its end. Otherwise it answers 400 with the fixed error and the store is unchanged |
| DeviceRoutes.Get | server/routes/deviceRoutes.js:18-25 | never changes the store; answers 200 with every stored document when the store is available, otherwise 500 with the fixed error |
| DeviceRoutes.Delete | server/routes/deviceRoutes.js:28-35 | answers 200 exactly when the store is available. On 200 no document with the id remains, every other document is kept as many times as it occurred, and order is preserved. On failure it answers 500 with the fixed error and the store is unchanged |
| DeviceRoutes.ExtraFieldsDropped | server/routes/deviceRoutes.js:7-9 | a body field outside the five destructured ones, `_id` included, never reaches the document |
| DeviceRoutes.PostPreservesWellFormed | server/routes/deviceRoutes.js:9-11 | if every stored document is valid and ids are unique before a POST, both still hold after it |
| DeviceRoutes.DeletePreservesWellFormed | server/routes/deviceRoutes.js:30 | a DELETE keeps every stored document valid and every id unique |
| DeviceRoutes.DeleteAbsent | server/routes/deviceRoutes.js:30-31 | deleting an id that is not stored answers 200 with the success message and leaves the store as it was |
| DeviceRoutes.DeleteIdempotent | server/routes/deviceRoutes.js:28-35 | repeating a DELETE gives the same response and the same store |
| DeviceRoutes.DeleteRemovesOne | server/routes/deviceRoutes.js:30 | with unique ids, deleting the id at position k removes that document and no other, and the rest stay in order |
| DeviceRoutes.PostThenDelete | server/routes/deviceRoutes.js:6-35 | deleting the id a successful POST assigned restores the store from before the POST |
| DeviceRoutes.PostThenGet | server/routes/deviceRoutes.js:6-25 | after a successful POST, GET lists the old documents in order, then the new one; exactly one listed document carries the new id |
| DeviceRoutes.CreateTwoDeleteFirst | server/routes/deviceRoutes.js:6-35 | on an empty store: create two bookings, then delete the first by its id; GET then lists only the second |
| DevicesLog.OrElse | client/src/DevicesLog.tsx:179-180 | JavaScript's or-with-fallback on an optional string: a non-empty value is kept, and an absent or empty one gives the fallback |
| DevicesLog.Submission | client/src/DevicesLog.tsx:39-44 | no request is built exactly when user, type or date is empty. Otherwise the request has no id, always carries both times (`''` when empty), and reads back into the same form |
| DevicesLog.ClearForm | client/src/DevicesLog.tsx:83-90 | all five fields and the error become empty; the list and the edit index are unchanged |
| DevicesLog.AddDevice | client/src/DevicesLog.tsx:38-60 | failed validation sets the fixed message and changes nothing else. On an ok response the saved record is appended at the end, earlier entries keep their order, the form and error are cleared and the edit index is kept. A not-ok or thrown request changes nothing |
| DevicesLog.DeleteDevice | client/src/DevicesLog.tsx:62-71 | once the request resolves, whatever its status, no entry has the id; every other entry stays, as many times as it occurred, and order is preserved. A thrown request changes nothing. The form, error and edit index are never touched |
| DevicesLog.EditDevice | client/src/DevicesLog.tsx:73-81 | copies user, type and date verbatim; an absent or empty time becomes `''`; sets the edit index; leaves the list and the error |
| DevicesLog.FetchDevices | client/src/DevicesLog.tsx:28-36 | a parsed response replaces the list, a thrown fetch leaves it; nothing else changes |
| DevicesLog.OnInput | client/src/DevicesLog.tsx:101-142 | a text input's `onChange` sets only its own field and leaves the error line as it was |
| DevicesLog.SelectType | client/src/DevicesLog.tsx:109-121 | choosing enabled option k sets the type to that option's value, which is selectable, and changes nothing else |
| DevicesLog.SeminarHallPicksLab | client/src/DevicesLog.tsx:112-119 | the option that reads "Seminar Hall" is enabled, and picking it records the type "Lab" |
| DevicesLog.SelectableTypesExact | client/src/DevicesLog.tsx:115-119 | the selectable types are exactly Projector, Smart Board and Lab; the option labelled "Seminar Hall" submits "Lab" |
| DevicesLog.ButtonLabel | client/src/DevicesLog.tsx:143-148 | the label is "Update Device" exactly when an edit index is set, and "Add Device" otherwise |
| DevicesLog.Render | client/src/DevicesLog.tsx:168-197 | an empty list shows the placeholder. Otherwise there is one row per record: row k is numbered k+1, shows the record's fields, and shows an absent or empty time as "N/A" |
| DevicesLog.TimeCell | client/src/DevicesLog.tsx:179-180 | a time cell reads "N/A" exactly when the time is absent, empty, or the text "N/A" itself; otherwise it shows the time; this holds for both the start and the end cell |
| DevicesLog.OnMount | client/src/DevicesLog.tsx:14-21 | in the initial state the table shows its placeholder, the button reads "Add Device", and no request can be built |
| DevicesLog.InvalidSubmitSendsNothing | client/src/DevicesLog.tsx:39-42 | with a mandatory field empty, no request is built and every network outcome gives the same state, with the list and form unchanged |
| DevicesLog.UpdateAppends | client/src/DevicesLog.tsx:38-60 | submitting while an edit index is set never replaces the edited row: it appends a row, and the button still reads "Update Device" |
| DevicesLog.EditThenSubmit | client/src/DevicesLog.tsx:44-81 | submitting right after editing a row sends a copy of that row, with `''` for missing times, whenever the row's mandatory fields are non-empty |
| DevicesLog.ComposeRoundTrip | client/src/DevicesLog.tsx:73-80 | filling the form from the record a form produced gives back that form |
| DevicesLog.ClearedFormBlocksSubmit | client/src/DevicesLog.tsx:38-42 | right after a clear, submitting builds no request and only sets the mandatory-fields message, keeping the list and the edit index |
| DevicesLog.ClearFormIdempotent | client/src/DevicesLog.tsx:83-90 | clearing twice equals clearing once |
| DevicesLog.DeleteDeviceIdempotent | client/src/DevicesLog.tsx:62-71 | deleting an id twice equals deleting it once, whatever the two response statuses |
| DevicesLog.AddThenDelete | client/src/DevicesLog.tsx:52-67 | deleting the id of a record just added, when no older entry shares it, restores the list from before the add |
| ClientServer.Serialize | client/src/DevicesLog.tsx:44-50 | the request body carries user, type and date always, each time and the id exactly when set, and no other key |
| ClientServer.Deserialize | server/routes/deviceRoutes.js:11 | the client record keeps the document's id and times, and each mandatory field the document has; a missing one reads as `""` |
| ClientServer.SerializeRoundTrip | server/routes/deviceRoutes.js:7-11 | any client record sent to the server and read back is itself, with the store's id in place of its own |
| ClientServer.ValidationAgrees | client/src/DevicesLog.tsx:39-44 | a form passes the client's mandatory-field check exactly when the document the server builds from its JSON passes the schema |
| ClientServer.SubmitRoundTrip | server/routes/deviceRoutes.js:7-11 | a request the client sends is saved with 201; the returned record is the request plus its new id, and it fills back the same form |
| ClientServer.FilterView | client/src/DevicesLog.tsx:67 | filtering the client list by id equals reading back the store after it is filtered by the same id |
| ClientServer.LoadMirrors | client/src/DevicesLog.tsx:28-36 | loading the list from a successful GET makes the client list show exactly the store |
| ClientServer.AddKeepsMirror | client/src/DevicesLog.tsx:46-56 | if the client list shows the store, it still shows the store after a successful add on both sides |
| ClientServer.DeleteKeepsMirror | client/src/DevicesLog.tsx:62-67 | if the client list shows the store, it still shows the store after a delete that succeeds on the server |
| ClientServer.DeleteDivergesOnFailure | client/src/DevicesLog.tsx:62-67 | when the server answers 500 and keeps a stored booking, the client still drops that row, so its list no longer shows the store |
| ClientServer.CreateWithoutTimes | server/routes/deviceRoutes.js:6-11 | a booking created without times returns with the new id and no times; its row is numbered 1 and shows "N/A" in both time cells |

## Left out

- `server/index.js`: app wiring, CORS, environment loading, database connection and `listen`. This is plumbing with no behaviour to state.
- `server/config/controllers/deviceController.js`: a copy of the create and list handlers that is never mounted. The module it imports is not part of this model.
- Mongoose internals are parameters, preconditions or stated assumptions:
  - how `_id` is generated (the fresh id and its freshness precondition);
  - a `CastError` on a malformed id, and any other store failure (the `available`/`saved` flags);
  - the order `find()` returns: the model assumes `find()` lists documents in insertion order, so a new document is listed last. `PostThenGet` and `ClientServer.AddKeepsMirror` depend on this.
- Non-string JSON values and `null` in a request body are not modelled, because bodies are string maps. Mongoose would cast such values.
- `fetch`, JSON transport, HTTP status transport, the backend URL and `console.error` logging are not modelled.
- React hooks, rendering markup and CSS are not modelled. The same goes for the stale `devices` closure under overlapping clicks: transitions are sequential.
- DevicesLog.FetchDevices: does not model a response that is not ok. `fetchDevices` never checks `response.ok`, so an error body `{error: ...}` would replace the list with a non-array. The model only covers a parsed list or a thrown fetch.
- DeviceRoutes.Delete removes every document with the id, while `findByIdAndDelete` removes at most one. The two agree when ids are unique, which the collection's `_id` index guarantees. `DeleteRemovesOne` states that case.
- Mongoose's String `required` validator rejecting `''` is a library fact that the model assumes (`DeviceSchema.Satisfied`). The client-to-server direction of `ClientServer.ValidationAgrees` depends on it.
- ClientServer.Deserialize reads a missing mandatory field as `""`, where the client would hold `undefined`. The case cannot arise for a stored document: every document saved through the schema has all three mandatory fields (`DeviceRoutes.WellFormed`).
- ClientServer.Deserialize drops the `__v` version key that Mongoose adds to every document, because the client never reads it.
- The "Edit" and "Delete" button texts are fixed strings with no behaviour.

