/** The `DevicesLog` component of client/src/DevicesLog.tsx: a list of
    bookings, a five-field form, an error line and an edit index, with each
    handler as a pure transition. Network results are parameters. */
module DevicesLog {
  import opened Wrappers
  import Seqs

  /** A booking as the client holds it (the `Device` interface). */
  datatype Device = Device(
    id: Option<string>,
    user: string,
    deviceType: string,
    date: string,
    startTime: Option<string>,
    endTime: Option<string>)

  /** The five controlled form fields. */
  datatype Form = Form(user: string, deviceType: string, date: string, startTime: string, endTime: string)

  datatype State = State(devices: seq<Device>, form: Form, error: string, editIndex: Option<nat>)

  /** How a POST from `addDevice` ended: an ok response carrying the saved
      record, a response that is not ok, or a thrown `fetch`/`json()`. */
  datatype AddOutcome = Saved(device: Device) | NotOk | AddThrown

  /** How the DELETE `fetch` ended: resolved with some status, or thrown. */
  datatype DeleteOutcome = Responded(status: int) | DeleteThrown

  /** How the initial list `fetch` ended. */
  datatype FetchOutcome = Loaded(devices: seq<Device>) | FetchThrown

  /** The text inputs of the form (the device type is a select). */
  datatype TextInput = UserInput | DateInput | StartTimeInput | EndTimeInput

  const MandatoryMessage := "Please fill all mandatory fields: User Name, Device Type, and Date."
  const EmptyForm := Form("", "", "", "", "")
  const UpdateLabel := "Update Device"
  const AddLabel := "Add Device"
  const NotAvailable := "N/A"

  /** The component's state on mount. */
  const Initial := State([], EmptyForm, "", None)

  /** JavaScript's `x || fallback` on an optional string: both `undefined`
      and `''` are falsy. */
  function OrElse(t: Option<string>, fallback: string): (r: string)
    ensures t.Some? && t.value != "" ==> r == t.value
    ensures t.None? || t == Some("") ==> r == fallback
  {
    if t.Some? && t.value != "" then t.value else fallback
  }

  /** The validation guard of `addDevice`: none of the mandatory fields is empty. */
  predicate Complete(f: Form) {
    f.user != "" && f.deviceType != "" && f.date != ""
  }

  /** The record `addDevice` sends: the five form fields, no `_id`. */
  function Compose(f: Form): Device {
    Device(None, f.user, f.deviceType, f.date, Some(f.startTime), Some(f.endTime))
  }

  /** The form `editDevice` fills from a record. */
  function FormOf(d: Device): Form {
    Form(d.user, d.deviceType, d.date, OrElse(d.startTime, ""), OrElse(d.endTime, ""))
  }

  /** The request `addDevice` issues, or `None` when validation stops it. */
  function Submission(s: State): (r: Option<Device>)
    ensures r.None? <==> s.form.user == "" || s.form.deviceType == "" || s.form.date == ""
    ensures r.Some? ==> r.value.id.None? && FormOf(r.value) == s.form
    ensures r.Some? ==> r.value.startTime == Some(s.form.startTime) && r.value.endTime == Some(s.form.endTime)
  {
    if Complete(s.form) then Some(Compose(s.form)) else None
  }

  /** `clearForm`: empties the five fields and the error; the list and the
      edit index are left as they are. */
  function ClearForm(s: State): (r: State)
    ensures r.form == EmptyForm && r.error == ""
    ensures r.devices == s.devices && r.editIndex == s.editIndex
  {
    s.(form := EmptyForm, error := "")
  }

  /** `addDevice`, given how its request ended. */
  function AddDevice(s: State, outcome: AddOutcome): (r: State)
    ensures Submission(s).None? ==> r == s.(error := MandatoryMessage)
    ensures Submission(s).Some? && outcome.Saved? ==>
              && |r.devices| == |s.devices| + 1
              && r.devices[..|s.devices|] == s.devices
              && r.devices[|s.devices|] == outcome.device
              && r.form == EmptyForm && r.error == ""
              && r.editIndex == s.editIndex
    ensures Submission(s).Some? && !outcome.Saved? ==> r == s
  {
    if !Complete(s.form) then
      s.(error := MandatoryMessage)
    else
      match outcome
      case Saved(saved) =>
        var r := ClearForm(s.(devices := s.devices + [saved]));
        assert r.devices[..|s.devices|] == s.devices;
        r
      case NotOk => s
      case AddThrown => s
  }

  /** The test `deleteDevice` filters the list by. */
  function OtherThan(id: Option<string>): Device -> bool {
    (d: Device) => d.id != id
  }

  /** `deleteDevice(id)`: once the request resolves, whatever its status, the
      list drops every record with that id; a thrown `fetch` changes nothing.
      The id is optional because the row passes `device._id as string`. */
  function DeleteDevice(s: State, id: Option<string>, outcome: DeleteOutcome): (r: State)
    ensures r.form == s.form && r.error == s.error && r.editIndex == s.editIndex
    ensures outcome.Responded? ==>
              && (forall d :: d in r.devices ==> d.id != id)
              && (forall d: Device :: d.id != id ==> multiset(r.devices)[d] == multiset(s.devices)[d])
              && Seqs.IsSubseq(r.devices, s.devices)
    ensures outcome.DeleteThrown? ==> r == s
  {
    match outcome
    case Responded(_) =>
      var rest := Seqs.Filter(s.devices, OtherThan(id));
      Seqs.FilterMembers(s.devices, OtherThan(id));
      Seqs.FilterCount(s.devices, OtherThan(id));
      Seqs.FilterIsSubseq(s.devices, OtherThan(id));
      assert forall d :: d in rest ==> OtherThan(id)(d);
      s.(devices := rest)
    case DeleteThrown => s
  }

  /** `editDevice(index)`: copies the row into the form and records its
      index; the list and the error line are untouched. The handler is only
      reachable from a rendered row, so the index is in range. */
  function EditDevice(s: State, index: nat): (r: State)
    requires index < |s.devices|
    ensures r.form.user == s.devices[index].user
    ensures r.form.deviceType == s.devices[index].deviceType
    ensures r.form.date == s.devices[index].date
    ensures r.form.startTime == OrElse(s.devices[index].startTime, "")
    ensures r.form.endTime == OrElse(s.devices[index].endTime, "")
    ensures r.editIndex == Some(index)
    ensures r.devices == s.devices && r.error == s.error
  {
    s.(form := FormOf(s.devices[index]), editIndex := Some(index))
  }

  /** `fetchDevices` on mount: a parsed response replaces the list, a thrown
      `fetch` leaves it. */
  function FetchDevices(s: State, outcome: FetchOutcome): (r: State)
    ensures r.form == s.form && r.error == s.error && r.editIndex == s.editIndex
    ensures outcome.Loaded? ==> r.devices == outcome.devices
    ensures outcome.FetchThrown? ==> r == s
  {
    match outcome
    case Loaded(list) => s.(devices := list)
    case FetchThrown => s
  }

  /** The `onChange` of a text input: sets that one field. The error line
      stays until a successful add clears it. */
  function OnInput(s: State, input: TextInput, value: string): (r: State)
    ensures r.devices == s.devices && r.error == s.error && r.editIndex == s.editIndex
    ensures r.form.deviceType == s.form.deviceType
    ensures input == UserInput ==> r.form == s.form.(user := value)
    ensures input == DateInput ==> r.form == s.form.(date := value)
    ensures input == StartTimeInput ==> r.form == s.form.(startTime := value)
    ensures input == EndTimeInput ==> r.form == s.form.(endTime := value)
  {
    match input
    case UserInput => s.(form := s.form.(user := value))
    case DateInput => s.(form := s.form.(date := value))
    case StartTimeInput => s.(form := s.form.(startTime := value))
    case EndTimeInput => s.(form := s.form.(endTime := value))
  }

  /** One `<option>` of the device-type select. */
  datatype SelectOption = SelectOption(value: string, text: string, disabled: bool)

  /** The select's options in order. The one labelled "Seminar Hall" carries
      the value "Lab". */
  const TypeOptions: seq<SelectOption> := [
    SelectOption("", "Select Device Type (mandatory)", true),
    SelectOption("Projector", "Projector", false),
    SelectOption("Smart Board", "Smart Board", false),
    SelectOption("Lab", "Lab", false),
    SelectOption("Lab", "Seminar Hall", false)
  ]

  /** The values a user can pick. */
  function SelectableTypes(): set<string> {
    set o | o in TypeOptions && !o.disabled :: o.value
  }

  /** The select's `onChange` when the user picks option `k`. */
  function SelectType(s: State, k: nat): (r: State)
    requires k < |TypeOptions| && !TypeOptions[k].disabled
    ensures r.form.deviceType == TypeOptions[k].value
    ensures r.form.deviceType in SelectableTypes()
    ensures r.form == s.form.(deviceType := r.form.deviceType)
    ensures r.devices == s.devices && r.error == s.error && r.editIndex == s.editIndex
  {
    s.(form := s.form.(deviceType := TypeOptions[k].value))
  }

  /** Exactly three device types can be chosen, and "Seminar Hall" is not
      one of them: picking it submits "Lab". */
  lemma SelectableTypesExact()
    ensures SelectableTypes() == {"Projector", "Smart Board", "Lab"}
    ensures "Seminar Hall" !in SelectableTypes()
    ensures forall k :: 0 <= k < |TypeOptions| && TypeOptions[k].text == "Seminar Hall" ==>
              TypeOptions[k].value == "Lab"
  {
  }

  /** Picking the option that reads "Seminar Hall" records the type "Lab". */
  lemma SeminarHallPicksLab(s: State, k: nat)
    requires k < |TypeOptions| && TypeOptions[k].text == "Seminar Hall"
    ensures !TypeOptions[k].disabled
    ensures SelectType(s, k).form.deviceType == "Lab"
  {
  }

  /** The submit button's label. */
  function ButtonLabel(s: State): (r: string)
    ensures r == UpdateLabel <==> s.editIndex.Some?
    ensures r == UpdateLabel || r == AddLabel
  {
    if s.editIndex.Some? then UpdateLabel else AddLabel
  }

  /** A table row as displayed: its 1-based number and the shown cells. */
  datatype Row = Row(number: int, user: string, deviceType: string, date: string, startTime: string, endTime: string)

  /** The table body: a placeholder row, or one row per record. */
  datatype Table = NoDevices | Rows(rows: seq<Row>)

  function RenderRow(d: Device, index: nat): Row {
    Row(index + 1, d.user, d.deviceType, d.date, OrElse(d.startTime, NotAvailable), OrElse(d.endTime, NotAvailable))
  }

  /** The table for a list of records. */
  function Render(devices: seq<Device>): (t: Table)
    ensures t.NoDevices? <==> |devices| == 0
    ensures t.Rows? ==> |t.rows| == |devices|
    ensures t.Rows? ==> forall k :: 0 <= k < |devices| ==>
              && t.rows[k].number == k + 1
              && t.rows[k].user == devices[k].user
              && t.rows[k].deviceType == devices[k].deviceType
              && t.rows[k].date == devices[k].date
              && t.rows[k].startTime == OrElse(devices[k].startTime, NotAvailable)
              && t.rows[k].endTime == OrElse(devices[k].endTime, NotAvailable)
  {
    if |devices| == 0 then NoDevices
    else Rows(seq(|devices|, k requires 0 <= k < |devices| => RenderRow(devices[k], k)))
  }

  /** A time cell reads "N/A" exactly when the time is absent, empty, or
      itself the text "N/A"; otherwise it shows the time. */
  lemma TimeCell(d: Device, index: nat)
    ensures RenderRow(d, index).startTime == NotAvailable <==>
              d.startTime.None? || d.startTime == Some("") || d.startTime == Some(NotAvailable)
    ensures RenderRow(d, index).endTime == NotAvailable <==>
              d.endTime.None? || d.endTime == Some("") || d.endTime == Some(NotAvailable)
    ensures d.startTime.Some? && d.startTime.value != "" ==> RenderRow(d, index).startTime == d.startTime.value
    ensures d.endTime.Some? && d.endTime.value != "" ==> RenderRow(d, index).endTime == d.endTime.value
  {
  }

  /** On mount the table shows its placeholder, the button reads "Add
      Device", and nothing can be submitted. */
  lemma OnMount()
    ensures Render(Initial.devices) == NoDevices
    ensures ButtonLabel(Initial) == AddLabel
    ensures Submission(Initial).None?
  {
  }

  /** A failed validation ignores the network entirely: no request is made,
      so every outcome gives the same state. */
  lemma InvalidSubmitSendsNothing(s: State, a: AddOutcome, b: AddOutcome)
    requires !Complete(s.form)
    ensures Submission(s).None?
    ensures AddDevice(s, a) == AddDevice(s, b)
    ensures AddDevice(s, a).devices == s.devices && AddDevice(s, a).form == s.form
  {
  }

  /** "Update Device" is the same append: the edited row is never replaced,
      and the edit index survives the add. */
  lemma UpdateAppends(s: State, saved: Device)
    requires s.editIndex.Some? && s.editIndex.value < |s.devices|
    requires Complete(s.form)
    ensures var r := AddDevice(s, Saved(saved));
            && r.devices[s.editIndex.value] == s.devices[s.editIndex.value]
            && |r.devices| == |s.devices| + 1
            && ButtonLabel(r) == UpdateLabel
  {
  }

  /** Editing a row and submitting sends a copy of that row (with empty
      strings for its missing times), whenever its mandatory fields are set. */
  lemma EditThenSubmit(s: State, index: nat)
    requires index < |s.devices|
    ensures var d := s.devices[index];
            var r := EditDevice(s, index);
            && (Submission(r).Some? <==> d.user != "" && d.deviceType != "" && d.date != "")
            && (Submission(r).Some? ==>
                  Submission(r).value == Device(None, d.user, d.deviceType, d.date,
                                                Some(OrElse(d.startTime, "")), Some(OrElse(d.endTime, ""))))
  {
  }

  /** The form survives a trip through the request body and back. */
  lemma ComposeRoundTrip(f: Form)
    ensures FormOf(Compose(f)) == f
  {
  }

  /** A cleared form cannot be submitted: the next submit only shows the
      mandatory-fields message, while the list and edit index stay. */
  lemma ClearedFormBlocksSubmit(s: State, outcome: AddOutcome)
    ensures Submission(ClearForm(s)).None?
    ensures AddDevice(ClearForm(s), outcome) == ClearForm(s).(error := MandatoryMessage)
  {
  }

  /** Clearing twice is clearing once. */
  lemma ClearFormIdempotent(s: State)
    ensures ClearForm(ClearForm(s)) == ClearForm(s)
  {
  }

  /** Deleting the same id twice is deleting it once, and the response
      status never matters. */
  lemma DeleteDeviceIdempotent(s: State, id: Option<string>, a: int, b: int)
    ensures DeleteDevice(DeleteDevice(s, id, Responded(a)), id, Responded(b)) == DeleteDevice(s, id, Responded(a))
  {
    Seqs.FilterIdempotent(s.devices, OtherThan(id));
  }

  /** Deleting the id of a record just added, when no older record shares it,
      gives back the list from before the add. */
  lemma AddThenDelete(s: State, saved: Device, status: int)
    requires Complete(s.form)
    requires forall i :: 0 <= i < |s.devices| ==> s.devices[i].id != saved.id
    ensures DeleteDevice(AddDevice(s, Saved(saved)), saved.id, Responded(status)).devices == s.devices
  {
    var keep := OtherThan(saved.id);
    Seqs.FilterKeepsAll(s.devices, keep);
    assert Seqs.Filter([saved], keep) == [];
    Seqs.FilterConcat(s.devices, [saved], keep);
  }
}
