/** The Mongoose schema of a booking document (server/models/Device.js). */
module DeviceSchema {
  import opened Wrappers

  /** A booking document: the `_id` the store assigns plus the five schema
      paths, each of which may be missing. The path `type` is called
      `deviceType` here because `type` is a Dafny keyword. */
  datatype Doc = Doc(
    id: string,
    user: Option<string>,
    deviceType: Option<string>,
    date: Option<string>,
    startTime: Option<string>,
    endTime: Option<string>)

  /** One path of the schema: its name and whether it is `required`. Every
      path is declared with `type: String`. */
  datatype PathSpec = PathSpec(name: string, required: bool)

  /** The schema object, path by path, in declaration order. */
  const Schema: seq<PathSpec> := [
    PathSpec("user", true),
    PathSpec("type", true),
    PathSpec("date", true),
    PathSpec("startTime", false),
    PathSpec("endTime", false)
  ]

  /** The value a document holds at a schema path. */
  function Path(d: Doc, name: string): Option<string> {
    if name == "user" then d.user
    else if name == "type" then d.deviceType
    else if name == "date" then d.date
    else if name == "startTime" then d.startTime
    else if name == "endTime" then d.endTime
    else None
  }

  /** Mongoose's `required` validator on a String path: the value must be
      present and must not be the empty string. */
  predicate Satisfied(v: Option<string>) {
    v.Some? && v.value != ""
  }

  /** A document passes validation when every required path is satisfied;
      optional paths are not checked at all. */
  predicate Valid(d: Doc) {
    forall i :: 0 <= i < |Schema| && Schema[i].required ==> Satisfied(Path(d, Schema[i].name))
  }

  /** Validity, spelled out: exactly `user`, `type` and `date` are demanded. */
  lemma ValidIff(d: Doc)
    ensures Valid(d) <==> Satisfied(d.user) && Satisfied(d.deviceType) && Satisfied(d.date)
  {
    if Satisfied(d.user) && Satisfied(d.deviceType) && Satisfied(d.date) {
      forall i | 0 <= i < |Schema| && Schema[i].required
        ensures Satisfied(Path(d, Schema[i].name))
      {
        assert i < 3;
      }
    } else {
      assert Schema[0].required && Schema[1].required && Schema[2].required;
    }
  }

  /** Start and end times never affect validity: whether either is present,
      and how the two compare (a start after the end is accepted). */
  lemma ValidIgnoresTimes(d: Doc, startTime: Option<string>, endTime: Option<string>)
    ensures Valid(d.(startTime := startTime, endTime := endTime)) <==> Valid(d)
  {
  }

  /** `type` is any non-empty string: the schema has no list of allowed devices. */
  lemma TypeUnrestricted(d: Doc, t: string)
    requires t != ""
    ensures Valid(d.(deviceType := Some(t))) <==> Satisfied(d.user) && Satisfied(d.date)
  {
    ValidIff(d.(deviceType := Some(t)));
  }
}
