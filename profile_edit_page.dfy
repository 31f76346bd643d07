/**
 * The profile edit form's logic: the predicate that decides which fields
 * show a "Locked" badge (the inputs themselves stay editable), the normalisation of the loaded row into form values, the add,
 * remove and update helpers of the three record lists, and the date of birth
 * as submitted.
 */
module ProfileEditPage {
  import opened Wrappers
  import opened Common
  import opened Profiles
  import opened ProfileRoute

  function NullableJson(v: Option<string>): Json {
    if v.Some? then JStr(v.value) else JNull
  }

  /** The four columns of one lockable field, as the row's JSON spells them. */
  function Columns(f: LockField, s: Slots): map<string, Json> {
    map[FieldName(f) := NullableJson(s.value),
        FieldName(f) + "Pending" := NullableJson(s.pending),
        FieldName(f) + "Approved" := JBool(s.approved),
        FieldName(f) + "Locked" := JBool(s.locked)]
  }

  /** The stored profile row as GET /api/profile returns it to the form. */
  function ProfileJson(p: Profile): map<string, Json> {
    p.other
      + Columns(FirstName, Slot(p, FirstName)) + Columns(LastName, Slot(p, LastName))
      + Columns(Phone, Slot(p, Phone)) + Columns(Address, Slot(p, Address))
      + Columns(WorkPlace, Slot(p, WorkPlace))
      + map["changeRequested" := JBool(p.changeRequested)]
  }

  /**
   * `isFieldLocked`: false while no profile is loaded and for a name without
   * both flag columns; otherwise both flags are truthy.
   */
  function IsFieldLocked(loaded: Option<map<string, Json>>, name: string): (r: bool)
    ensures loaded.None? ==> !r
    ensures loaded.Some? && (name + "Approved" !in loaded.value || name + "Locked" !in loaded.value) ==> !r
    ensures r <==> && loaded.Some? && name + "Approved" in loaded.value && name + "Locked" in loaded.value
                   && Truthy(loaded.value[name + "Approved"]) && Truthy(loaded.value[name + "Locked"])
  {
    if loaded.None? then false
    else
      var m := loaded.value;
      var approvedKey, lockedKey := name + "Approved", name + "Locked";
      if approvedKey in m && lockedKey in m then Truthy(m[approvedKey]) && Truthy(m[lockedKey]) else false
  }

  /** A column of one field is never a column of another: the field names start with different letters. */
  lemma NotInColumns(f: LockField, g: LockField, s: Slots, suffix: string)
    requires f != g
    ensures FieldName(f) + suffix !in Columns(g, s)
  {
    var n := FieldName(g);
    assert (FieldName(f) + suffix)[0] == FieldName(f)[0];
    assert (n + "Pending")[0] == (n + "Approved")[0] == (n + "Locked")[0] == n[0];
  }

  /** The column `<f><suffix>` of the row is the column of `f`'s own slots: no later column shadows it. */
  lemma {:induction false} OwnColumn(p: Profile, f: LockField, suffix: string)
    requires suffix == "Approved" || suffix == "Locked"
    ensures FieldName(f) + suffix in Columns(f, Slot(p, f))
    ensures FieldName(f) + suffix in ProfileJson(p)
    ensures ProfileJson(p)[FieldName(f) + suffix] == Columns(f, Slot(p, f))[FieldName(f) + suffix]
  {
    var k := FieldName(f) + suffix;
    forall g | g != f ensures k !in Columns(g, Slot(p, g)) {
      NotInColumns(f, g, Slot(p, g), suffix);
    }
    assert k[0] != 'c';
    match f
    case FirstName =>
    case LastName =>
    case Phone =>
    case Address =>
    case WorkPlace =>
  }

  /** The flag columns of `f` in the row hold the field's flags. */
  lemma FlagColumns(p: Profile, f: LockField)
    ensures FieldName(f) + "Approved" in ProfileJson(p) && ProfileJson(p)[FieldName(f) + "Approved"] == JBool(Slot(p, f).approved)
    ensures FieldName(f) + "Locked" in ProfileJson(p) && ProfileJson(p)[FieldName(f) + "Locked"] == JBool(Slot(p, f).locked)
  {
    OwnColumn(p, f, "Approved");
    OwnColumn(p, f, "Locked");
    var n := FieldName(f);
    assert n + "Approved" != n + "Locked" by {
      assert (n + "Approved")[|n|] != (n + "Locked")[|n|];
    }
  }

  /** The form shows the "Locked" badge on exactly the fields the server diverts: its predicate is the server's gate. */
  lemma LockMatchesGate(p: Profile, f: LockField)
    ensures IsFieldLocked(Some(ProfileJson(p)), FieldName(f)) <==> Gated(Slot(p, f))
  {
    FlagColumns(p, f);
  }

  /** A key whose form value is a list (`[] as T[]`); every other form value is text. */
  predicate ListKey(k: string) {
    k in OtherSchema && OtherSchema[k] in {AnyList, TextList, AnyValue}
  }

  /** The empty form value of a key: `[]` for a list, `""` for text. */
  function Blank(k: string): Json {
    if ListKey(k) then JArr([]) else JStr("")
  }

  /** `data?.k`: the loaded column, `undefined` (here `JNull`) when no row or no such column. */
  function Loaded(data: Option<map<string, Json>>, k: string): Json {
    if data.Some? && k in data.value then data.value[k] else JNull
  }

  /**
   * The form value of `k` after loading: `data?.k || blank`, except the date
   * of birth, which keeps its date part (`isoDate`, the ISO formatting) when
   * set and is "" otherwise.
   */
  function FormValue(data: Option<map<string, Json>>, k: string, isoDate: string -> string): Json {
    var v := Loaded(data, k);
    if k == "dateOfBirth" then (if Truthy(v) && v.JStr? then JStr(isoDate(v.s)) else JStr(""))
    else if Truthy(v) then v else Blank(k)
  }

  /** The form state `setFormData` receives after loading: one value per form key. */
  function LoadForm(data: Option<map<string, Json>>, isoDate: string -> string): (form: map<string, Json>)
    ensures forall k :: k in form <==> k in OtherSchema || k in FieldNames
  {
    map k | k in OtherSchema.Keys + FieldNames :: FormValue(data, k, isoDate)
  }

  /** The column names of the lockable fields. */
  const FieldNames: set<string> := {"firstName", "lastName", "phone", "address", "workPlace"}

  /**
   * Load normalisation: a null or missing column becomes "" for text and
   * [] for a list; a set column is kept as loaded.
   */
  lemma LoadNormalises(data: Option<map<string, Json>>, k: string, isoDate: string -> string)
    requires k in OtherSchema || k in FieldNames
    requires k != "dateOfBirth"
    ensures Loaded(data, k) == JNull ==> LoadForm(data, isoDate)[k] == (if ListKey(k) then JArr([]) else JStr(""))
    ensures Truthy(Loaded(data, k)) ==> LoadForm(data, isoDate)[k] == Loaded(data, k)
  {
  }

  /**
   * A gated field whose live value is null shows the badge, loads as "" and,
   * since the inputs stay editable and the whole form is sent, goes back as
   * "" on every save; the server diverts that "" into the pending slot.
   */
  lemma {:induction false} NullGatedFieldResent(p: Profile, f: LockField, isoDate: string -> string)
    requires Gated(Slot(p, f)) && Slot(p, f).value.None?
    ensures IsFieldLocked(Some(ProfileJson(p)), FieldName(f))
    ensures LoadForm(Some(ProfileJson(p)), isoDate)[FieldName(f)] == JStr("")
    ensures Diverts(Slot(p, f), Some(""))
    ensures ResolveSlot(Slot(p, f), Some("")) == Slot(p, f).(pending := Some(""))
  {
    LockMatchesGate(p, f);
    ValueColumn(p, f);
    LoadNullField(Some(ProfileJson(p)), f, isoDate);
  }

  /** A lockable column that is null or missing loads as "". */
  lemma LoadNullField(data: Option<map<string, Json>>, f: LockField, isoDate: string -> string)
    requires Loaded(data, FieldName(f)) == JNull
    ensures LoadForm(data, isoDate)[FieldName(f)] == JStr("")
  {
    FieldNameNotOther(f);
    LoadNormalises(data, FieldName(f), isoDate);
  }

  /** The first column of `f`'s four is its live value. */
  lemma ValueInColumns(f: LockField, s: Slots)
    ensures FieldName(f) in Columns(f, s) && Columns(f, s)[FieldName(f)] == NullableJson(s.value)
  {
    var k := FieldName(f);
    assert |k + "Pending"| > |k| && |k + "Approved"| > |k| && |k + "Locked"| > |k|;
  }

  /** The column `<f>` of the row is `f`'s live value: no later column shadows it. */
  lemma {:induction false} ValueColumn(p: Profile, f: LockField)
    ensures FieldName(f) in ProfileJson(p) && ProfileJson(p)[FieldName(f)] == NullableJson(Slot(p, f).value)
  {
    var k := FieldName(f);
    forall g | g != f ensures k !in Columns(g, Slot(p, g)) {
      var n := FieldName(g);
      assert (n + "Pending")[0] == (n + "Approved")[0] == (n + "Locked")[0] == n[0] != k[0];
    }
    ValueInColumns(f, Slot(p, f));
    assert k[0] != 'c';
    match f
    case FirstName =>
    case LastName =>
    case Phone =>
    case Address =>
    case WorkPlace =>
  }

  /** The date of birth as the form submits it: null when empty, else the ISO timestamp. */
  function SubmittedDate(form: map<string, Json>, toIso: string -> string): (r: Json)
    ensures "dateOfBirth" !in form || form["dateOfBirth"] == JStr("") ==> r == JNull
    ensures "dateOfBirth" in form && form["dateOfBirth"].JStr? && form["dateOfBirth"].s != "" ==>
      r == JStr(toIso(form["dateOfBirth"].s))
  {
    var d := if "dateOfBirth" in form then form["dateOfBirth"] else JNull;
    if Truthy(d) && d.JStr? then JStr(toIso(d.s)) else JNull
  }

  /** The PATCH body: the whole form state, with the date of birth replaced by its submitted value. */
  function SubmitBody(form: map<string, Json>, toIso: string -> string): (body: map<string, Json>)
    ensures body.Keys == form.Keys + {"dateOfBirth"}
    ensures body["dateOfBirth"] == SubmittedDate(form, toIso)
    ensures forall k :: k in form && k != "dateOfBirth" ==> body[k] == form[k]
  {
    form["dateOfBirth" := SubmittedDate(form, toIso)]
  }

  /** A profile without a date of birth round-trips through the form as null, never as "". */
  lemma UnsetDateSubmitsNull(data: Option<map<string, Json>>, isoDate: string -> string, toIso: string -> string)
    requires !Truthy(Loaded(data, "dateOfBirth"))
    ensures SubmitBody(LoadForm(data, isoDate), toIso)["dateOfBirth"] == JNull
  {
    assert "dateOfBirth" in OtherSchema;
    assert LoadForm(data, isoDate)["dateOfBirth"] == JStr("");
  }

  /** One entry of an emergency-contact, social-media or streaming-account list. */
  type Record = map<string, string>

  const BlankContact: Record := map["name" := "", "relationship" := "", "phone" := ""]
  const BlankSocial: Record := map["platform" := "", "link" := ""]
  const BlankAccount: Record := map["service" := "", "username" := ""]

  /** `add*`: one blank record appended, the existing entries untouched. */
  function AddRecord(rows: seq<Record>, blank: Record): (r: seq<Record>)
    ensures |r| == |rows| + 1
    ensures r[..|rows|] == rows
    ensures r[|rows|] == blank
  {
    rows + [blank]
  }

  /** Where `splice(index, 1)` starts: a negative index counts from the end, clamped at 0. */
  function SpliceStart(length: nat, index: int): (start: nat)
    ensures 0 <= index ==> start == index
    ensures index < 0 && length + index >= 0 ==> start == length + index
    ensures length + index < 0 ==> start == 0
  {
    if index >= 0 then index else if length + index >= 0 then length + index else 0
  }

  /** `remove*(index)`: the copy minus the element at the splice position, or the copy itself past the end. */
  function RemoveAt(rows: seq<Record>, index: int): (r: seq<Record>)
    ensures SpliceStart(|rows|, index) >= |rows| ==> r == rows
    ensures SpliceStart(|rows|, index) < |rows| ==>
      var i := SpliceStart(|rows|, index);
      && |r| == |rows| - 1
      && (forall j :: 0 <= j < i ==> r[j] == rows[j])
      && (forall j :: i <= j < |r| ==> r[j] == rows[j + 1])
  {
    var start := SpliceStart(|rows|, index);
    if start < |rows| then rows[..start] + rows[start + 1..] else rows
  }

  /** Removing the record just added gives back the list as it was. */
  lemma RemoveUndoesAdd(rows: seq<Record>, blank: Record)
    ensures RemoveAt(AddRecord(rows, blank), |rows|) == rows
  {
    assert AddRecord(rows, blank)[..|rows|] == rows;
  }

  /** `update*(index, key, value)` on a rendered row: only `key` of record `index` changes. */
  function UpdateAt(rows: seq<Record>, index: nat, key: string, value: string): (r: seq<Record>)
    requires index < |rows|
    ensures |r| == |rows|
    ensures forall j :: 0 <= j < |rows| && j != index ==> r[j] == rows[j]
    ensures r[index].Keys == rows[index].Keys + {key} && r[index][key] == value
    ensures forall k :: k in rows[index] && k != key ==> r[index][k] == rows[index][k]
  {
    rows[index := rows[index][key := value]]
  }

  /** Removing an edited row removes the edit with it. */
  lemma RemoveDiscardsUpdate(rows: seq<Record>, index: nat, key: string, value: string)
    requires index < |rows|
    ensures RemoveAt(UpdateAt(rows, index, key, value), index) == RemoveAt(rows, index)
  {
    var u := UpdateAt(rows, index, key, value);
    assert u[..index] == rows[..index];
    assert u[index + 1..] == rows[index + 1..];
  }
}
