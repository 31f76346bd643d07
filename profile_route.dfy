/**
 * PATCH /api/profile: the user's own profile update. Each lockable field is
 * either written directly or, when the field is approved and locked, diverted
 * into its pending slot; every other column is copied when present.
 */
module ProfileRoute {
  import opened Wrappers
  import opened Common
  import opened Profiles
  import opened Db

  /** The zod type of a non-lockable column of the request schema. */
  datatype Kind = Text | NullableText | AnyList | TextList | AnyValue

  /** The non-lockable keys of the request schema and their types. */
  const OtherSchema: map<string, Kind> := map[
    "dateOfBirth" := NullableText, "bio" := Text, "city" := Text, "postalCode" := Text,
    "country" := Text, "emergencyContacts" := AnyList, "socialMedia" := AnyList,
    "profileImage" := Text, "coverImage" := Text, "galleryImages" := TextList,
    "videos" := TextList, "fullLegalName" := Text, "secondaryPhone" := Text,
    "privateEmail" := Text, "cloudEmail" := Text, "idNumber" := Text,
    "licensePlate" := Text, "paymentDetails" := Text, "amazonWishlist" := Text,
    "remoteControlId" := Text, "streamingAccounts" := AnyValue, "mobileDevice" := Text,
    "vaultImages" := TextList, "vaultVideos" := TextList, "idCardImages" := TextList,
    "declarationImage" := Text, "declarationFaceImage" := Text]

  predicate Conforms(v: Json, k: Kind) {
    match k
    case Text => v.JStr?
    case NullableText => v.JStr? || v.JNull?
    case AnyList => v.JArr?
    case TextList => v.JArr? && forall i :: 0 <= i < |v.items| ==> v.items[i].JStr?
    case AnyValue => true
  }

  /** The validated request: the lockable keys that were sent, and the other schema keys that were sent. */
  datatype Payload = Payload(lockable: map<LockField, string>, other: map<string, Json>)

  /** Every lockable key that is present holds a string (`z.string().optional()`). */
  predicate LockablesAreText(fields: map<string, Json>) {
    forall f :: f in AllFields && FieldName(f) in fields ==> fields[FieldName(f)].JStr?
  }

  /** Every other schema key that is present has its schema type. */
  predicate OthersConform(schema: map<string, Kind>, fields: map<string, Json>) {
    forall k :: k in fields && k in schema ==> Conforms(fields[k], schema[k])
  }

  /** Object parsing against the five lockable keys plus `schema`; see ParseProfile. */
  function ParseWith(schema: map<string, Kind>, body: Json): (r: Option<Payload>)
    ensures r.Some? <==> body.JObj? && LockablesAreText(body.fields) && OthersConform(schema, body.fields)
    ensures r.Some? ==> forall f :: f in r.value.lockable <==> FieldName(f) in body.fields
    ensures r.Some? ==> forall f :: f in r.value.lockable ==> body.fields[FieldName(f)] == JStr(r.value.lockable[f])
    ensures r.Some? ==> r.value.other.Keys == body.fields.Keys * schema.Keys
    ensures r.Some? ==> forall k :: k in r.value.other ==> r.value.other[k] == body.fields[k]
  {
    if body.JObj? && LockablesAreText(body.fields) && OthersConform(schema, body.fields) then
      var lockable := map f | f in AllFields && FieldName(f) in body.fields :: body.fields[FieldName(f)].s;
      assert forall f :: f in lockable <==> FieldName(f) in body.fields by {
        forall f ensures f in lockable <==> FieldName(f) in body.fields {
          var _ := FieldIndex(f);
        }
      }
      Some(Payload(lockable, map k | k in body.fields && k in schema :: body.fields[k]))
    else
      None
  }

  /**
   * `profileSchema.parse(body)`: an object whose schema keys have their types;
   * keys outside the schema are dropped, present keys are kept verbatim.
   */
  function ParseProfile(body: Json): Option<Payload> {
    ParseWith(OtherSchema, body)
  }

  /** A payload that `schema` could produce: only schema keys, each of its type. */
  ghost predicate WellTyped(schema: map<string, Kind>, pl: Payload) {
    pl.other.Keys <= schema.Keys && forall k :: k in pl.other ==> Conforms(pl.other[k], schema[k])
  }

  /** Writes the sent value of `f`, if any, into a JSON object. */
  function Put(m: map<string, Json>, lockable: map<LockField, string>, f: LockField): map<string, Json> {
    if f in lockable then m[FieldName(f) := JStr(lockable[f])] else m
  }

  /** The JSON object a client sends for a payload. */
  function Encode(pl: Payload): Json {
    var lk := pl.lockable;
    JObj(Put(Put(Put(Put(Put(pl.other, lk, FirstName), lk, LastName), lk, Phone), lk, Address), lk, WorkPlace))
  }

  /** Writing another field's key leaves the entry of `k` as it was. */
  lemma PutOther(m: map<string, Json>, lk: map<LockField, string>, f: LockField, k: string)
    requires FieldName(f) != k
    ensures k in Put(m, lk, f) <==> k in m
    ensures k in m ==> Put(m, lk, f)[k] == m[k]
  {
  }

  /** The entry of a lockable key in an encoded payload. */
  lemma EncodedField(pl: Payload, f: LockField)
    ensures FieldName(f) in Encode(pl).fields <==> f in pl.lockable || FieldName(f) in pl.other
    ensures f in pl.lockable ==> Encode(pl).fields[FieldName(f)] == JStr(pl.lockable[f])
  {
    var lk := pl.lockable;
    var m1 := Put(pl.other, lk, FirstName);
    var m2 := Put(m1, lk, LastName);
    var m3 := Put(m2, lk, Phone);
    var m4 := Put(m3, lk, Address);
    assert Encode(pl).fields == Put(m4, lk, WorkPlace);
    var k := FieldName(f);
    match f
    case FirstName =>
      PutOther(m1, lk, LastName, k); PutOther(m2, lk, Phone, k);
      PutOther(m3, lk, Address, k); PutOther(m4, lk, WorkPlace, k);
    case LastName =>
      PutOther(pl.other, lk, FirstName, k); PutOther(m2, lk, Phone, k);
      PutOther(m3, lk, Address, k); PutOther(m4, lk, WorkPlace, k);
    case Phone =>
      PutOther(pl.other, lk, FirstName, k); PutOther(m1, lk, LastName, k);
      PutOther(m3, lk, Address, k); PutOther(m4, lk, WorkPlace, k);
    case Address =>
      PutOther(pl.other, lk, FirstName, k); PutOther(m1, lk, LastName, k);
      PutOther(m2, lk, Phone, k); PutOther(m4, lk, WorkPlace, k);
    case WorkPlace =>
      PutOther(pl.other, lk, FirstName, k); PutOther(m1, lk, LastName, k);
      PutOther(m2, lk, Phone, k); PutOther(m3, lk, Address, k);
  }

  /** The entry of any other key in an encoded payload is the payload's own. */
  lemma EncodedOther(pl: Payload, k: string)
    requires forall f :: FieldName(f) != k
    ensures k in Encode(pl).fields <==> k in pl.other
    ensures k in pl.other ==> Encode(pl).fields[k] == pl.other[k]
  {
    var lk := pl.lockable;
    var m1 := Put(pl.other, lk, FirstName);
    var m2 := Put(m1, lk, LastName);
    var m3 := Put(m2, lk, Phone);
    var m4 := Put(m3, lk, Address);
    PutOther(pl.other, lk, FirstName, k); PutOther(m1, lk, LastName, k);
    PutOther(m2, lk, Phone, k); PutOther(m3, lk, Address, k); PutOther(m4, lk, WorkPlace, k);
  }

  lemma FieldNameNotOther(f: LockField)
    ensures FieldName(f) !in OtherSchema
  {
  }

  /** Parsing what a client encodes gives back the payload, for any schema without lockable keys. */
  lemma {:induction false} ParseWithEncode(schema: map<string, Kind>, pl: Payload)
    requires forall f :: FieldName(f) !in schema
    requires WellTyped(schema, pl)
    ensures ParseWith(schema, Encode(pl)) == Some(pl)
  {
    var fields := Encode(pl).fields;
    forall f ensures (FieldName(f) in fields <==> f in pl.lockable)
                  && (f in pl.lockable ==> fields[FieldName(f)] == JStr(pl.lockable[f])) {
      EncodedField(pl, f);
      assert FieldName(f) !in schema;
    }
    forall k | k in schema ensures (k in fields <==> k in pl.other) && (k in pl.other ==> fields[k] == pl.other[k]) {
      EncodedOther(pl, k);
    }
    ParseFields(schema, fields, pl);
  }

  /** An object holding exactly a payload's lockable values and schema keys parses back to it. */
  lemma ParseFields(schema: map<string, Kind>, fields: map<string, Json>, pl: Payload)
    requires WellTyped(schema, pl)
    requires forall f :: FieldName(f) in fields <==> f in pl.lockable
    requires forall f :: f in pl.lockable ==> fields[FieldName(f)] == JStr(pl.lockable[f])
    requires forall k :: k in schema ==> (k in fields <==> k in pl.other)
    requires forall k :: k in schema && k in pl.other ==> fields[k] == pl.other[k]
    ensures ParseWith(schema, JObj(fields)) == Some(pl)
  {
    assert LockablesAreText(fields);
    assert OthersConform(schema, fields);
    var r := ParseWith(schema, JObj(fields)).value;
    assert r.lockable == pl.lockable;
    assert r.other == pl.other;
  }

  /** Parsing what a client encodes gives back the payload. */
  lemma ParseEncode(pl: Payload)
    requires WellTyped(OtherSchema, pl)
    ensures ParseProfile(Encode(pl)) == Some(pl)
  {
    forall f ensures FieldName(f) !in OtherSchema {
      FieldNameNotOther(f);
    }
    ParseWithEncode(OtherSchema, pl);
  }

  /** The value sent for `f`, or None when the key was left out (undefined). */
  function Sent(lockable: map<LockField, string>, f: LockField): Option<string> {
    if f in lockable then Some(lockable[f]) else None
  }

  /**
   * The field resolver for one lockable field given the value sent for it.
   * Flags are never touched; the pending slot is written only under the gate
   * and only with a value different from the live one; the live value is
   * written only when the field is not gated.
   */
  function ResolveSlot(s: Slots, sent: Option<string>): (r: Slots)
    ensures r.approved == s.approved && r.locked == s.locked
    ensures sent.None? ==> r == s
    ensures r.pending != s.pending ==> Gated(s) && sent.Some? && r.pending == sent && s.value != sent
    ensures r.value != s.value ==> !Gated(s) && r.value == sent
    ensures sent.Some? && Gated(s) ==> r.value == s.value && (s.value != sent ==> r.pending == sent)
    ensures sent.Some? && Gated(s) && s.value == sent ==> r == s
    ensures sent.Some? && !Gated(s) ==> r.value == sent && r.pending == s.pending
  {
    if sent.None? then s
    else if Gated(s) then (if sent != s.value then s.(pending := sent) else s)
    else s.(value := sent)
  }

  /** The request diverts field `f` into its pending slot. */
  predicate Diverts(s: Slots, sent: Option<string>) {
    sent.Some? && Gated(s) && sent != s.value
  }

  /** The request-local `changeRequested`: some field was diverted. */
  predicate RequestsChange(p: Profile, pl: Payload) {
    exists f :: f in AllFields && Diverts(Slot(p, f), Sent(pl.lockable, f))
  }

  /** The profile as the PATCH leaves it. */
  function Patched(p: Profile, pl: Payload): Profile {
    Profile(
      ResolveSlot(p.firstName, Sent(pl.lockable, FirstName)),
      ResolveSlot(p.lastName, Sent(pl.lockable, LastName)),
      ResolveSlot(p.phone, Sent(pl.lockable, Phone)),
      ResolveSlot(p.address, Sent(pl.lockable, Address)),
      ResolveSlot(p.workPlace, Sent(pl.lockable, WorkPlace)),
      p.changeRequested || RequestsChange(p, pl),
      p.other + pl.other)
  }

  /** One slot after the store write of the collected maps. */
  function MergeSlot(s: Slots, f: LockField, updates: map<LockField, string>,
                     pendingUpdates: map<LockField, string>): Slots
  {
    s.(value := if f in updates then Some(updates[f]) else s.value,
       pending := if f in pendingUpdates then Some(pendingUpdates[f]) else s.pending)
  }

  /** One store write of the collected `updates`, `pendingUpdates` and other columns. */
  function Merge(p: Profile, updates: map<LockField, string>, pendingUpdates: map<LockField, string>,
                 otherUpdates: map<string, Json>, changeRequested: bool): Profile
  {
    Profile(
      MergeSlot(p.firstName, FirstName, updates, pendingUpdates),
      MergeSlot(p.lastName, LastName, updates, pendingUpdates),
      MergeSlot(p.phone, Phone, updates, pendingUpdates),
      MergeSlot(p.address, Address, updates, pendingUpdates),
      MergeSlot(p.workPlace, WorkPlace, updates, pendingUpdates),
      changeRequested, p.other + otherUpdates)
  }

  /**
   * `handleFieldUpdate`: records the outcome of one lockable field in the
   * request-local maps and flag.
   */
  method HandleFieldUpdate(f: LockField, sent: Option<string>, current: Slots,
                           updates: map<LockField, string>, pendingUpdates: map<LockField, string>,
                           changeRequested: bool)
    returns (updates': map<LockField, string>, pendingUpdates': map<LockField, string>, changeRequested': bool)
    ensures sent.None? ==> updates' == updates && pendingUpdates' == pendingUpdates && changeRequested' == changeRequested
    ensures Diverts(current, sent) ==>
      updates' == updates && pendingUpdates' == pendingUpdates[f := sent.value] && changeRequested'
    ensures sent.Some? && Gated(current) && !Diverts(current, sent) ==>
      updates' == updates && pendingUpdates' == pendingUpdates && changeRequested' == changeRequested
    ensures sent.Some? && !Gated(current) ==>
      updates' == updates[f := sent.value] && pendingUpdates' == pendingUpdates && changeRequested' == changeRequested
  {
    updates', pendingUpdates', changeRequested' := updates, pendingUpdates, changeRequested;
    if sent.None? {
      return;
    }
    if current.approved && current.locked {
      if Some(sent.value) != current.value {
        pendingUpdates' := pendingUpdates'[f := sent.value];
        changeRequested' := true;
      }
    } else {
      updates' := updates'[f := sent.value];
    }
  }

  /** The direct updates once the first `done` fields (in source order) are handled. */
  ghost predicate UpdatesCollected(current: Profile, lk: map<LockField, string>, done: nat,
                                   updates: map<LockField, string>)
  {
    && (forall f :: f in updates <==> FieldIndex(f) < done && Sent(lk, f).Some? && !Gated(Slot(current, f)))
    && (forall f :: f in updates ==> updates[f] == lk[f])
  }

  /** The pending updates once the first `done` fields are handled. */
  ghost predicate PendingCollected(current: Profile, lk: map<LockField, string>, done: nat,
                                   pendingUpdates: map<LockField, string>)
  {
    && (forall f :: f in pendingUpdates <==> FieldIndex(f) < done && Diverts(Slot(current, f), Sent(lk, f)))
    && (forall f :: f in pendingUpdates ==> pendingUpdates[f] == lk[f])
  }

  /** The request-local flag once the first `done` fields are handled. */
  ghost predicate FlagCollected(current: Profile, lk: map<LockField, string>, done: nat, changeRequested: bool) {
    changeRequested <==> exists f :: FieldIndex(f) < done && Diverts(Slot(current, f), Sent(lk, f))
  }

  /** What the request-local maps hold once the first `done` fields are handled. */
  ghost predicate Collected(current: Profile, lk: map<LockField, string>, done: nat,
                            updates: map<LockField, string>, pendingUpdates: map<LockField, string>,
                            changeRequested: bool)
  {
    && UpdatesCollected(current, lk, done, updates)
    && PendingCollected(current, lk, done, pendingUpdates)
    && FlagCollected(current, lk, done, changeRequested)
  }

  lemma UpdatesStep(current: Profile, lk: map<LockField, string>, f: LockField,
                    u: map<LockField, string>, u': map<LockField, string>)
    requires UpdatesCollected(current, lk, FieldIndex(f), u)
    requires Sent(lk, f).Some? && !Gated(Slot(current, f)) ==> u' == u[f := lk[f]]
    requires !(Sent(lk, f).Some? && !Gated(Slot(current, f))) ==> u' == u
    ensures UpdatesCollected(current, lk, FieldIndex(f) + 1, u')
  {
    forall g ensures FieldIndex(g) == FieldIndex(f) ==> g == f {
      assert AllFields[FieldIndex(g)] == g;
    }
  }

  lemma PendingStep(current: Profile, lk: map<LockField, string>, f: LockField,
                    p: map<LockField, string>, p': map<LockField, string>)
    requires PendingCollected(current, lk, FieldIndex(f), p)
    requires Diverts(Slot(current, f), Sent(lk, f)) ==> p' == p[f := lk[f]]
    requires !Diverts(Slot(current, f), Sent(lk, f)) ==> p' == p
    ensures PendingCollected(current, lk, FieldIndex(f) + 1, p')
  {
    forall g ensures FieldIndex(g) == FieldIndex(f) ==> g == f {
      assert AllFields[FieldIndex(g)] == g;
    }
  }

  lemma FlagStep(current: Profile, lk: map<LockField, string>, f: LockField, c: bool, c': bool)
    requires FlagCollected(current, lk, FieldIndex(f), c)
    requires Diverts(Slot(current, f), Sent(lk, f)) ==> c'
    requires !Diverts(Slot(current, f), Sent(lk, f)) ==> c' == c
    ensures FlagCollected(current, lk, FieldIndex(f) + 1, c')
  {
    if Diverts(Slot(current, f), Sent(lk, f)) {
      assert FieldIndex(f) < FieldIndex(f) + 1;
    }
    if c {
      var g :| FieldIndex(g) < FieldIndex(f) && Diverts(Slot(current, g), Sent(lk, g));
      assert FieldIndex(g) < FieldIndex(f) + 1;
    }
    forall g | FieldIndex(g) < FieldIndex(f) + 1 && Diverts(Slot(current, g), Sent(lk, g)) ensures c' {
      if g != f {
        assert AllFields[FieldIndex(g)] == g;
        assert FieldIndex(g) < FieldIndex(f);
      }
    }
  }

  /** One `handleFieldUpdate` call extends what has been collected by one field. */
  lemma CollectStep(current: Profile, lk: map<LockField, string>, f: LockField,
                    u: map<LockField, string>, p: map<LockField, string>, c: bool,
                    u': map<LockField, string>, p': map<LockField, string>, c': bool)
    requires Collected(current, lk, FieldIndex(f), u, p, c)
    requires Sent(lk, f).None? ==> u' == u && p' == p && c' == c
    requires Diverts(Slot(current, f), Sent(lk, f)) ==> u' == u && p' == p[f := lk[f]] && c'
    requires Sent(lk, f).Some? && Gated(Slot(current, f)) && !Diverts(Slot(current, f), Sent(lk, f)) ==>
      u' == u && p' == p && c' == c
    requires Sent(lk, f).Some? && !Gated(Slot(current, f)) ==> u' == u[f := lk[f]] && p' == p && c' == c
    ensures Collected(current, lk, FieldIndex(f) + 1, u', p', c')
  {
    UpdatesStep(current, lk, f, u, u');
    PendingStep(current, lk, f, p, p');
    FlagStep(current, lk, f, c, c');
  }

  /**
   * The body of the handler between the profile lookup and the store write:
   * the resolver called on the five lockable fields in source order, then the
   * copy of the other columns that were sent.
   */
  method ResolvePatch(current: Profile, pl: Payload)
    returns (updates: map<LockField, string>, pendingUpdates: map<LockField, string>,
             otherUpdates: map<string, Json>, changeRequested: bool)
    ensures changeRequested == RequestsChange(current, pl)
    ensures otherUpdates == pl.other
    ensures Merge(current, updates, pendingUpdates, otherUpdates, changeRequested || current.changeRequested)
            == Patched(current, pl)
    ensures updates == map[] && pendingUpdates == map[] && otherUpdates == map[] ==> Patched(current, pl) == current
  {
    var lk := pl.lockable;
    updates, pendingUpdates, changeRequested := map[], map[], false;
    for i := 0 to |AllFields|
      invariant Collected(current, lk, i, updates, pendingUpdates, changeRequested)
    {
      var f := AllFields[i];
      assert FieldIndex(f) == i;
      var u, p, c := updates, pendingUpdates, changeRequested;
      updates, pendingUpdates, changeRequested := HandleFieldUpdate(f, Sent(lk, f), Slot(current, f), u, p, c);
      CollectStep(current, lk, f, u, p, c, updates, pendingUpdates, changeRequested);
    }
    otherUpdates := pl.other;
    CollectedAllMerges(current, pl, updates, pendingUpdates, changeRequested);
  }

  /** A handled field's slot after the write is the resolver's result. */
  lemma MergedSlot(current: Profile, lk: map<LockField, string>, updates: map<LockField, string>,
                   pendingUpdates: map<LockField, string>, changeRequested: bool, f: LockField)
    requires Collected(current, lk, 5, updates, pendingUpdates, changeRequested)
    ensures MergeSlot(Slot(current, f), f, updates, pendingUpdates) == ResolveSlot(Slot(current, f), Sent(lk, f))
  {
    assert FieldIndex(f) < 5;
  }

  /** The request-local flag after all five fields is RequestsChange. */
  lemma CollectedFlag(current: Profile, pl: Payload, updates: map<LockField, string>,
                      pendingUpdates: map<LockField, string>, changeRequested: bool)
    requires Collected(current, pl.lockable, 5, updates, pendingUpdates, changeRequested)
    ensures changeRequested == RequestsChange(current, pl)
    ensures pendingUpdates == map[] ==> !changeRequested
  {
    var lk := pl.lockable;
    if changeRequested {
      var f :| FieldIndex(f) < 5 && Diverts(Slot(current, f), Sent(lk, f));
      assert f in AllFields;
      assert f in pendingUpdates;
    }
    if RequestsChange(current, pl) {
      var f :| f in AllFields && Diverts(Slot(current, f), Sent(lk, f));
      assert FieldIndex(f) < 5;
    }
  }

  /** Once all five fields are handled, one store write gives the patched profile. */
  lemma CollectedAllMerges(current: Profile, pl: Payload, updates: map<LockField, string>,
                           pendingUpdates: map<LockField, string>, changeRequested: bool)
    requires Collected(current, pl.lockable, 5, updates, pendingUpdates, changeRequested)
    ensures changeRequested == RequestsChange(current, pl)
    ensures Merge(current, updates, pendingUpdates, pl.other, changeRequested || current.changeRequested)
            == Patched(current, pl)
    ensures updates == map[] && pendingUpdates == map[] && pl.other == map[] ==> Patched(current, pl) == current
  {
    var lk := pl.lockable;
    CollectedFlag(current, pl, updates, pendingUpdates, changeRequested);
    MergedSlot(current, lk, updates, pendingUpdates, changeRequested, FirstName);
    MergedSlot(current, lk, updates, pendingUpdates, changeRequested, LastName);
    MergedSlot(current, lk, updates, pendingUpdates, changeRequested, Phone);
    MergedSlot(current, lk, updates, pendingUpdates, changeRequested, Address);
    MergedSlot(current, lk, updates, pendingUpdates, changeRequested, WorkPlace);
    if updates == map[] && pendingUpdates == map[] && pl.other == map[] {
      assert current.other + pl.other == current.other;
      assert Merge(current, updates, pendingUpdates, pl.other, current.changeRequested) == current;
    }
  }

  /** Every slot of the patched profile depends only on that field's slot and sent value. */
  lemma {:induction false} PatchedSlot(p: Profile, pl: Payload, f: LockField)
    ensures Slot(Patched(p, pl), f) == ResolveSlot(Slot(p, f), Sent(pl.lockable, f))
  {
    match f
    case FirstName =>
    case LastName =>
    case Phone =>
    case Address =>
    case WorkPlace =>
  }

  /** A PATCH keeps the workflow invariant. */
  lemma {:induction false} PatchKeepsInvariant(p: Profile, pl: Payload)
    requires WorkflowInvariant(p)
    ensures WorkflowInvariant(Patched(p, pl))
  {
    var q := Patched(p, pl);
    forall f ensures Slot(q, f).pending.Some? ==> Gated(Slot(q, f)) {
      PatchedSlot(p, pl, f);
    }
    if RequestsChange(p, pl) {
      var f :| f in AllFields && Diverts(Slot(p, f), Sent(pl.lockable, f));
      PatchedSlot(p, pl, f);
      assert Slot(q, f).pending.Some?;
    } else {
      forall f ensures Slot(q, f).pending == Slot(p, f).pending {
        PatchedSlot(p, pl, f);
        var _ := FieldIndex(f);
      }
    }
  }

  /** A PATCH never resets an approved or locked flag, and never clears `changeRequested`. */
  lemma {:induction false} PatchKeepsFlags(p: Profile, pl: Payload)
    ensures FlagsKept(p, Patched(p, pl))
    ensures p.changeRequested ==> Patched(p, pl).changeRequested
    ensures Patched(p, pl).changeRequested == (p.changeRequested || RequestsChange(p, pl))
  {
    forall f ensures Slot(Patched(p, pl), f).approved == Slot(p, f).approved
                  && Slot(Patched(p, pl), f).locked == Slot(p, f).locked {
      PatchedSlot(p, pl, f);
    }
  }

  /** Non-lockable columns: written iff sent, the others keep their stored value. */
  lemma PatchOtherColumns(p: Profile, pl: Payload, k: string)
    ensures k in pl.other ==> k in Patched(p, pl).other && Patched(p, pl).other[k] == pl.other[k]
    ensures k !in pl.other ==> (k in Patched(p, pl).other <==> k in p.other)
    ensures k !in pl.other && k in p.other ==> Patched(p, pl).other[k] == p.other[k]
  {
  }

  /**
   * The handler. No session: 401. A body that is not JSON or fails the
   * schema: 500. No profile: 404. Otherwise the profile is patched and the
   * reply carries the request-local `changeRequested`.
   */
  method PatchProfile(db: Store, session: Option<Session>, body: Option<Json>) returns (r: Reply<bool>)
    requires db.Valid()
    modifies db
    ensures db.Valid()
    ensures db.users == old(db.users) && db.tokens == old(db.tokens)
    ensures !SignedIn(session) ==> r == Fail(Unauthorized, "Unauthorized") && db.profiles == old(db.profiles)
    ensures SignedIn(session) && (body.None? || ParseProfile(body.value).None?) ==>
      r == Fail(InternalError, "Internal Error") && db.profiles == old(db.profiles)
    ensures SignedIn(session) && body.Some? && ParseProfile(body.value).Some?
            && session.value.userId !in old(db.profiles) ==>
      r == Fail(NotFound, "Profile not found") && db.profiles == old(db.profiles)
    ensures SignedIn(session) && body.Some? && ParseProfile(body.value).Some?
            && session.value.userId in old(db.profiles) ==>
      var uid, pl := session.value.userId, ParseProfile(body.value).value;
      && r == Ok(200, RequestsChange(old(db.profiles)[uid], pl))
      && db.profiles == old(db.profiles)[uid := Patched(old(db.profiles)[uid], pl)]
  {
    if !SignedIn(session) {
      return Fail(Unauthorized, "Unauthorized");
    }
    if body.None? {
      return Fail(InternalError, "Internal Error");
    }
    var parsed := ParseProfile(body.value);
    if parsed.None? {
      return Fail(InternalError, "Internal Error");
    }
    var uid, pl := session.value.userId, parsed.value;
    if uid !in db.profiles {
      return Fail(NotFound, "Profile not found");
    }
    var current := db.profiles[uid];
    var updates, pendingUpdates, otherUpdates, changeRequested := ResolvePatch(current, pl);
    if |updates| > 0 || |pendingUpdates| > 0 || |otherUpdates| > 0 {
      PatchKeepsInvariant(current, pl);
      db.UpdateProfile(uid, Merge(current, updates, pendingUpdates, otherUpdates,
                                  changeRequested || current.changeRequested));
    } else {
      Db.UpdateSame(db.profiles, uid);
    }
    r := Ok(200, changeRequested);
  }
}
