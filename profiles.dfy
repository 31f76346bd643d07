/**
 * The profile record: five lockable fields, each with a live value, a pending
 * proposal and the approved/locked flags, the aggregate `changeRequested`
 * flag, and every other column as one last-write-wins map.
 */
module Profiles {
  import opened Wrappers
  import opened Common

  /** The fields that can be put under the admin gate. */
  datatype LockField = FirstName | LastName | Phone | Address | WorkPlace

  /** The fields in the order the source lists them. */
  const AllFields: seq<LockField> := [FirstName, LastName, Phone, Address, WorkPlace]

  function FieldName(f: LockField): string {
    match f
    case FirstName => "firstName"
    case LastName => "lastName"
    case Phone => "phone"
    case Address => "address"
    case WorkPlace => "workPlace"
  }

  /** Position of a field in AllFields. */
  function FieldIndex(f: LockField): (i: nat)
    ensures i < |AllFields| && AllFields[i] == f
  {
    match f
    case FirstName => 0
    case LastName => 1
    case Phone => 2
    case Address => 3
    case WorkPlace => 4
  }

  /** The four columns of one lockable field `f`: `f`, `fPending`, `fApproved`, `fLocked`. */
  datatype Slots = Slots(value: Option<string>, pending: Option<string>, approved: bool, locked: bool)

  /** A field is under the admin gate when it is both approved and locked. */
  predicate Gated(s: Slots) {
    s.approved && s.locked
  }

  /** The column defaults of a freshly created profile. */
  const BlankSlots := Slots(None, None, false, false)

  datatype Profile = Profile(
    firstName: Slots,
    lastName: Slots,
    phone: Slots,
    address: Slots,
    workPlace: Slots,
    changeRequested: bool,
    /** every other column that has been written, by column name */
    other: map<string, Json>)

  /** The profile `profile: { create: {} }` produces. */
  const EmptyProfile := Profile(BlankSlots, BlankSlots, BlankSlots, BlankSlots, BlankSlots, false, map[])

  function Slot(p: Profile, f: LockField): Slots {
    match f
    case FirstName => p.firstName
    case LastName => p.lastName
    case Phone => p.phone
    case Address => p.address
    case WorkPlace => p.workPlace
  }

  function WithSlot(p: Profile, f: LockField, s: Slots): (q: Profile)
    ensures Slot(q, f) == s
    ensures forall g :: g != f ==> Slot(q, g) == Slot(p, g)
    ensures q.changeRequested == p.changeRequested && q.other == p.other
  {
    match f
    case FirstName => p.(firstName := s)
    case LastName => p.(lastName := s)
    case Phone => p.(phone := s)
    case Address => p.(address := s)
    case WorkPlace => p.(workPlace := s)
  }

  /** Some lockable field of the profile has a proposal waiting for review. */
  predicate AnyPending(p: Profile)
    ensures AnyPending(p) <==> exists f :: Slot(p, f).pending.Some?
  {
    var r := p.firstName.pending.Some? || p.lastName.pending.Some? || p.phone.pending.Some?
      || p.address.pending.Some? || p.workPlace.pending.Some?;
    assert r ==> (Slot(p, FirstName).pending.Some? || Slot(p, LastName).pending.Some?
      || Slot(p, Phone).pending.Some? || Slot(p, Address).pending.Some? || Slot(p, WorkPlace).pending.Some?);
    r
  }

  /** A pending value only ever exists on a gated field. */
  ghost predicate PendingGated(p: Profile) {
    forall f :: Slot(p, f).pending.Some? ==> Gated(Slot(p, f))
  }

  /** The cached aggregate agrees with the pending slots. */
  ghost predicate FlagAccurate(p: Profile) {
    p.changeRequested <==> AnyPending(p)
  }

  /** The invariant the approval workflow keeps on every stored profile. */
  ghost predicate WorkflowInvariant(p: Profile) {
    PendingGated(p) && FlagAccurate(p)
  }

  /** No approved or locked flag went from true to false between `p` and `q`. */
  ghost predicate FlagsKept(p: Profile, q: Profile) {
    forall f ::
      && (Slot(p, f).approved ==> Slot(q, f).approved)
      && (Slot(p, f).locked ==> Slot(q, f).locked)
  }

  lemma EmptyProfileInvariant()
    ensures WorkflowInvariant(EmptyProfile)
  {
    assert forall f :: Slot(EmptyProfile, f) == BlankSlots;
  }

  lemma {:induction false} FlagsKeptTransitive(p: Profile, q: Profile, s: Profile)
    requires FlagsKept(p, q) && FlagsKept(q, s)
    ensures FlagsKept(p, s)
  {
    forall f ensures (Slot(p, f).approved ==> Slot(s, f).approved) && (Slot(p, f).locked ==> Slot(s, f).locked) {
      assert Slot(p, f).approved ==> Slot(q, f).approved;
      assert Slot(p, f).locked ==> Slot(q, f).locked;
    }
  }
}
