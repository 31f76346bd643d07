/**
 * /api/admin/profile-requests: the admin review queue (GET), a projection of
 * the stored profiles into one change request per pending slot, and the
 * admin decision (PATCH) that approves or rejects one field.
 */
module ProfileRequestsRoute {
  import opened Wrappers
  import opened Common
  import opened Profiles
  import opened Db

  /** One entry of the review queue. */
  datatype ChangeRequest = ChangeRequest(
    requestId: string,
    userId: UserId,
    userName: string,
    userEmail: string,
    field: LockField,
    oldValue: Option<string>,
    newValue: string,
    isApproved: bool,
    isLocked: bool)

  /** A profile row as `findMany` returns it, with its user joined. */
  datatype Row = Row(userId: UserId, profile: Profile, user: User)

  /** The `where` clause of the scan: the flag is set and some pending slot is not null. */
  predicate Scanned(p: Profile) {
    p.changeRequested && AnyPending(p)
  }

  function Entry(r: Row, f: LockField): ChangeRequest
    requires Slot(r.profile, f).pending.Some?
  {
    var s := Slot(r.profile, f);
    ChangeRequest(r.userId + "-" + FieldName(f), r.userId, r.user.name, r.user.email,
                  f, s.value, s.pending.value, s.approved, s.locked)
  }

  /** The inner `for` loop over the first `n` fields: one entry per non-null pending slot. */
  function EntriesUpTo(r: Row, n: nat): seq<ChangeRequest>
    requires n <= |AllFields|
  {
    if n == 0 then []
    else
      var f := AllFields[n - 1];
      EntriesUpTo(r, n - 1) + if Slot(r.profile, f).pending.Some? then [Entry(r, f)] else []
  }

  /** The requests one row contributes: the `flatMap` callback. */
  function RowRequests(r: Row): seq<ChangeRequest> {
    EntriesUpTo(r, |AllFields|)
  }

  /** The `flatMap` over the rows of the scan, in the order the store returns them. */
  function Queue(rows: seq<Row>): seq<ChangeRequest> {
    if rows == [] then [] else Queue(rows[..|rows| - 1]) + RowRequests(rows[|rows| - 1])
  }

  lemma {:induction false} EntriesUpToMembership(r: Row, n: nat, e: ChangeRequest)
    requires n <= |AllFields|
    ensures e in EntriesUpTo(r, n) <==>
      exists f :: FieldIndex(f) < n && Slot(r.profile, f).pending.Some? && e == Entry(r, f)
  {
    if n > 0 {
      EntriesUpToMembership(r, n - 1, e);
      var g := AllFields[n - 1];
      assert FieldIndex(g) == n - 1;
      if e in EntriesUpTo(r, n) && e !in EntriesUpTo(r, n - 1) {
        assert Slot(r.profile, g).pending.Some? && e == Entry(r, g);
      }
      if exists f :: FieldIndex(f) < n && Slot(r.profile, f).pending.Some? && e == Entry(r, f) {
        var f :| FieldIndex(f) < n && Slot(r.profile, f).pending.Some? && e == Entry(r, f);
        if FieldIndex(f) == n - 1 {
          assert f == g;
        }
      }
    }
  }

  /** Within one profile the entries follow field order, so each field appears at most once. */
  lemma {:induction false} EntriesUpToOrdered(r: Row, n: nat)
    requires n <= |AllFields|
    ensures forall i :: 0 <= i < |EntriesUpTo(r, n)| ==>
      FieldIndex(EntriesUpTo(r, n)[i].field) < n && EntriesUpTo(r, n)[i].userId == r.userId
    ensures forall i, j :: 0 <= i < j < |EntriesUpTo(r, n)| ==>
      FieldIndex(EntriesUpTo(r, n)[i].field) < FieldIndex(EntriesUpTo(r, n)[j].field)
  {
    if n > 0 {
      EntriesUpToOrdered(r, n - 1);
      var g := AllFields[n - 1];
      assert FieldIndex(g) == n - 1;
    }
  }

  /** Every queue entry is the entry of some row and some field with a pending value. */
  lemma {:induction false} QueueSound(rows: seq<Row>, e: ChangeRequest)
    requires e in Queue(rows)
    ensures exists i, f :: 0 <= i < |rows| && Slot(rows[i].profile, f).pending.Some? && e == Entry(rows[i], f)
  {
    var init, last := rows[..|rows| - 1], rows[|rows| - 1];
    if e in Queue(init) {
      QueueSound(init, e);
      var i, f :| 0 <= i < |init| && Slot(init[i].profile, f).pending.Some? && e == Entry(init[i], f);
      assert rows[i] == init[i];
    } else {
      EntriesUpToMembership(last, |AllFields|, e);
    }
  }

  /** The entry of every row and field with a pending value is in the queue. */
  lemma {:induction false} QueueComplete(rows: seq<Row>, i: nat, f: LockField)
    requires i < |rows| && Slot(rows[i].profile, f).pending.Some?
    ensures Entry(rows[i], f) in Queue(rows)
  {
    var init, last := rows[..|rows| - 1], rows[|rows| - 1];
    if i < |init| {
      assert init[i] == rows[i];
      QueueComplete(init, i, f);
    } else {
      EntriesUpToMembership(last, |AllFields|, Entry(last, f));
    }
  }

  /** The queue holds an entry for each row and field whose pending slot is not null, and nothing else. */
  lemma QueueMembership(rows: seq<Row>, e: ChangeRequest)
    ensures e in Queue(rows) <==>
      exists i, f :: 0 <= i < |rows| && Slot(rows[i].profile, f).pending.Some? && e == Entry(rows[i], f)
  {
    if e in Queue(rows) {
      QueueSound(rows, e);
    }
    if exists i, f :: 0 <= i < |rows| && Slot(rows[i].profile, f).pending.Some? && e == Entry(rows[i], f) {
      var i, f :| 0 <= i < |rows| && Slot(rows[i].profile, f).pending.Some? && e == Entry(rows[i], f);
      QueueComplete(rows, i, f);
    }
  }

  /** Every queue entry belongs to one of the scanned rows. */
  lemma {:induction false} QueueUserIds(rows: seq<Row>)
    ensures forall k :: 0 <= k < |Queue(rows)| ==> exists i :: 0 <= i < |rows| && Queue(rows)[k].userId == rows[i].userId
  {
    if rows != [] {
      var init, last := rows[..|rows| - 1], rows[|rows| - 1];
      QueueUserIds(init);
      EntriesUpToOrdered(last, |AllFields|);
      forall k | 0 <= k < |Queue(rows)| ensures exists i :: 0 <= i < |rows| && Queue(rows)[k].userId == rows[i].userId {
        assert Queue(rows) == Queue(init) + RowRequests(last);
        if k < |Queue(init)| {
          var i :| 0 <= i < |init| && Queue(init)[k].userId == init[i].userId;
          assert rows[i] == init[i];
          assert Queue(rows)[k] == Queue(init)[k];
        } else {
          assert Queue(rows)[k] == RowRequests(last)[k - |Queue(init)|];
          assert Queue(rows)[k].userId == rows[|rows| - 1].userId;
        }
      }
    } else {
      assert Queue(rows) == [];
    }
  }

  /** Rows of distinct profiles yield at most one entry per (user, field): no request is listed twice. */
  lemma {:induction false} QueueUnique(rows: seq<Row>)
    requires forall i, j :: 0 <= i < j < |rows| ==> rows[i].userId != rows[j].userId
    ensures forall k, l :: 0 <= k < l < |Queue(rows)| ==>
      Queue(rows)[k].userId != Queue(rows)[l].userId || Queue(rows)[k].field != Queue(rows)[l].field
  {
    if rows != [] {
      var init, last := rows[..|rows| - 1], rows[|rows| - 1];
      QueueUnique(init);
      QueueUserIds(init);
      EntriesUpToOrdered(last, |AllFields|);
      var q: seq<ChangeRequest>, tail: seq<ChangeRequest> := Queue(init), RowRequests(last);
      assert Queue(rows) == q + tail;
      forall k, l | 0 <= k < l < |q + tail|
        ensures (q + tail)[k].userId != (q + tail)[l].userId || (q + tail)[k].field != (q + tail)[l].field
      {
        if l < |q| {
          assert (q + tail)[k] == q[k] && (q + tail)[l] == q[l];
        } else if k < |q| {
          var i :| 0 <= i < |init| && q[k].userId == init[i].userId;
          assert rows[i] == init[i];
          assert (q + tail)[l] == tail[l - |q|];
        } else {
          assert (q + tail)[k] == tail[k - |q|] && (q + tail)[l] == tail[l - |q|];
        }
      }
    }
  }

  /** The rows the store's scan returns: each stored profile that passes the filter, once, with its user. */
  ghost predicate ScannedRows(rows: seq<Row>, profiles: map<UserId, Profile>, users: map<UserId, User>) {
    && (forall i :: 0 <= i < |rows| ==>
          rows[i].userId in profiles && rows[i].userId in users && Scanned(rows[i].profile)
          && rows[i].profile == profiles[rows[i].userId] && rows[i].user == users[rows[i].userId])
    && (forall i, j :: 0 <= i < j < |rows| ==> rows[i].userId != rows[j].userId)
    && (forall u :: u in profiles && Scanned(profiles[u]) ==> exists i :: 0 <= i < |rows| && rows[i].userId == u)
  }

  /**
   * Under the workflow invariant the `changeRequested` filter drops nothing:
   * the queue lists every non-null pending slot of every stored profile.
   */
  lemma {:induction false} QueueShowsAllPending(rows: seq<Row>, profiles: map<UserId, Profile>,
                                               users: map<UserId, User>, e: ChangeRequest)
    requires ScannedRows(rows, profiles, users)
    requires profiles.Keys <= users.Keys
    requires forall u :: u in profiles ==> WorkflowInvariant(profiles[u])
    ensures e in Queue(rows) <==>
      exists u, f :: u in profiles && Slot(profiles[u], f).pending.Some?
                     && e == Entry(Row(u, profiles[u], users[u]), f)
  {
    QueueMembership(rows, e);
    if e in Queue(rows) {
      var i, f :| 0 <= i < |rows| && Slot(rows[i].profile, f).pending.Some? && e == Entry(rows[i], f);
      assert rows[i] == Row(rows[i].userId, profiles[rows[i].userId], users[rows[i].userId]);
    }
    if exists u, f :: u in profiles && Slot(profiles[u], f).pending.Some?
                      && e == Entry(Row(u, profiles[u], users[u]), f) {
      var u, f :| u in profiles && Slot(profiles[u], f).pending.Some?
                  && e == Entry(Row(u, profiles[u], users[u]), f);
      assert Scanned(profiles[u]);
      var i :| 0 <= i < |rows| && rows[i].userId == u;
      assert rows[i] == Row(u, profiles[u], users[u]);
    }
  }

  /** What the scan has gathered once the keys outside `remaining` are visited. */
  ghost predicate ScanSoFar(rows: seq<Row>, remaining: set<UserId>,
                            profiles: map<UserId, Profile>, users: map<UserId, User>) {
    && (forall i :: 0 <= i < |rows| ==>
          rows[i].userId in profiles && rows[i].userId in users && rows[i].userId !in remaining
          && Scanned(rows[i].profile)
          && rows[i].profile == profiles[rows[i].userId] && rows[i].user == users[rows[i].userId])
    && (forall i, j :: 0 <= i < j < |rows| ==> rows[i].userId != rows[j].userId)
    && (forall u :: u in profiles && Scanned(profiles[u]) && u !in remaining ==>
          exists i :: 0 <= i < |rows| && rows[i].userId == u)
  }

  /** Visiting one more key keeps `ScanSoFar`. */
  lemma ScanStep(rows: seq<Row>, remaining: set<UserId>, uid: UserId,
                 profiles: map<UserId, Profile>, users: map<UserId, User>)
    requires ScanSoFar(rows, remaining, profiles, users)
    requires uid in remaining && uid in profiles && uid in users
    ensures Scanned(profiles[uid]) ==>
      ScanSoFar(rows + [Row(uid, profiles[uid], users[uid])], remaining - {uid}, profiles, users)
    ensures !Scanned(profiles[uid]) ==> ScanSoFar(rows, remaining - {uid}, profiles, users)
  {
    if Scanned(profiles[uid]) {
      var next := rows + [Row(uid, profiles[uid], users[uid])];
      forall u | u in profiles && Scanned(profiles[u]) && u !in remaining - {uid}
        ensures exists i :: 0 <= i < |next| && next[i].userId == u
      {
        if u == uid {
          assert next[|next| - 1].userId == u;
        } else {
          var i :| 0 <= i < |rows| && rows[i].userId == u;
          assert next[i] == rows[i];
        }
      }
    }
  }

  /**
   * The `findMany` scan: every stored profile whose flag is set and which
   * has a non-null pending slot, with its user, in an order the store chooses.
   */
  method ScanProfiles(db: Store) returns (rows: seq<Row>)
    requires db.Valid()
    ensures ScannedRows(rows, db.profiles, db.users)
  {
    var profiles, users := db.profiles, db.users;
    assert profiles.Keys <= users.Keys;
    rows := [];
    var remaining := profiles.Keys;
    while remaining != {}
      invariant remaining <= profiles.Keys
      invariant ScanSoFar(rows, remaining, profiles, users)
      decreases remaining
    {
      var uid :| uid in remaining;
      ScanStep(rows, remaining, uid, profiles, users);
      if Scanned(profiles[uid]) {
        rows := rows + [Row(uid, profiles[uid], users[uid])];
      }
      remaining := remaining - {uid};
    }
  }

  /** The `flatMap` callback: the entries of one row, field by field. */
  method RequestsOfRow(row: Row) returns (found: seq<ChangeRequest>)
    ensures found == RowRequests(row)
  {
    found := [];
    for n := 0 to |AllFields|
      invariant found == EntriesUpTo(row, n)
    {
      var f := AllFields[n];
      if Slot(row.profile, f).pending.Some? {
        found := found + [Entry(row, f)];
      }
    }
  }

  /** GET: admins only; the scan followed by the `flatMap`. Reads only. */
  method GetProfileRequests(db: Store, session: Option<Session>)
    returns (r: Reply<seq<ChangeRequest>>, ghost rows: seq<Row>)
    requires db.Valid()
    ensures !SignedInAdmin(session) ==> r == Fail(Unauthorized, "Unauthorized")
    ensures SignedInAdmin(session) ==>
      && r.Ok? && r.status == 200
      && ScannedRows(rows, db.profiles, db.users)
      && r.body == Queue(rows)
  {
    rows := [];
    if !SignedInAdmin(session) {
      return Fail(Unauthorized, "Unauthorized"), rows;
    }
    var scanned := ScanProfiles(db);
    var requests: seq<ChangeRequest> := [];
    for i := 0 to |scanned|
      invariant requests == Queue(scanned[..i])
    {
      var found := RequestsOfRow(scanned[i]);
      assert scanned[..i + 1][..i] == scanned[..i];
      requests := requests + found;
    }
    assert scanned[..|scanned|] == scanned;
    rows := scanned;
    r := Ok(200, requests);
  }

  datatype Action = Approve | Reject

  function ActionName(a: Action): string {
    match a
    case Approve => "approve"
    case Reject => "reject"
  }

  /** A validated admin decision; the comment is only logged by the source. */
  datatype Decision = Decision(userId: UserId, field: LockField, action: Action, comment: Option<string>)

  /** The message the model reports for a value outside a `z.enum`. */
  const InvalidEnum := "Invalid enum value"

  /** The lockable field with the given column name, if any. */
  function FieldNamed(name: string): (r: Option<LockField>)
    ensures r.Some? ==> FieldName(r.value) == name
    ensures r.None? ==> forall f :: FieldName(f) != name
  {
    if name == "firstName" then Some(FirstName)
    else if name == "lastName" then Some(LastName)
    else if name == "phone" then Some(Phone)
    else if name == "address" then Some(Address)
    else if name == "workPlace" then Some(WorkPlace)
    else None
  }

  function ActionNamed(name: string): (r: Option<Action>)
    ensures r.Some? ==> ActionName(r.value) == name
    ensures r.None? ==> forall a :: ActionName(a) != name
  {
    if name == "approve" then Some(Approve) else if name == "reject" then Some(Reject) else None
  }

  /** `requestUpdateSchema.safeParse`, reporting the first issue in key order. */
  function ParseDecision(body: Json): (r: Result<Decision, string>)
    ensures r.Success? ==> body.JObj? && "userId" in body.fields && body.fields["userId"] == JStr(r.value.userId)
    ensures r.Success? ==> "fieldName" in body.fields && body.fields["fieldName"] == JStr(FieldName(r.value.field))
    ensures r.Success? ==> "action" in body.fields && body.fields["action"] == JStr(ActionName(r.value.action))
    ensures (&& body.JObj? && "userId" in body.fields && body.fields["userId"].JStr?
             && "fieldName" in body.fields && body.fields["fieldName"].JStr?
             && FieldNamed(body.fields["fieldName"].s).None?) ==> r == Failure(InvalidEnum)
    ensures (&& body.JObj? && "userId" in body.fields && body.fields["userId"].JStr?
             && "fieldName" in body.fields && body.fields["fieldName"].JStr?
             && FieldNamed(body.fields["fieldName"].s).Some?
             && "action" in body.fields && body.fields["action"].JStr?
             && ActionNamed(body.fields["action"].s).Some?
             && ("comment" in body.fields ==> body.fields["comment"].JStr?)) ==>
      r == Success(Decision(body.fields["userId"].s, FieldNamed(body.fields["fieldName"].s).value,
                            ActionNamed(body.fields["action"].s).value,
                            if "comment" in body.fields then Some(body.fields["comment"].s) else None))
  {
    if !body.JObj? then Failure(ExpectedObject)
    else
      var m := body.fields;
      match TextField(m, "userId")
      case Failure(e) => Failure(e)
      case Success(userId) =>
        match TextField(m, "fieldName")
        case Failure(e) => Failure(e)
        case Success(name) =>
          if FieldNamed(name).None? then Failure(InvalidEnum)
          else
            match TextField(m, "action")
            case Failure(e) => Failure(e)
            case Success(act) =>
              if ActionNamed(act).None? then Failure(InvalidEnum)
              else if "comment" in m && !m["comment"].JStr? then Failure(ExpectedString)
              else
                var comment := if "comment" in m then Some(m["comment"].s) else None;
                Success(Decision(userId, FieldNamed(name).value, ActionNamed(act).value, comment))
  }

  /**
   * The first store write (`updateData`). Approve moves the pending value,
   * null included, into the live column and sets both flags; reject only
   * clears the pending slot. Nothing else changes.
   */
  function ApplyAction(p: Profile, f: LockField, a: Action): (q: Profile)
    ensures a == Approve ==> Slot(q, f) == Slots(Slot(p, f).pending, None, true, true)
    ensures a == Reject ==> Slot(q, f) == Slot(p, f).(pending := None)
    ensures forall g :: g != f ==> Slot(q, g) == Slot(p, g)
    ensures q.changeRequested == p.changeRequested && q.other == p.other
  {
    var s := Slot(p, f);
    match a
    case Approve => WithSlot(p, f, Slots(s.pending, None, true, true))
    case Reject => WithSlot(p, f, s.(pending := None))
  }

  /** The decision as a whole: the write, then `changeRequested := false` if no pending slot remains. */
  function ApplyDecision(p: Profile, f: LockField, a: Action): Profile {
    var q := ApplyAction(p, f, a);
    if AnyPending(q) then q else q.(changeRequested := false)
  }

  /**
   * The recomputation only ever clears the flag: afterwards it is set iff it
   * was set and some pending slot remains.
   */
  lemma DecisionFlag(p: Profile, f: LockField, a: Action)
    ensures ApplyDecision(p, f, a).changeRequested == (p.changeRequested && AnyPending(ApplyAction(p, f, a)))
    ensures !p.changeRequested ==> !ApplyDecision(p, f, a).changeRequested
    ensures Slot(ApplyDecision(p, f, a), f).pending.None?
  {
  }

  /** A decision keeps the workflow invariant. */
  lemma {:induction false} DecisionKeepsInvariant(p: Profile, f: LockField, a: Action)
    requires WorkflowInvariant(p)
    ensures WorkflowInvariant(ApplyDecision(p, f, a))
  {
    var q := ApplyAction(p, f, a);
    var d := ApplyDecision(p, f, a);
    forall g ensures Slot(d, g) == Slot(q, g) {
    }
    forall g ensures Slot(d, g).pending.Some? ==> Gated(Slot(d, g)) {
      if g != f {
        assert Slot(d, g) == Slot(p, g);
      }
    }
    if AnyPending(q) {
      var g :| Slot(q, g).pending.Some?;
      assert g != f && Slot(p, g).pending.Some?;
    }
  }

  /** A decision never resets an approved or locked flag. */
  lemma DecisionKeepsFlags(p: Profile, f: LockField, a: Action)
    ensures FlagsKept(p, ApplyDecision(p, f, a))
  {
    forall g ensures Slot(ApplyDecision(p, f, a), g) == Slot(ApplyAction(p, f, a), g) {
    }
  }

  /**
   * Approving a field twice does not leave the approved value in place: the
   * first approval clears the pending slot and the second copies that null
   * into the live column.
   */
  lemma ApproveTwiceClearsValue(p: Profile, f: LockField)
    ensures Slot(ApplyDecision(ApplyDecision(p, f, Approve), f, Approve), f).value.None?
  {
    var once := ApplyDecision(p, f, Approve);
    assert Slot(once, f) == Slot(ApplyAction(p, f, Approve), f);
    var twice := ApplyDecision(once, f, Approve);
    assert Slot(twice, f) == Slot(ApplyAction(once, f, Approve), f);
  }

  /**
   * The handler once the body is validated: the profile lookup (404 when
   * missing), the write of `ApplyAction`, and the second write that clears
   * `changeRequested` when no pending slot remains.
   */
  method ApplyRequest(db: Store, d: Decision) returns (r: Reply<string>)
    requires db.Valid()
    modifies db
    ensures db.Valid()
    ensures db.users == old(db.users) && db.tokens == old(db.tokens)
    ensures d.userId !in old(db.profiles) ==>
      r == Fail(NotFound, "User profile not found") && db.profiles == old(db.profiles)
    ensures d.userId in old(db.profiles) ==>
      && r == Ok(200, "Request " + ActionName(d.action) + "ed successfully")
      && db.profiles == old(db.profiles)[d.userId := ApplyDecision(old(db.profiles)[d.userId], d.field, d.action)]
  {
    if d.userId !in db.profiles {
      return Fail(NotFound, "User profile not found");
    }
    var profile := db.profiles[d.userId];
    DecisionKeepsInvariant(profile, d.field, d.action);
    ReplaceProfileKeepsValid(db.Snapshot(), d.userId, ApplyDecision(profile, d.field, d.action));
    // The two store calls in order: the decision's write, then the flag write when nothing is pending.
    var written := ApplyAction(profile, d.field, d.action);
    var profiles := db.profiles[d.userId := written];
    if !AnyPending(written) {
      profiles := profiles[d.userId := written.(changeRequested := false)];
    }
    db.profiles := profiles;
    r := Ok(200, "Request " + ActionName(d.action) + "ed successfully");
  }

  /**
   * PATCH: admins only; a body that is not JSON gives 500, a schema failure
   * 400, an unknown profile 404. Otherwise the field is approved or rejected
   * and the flag is recomputed.
   */
  method DecideRequest(db: Store, session: Option<Session>, body: Option<Json>) returns (r: Reply<string>)
    requires db.Valid()
    modifies db
    ensures db.Valid()
    ensures db.users == old(db.users) && db.tokens == old(db.tokens)
    ensures !SignedInAdmin(session) ==> r == Fail(Unauthorized, "Unauthorized") && db.profiles == old(db.profiles)
    ensures SignedInAdmin(session) && body.None? ==>
      r == Fail(InternalError, ServerError) && db.profiles == old(db.profiles)
    ensures SignedInAdmin(session) && body.Some? && ParseDecision(body.value).Failure? ==>
      r == Fail(BadRequest, ParseDecision(body.value).error) && db.profiles == old(db.profiles)
    ensures SignedInAdmin(session) && body.Some? && ParseDecision(body.value).Success?
            && ParseDecision(body.value).value.userId !in old(db.profiles) ==>
      r == Fail(NotFound, "User profile not found") && db.profiles == old(db.profiles)
    ensures SignedInAdmin(session) && body.Some? && ParseDecision(body.value).Success?
            && ParseDecision(body.value).value.userId in old(db.profiles) ==>
      var d := ParseDecision(body.value).value;
      && r == Ok(200, "Request " + ActionName(d.action) + "ed successfully")
      && db.profiles == old(db.profiles)[d.userId := ApplyDecision(old(db.profiles)[d.userId], d.field, d.action)]
  {
    if !SignedInAdmin(session) {
      return Fail(Unauthorized, "Unauthorized");
    }
    if body.None? {
      return Fail(InternalError, ServerError);
    }
    var parsed := ParseDecision(body.value);
    if parsed.Failure? {
      return Fail(BadRequest, parsed.error);
    }
    r := ApplyRequest(db, parsed.value);
  }
}
