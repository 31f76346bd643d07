/**
 * The approval workflow as a whole: any interleaving of user PATCH requests
 * and admin decisions on one stored profile.
 */
module Workflow {
  import opened Wrappers
  import opened Profiles
  import opened ProfileRoute
  import opened ProfileRequestsRoute

  /** One store write to the profile: a user's PATCH or an admin's decision on one field. */
  datatype Op = UserPatch(payload: Payload) | AdminDecision(field: LockField, action: Action)

  function Step(p: Profile, op: Op): Profile {
    match op
    case UserPatch(pl) => Patched(p, pl)
    case AdminDecision(f, a) => ApplyDecision(p, f, a)
  }

  /** The profile after the operations, in order. */
  function Run(p: Profile, ops: seq<Op>): Profile
    decreases |ops|
  {
    if ops == [] then p else Run(Step(p, ops[0]), ops[1..])
  }

  /**
   * Over any sequence of operations, pending values stay behind the gate
   * and `changeRequested` stays equal to "some pending slot is set".
   */
  lemma {:induction false} RunKeepsInvariant(p: Profile, ops: seq<Op>)
    requires WorkflowInvariant(p)
    ensures WorkflowInvariant(Run(p, ops))
    decreases |ops|
  {
    if ops != [] {
      match ops[0] {
        case UserPatch(pl) => PatchKeepsInvariant(p, pl);
        case AdminDecision(f, a) => DecisionKeepsInvariant(p, f, a);
      }
      RunKeepsInvariant(Step(p, ops[0]), ops[1..]);
    }
  }

  /** Over any sequence of operations, no approved or locked flag is ever reset. */
  lemma {:induction false} RunKeepsFlags(p: Profile, ops: seq<Op>)
    ensures FlagsKept(p, Run(p, ops))
    decreases |ops|
  {
    if ops == [] {
      assert Run(p, ops) == p;
    } else {
      var q := Step(p, ops[0]);
      match ops[0] {
        case UserPatch(pl) => PatchKeepsFlags(p, pl);
        case AdminDecision(f, a) => DecisionKeepsFlags(p, f, a);
      }
      RunKeepsFlags(q, ops[1..]);
      FlagsKeptTransitive(p, q, Run(p, ops));
    }
  }

  /** Whether the operations include an admin approval of `f`. */
  predicate ApprovesField(ops: seq<Op>, f: LockField) {
    exists i :: 0 <= i < |ops| && ops[i] == AdminDecision(f, Approve)
  }

  /**
   * Once a field is approved and locked, only an admin approval of that
   * field changes its live value: user PATCH requests, rejections and
   * decisions on other fields leave it as it is, and it stays gated.
   */
  lemma {:induction false} GatedValueNeedsApproval(p: Profile, ops: seq<Op>, f: LockField)
    requires Gated(Slot(p, f))
    requires !ApprovesField(ops, f)
    ensures Gated(Slot(Run(p, ops), f))
    ensures Slot(Run(p, ops), f).value == Slot(p, f).value
    decreases |ops|
  {
    if ops != [] {
      var q := Step(p, ops[0]);
      match ops[0] {
        case UserPatch(pl) =>
          PatchedSlot(p, pl, f);
        case AdminDecision(g, a) =>
          assert Slot(q, f) == Slot(ApplyAction(p, g, a), f);
          assert g != f || a == Reject by {
            assert ops[0] != AdminDecision(f, Approve);
          }
      }
      GatedValueNeedsApproval(q, ops[1..], f);
    }
  }
}
