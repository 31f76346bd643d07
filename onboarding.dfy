/**
 * The invite lifecycle across two routes: the admin invite creates a user
 * and a token, and the set-password route consumes the token once.
 */
module Onboarding {
  import opened Wrappers
  import opened Common
  import opened Profiles
  import opened Db
  import opened InviteRoute
  import opened SetPasswordRoute

  /**
   * A freshly issued invite can be redeemed up to and including seven days
   * after issue and is refused as expired afterwards. Redeeming gives the
   * invitee the password hash and clears its invited flag; the user stays a
   * SUB with the same address.
   */
  lemma InviteThenRedeem(t: Tables, form: InviteForm, id: UserId, token: string, now: int,
                         redeem: Form, later: int, hash: string -> string)
    requires TablesValid(t)
    requires Insert(t, Invitee(form, id), EmptyProfile, Some(InviteFor(id, token, now))).Some?
    requires redeem.token == token
    ensures var issued := Insert(t, Invitee(form, id), EmptyProfile, Some(InviteFor(id, token, now))).value;
      var outcome := Redeem(issued, redeem, later, hash);
      && (outcome.Success? <==> later <= now + InviteLifetime)
      && (later > now + InviteLifetime ==> outcome == Failure(Expired))
      && (outcome.Success? ==>
            && outcome.value.users[id] == User(id, form.name, form.email, Some(hash(redeem.password)), Sub, false)
            && TablesValid(outcome.value))
  {
    var issued := Insert(t, Invitee(form, id), EmptyProfile, Some(InviteFor(id, token, now))).value;
    EmptyProfileInvariant();
    InsertKeepsValid(t, Invitee(form, id), EmptyProfile, Some(InviteFor(id, token, now)));
    if Redeem(issued, redeem, later, hash).Success? {
      RedeemKeepsValid(issued, redeem, later, hash);
    }
  }

  /**
   * Redeeming a token twice: the second attempt is refused as already used,
   * and the first attempt's writes stay as they were.
   */
  lemma RedeemOnce(t: Tables, first: Form, now: int, second: Form, later: int, hash: string -> string)
    requires TablesValid(t)
    requires Redeem(t, first, now, hash).Success?
    requires second.token == first.token
    ensures var after := Redeem(t, first, now, hash).value;
      && Redeem(after, second, later, hash) == Failure(AlreadyUsed)
      && after.tokens[first.token].used
      && !after.users[t.tokens[first.token].userId].isInvited
  {
    ReplayFails(t, first, now, second, later, hash);
  }
}
