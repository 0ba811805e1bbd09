/**
 * `on_member_update`: when a member gains the special role, the bot posts a
 * welcome message in the welcome channel.
 */
module Welcome {
  import Auth

  type RoleId = Auth.RoleId

  /** The role whose arrival triggers the welcome. */
  const SpecialRoleId: RoleId := 1387690633614987346

  /**
   * `[role for role in after.roles if role not in before.roles]`: the roles
   * the update added, in the order `after` lists them.
   */
  function AddedRoles(before: seq<RoleId>, after: seq<RoleId>): (added: seq<RoleId>)
    ensures forall r :: r in added <==> r in after && r !in before
    ensures |added| <= |after|
  {
    if after == [] then []
    else if after[0] in before then AddedRoles(before, after[1..])
    else [after[0]] + AddedRoles(before, after[1..])
  }

  /**
   * The handler's loop over the added roles: it stops at the special role,
   * sending the welcome when the welcome channel is visible to the bot. So
   * the welcome goes out exactly when the role was gained by this update,
   * and at most once.
   */
  method OnMemberUpdate(before: seq<RoleId>, after: seq<RoleId>, welcomeChannelVisible: bool)
    returns (welcomed: bool)
    ensures welcomed <==> SpecialRoleId in after && SpecialRoleId !in before && welcomeChannelVisible
  {
    var added := AddedRoles(before, after);
    welcomed := false;
    var i := 0;
    while i < |added|
      invariant 0 <= i <= |added|
      invariant !welcomed
      invariant SpecialRoleId !in added[..i]
    {
      if added[i] == SpecialRoleId {
        if welcomeChannelVisible {
          welcomed := true;
        }
        break;
      }
      i := i + 1;
    }
  }
}
