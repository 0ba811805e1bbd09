/**
 * Who may run the bot's administrative commands (`user_is_authorized`):
 * the bot's owner, or anyone holding one of the authorised roles.
 */
module Auth {

  type UserId = int
  type RoleId = int

  /** The owner's chat id. */
  const BotOwnerId: UserId := 667011170229682201

  /** The roles whose holders may run admin commands. */
  const AuthorizedRoleIds: set<RoleId> := {1389876000569032764}

  /**
   * `user_is_authorized`: true exactly when the author is the owner or holds
   * at least one authorised role.
   */
  function UserIsAuthorized(authorId: UserId, roleIds: set<RoleId>): (ok: bool)
    ensures ok <==> authorId == BotOwnerId || exists r :: r in roleIds && r in AuthorizedRoleIds
  {
    if authorId == BotOwnerId then true
    else
      Meets(roleIds, AuthorizedRoleIds);
      roleIds * AuthorizedRoleIds != {}
  }

  /** A set intersection is non-empty exactly when the sets share an element. */
  lemma Meets(a: set<RoleId>, b: set<RoleId>)
    ensures a * b != {} <==> exists r :: r in a && r in b
  {
    if exists r :: r in a && r in b {
      var r :| r in a && r in b;
      assert r in a * b;
    } else {
      assert a * b == {};
    }
  }

  /** The owner is authorised whatever roles they hold, none included. */
  lemma OwnerIsAlwaysAuthorized(roleIds: set<RoleId>)
    ensures UserIsAuthorized(BotOwnerId, roleIds)
  {
  }

  /** Anyone else is authorised exactly by holding the admin role. */
  lemma OthersNeedTheRole(authorId: UserId, roleIds: set<RoleId>)
    requires authorId != BotOwnerId
    ensures UserIsAuthorized(authorId, roleIds) <==> 1389876000569032764 in roleIds
  {
    if 1389876000569032764 in roleIds {
      assert 1389876000569032764 in roleIds * AuthorizedRoleIds;
    }
  }

  /** Holding more roles never takes authorisation away. */
  lemma AuthorizationIsMonotone(authorId: UserId, fewer: set<RoleId>, more: set<RoleId>)
    requires fewer <= more
    ensures UserIsAuthorized(authorId, fewer) ==> UserIsAuthorized(authorId, more)
  {
  }
}
