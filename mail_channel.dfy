/**
 * The mail-channel slot (`MAIL_CHANNEL_FILE`), the admin command that sets
 * it (`setmailchannel`) and the gating at the start of the Team Legend war
 * announcement (`send_war_message`, behind `TLwin` and `TLloss`).
 */
module MailChannel {
  import opened Wrappers
  import Auth
  import WarMail

  type ChannelId = int

  /** What `get_mail_channel` can find on disk. */
  datatype MailFile =
    | Missing                                // the file does not exist
    | Unreadable                             // opening or decoding it raises
    | Stored(channelId: Option<ChannelId>)   // a JSON object; `None` when "channel_id" is absent or null

  /**
   * `get_mail_channel`: the configured channel, or nothing when the file is
   * missing, unreadable, holds no id, or names a channel the bot cannot see
   * (`bot.get_channel` returns None).
   */
  function ReadChannel(file: MailFile, visible: set<ChannelId>): (r: Option<ChannelId>)
    ensures r.Some? <==> file.Stored? && file.channelId.Some? && file.channelId.value in visible
    ensures r.Some? ==> file == Stored(Some(r.value))
  {
    match file
    case Missing => None
    case Unreadable => None
    case Stored(id) =>
      if id.None? then None
      else if id.value in visible then Some(id.value)
      else None
  }

  datatype SetResult = SetDenied | NoChannelGiven | ChannelSet(id: ChannelId)

  /** How `send_war_message` ends. */
  datatype WarMessageOutcome =
    | PermissionDenied
    | MailChannelNotSet
    | NoCurrentWar                       // the current-war request did not answer 200
    | OpponentMissing                    // the answer names no opponent
    | Announced(channel: ChannelId, template: WarMail.WarTemplate)

  /**
   * What `send_war_message` reads of the current-war request: whether it
   * answered 200 and, if so, whether it names a (non-empty) opponent.
   */
  datatype CurrentWar = WarUnavailable | WarAvailable(hasOpponent: bool)

  class MailChannelConfig {
    /** The file's content. */
    var file: MailFile

    /** At startup a missing file is created holding `{}`; an existing one is kept. */
    constructor (onDisk: MailFile)
      ensures file == if onDisk == Missing then Stored(None) else onDisk
    {
      if onDisk == Missing {
        file := Stored(None);
      } else {
        file := onDisk;
      }
    }

    /** `get_mail_channel` on the current file. */
    function Get(visible: set<ChannelId>): (r: Option<ChannelId>)
      reads this
      ensures r.Some? <==> file.Stored? && file.channelId.Some? && file.channelId.value in visible
      ensures r.Some? ==> file == Stored(Some(r.value))
    {
      ReadChannel(file, visible)
    }

    /**
     * `setmailchannel`: only an authorised user may set the slot, and only
     * with a channel; the new record replaces the old one whole.
     */
    method SetMailChannel(authorId: Auth.UserId, roleIds: set<Auth.RoleId>, channel: Option<ChannelId>)
      returns (r: SetResult)
      modifies this
      ensures r == SetDenied <==> !Auth.UserIsAuthorized(authorId, roleIds)
      ensures r == NoChannelGiven <==> Auth.UserIsAuthorized(authorId, roleIds) && channel.None?
      ensures r.ChannelSet? ==> channel == Some(r.id)
      ensures file == if r.ChannelSet? then Stored(Some(r.id)) else old(file)
    {
      if !Auth.UserIsAuthorized(authorId, roleIds) {
        return SetDenied;
      }
      if channel.None? {
        return NoChannelGiven;
      }
      file := Stored(Some(channel.value));
      return ChannelSet(channel.value);
    }

    /**
     * The gating of `send_war_message`: the permission check comes first, the
     * slot second, the war lookup last; nothing is stored by any of them.
     */
    method SendWarMessage(authorId: Auth.UserId, roleIds: set<Auth.RoleId>, warType: string,
                          visible: set<ChannelId>, war: CurrentWar)
      returns (r: WarMessageOutcome)
      ensures r == PermissionDenied <==> !Auth.UserIsAuthorized(authorId, roleIds)
      ensures r == MailChannelNotSet <==> Auth.UserIsAuthorized(authorId, roleIds) && Get(visible).None?
      ensures r == NoCurrentWar <==>
                Auth.UserIsAuthorized(authorId, roleIds) && Get(visible).Some? && war.WarUnavailable?
      ensures r == OpponentMissing <==>
                Auth.UserIsAuthorized(authorId, roleIds) && Get(visible).Some? && war == WarAvailable(false)
      ensures r.Announced? <==>
                Auth.UserIsAuthorized(authorId, roleIds) && Get(visible).Some?
                && war.WarAvailable? && war.hasOpponent
      ensures r.Announced? ==> Some(r.channel) == Get(visible) && r.template == WarMail.TemplateFor(warType)
    {
      if !Auth.UserIsAuthorized(authorId, roleIds) {
        return PermissionDenied;
      }
      var mailChannel := Get(visible);
      if mailChannel.None? {
        return MailChannelNotSet;
      }
      if war.WarUnavailable? {
        return NoCurrentWar;
      }
      if !war.hasOpponent {
        return OpponentMissing;
      }
      return Announced(mailChannel.value, WarMail.TemplateFor(warType));
    }
  }
}
