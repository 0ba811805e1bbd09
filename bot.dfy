/**
 * The bot's persistent state: the clan-link file (`LINK_FILE`), the
 * profile-link file (`PROFILE_FILE`) and the mail-channel slot, with the
 * six link commands routed to the file each one uses.
 */
module Bot {
  import Tags
  import Links
  import MailChannel
  import opened Wrappers

  class TeamLegendBot {
    const clans: Links.LinkStore
    const profiles: Links.LinkStore
    const mail: MailChannel.MailChannelConfig

    /** Two separate files, each well-formed. */
    ghost predicate Valid()
      reads this, clans, profiles
    {
      clans != profiles && clans.Valid() && profiles.Valid()
    }

    /**
     * Startup: each of the three files is created holding `{}` when it is
     * missing, and kept as it is when an earlier run left it.
     */
    constructor (clansOnDisk: Option<Links.Table>, profilesOnDisk: Option<Links.Table>,
                 mailOnDisk: MailChannel.MailFile)
      requires clansOnDisk.Some? ==> Links.WellFormed(clansOnDisk.value)
      requires profilesOnDisk.Some? ==> Links.WellFormed(profilesOnDisk.value)
      ensures Valid() && fresh(clans) && fresh(profiles) && fresh(mail)
      ensures clans.data == if clansOnDisk.Some? then clansOnDisk.value else map[]
      ensures profiles.data == if profilesOnDisk.Some? then profilesOnDisk.value else map[]
      ensures mail.file == if mailOnDisk == MailChannel.Missing then MailChannel.Stored(None) else mailOnDisk
    {
      clans := new Links.LinkStore(clansOnDisk);
      profiles := new Links.LinkStore(profilesOnDisk);
      mail := new MailChannel.MailChannelConfig(mailOnDisk);
    }

    /** `linkclan`: the clan file alone may change. */
    method LinkClan(userId: Links.UserKey, rawTag: string, lookup: Links.Lookup) returns (r: Links.LinkResult)
      requires Valid()
      modifies clans
      ensures Valid() && unchanged(profiles)
      ensures r == Links.InvalidTag <==> !Tags.IsValidTag(rawTag)
      ensures r == Links.TagNotFound <==> Tags.IsValidTag(rawTag) && lookup == Links.NotFound
      ensures r == Links.ApiError <==> Tags.IsValidTag(rawTag) && lookup == Links.Unreachable
      ensures r.AlreadyLinked? <==>
                Tags.IsValidTag(rawTag) && lookup == Links.Found
                && Tags.Normalize(rawTag) in old(Links.LinksOf(clans.data, userId))
      ensures r.Linked? || r.AlreadyLinked? ==> r.tag == Tags.Normalize(rawTag) && Tags.Canonical(r.tag)
      ensures clans.data == if r.Linked? then Links.Appended(old(clans.data), userId, r.tag) else old(clans.data)
    {
      r := clans.Link(userId, rawTag, lookup);
    }

    /** `unlinkclan`: the clan file alone may change. */
    method UnlinkClan(userId: Links.UserKey, rawTag: string) returns (r: Links.UnlinkResult)
      requires Valid()
      modifies clans
      ensures Valid() && unchanged(profiles)
      ensures r.tag == Tags.Normalize(rawTag)
      ensures r.Unlinked? <==> r.tag in old(Links.LinksOf(clans.data, userId))
      ensures clans.data == if r.Unlinked? then Links.Removed(old(clans.data), userId, r.tag) else old(clans.data)
    {
      r := clans.Unlink(userId, rawTag);
    }

    /** `myclan`: the user's clan tags in the order they were linked. */
    function MyClan(userId: Links.UserKey): (r: Links.ListResult)
      reads this, clans
      ensures r.Listed? ==> r.tags == Links.LinksOf(clans.data, userId) && r.tags != []
      ensures r.NoLinks? ==> Links.LinksOf(clans.data, userId) == []
    {
      clans.List(userId)
    }

    /** `linkprofile`: the profile file alone may change. */
    method LinkProfile(userId: Links.UserKey, rawTag: string, lookup: Links.Lookup) returns (r: Links.LinkResult)
      requires Valid()
      modifies profiles
      ensures Valid() && unchanged(clans)
      ensures r == Links.InvalidTag <==> !Tags.IsValidTag(rawTag)
      ensures r == Links.TagNotFound <==> Tags.IsValidTag(rawTag) && lookup == Links.NotFound
      ensures r == Links.ApiError <==> Tags.IsValidTag(rawTag) && lookup == Links.Unreachable
      ensures r.AlreadyLinked? <==>
                Tags.IsValidTag(rawTag) && lookup == Links.Found
                && Tags.Normalize(rawTag) in old(Links.LinksOf(profiles.data, userId))
      ensures r.Linked? || r.AlreadyLinked? ==> r.tag == Tags.Normalize(rawTag) && Tags.Canonical(r.tag)
      ensures profiles.data == if r.Linked? then Links.Appended(old(profiles.data), userId, r.tag) else old(profiles.data)
    {
      r := profiles.Link(userId, rawTag, lookup);
    }

    /** `unlinkprofile`: the profile file alone may change. */
    method UnlinkProfile(userId: Links.UserKey, rawTag: string) returns (r: Links.UnlinkResult)
      requires Valid()
      modifies profiles
      ensures Valid() && unchanged(clans)
      ensures r.tag == Tags.Normalize(rawTag)
      ensures r.Unlinked? <==> r.tag in old(Links.LinksOf(profiles.data, userId))
      ensures profiles.data == if r.Unlinked? then Links.Removed(old(profiles.data), userId, r.tag) else old(profiles.data)
    {
      r := profiles.Unlink(userId, rawTag);
    }

    /** `myprofile`: the user's player tags in the order they were linked. */
    function MyProfile(userId: Links.UserKey): (r: Links.ListResult)
      reads this, profiles
      ensures r.Listed? ==> r.tags == Links.LinksOf(profiles.data, userId) && r.tags != []
      ensures r.NoLinks? ==> Links.LinksOf(profiles.data, userId) == []
    {
      profiles.List(userId)
    }
  }
}
