# TeamLegendBOT core, modelled in Dafny

TeamLegendBOT is a Discord bot for a Clash of Clans clan. Most of it is glue:
Discord handlers, calls to the Clash of Clans REST API, and JSON files. This
project models the small deterministic core inside it and proves what that
core guarantees:

- **Tags** (`tags.dfy`, module `Tags`). Normalisation upper-cases a tag
  and removes every `#` wherever it stands (`replace("#", "")`).
  `is_valid_tag` accepts a tag when its normalised form is non-empty and uses
  only the fourteen characters `0289PYLQGRJCUV`. `sanitize_tag` also trims
  whitespace. The link handlers normalise inline the same way.
- **Link files** (`link_store.dfy`, module `Links`). There are two files with
  the same logic: `linked_clans.json` and `linked_profiles.json`. Each maps a
  user id to the ordered list of tags that user linked. The class
  `LinkStore` holds one file's content as a `map` field. Its methods model
  `linkclan`/`linkprofile`, `unlinkclan`/`unlinkprofile` and
  `myclan`/`myprofile`. `bot.dfy` (module `Bot`) holds both files and routes
  each command to its own file.
- **Mail channel** (`mail_channel.dfy`, module `MailChannel`). This is the
  single-slot `mail_channel.json`. The module models `get_mail_channel`,
  `setmailchannel` and the gating at the start of `send_war_message`.
- **Authorisation** (`auth.dfy`, module `Auth`). `user_is_authorized` admits
  the owner, or anyone whose roles meet the authorised role set.
- **Multi-tag war mail** (`war_mail.dfy`, module `WarMail`). `winmail` and
  `lossmail` split their argument on commas. `send_war_mail_for_tags` handles
  each piece in order and skips bad ones.
- **Welcome rule** (`welcome.dfy`, module `Welcome`). `on_member_update`
  sends the welcome only when the special role is among the roles this update
  added.

Invariants proved for the link files:

- No user maps to an empty list.
- No list holds a tag twice.
- Every stored tag is canonical: non-empty and made only of alphabet
  characters.
- A command leaves every other user's entry unchanged.
- Unlinking a tag right after linking it restores the file exactly.

## Model

| member | source | states |
|---|---|---|
| `Auth.UserIsAuthorized` | TeamLegendBOT.py:26-33 | true exactly when the author is the owner or holds some role in the authorised set |
| `Auth.OwnerIsAlwaysAuthorized` | TeamLegendBOT.py:29-31 | the owner is authorised with any role set, the empty one included |
| `Auth.OthersNeedTheRole` | TeamLegendBOT.py:27-33 | anyone other than the owner is authorised exactly when they hold role 1389876000569032764 |
| `Auth.AuthorizationIsMonotone` | TeamLegendBOT.py:32-33 | gaining roles never takes authorisation away |
| `Tags.RemoveHashes` | TeamLegendBOT.py:50 | `replace("#", "")` keeps exactly the characters other than `#`, so no `#` survives anywhere |
| `Tags.Normalize` | TeamLegendBOT.py:125 | the handlers' `tag.upper().replace("#", "")`: the result holds no `#`, is already upper-case, and is no longer than the input |
| `Tags.IsValidTag` | TeamLegendBOT.py:48-51 | `is_valid_tag`: a valid tag is non-empty and so is its normal form; its per-character reading, both ways, is `Tags.ValidTagCharwise` |
| `Tags.SanitizeTag` | TeamLegendBOT.py:591-592 | `sanitize_tag`: the result holds no `#`, is upper-case, and neither starts nor ends with whitespace |
| `Tags.ValidTagCharwise` | TeamLegendBOT.py:48-51 | `is_valid_tag` holds exactly when some character is not `#` and every character is `#` or upper-cases into the alphabet |
| `Tags.BadCharRejects` | TeamLegendBOT.py:48-51 | a single character that is neither `#` nor upper-cases into the alphabet makes `is_valid_tag` reject the whole tag |
| `Tags.AcceptedExamples` | TeamLegendBOT.py:48-51 | `2L80RLGJ8` and `#2l80rlgj8` are accepted |
| `Tags.RejectedExamples` | TeamLegendBOT.py:48-51 | the empty tag, `#`, a tag with `!` and a tag with an inner space are rejected |
| `Tags.NormalizeIdempotent` | TeamLegendBOT.py:125 | normalising an already normalised tag changes nothing |
| `Tags.HandlerValidation` | TeamLegendBOT.py:125-126 | validating the normalised tag decides the same as validating the raw one, and an accepted tag normalises to a canonical tag |
| `Tags.CanonicalIsFixed` | TeamLegendBOT.py:48-51 | a canonical tag is valid, and normalisation and `sanitize_tag` both leave it unchanged |
| `Tags.StripLeadingShape` | TeamLegendBOT.py:592 | stripping the front removes a run of whitespace only and stops at a non-whitespace character |
| `Tags.StripTrailingShape` | TeamLegendBOT.py:592 | stripping the back removes a run of whitespace only and stops at a non-whitespace character |
| `Tags.SanitizeIgnoresPadding` | TeamLegendBOT.py:591-592 | `#` signs and whitespace around a valid tag do not matter: `sanitize_tag` yields the normalised tag, which is valid |
| `Tags.SanitizedValidIsCanonical` | TeamLegendBOT.py:604-606 | a piece that `sanitize_tag` turns into a valid tag comes out canonical |
| `Links.IndexOf` | TeamLegendBOT.py:253 | the position `list.remove` acts on is the first occurrence of the tag |
| `Links.RemoveFirst` | TeamLegendBOT.py:253 | `list.remove` deletes that first occurrence and keeps everything else in order |
| `Links.RemoveFirstKeepsNoDuplicates` | TeamLegendBOT.py:253 | in a duplicate-free list, removal drops exactly that tag, shortens the list by one and keeps it duplicate-free |
| `Links.Appended` | TeamLegendBOT.py:159-169 | appending adds the user's key and leaves every other user's list unchanged |
| `Links.Removed` | TeamLegendBOT.py:253-255 | removing leaves every other user's list unchanged, and keeps the user's key exactly when their list had more than one tag |
| `Links.AppendedWellFormed` | TeamLegendBOT.py:159-171 | appending an absent canonical tag keeps the file well-formed: no empty list, no duplicate, only canonical tags |
| `Links.RemovedWellFormed` | TeamLegendBOT.py:253-258 | removing a linked tag keeps the file well-formed; in particular an emptied list takes its key with it |
| `Links.UnlinkUndoesLink` | TeamLegendBOT.py:253-255 | unlinking a tag right after linking it restores the file exactly |
| `Links.LinkAllInOrder` | TeamLegendBOT.py:159-169 | linking distinct new tags one by one lists them after the old ones, in linking order |
| `Links.LinkAllWellFormed` | TeamLegendBOT.py:155-171 | linking any sequence of canonical tags, repeats included, keeps the file well-formed and holds exactly the old tags plus the linked ones |
| `Links.LinkStepIdempotent` | TeamLegendBOT.py:162-167 | linking the same tag twice has the effect of linking it once |
| `Links.LinkStore.constructor` | TeamLegendBOT.py:54-57 | at startup a missing link file is created holding `{}`, and a file an earlier run left is kept as it is; either way the file is well-formed |
| `Links.LinkStore.Link` | TeamLegendBOT.py:124-171 | rejects an invalid tag, then a failed lookup (not found or API error), before touching the file. Otherwise it reports "already linked" without writing, or appends the normalised canonical tag. Other users are untouched and the file stays well-formed |
| `Links.LinkStore.Unlink` | TeamLegendBOT.py:233-258 | reports "not linked" without writing when the user has no entry or the normalised tag is not in their list. Otherwise it removes the tag and drops the key if the list empties. The file stays well-formed |
| `Links.LinkStore.List` | TeamLegendBOT.py:286-302 | a missing key and an empty list both give "no links"; otherwise the tags come in stored order |
| `Bot.TeamLegendBot.constructor` | TeamLegendBOT.py:53-57 | at startup each of the three files is created holding `{}` when missing and kept as it is when present |
| `Bot.TeamLegendBot.LinkClan` | TeamLegendBOT.py:123-178 | `Links.LinkStore.Link`'s whole contract on the clan file (each failure outcome, the normalised canonical tag, the exact new file); the profile file is unchanged |
| `Bot.TeamLegendBot.UnlinkClan` | TeamLegendBOT.py:232-263 | unlinks from the clan file only; the profile file is unchanged |
| `Bot.TeamLegendBot.MyClan` | TeamLegendBOT.py:274-302 | lists the user's clan tags in linking order, or "no links" |
| `Bot.TeamLegendBot.LinkProfile` | TeamLegendBOT.py:325-378 | `Links.LinkStore.Link`'s whole contract on the profile file (each failure outcome, the normalised canonical tag, the exact new file); the clan file is unchanged |
| `Bot.TeamLegendBot.UnlinkProfile` | TeamLegendBOT.py:389-420 | unlinks from the profile file only; the clan file is unchanged |
| `Bot.TeamLegendBot.MyProfile` | TeamLegendBOT.py:431-459 | lists the user's player tags in linking order, or "no links" |
| `MailChannel.ReadChannel` | TeamLegendBOT.py:35-46 | gives a channel exactly when the file is readable, holds a `channel_id`, and the bot can see that channel; a missing file, a read failure or a missing key give none |
| `MailChannel.MailChannelConfig.Get` | TeamLegendBOT.py:35-46 | `get_mail_channel` on the current file: a channel exactly when the file holds a `channel_id` the bot can see, and then that one |
| `MailChannel.MailChannelConfig.constructor` | TeamLegendBOT.py:54-57 | a missing mail-channel file is created holding `{}`; an existing one is kept |
| `MailChannel.MailChannelConfig.SetMailChannel` | TeamLegendBOT.py:572-582 | an unauthorised author is refused first and nothing is written. With no channel, nothing is written. Otherwise the slot is overwritten with exactly that channel id |
| `MailChannel.MailChannelConfig.SendWarMessage` | TeamLegendBOT.py:482-524 | an unauthorised author is refused first, then an empty slot stops with "not set". Then a war request without a 200 answer stops with "no current war", and an answer without an opponent stops with "opponent missing". An announcement goes out exactly when the answer names an opponent. It goes to the configured channel, with the win template exactly when the war type is `"win"` |
| `WarMail.Split` | TeamLegendBOT.py:669 | `split(",")` always gives at least one piece, and no piece holds a comma |
| `WarMail.JoinSplit` | TeamLegendBOT.py:669 | joining the pieces back with commas gives the input: splitting loses nothing |
| `WarMail.SplitJoin` | TeamLegendBOT.py:669 | comma-free pieces survive a join and a split unchanged |
| `WarMail.TemplateFor` | TeamLegendBOT.py:623 | the win template exactly for the war type `"win"`, the loss template for every other |
| `WarMail.RoundFor` | TeamLegendBOT.py:603-651 | one round of the loop. A piece reaches the API only if it sanitises to a valid tag, and it is then named by its canonical tag. An invalid piece is reported stripped. The reply is the one this piece's own request got; if that request raises, the round ends with no answer. A mail goes out exactly when the reply names both clans, with the template for the war type |
| `WarMail.AnsweredInOrderUnique` | TeamLegendBOT.py:602-613 | there is only one way to answer the pieces in order, so the answers and the abort are determined by the pieces and the replies |
| `WarMail.AllAnsweredWithoutRaise` | TeamLegendBOT.py:602-613 | when no fetch raises, every piece is answered |
| `WarMail.RepeatedTagCanGetNewReply` | TeamLegendBOT.py:594-613 | each piece makes its own request: `2L80RLGJ8,2L80RLGJ8` can mail for the first piece and then end on an exception for the second |
| `WarMail.SendWarMailForTags` | TeamLegendBOT.py:602-651 | answers the pieces in input order, each as its round says. An invalid piece or a clan not at war does not stop the pieces after it. A fetch that raises ends the command, and the later pieces get no answer |
| `WarMail.WarMailCommand` | TeamLegendBOT.py:655-670 | a missing or empty argument is refused before any processing; otherwise the comma-separated pieces are answered in order as above |
| `WarMail.WinMail` | TeamLegendBOT.py:654-670 | the pieces are answered in order as above with war type `"win"`, and every mail sent uses the win template |
| `WarMail.LossMail` | TeamLegendBOT.py:673-689 | the pieces are answered in order as above with war type `"loss"`, and every mail sent uses the loss template |
| `Welcome.AddedRoles` | TeamLegendBOT.py:89 | holds exactly the roles in the new list that were not in the old one |
| `Welcome.OnMemberUpdate` | TeamLegendBOT.py:87-106 | the welcome is sent exactly when this update added the special role and the welcome channel is visible; the loop stops at that role |

## Left out

- Discord wiring is not modelled: `on_ready`, `bot.run`, command decorators, the `.error` handlers, `hello`, `HelpSelect`/`HelpView`, `help_command` and `HELP_PAGES`. This is user interface on a foreign library.
- The Clash of Clans API is not modelled. The lookup that gates linking is the input `Links.Lookup`: found, not found, or unreachable. `fetch_war_info` is a function argument, indexed by the piece's position, so each piece's request has its own outcome: a reply, no reply (`None`), or an exception. The current-war request of `send_war_message` is the input `CurrentWar`. `debugtoken` and the per-tag name lookups of `myclan`/`myprofile` are left out; they only affect display.
- `send_war_message` does not guard its `requests.get` against exceptions, so a network failure there aborts the command. The model leaves this out with the rest of the network.
- Message and embed text is not modelled, including the war templates. Only the choice between the win and loss templates is.
- File I/O is replaced by state. Each link file is a `map` field. A file present at startup is taken as given, and it must be well-formed, since only these commands write it. A link file deleted after startup is not modelled: `linkclan` would raise, while `unlinkclan`/`myclan` would report "not linked". The code raises on a corrupt link file in every link command, since `json.load` is unguarded; this is not modelled.
- `bot.get_channel` is modelled as the set of channel ids the bot can see (mail channel), or a boolean (welcome channel). The `TextChannel` argument of `setmailchannel` is an `Option` of a channel id.
- The user key `str(ctx.author.id)` is taken as a given string.
- Each command's read-modify-write of a link file contains no `await`, so one bot process runs it without interleaving, as the model's methods do. Several processes sharing the files could lose updates; that is not modelled.
- Loading the token through `dotenv`/`os.getenv` is not modelled.
- Tags.UpperChar: upper-cases ASCII letters only, where Python's `str.upper` covers all of Unicode. This does not change any `is_valid_tag` verdict: no non-ASCII character upper-cases to a string made only of alphabet characters. Strings holding such characters are rejected either way, and they never reach a link file.
- Tags.IsWhitespace: lists the code points for which Python's `str.isspace()` is true, as of Unicode 15.
