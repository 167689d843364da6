# Community chat hub: store, feed, composer, sidebar and helpers

This project models the client-side core of a Discord-style chat application.

**The entity store.** The store keeps seven slots: the current user, users, servers, channels, channel categories, messages and server membership rows. It offers add, shallow-merge update, delete and query operations on them.
- `AppContext.AppStore` is a class with one field per slot. Each method reassigns the slots and is specified by an operation on `StoreState.Snapshot`, the seven slots taken as one value.
- The operations follow the source's cascades:
  - deleting a server removes everything with that server id;
  - deleting a channel removes its messages;
  - deleting a category keeps its channels and clears their category reference.

**Reaction bookkeeping.** Each message holds `{emoji, userIds, count}` entries, and `Reactions` models the per-message bodies of `addReaction` and `removeReaction`. The count is stored separately from the user list. So "count equals the number of distinct users, at most one entry per emoji" (`Reactions.WellFormed`) is an invariant the operations have to keep, not a definition. The model reproduces two places where the code is weaker than that invariant:
- `removeReaction` lowers the count even when the user was not listed. `Reactions.RemoveReactionWellFormed` shows the invariant survives exactly when the user was listed or the entry had a count of 1.
- `addServerMember` appends to `memberIds` without a duplicate check. `StoreLemmas.AddServerMemberDuplicates` and `StoreLemmas.CreateServerListsOwnerTwice` show the duplicate this produces.

**Membership and references.** `StoreState.MembershipInSync` says that the servers' `memberIds` and the membership rows record the same (server, user) pairs. `StoreState.Integrity` says that nothing refers to a record that does not exist. `StoreLemmas` proves which operations keep each of them. `DemoData` is the first-run demo data, and `DemoData.DemoInvariants` proves that it satisfies both invariants and the reaction invariant.

**The components.**
- `MessageList`: the channel feed (filtered, then a stable sort by creation time), the reaction highlight, and the reaction toggle.
- `MessageInput`: the submit guard and mention extraction.
- `ChannelSidebar`: channels grouped under categories and ordered by position, plus the set of collapsed categories (class `CategoryCollapse`).
- `Utils`: `cn`, `getInitials` and the relative-time buckets of `formatTimestamp`.

**The data model (`Types`).**
- `UserRole` and `UserStatus` are three-valued enumerations, and `ChannelType` is `Text | Voice`.
- The optional fields are `Option`s: a channel's category and description, a server's description, a message's `editedAt`, `replyToId` and attachments, and a member's nickname.
- `ServerMember` has no id of its own and is keyed by (server id, user id). `ChannelCategory` has no creation time.
- A `Partial<T>` update is a patch datatype. It holds an `Option` per field, and `Option<Option<_>>` for optional fields, so that "key absent" differs from "set to undefined".
- Timestamps are integers (milliseconds), and the fresh id and the clock value are parameters of the operations.

Shared helpers:
- `Seqs`: filter, map, first match, subsequence, distinctness.
- `Sorting`: a stable insertion sort by an integer key, standing for `Array.prototype.sort` with a key-difference comparator.
- `Strings`: `split` and `join` on a single character, with a proof that they are inverse.

## Model

| member | source | states |
|---|---|---|
| AppContext.AppStore.constructor | app/lib/context/AppContext.tsx:65-71 | The seven slots start as the persisted values. |
| AppContext.AppStore.SetCurrentUser | app/lib/context/AppContext.tsx:65 | Only the current user changes, to the given user or none. |
| AppContext.AppStore.Mount | app/lib/context/AppContext.tsx:74-78 | With no users, every slot is replaced by the demo data; otherwise nothing changes. |
| DemoData.DemoInvariants | app/lib/context/AppContext.tsx:80-270 | With distinct fresh ids, the demo data has well-formed reactions, member lists in step with the membership rows, and no dangling reference. |
| DemoData.DemoListedAreRows | app/lib/context/AppContext.tsx:113-134 | Every user listed by a demo server has a demo membership row for that server. |
| DemoData.DemoRowsAreListed | app/lib/context/AppContext.tsx:237-269 | Every demo membership row is listed by its server. |
| DemoData.DemoReactionsWellFormed | app/lib/context/AppContext.tsx:201-235 | The demo messages' reactions are well formed (one entry per emoji, count equals the distinct users). |
| DemoData.DemoIntegrity | app/lib/context/AppContext.tsx:136-235 | The demo channels, categories, messages and rows refer only to existing records of their own server. |
| AppContext.AppStore.AddUser | app/lib/context/AppContext.tsx:273-281 | Returns the draft completed with the fresh id and time, appended to the users; nothing else changes. |
| StoreState.AddUser | app/lib/context/AppContext.tsx:273-281 | One user is appended, with the fresh id and the creation time; the old users stay as a prefix; no other slot changes. |
| Types.MergeUser | app/lib/context/AppContext.tsx:284 | The empty patch changes nothing; every field the patch leaves out keeps the user's value. |
| StoreState.UpdateUser | app/lib/context/AppContext.tsx:283-288 | Users with the id are merged with the patch, others kept; the current user is merged exactly when it has the id; an unknown id leaves the users unchanged. |
| AppContext.AppStore.UpdateUser | app/lib/context/AppContext.tsx:283-288 | The new state is `StoreState.UpdateUser` of the old one. |
| AppContext.AppStore.AddServer | app/lib/context/AppContext.tsx:291-299 | Returns the draft completed with the fresh id and time, appended to the servers; nothing else changes. |
| StoreState.AddServer | app/lib/context/AppContext.tsx:291-299 | One server is appended with the fresh id and time; the old servers stay as a prefix; no other slot changes. |
| Types.MergeServer | app/lib/context/AppContext.tsx:302 | The empty patch changes nothing; id, owner, member list and creation time are kept unless the patch sets them; an explicit undefined description clears it. |
| Types.MergeAgain | app/lib/context/AppContext.tsx:302 | Spreading a patch over its own result changes nothing more, for every entity. |
| StoreState.UpdateServer | app/lib/context/AppContext.tsx:301-303 | Servers with the id are merged, others kept in place; an unknown id changes nothing. |
| AppContext.AppStore.UpdateServer | app/lib/context/AppContext.tsx:301-303 | The new state is `StoreState.UpdateServer` of the old one. |
| StoreState.DeleteServer | app/lib/context/AppContext.tsx:305-311 | Exactly the servers, channels, messages, categories and rows of other servers remain, each slot a subsequence of the old one with every kept record as often as before; users unchanged. |
| AppContext.AppStore.DeleteServer | app/lib/context/AppContext.tsx:305-311 | The new state is `StoreState.DeleteServer` of the old one. |
| StoreLemmas.DeleteServerKeepsIntegrity | app/lib/context/AppContext.tsx:305-311 | After deleting a server nothing refers to a record that is gone. |
| StoreLemmas.DeleteServerSync | app/lib/context/AppContext.tsx:305-311 | Deleting a server keeps member lists and membership rows in step. |
| AppContext.AppStore.GetUserServers | app/lib/context/AppContext.tsx:313-315 | Exactly the servers listing the user, each with its multiplicity, in store order. |
| AppContext.AppStore.AddChannel | app/lib/context/AppContext.tsx:318-326 | Returns the draft completed with the fresh id and time, appended to the channels; nothing else changes. |
| StoreState.AddChannel | app/lib/context/AppContext.tsx:318-326 | One channel is appended with the fresh id and time; the old channels stay as a prefix; no other slot changes. |
| Types.MergeChannel | app/lib/context/AppContext.tsx:329 | The empty patch changes nothing; id, server, category and position are kept unless the patch sets them; an explicit undefined category clears it. |
| StoreLemmas.AddChannelIntegrity | app/lib/context/AppContext.tsx:318-326 | A new channel keeps integrity exactly when its server exists and its category, if any, belongs to that server. |
| StoreState.UpdateChannel | app/lib/context/AppContext.tsx:328-330 | Channels with the id are merged, others kept; an unknown id changes nothing. |
| AppContext.AppStore.UpdateChannel | app/lib/context/AppContext.tsx:328-330 | The new state is `StoreState.UpdateChannel` of the old one. |
| StoreState.DeleteChannel | app/lib/context/AppContext.tsx:332-335 | Exactly the other channels and the messages of other channels remain, in order and each as often as before; all other slots unchanged. |
| AppContext.AppStore.DeleteChannel | app/lib/context/AppContext.tsx:332-335 | The new state is `StoreState.DeleteChannel` of the old one. |
| StoreLemmas.DeleteChannelKeepsIntegrity | app/lib/context/AppContext.tsx:332-335 | Deleting a channel, with its messages, keeps integrity. |
| AppContext.AppStore.GetServerChannels | app/lib/context/AppContext.tsx:337-339 | Exactly the channels of the server, each with its multiplicity, in store order. |
| AppContext.AppStore.AddCategory | app/lib/context/AppContext.tsx:342-349 | Returns the draft completed with the fresh id (no timestamp), appended to the categories. |
| StoreState.AddCategory | app/lib/context/AppContext.tsx:342-349 | One category is appended with the fresh id; the old categories stay as a prefix; no other slot changes. |
| Types.MergeCategory | app/lib/context/AppContext.tsx:352 | The empty patch changes nothing; id, server and position are kept unless the patch sets them. |
| StoreLemmas.AddCategoryIntegrity | app/lib/context/AppContext.tsx:342-349 | A new category keeps integrity exactly when its server exists. |
| StoreState.UpdateCategory | app/lib/context/AppContext.tsx:351-353 | Categories with the id are merged, others kept; an unknown id changes nothing. |
| AppContext.AppStore.UpdateCategory | app/lib/context/AppContext.tsx:351-353 | The new state is `StoreState.UpdateCategory` of the old one. |
| StoreState.DeleteCategory | app/lib/context/AppContext.tsx:355-363 | Only the category goes, the others staying in order and as often as before; every channel stays, with its category cleared exactly when it named the category and no other field changed. |
| AppContext.AppStore.DeleteCategory | app/lib/context/AppContext.tsx:355-363 | The new state is `StoreState.DeleteCategory` of the old one. |
| StoreLemmas.DeleteCategoryKeepsIntegrity | app/lib/context/AppContext.tsx:355-363 | Deleting a category keeps integrity. |
| AppContext.AppStore.AddMessage | app/lib/context/AppContext.tsx:366-377 | Returns the draft completed with the fresh id and time and no reactions, appended to the messages. |
| StoreState.AddMessage | app/lib/context/AppContext.tsx:366-377 | One message is appended with the fresh id, the creation time and no reactions; the old messages stay as a prefix; no other slot changes. |
| Types.MergeMessage | app/lib/context/AppContext.tsx:382 | The empty patch changes nothing; id, author, channel and server, creation time and reactions are kept unless the patch sets them. |
| StoreLemmas.AddMessageIntegrity | app/lib/context/AppContext.tsx:366-377 | A new message keeps integrity exactly when it names an existing channel of its server. |
| StoreLemmas.AddMessageKeepsWellFormed | app/lib/context/AppContext.tsx:366-377 | A new message keeps every reaction list well formed. |
| StoreState.UpdateMessage | app/lib/context/AppContext.tsx:379-385 | Messages with the id are merged and stamped edited at `now` whatever the patch; others kept; an unknown id changes nothing. |
| AppContext.AppStore.UpdateMessage | app/lib/context/AppContext.tsx:379-385 | The new state is `StoreState.UpdateMessage` of the old one. |
| StoreState.DeleteMessage | app/lib/context/AppContext.tsx:387-389 | Exactly the messages with other ids remain, in order and each as often as before; nothing cascades. |
| AppContext.AppStore.DeleteMessage | app/lib/context/AppContext.tsx:387-389 | The new state is `StoreState.DeleteMessage` of the old one. |
| AppContext.AppStore.GetChannelMessages | app/lib/context/AppContext.tsx:391-393 | Exactly the messages of the channel, each with its multiplicity, in store order. |
| StoreState.AddReaction | app/lib/context/AppContext.tsx:395-423 | Only reactions of messages with the id change, as `Reactions.AddReaction`; an unknown id changes nothing. |
| AppContext.AppStore.AddReaction | app/lib/context/AppContext.tsx:395-423 | The new state is `StoreState.AddReaction` of the old one. |
| Reactions.AddReaction | app/lib/context/AppContext.tsx:400-420 | Either the list keeps its length or exactly `{emoji,[user],1}` is appended, the latter only when no entry has the emoji; every entry keeps its emoji, and entries of other emojis are unchanged. |
| Reactions.AddReactionKeepsEmojiUnique | app/lib/context/AppContext.tsx:400-420 | With at most one entry per emoji before, there is at most one after, whatever the ids and counts hold. |
| StoreLemmas.AddReactionKeepsEmojiUnique | app/lib/context/AppContext.tsx:395-423 | No message of the store gets a second entry for an emoji. |
| Reactions.AddReactionCases | app/lib/context/AppContext.tsx:399-420 | No entry: `{emoji,[user],1}` is appended; entry without the user: user appended and count + 1 there only; entry with the user: unchanged. |
| Reactions.AddReactionIdempotent | app/lib/context/AppContext.tsx:399-404 | Adding the same reaction twice equals adding it once. |
| Reactions.AddReactionPreservesWellFormed | app/lib/context/AppContext.tsx:395-423 | Adding keeps one entry per emoji and count equal to the distinct users. |
| StoreLemmas.AddReactionKeepsWellFormed | app/lib/context/AppContext.tsx:395-423 | Adding a reaction keeps every message's reactions well formed. |
| StoreLemmas.AddReactionTwice | app/lib/context/AppContext.tsx:395-423 | On the whole store, adding a reaction twice equals adding it once. |
| StoreState.RemoveReaction | app/lib/context/AppContext.tsx:425-445 | Only reactions of messages with the id change, as `Reactions.RemoveReaction`; an unknown id changes nothing. |
| AppContext.AppStore.RemoveReaction | app/lib/context/AppContext.tsx:425-445 | The new state is `StoreState.RemoveReaction` of the old one. |
| Reactions.RemoveReaction | app/lib/context/AppContext.tsx:432-441 | Every remaining entry has a positive count, and the list does not grow. |
| Reactions.RemoveReactionKeepsOthers | app/lib/context/AppContext.tsx:432-441 | Entries of other emojis with a positive count stay, and every remaining entry of another emoji was there before. |
| Reactions.FilterKeepsEmojiUnique | app/lib/context/AppContext.tsx:441 | Filtering keeps at most one entry per emoji. |
| Reactions.RemoveReactionKeepsEmojiUnique | app/lib/context/AppContext.tsx:432-441 | With at most one entry per emoji before, there is at most one after, unconditionally. |
| StoreLemmas.RemoveReactionKeepsEmojiUnique | app/lib/context/AppContext.tsx:425-445 | No message of the store gets a second entry for an emoji. |
| Reactions.RemoveReactionCases | app/lib/context/AppContext.tsx:431-441 | The emoji's entry is dropped when its count was 1, otherwise loses the user and one count, whether or not the user was listed. |
| Reactions.RemoveReactionNoEntry | app/lib/context/AppContext.tsx:431-441 | Removing an emoji with no entry changes nothing. |
| Reactions.RemoveReactionWellFormed | app/lib/context/AppContext.tsx:433-441 | Removing keeps reactions well formed if and only if the user was listed or the count was 1. |
| StoreLemmas.RemoveReactionKeepsWellFormed | app/lib/context/AppContext.tsx:425-445 | With the user listed (or count 1) under the emoji, removing keeps every reaction list well formed. |
| Reactions.AddThenRemove | app/lib/context/AppContext.tsx:395-445 | With positive counts and the user not listed, add then remove restores the reaction list exactly. |
| StoreLemmas.ReactionToggleRestores | app/lib/context/AppContext.tsx:395-445 | The same inverse law on the whole store. |
| Reactions.TwoReactorsScenario | app/lib/context/AppContext.tsx:395-445 | A then B react: one entry `[A,B]` with count 2; A withdraws: `[B]` with count 1. |
| StoreState.AddServerMember | app/lib/context/AppContext.tsx:448-458 | The row is appended; the user id is appended to every server with the row's server id, unconditionally; other servers untouched. |
| AppContext.AppStore.AddServerMember | app/lib/context/AppContext.tsx:448-458 | The new state is `StoreState.AddServerMember` of the old one. |
| StoreLemmas.AddServerMemberSync | app/lib/context/AppContext.tsx:448-458 | Member lists stay in step with the rows if and only if a server with the row's server id exists. |
| StoreLemmas.AddServerMemberDuplicates | app/lib/context/AppContext.tsx:454 | For a user already listed, the user occurs once more and the list is no longer free of repetitions. |
| StoreLemmas.CreateServerListsOwnerTwice | app/create-server/page.tsx:32-46 | Creating a server listing its owner and then adding the owner's row lists the owner twice. |
| StoreLemmas.CreateServerKeepsSync | app/create-server/page.tsx:32-46 | That same sequence keeps member lists and rows in step. |
| StoreLemmas.AddServerKeepsIntegrity | app/lib/context/AppContext.tsx:291-299 | A new server keeps integrity. |
| StoreState.UpdateServerMember | app/lib/context/AppContext.tsx:460-470 | Rows with the (server, user) key are merged, others kept; an unknown key changes nothing. |
| AppContext.AppStore.UpdateServerMember | app/lib/context/AppContext.tsx:460-470 | The new state is `StoreState.UpdateServerMember` of the old one. |
| Types.MergeMember | app/lib/context/AppContext.tsx:467 | The empty patch changes nothing; the (server, user) key and the join time are kept unless the patch sets them; an explicit undefined nickname clears it. |
| StoreState.RemoveServerMember | app/lib/context/AppContext.tsx:472-484 | Every row with the key goes, the others staying in order and as often as before; every occurrence of the user id leaves the lists of the servers with the id, whose other entries stay in order and as often as before; other servers untouched. |
| AppContext.AppStore.RemoveServerMember | app/lib/context/AppContext.tsx:472-484 | The new state is `StoreState.RemoveServerMember` of the old one. |
| StoreLemmas.RemoveServerMemberSync | app/lib/context/AppContext.tsx:472-484 | Removing a member keeps member lists and rows in step. |
| StoreState.LeaveServerExact | app/lib/context/AppContext.tsx:477-483 | The member list filter keeps every other user id in order and as often as before. |
| AppContext.AppStore.GetServerMembers | app/lib/context/AppContext.tsx:486-488 | Exactly the rows of the server, each with its multiplicity, in store order. |
| Sorting.SortBy | app/components/MessageList.tsx:150 | The result is sorted by the key and is a permutation of the input. |
| Sorting.SortByStable | app/components/ChannelSidebar.tsx:61 | Elements with equal keys keep their relative order. |
| MessageList.ChannelFeed | app/components/MessageList.tsx:148-150 | Exactly the channel's messages, each with its multiplicity, by non-decreasing creation time. |
| MessageList.ChannelFeedStable | app/components/MessageList.tsx:148-150 | Messages with equal creation times keep store order. |
| MessageList.Author | app/components/MessageList.tsx:181 | The first user with the id; none exactly when no user has it. |
| MessageList.FeedItems | app/components/MessageList.tsx:180-182 | The rendered messages are the feed minus those without an author, in order, each with its author. |
| MessageList.HasReacted | app/components/MessageList.tsx:79-81 | Highlighted exactly when there is a non-empty current user id listed in the entry; never without one. |
| MessageList.Reacted | app/components/MessageList.tsx:158-159 | Never when no entry has the emoji; when true, some entry of the emoji lists the user; true when every entry of the emoji lists the user. |
| MessageList.HandleReaction | app/components/MessageList.tsx:152-166 | No call without a user or matching message; otherwise remove if the user is listed under the emoji of the first matching message, add if not. |
| MessageList.HighlightMatchesToggle | app/components/MessageList.tsx:79-81 | The highlight of an entry tells whether a click removes. |
| MessageList.FirstClickAdds | app/components/MessageList.tsx:158-165 | A user not listed under the emoji: the click adds. |
| MessageList.SecondClickRemoves | app/components/MessageList.tsx:158-165 | Right after adding, the click removes. |
| MessageList.ToggleTwiceRestores | app/components/MessageList.tsx:152-166 | Two clicks from a state without the user's reaction add then remove, restoring the store. |
| Strings.Split | app/components/MessageInput.tsx:28 | One piece more than separators, no piece holds the separator, and joining the pieces gives the text back. |
| Strings.SplitJoin | app/lib/utils.ts:84 | Splitting a join of separator-free pieces gives the pieces back. |
| MessageInput.Submit | app/components/MessageInput.tsx:21-41 | Nothing sent iff the text is blank after trimming or nobody is signed in; else the raw text is sent with its mentions and the input cleared. |
| MessageInput.SubmitKeepsSpaces | app/components/MessageInput.tsx:24-33 | Surrounding spaces are kept in what is sent; a whitespace-only text is not sent. |
| MessageInput.MentionsExact | app/components/MessageInput.tsx:27-30 | A name is a mention iff `@name` is a token; mentions hold no space; one mention per `@`-token. |
| MessageInput.MentionsOf | app/components/MessageInput.tsx:27-30 | One mention per `@`-word, in order, each being that word without its `@`; every mention with `@` restored is one of the words. |
| MessageInput.Mentions | app/components/MessageInput.tsx:27-30 | One mention per `@`-token of the text; each mention with `@` restored is a token and holds no space. |
| MessageInput.MentionsOfJoin | app/components/MessageInput.tsx:27-30 | The mentions of space-joined words are those of the words themselves. |
| MessageInput.MentionsExample | app/components/MessageInput.tsx:27-30 | "ping @bob for help" mentions exactly bob. |
| MessageInput.MentionsEdgeCases | app/components/MessageInput.tsx:27-30 | "@" gives [""], "@a@b" gives ["a@b"], a double space adds no mention. |
| MessageInput.MentionsOfExample | app/components/MessageInput.tsx:27-30 | The words "ping", "@bob", "for", "help" mention exactly bob. |
| MessageInput.MentionsOneWord | app/components/MessageInput.tsx:27-30 | A space-free text starting with `@` mentions the rest of itself. |
| MessageInput.MentionsDoubleSpace | app/components/MessageInput.tsx:27-30 | "hi  @x" mentions exactly x: the empty word between the spaces is no mention. |
| ChannelSidebar.ServerChannels | app/components/ChannelSidebar.tsx:23 | Exactly the server's channels, in store order. |
| ChannelSidebar.ServerCategories | app/components/ChannelSidebar.tsx:24 | Exactly the server's categories, in store order. |
| ChannelSidebar.CategoryChannels | app/components/ChannelSidebar.tsx:59-61 | Exactly the channels naming the category, each with its multiplicity, by ascending position. |
| ChannelSidebar.CategoryChannelsStable | app/components/ChannelSidebar.tsx:59-61 | Equal positions keep store order. |
| ChannelSidebar.UncategorizedChannels | app/components/ChannelSidebar.tsx:89-91 | Exactly the channels with no or an empty category, by ascending position. |
| ChannelSidebar.UncategorizedChannelsStable | app/components/ChannelSidebar.tsx:89-91 | Equal positions keep store order. |
| ChannelSidebar.OrderedCategories | app/components/ChannelSidebar.tsx:111-112 | A permutation of the categories by ascending position. |
| ChannelSidebar.OrderedCategoriesStable | app/components/ChannelSidebar.tsx:111-112 | Categories with equal positions keep their store order, as the stable array sort keeps them. |
| ChannelSidebar.Sections | app/components/ChannelSidebar.tsx:63-84 | One section per category; collapsed ones list nothing, expanded ones the category's channels. |
| ChannelSidebar.RenderCategory | app/components/ChannelSidebar.tsx:58-84 | The category's heading; collapsed exactly when its id is in the collapsed set; nothing listed then, else exactly `CategoryChannels` of the server's channels: the channels naming it, each as often as given, by ascending position. |
| ChannelSidebar.Sidebar | app/components/ChannelSidebar.tsx:104-113 | Uncategorized server channels, then a section per server category by position, collapsed ones empty. |
| ChannelSidebar.SidebarShowsOnlyServerChannels | app/components/ChannelSidebar.tsx:23 | A channel of another server is listed nowhere. |
| ChannelSidebar.OrphanChannelHidden | app/components/ChannelSidebar.tsx:59-61 | A channel whose category is not one of the server's is listed nowhere. |
| ChannelSidebar.ChannelListedWhereItBelongs | app/components/ChannelSidebar.tsx:89-91 | A server channel is listed as uncategorized, or under its expanded category. |
| ChannelSidebar.Toggled | app/components/ChannelSidebar.tsx:26-34 | Only the category's membership in the collapsed set flips. |
| ChannelSidebar.ToggledTwice | app/components/ChannelSidebar.tsx:26-34 | Toggling twice restores the set. |
| ChannelSidebar.CategoryCollapse.constructor | app/components/ChannelSidebar.tsx:19-21 | The collapsed set starts empty. |
| ChannelSidebar.CategoryCollapse.ToggleCategory | app/components/ChannelSidebar.tsx:26-34 | The stored set becomes `Toggled` of the old one. |
| Utils.Cn | app/lib/utils.ts:1-3 | With no truthy argument the result is "". |
| Utils.CnSplit | app/lib/utils.ts:1-3 | For space-free names, splitting the result gives exactly the truthy arguments, in order. |
| Utils.CnExample | app/lib/utils.ts:1-3 | Falsy arguments between two names leave "a b". |
| Utils.CnAppend | app/lib/utils.ts:1-3 | A truthy argument appended to the arguments is appended to the result, after a single space unless nothing truthy came before. |
| Strings.JoinSnoc | app/lib/utils.ts:2 | Joining one more piece adds the separator and the piece at the end. |
| Utils.GetInitials | app/lib/utils.ts:82-89 | At most two characters. |
| Utils.GetInitialsOfWords | app/lib/utils.ts:82-89 | For space-separated words, the initials are the upper-cased first letters of the first two non-empty words. |
| Utils.FirstCharsOfNonEmpty | app/lib/utils.ts:85-86 | Empty words add nothing; one first letter per non-empty word, in order. |
| Utils.FirstChars | app/lib/utils.ts:85-86 | At most one character per word. |
| Utils.Upper | app/lib/utils.ts:87 | Same length; each character upper-cased when it is an ASCII lower-case letter, kept otherwise. |
| Utils.GetInitialsTwoWords | app/lib/utils.ts:82-89 | "Demo User" gives "DU". |
| Utils.GetInitialsOneWord | app/lib/utils.ts:82-89 | "alice" gives "A", "" gives "". |
| Utils.Bucket | app/lib/utils.ts:10-31 | Below a minute (negative included) just now; then floor minutes 1-59, hours 1-23, days 1-6, each an iff on the range; from a week a date. |
| Utils.NatToString | app/lib/utils.ts:18 | Non-empty, decimal digits only, no leading zero. |
| Utils.NatToStringValue | app/lib/utils.ts:18 | Reading the digits back gives the number. |
| Utils.BucketText | app/lib/utils.ts:11-31 | No text exactly for the calendar-date bucket; "Just now" below a minute; otherwise the bucket's number in plain decimal digits, without a leading zero, followed by "m ago", "h ago" or "d ago". |
| Utils.PrintedReadsAs | app/lib/utils.ts:18 | A printed number followed by a unit reads back as that number. |
| Utils.DigitsValuePositive | app/lib/utils.ts:18 | Digits that do not start with `0` are worth at least one. |
| Utils.DigitsCanonical | app/lib/utils.ts:18 | Digits without a leading zero are exactly the printed form of their value. |
| Utils.ReadsAsUnique | app/lib/utils.ts:18 | The only text that reads as a number followed by a unit is the printed number followed by the unit, so each bucket's text is determined. |
| Utils.FormatTimestamp | app/lib/utils.ts:5-31 | No relative text iff the difference is a week or more; "Just now" below a minute. |
| Utils.FormatTimestampExamples | app/lib/utils.ts:11-31 | -5 s gives "Just now", 90 s "1m ago", 2 h "2h ago", 6 d 23 h "6d ago". |

## Left out

- Persistence: `useLocalStorage` is not part of this model. The slots are plain fields, and the constructor takes the persisted values as a parameter.
- React state semantics: setter batching and stale closures are not modelled. Each store operation runs to completion on the current slots, so a handler that chains several calls (the create-server page) is modelled as sequential calls.
- `generateId` and `new Date()`: the fresh id and the clock reading are parameters of the operations. The operations do not rely on fresh ids, and only the demo data (`DemoIds.Fresh`) requires them. Each operation reads the clock once.
- `formatMessageTime`, the calendar-date branch of `formatTimestamp`, and ISO-8601 parsing: locale and date formatting. Timestamps are integers in milliseconds, and `Utils.FormatTimestamp` takes the difference `now - timestamp` directly.
- `getRandomColor`: randomness.
- JSX rendering, styling, routing and the redirect timer: presentation only.
- The `useApp` context guard: React plumbing.
- Reactions.RemoveReaction: its own contract states only positivity and length; the other entries are covered by `Reactions.RemoveReactionKeepsOthers`, and the emoji's entry by `Reactions.RemoveReactionCases` (for one entry per emoji and positive counts), so that uses of the function do not carry membership facts the solver has to instantiate.
- Utils.GetInitials: upper-cases ASCII letters only, whereas `toUpperCase` is locale-independent full Unicode case mapping, which can change the length of the string.
- Strings are sequences of characters, not UTF-16 code units. So `n[0]` of a word starting with a surrogate pair, and the `"@".slice(1)` of such a word, are taken per code point.
- Emoji are opaque strings.
- `position` and `count` are integers; fractional JavaScript numbers are not modelled.
- StoreState.UpdateServerMember: its patch may change a row's `serverId` or `userId`, which can break `MembershipInSync`. No lemma claims otherwise.
- StoreLemmas.RemoveReactionKeepsWellFormed: stated only under the precondition under which it holds, since `Reactions.RemoveReactionWellFormed` shows that it fails otherwise.
