/**
 * The seven state slots of the store (app/lib/context/AppContext.tsx) as one
 * value, and every store operation as a function from the slots before to
 * the slots after. The class `AppContext.AppStore` performs these operations
 * in place; its methods are specified by the functions here.
 */
module StoreState {
  import opened Types
  import opened Seqs
  import Reactions

  datatype Snapshot = Snapshot(
    currentUser: Option<User>,
    users: seq<User>,
    servers: seq<Server>,
    channels: seq<Channel>,
    categories: seq<ChannelCategory>,
    messages: seq<Message>,
    serverMembers: seq<ServerMember>)

  /** Every slot at its storage default. */
  const Empty := Snapshot(None, [], [], [], [], [], [])

  // ---------------------------------------------------------------------------
  // Per-slot transforms: the `map` and `filter` expressions of the operations.

  function PatchUsers(users: seq<User>, id: Id, p: UserPatch): seq<User> {
    Map(users, (u: User) => if u.id == id then MergeUser(u, p) else u)
  }

  function PatchServers(servers: seq<Server>, id: Id, p: ServerPatch): seq<Server> {
    Map(servers, (s: Server) => if s.id == id then MergeServer(s, p) else s)
  }

  function PatchChannels(channels: seq<Channel>, id: Id, p: ChannelPatch): seq<Channel> {
    Map(channels, (c: Channel) => if c.id == id then MergeChannel(c, p) else c)
  }

  function PatchCategories(categories: seq<ChannelCategory>, id: Id, p: CategoryPatch): seq<ChannelCategory> {
    Map(categories, (k: ChannelCategory) => if k.id == id then MergeCategory(k, p) else k)
  }

  /** The merge is followed by the edit stamp, which overrides any `editedAt` in the patch. */
  function PatchMessages(messages: seq<Message>, id: Id, p: MessagePatch, now: Timestamp): seq<Message> {
    Map(messages, (m: Message) => if m.id == id then MergeMessage(m, p).(editedAt := Some(now)) else m)
  }

  function PatchMembers(rows: seq<ServerMember>, serverId: Id, userId: Id, p: MemberPatch): seq<ServerMember> {
    Map(rows, (m: ServerMember) => if m.serverId == serverId && m.userId == userId then MergeMember(m, p) else m)
  }

  function DropServer(servers: seq<Server>, id: Id): (r: seq<Server>)
    ensures forall s :: s in r <==> s in servers && s.id != id
    ensures IsSubsequence(r, servers)
    ensures forall s :: multiset(r)[s] == if s.id != id then multiset(servers)[s] else 0
  {
    FilterExact(servers, (s: Server) => s.id != id);
    Filter(servers, (s: Server) => s.id != id)
  }

  function DropServerChannels(channels: seq<Channel>, serverId: Id): (r: seq<Channel>)
    ensures forall c :: c in r <==> c in channels && c.serverId != serverId
    ensures IsSubsequence(r, channels)
    ensures forall c :: multiset(r)[c] == if c.serverId != serverId then multiset(channels)[c] else 0
  {
    FilterExact(channels, (c: Channel) => c.serverId != serverId);
    Filter(channels, (c: Channel) => c.serverId != serverId)
  }

  function DropServerMessages(messages: seq<Message>, serverId: Id): (r: seq<Message>)
    ensures forall m :: m in r <==> m in messages && m.serverId != serverId
    ensures IsSubsequence(r, messages)
    ensures forall m :: multiset(r)[m] == if m.serverId != serverId then multiset(messages)[m] else 0
  {
    FilterExact(messages, (m: Message) => m.serverId != serverId);
    Filter(messages, (m: Message) => m.serverId != serverId)
  }

  function DropServerCategories(categories: seq<ChannelCategory>, serverId: Id): (r: seq<ChannelCategory>)
    ensures forall k :: k in r <==> k in categories && k.serverId != serverId
    ensures IsSubsequence(r, categories)
    ensures forall k :: multiset(r)[k] == if k.serverId != serverId then multiset(categories)[k] else 0
  {
    FilterExact(categories, (k: ChannelCategory) => k.serverId != serverId);
    Filter(categories, (k: ChannelCategory) => k.serverId != serverId)
  }

  function DropServerMembers(rows: seq<ServerMember>, serverId: Id): (r: seq<ServerMember>)
    ensures forall m :: m in r <==> m in rows && m.serverId != serverId
    ensures IsSubsequence(r, rows)
    ensures forall m :: multiset(r)[m] == if m.serverId != serverId then multiset(rows)[m] else 0
  {
    FilterExact(rows, (m: ServerMember) => m.serverId != serverId);
    Filter(rows, (m: ServerMember) => m.serverId != serverId)
  }

  function DropChannel(channels: seq<Channel>, id: Id): seq<Channel> {
    Filter(channels, (c: Channel) => c.id != id)
  }

  function DropChannelMessages(messages: seq<Message>, channelId: Id): seq<Message> {
    Filter(messages, (m: Message) => m.channelId != channelId)
  }

  function DropCategory(categories: seq<ChannelCategory>, id: Id): seq<ChannelCategory> {
    Filter(categories, (k: ChannelCategory) => k.id != id)
  }

  /** `{ ...c, categoryId: undefined }` on every channel of the category. */
  function Uncategorize(channels: seq<Channel>, categoryId: Id): seq<Channel> {
    Map(channels, (c: Channel) => if c.categoryId == Some(categoryId) then c.(categoryId := None) else c)
  }

  function DropMessage(messages: seq<Message>, id: Id): seq<Message> {
    Filter(messages, (m: Message) => m.id != id)
  }

  function ReactMessages(messages: seq<Message>, id: Id, emoji: string, userId: Id): seq<Message> {
    Map(messages, (m: Message) =>
      if m.id != id then m else m.(reactions := Reactions.AddReaction(m.reactions, emoji, userId)))
  }

  function UnreactMessages(messages: seq<Message>, id: Id, emoji: string, userId: Id): seq<Message> {
    Map(messages, (m: Message) =>
      if m.id != id then m else m.(reactions := Reactions.RemoveReaction(m.reactions, emoji, userId)))
  }

  /** `[...s.memberIds, userId]` on every server with the id, without a duplicate check. */
  function JoinServer(servers: seq<Server>, serverId: Id, userId: Id): seq<Server> {
    Map(servers, (s: Server) => if s.id == serverId then s.(memberIds := s.memberIds + [userId]) else s)
  }

  function LeaveServer(servers: seq<Server>, serverId: Id, userId: Id): seq<Server> {
    Map(servers, (s: Server) => if s.id == serverId then s.(memberIds := Without(s.memberIds, userId)) else s)
  }

  function DropMember(rows: seq<ServerMember>, serverId: Id, userId: Id): seq<ServerMember> {
    Filter(rows, (m: ServerMember) => !(m.serverId == serverId && m.userId == userId))
  }

  // ---------------------------------------------------------------------------
  // Operations.

  /** `addUser`: a user with the fresh id and the creation time is appended; no other slot changes. */
  function AddUser(st: Snapshot, d: UserDraft, id: Id, now: Timestamp): (r: Snapshot)
    ensures r.(users := st.users) == st
    ensures |r.users| == |st.users| + 1 && r.users[..|st.users|] == st.users
    ensures r.users[|st.users|].id == id
    ensures r.users[|st.users|].createdAt == now
  {
    st.(users := st.users + [d.Build(id, now)])
  }

  /**
   * `updateUser`: the users with the id are merged with the patch, and so is
   * the current user when it has that id; with no such user nothing changes.
   */
  function UpdateUser(st: Snapshot, id: Id, p: UserPatch): (r: Snapshot)
    ensures r.(users := st.users, currentUser := st.currentUser) == st
    ensures |r.users| == |st.users|
    ensures forall i :: 0 <= i < |st.users| && st.users[i].id != id ==> r.users[i] == st.users[i]
    ensures forall i :: 0 <= i < |st.users| && st.users[i].id == id ==> r.users[i] == MergeUser(st.users[i], p)
    ensures (forall u :: u in st.users ==> u.id != id) ==> r.users == st.users
    ensures st.currentUser.Some? && st.currentUser.value.id == id ==>
      r.currentUser == Some(MergeUser(st.currentUser.value, p))
    ensures !(st.currentUser.Some? && st.currentUser.value.id == id) ==> r.currentUser == st.currentUser
  {
    var current := if st.currentUser.Some? && st.currentUser.value.id == id
      then Some(MergeUser(st.currentUser.value, p)) else st.currentUser;
    st.(users := PatchUsers(st.users, id, p), currentUser := current)
  }

  /** `addServer`: the server is appended with the fresh id and time; no membership row is written here. */
  function AddServer(st: Snapshot, d: ServerDraft, id: Id, now: Timestamp): (r: Snapshot)
    ensures r.(servers := st.servers) == st
    ensures |r.servers| == |st.servers| + 1 && r.servers[..|st.servers|] == st.servers
    ensures r.servers[|st.servers|].id == id
    ensures r.servers[|st.servers|].createdAt == now
  {
    st.(servers := st.servers + [d.Build(id, now)])
  }

  /** `updateServer`: the servers with the id are merged; with no such server nothing changes. */
  function UpdateServer(st: Snapshot, id: Id, p: ServerPatch): (r: Snapshot)
    ensures r.(servers := st.servers) == st
    ensures |r.servers| == |st.servers|
    ensures forall i :: 0 <= i < |st.servers| ==>
      r.servers[i] == if st.servers[i].id == id then MergeServer(st.servers[i], p) else st.servers[i]
    ensures (forall s :: s in st.servers ==> s.id != id) ==> r == st
  {
    st.(servers := PatchServers(st.servers, id, p))
  }

  /**
   * `deleteServer`: the server goes, and with it every channel, message,
   * category and membership row of that server id; every other record stays,
   * in its original order.
   */
  function DeleteServer(st: Snapshot, id: Id): (r: Snapshot)
    ensures r.currentUser == st.currentUser && r.users == st.users
    ensures forall s :: s in r.servers <==> s in st.servers && s.id != id
    ensures forall c :: c in r.channels <==> c in st.channels && c.serverId != id
    ensures forall m :: m in r.messages <==> m in st.messages && m.serverId != id
    ensures forall k :: k in r.categories <==> k in st.categories && k.serverId != id
    ensures forall m :: m in r.serverMembers <==> m in st.serverMembers && m.serverId != id
    ensures IsSubsequence(r.servers, st.servers) && IsSubsequence(r.channels, st.channels)
    ensures IsSubsequence(r.messages, st.messages) && IsSubsequence(r.categories, st.categories)
    ensures IsSubsequence(r.serverMembers, st.serverMembers)
    ensures forall s :: multiset(r.servers)[s] == if s.id != id then multiset(st.servers)[s] else 0
    ensures forall c :: multiset(r.channels)[c] == if c.serverId != id then multiset(st.channels)[c] else 0
    ensures forall m :: multiset(r.messages)[m] == if m.serverId != id then multiset(st.messages)[m] else 0
    ensures forall k :: multiset(r.categories)[k] == if k.serverId != id then multiset(st.categories)[k] else 0
    ensures forall m :: multiset(r.serverMembers)[m] ==
                        if m.serverId != id then multiset(st.serverMembers)[m] else 0
  {
    st.(servers := DropServer(st.servers, id),
        channels := DropServerChannels(st.channels, id),
        messages := DropServerMessages(st.messages, id),
        categories := DropServerCategories(st.categories, id),
        serverMembers := DropServerMembers(st.serverMembers, id))
  }

  /** `addChannel`: the channel is appended with the fresh id and time. */
  function AddChannel(st: Snapshot, d: ChannelDraft, id: Id, now: Timestamp): (r: Snapshot)
    ensures r.(channels := st.channels) == st
    ensures |r.channels| == |st.channels| + 1 && r.channels[..|st.channels|] == st.channels
    ensures r.channels[|st.channels|].id == id
    ensures r.channels[|st.channels|].createdAt == now
  {
    st.(channels := st.channels + [d.Build(id, now)])
  }

  /** `updateChannel`: the channels with the id are merged; with no such channel nothing changes. */
  function UpdateChannel(st: Snapshot, id: Id, p: ChannelPatch): (r: Snapshot)
    ensures r.(channels := st.channels) == st
    ensures |r.channels| == |st.channels|
    ensures forall i :: 0 <= i < |st.channels| ==>
      r.channels[i] == if st.channels[i].id == id then MergeChannel(st.channels[i], p) else st.channels[i]
    ensures (forall c :: c in st.channels ==> c.id != id) ==> r == st
  {
    st.(channels := PatchChannels(st.channels, id, p))
  }

  /**
   * `deleteChannel`: the channel goes, and exactly the messages posted in it;
   * the other records stay, in order.
   */
  function DeleteChannel(st: Snapshot, id: Id): (r: Snapshot)
    ensures r.(channels := st.channels, messages := st.messages) == st
    ensures forall c :: c in r.channels <==> c in st.channels && c.id != id
    ensures forall m :: m in r.messages <==> m in st.messages && m.channelId != id
    ensures IsSubsequence(r.channels, st.channels) && IsSubsequence(r.messages, st.messages)
    ensures forall c :: multiset(r.channels)[c] == if c.id != id then multiset(st.channels)[c] else 0
    ensures forall m :: multiset(r.messages)[m] == if m.channelId != id then multiset(st.messages)[m] else 0
  {
    FilterExact(st.channels, (c: Channel) => c.id != id);
    FilterExact(st.messages, (m: Message) => m.channelId != id);
    st.(channels := DropChannel(st.channels, id), messages := DropChannelMessages(st.messages, id))
  }

  /** `addCategory`: the category is appended with the fresh id; categories carry no timestamp. */
  function AddCategory(st: Snapshot, d: CategoryDraft, id: Id): (r: Snapshot)
    ensures r.(categories := st.categories) == st
    ensures |r.categories| == |st.categories| + 1 && r.categories[..|st.categories|] == st.categories
    ensures r.categories[|st.categories|].id == id
  {
    st.(categories := st.categories + [d.Build(id)])
  }

  /** `updateCategory`: the categories with the id are merged; with no such category nothing changes. */
  function UpdateCategory(st: Snapshot, id: Id, p: CategoryPatch): (r: Snapshot)
    ensures r.(categories := st.categories) == st
    ensures |r.categories| == |st.categories|
    ensures forall i :: 0 <= i < |st.categories| ==>
      r.categories[i] == if st.categories[i].id == id then MergeCategory(st.categories[i], p) else st.categories[i]
    ensures (forall k :: k in st.categories ==> k.id != id) ==> r == st
  {
    st.(categories := PatchCategories(st.categories, id, p))
  }

  /**
   * `deleteCategory`: the category goes, but its channels stay; they only lose
   * their category reference. No channel or message is removed and no other
   * field of a channel changes.
   */
  function DeleteCategory(st: Snapshot, id: Id): (r: Snapshot)
    ensures r.(categories := st.categories, channels := st.channels) == st
    ensures forall k :: k in r.categories <==> k in st.categories && k.id != id
    ensures IsSubsequence(r.categories, st.categories)
    ensures forall k :: multiset(r.categories)[k] == if k.id != id then multiset(st.categories)[k] else 0
    ensures |r.channels| == |st.channels|
    ensures forall i :: 0 <= i < |st.channels| ==>
      r.channels[i].(categoryId := st.channels[i].categoryId) == st.channels[i]
    ensures forall i :: 0 <= i < |st.channels| ==>
      r.channels[i].categoryId == if st.channels[i].categoryId == Some(id) then None else st.channels[i].categoryId
  {
    FilterExact(st.categories, (k: ChannelCategory) => k.id != id);
    st.(categories := DropCategory(st.categories, id), channels := Uncategorize(st.channels, id))
  }

  /** `addMessage`: the message is appended with the fresh id and time and with no reactions. */
  function AddMessage(st: Snapshot, d: MessageDraft, id: Id, now: Timestamp): (r: Snapshot)
    ensures r.(messages := st.messages) == st
    ensures |r.messages| == |st.messages| + 1 && r.messages[..|st.messages|] == st.messages
    ensures r.messages[|st.messages|].id == id
    ensures r.messages[|st.messages|].createdAt == now
    ensures r.messages[|st.messages|].reactions == []
  {
    st.(messages := st.messages + [d.Build(id, now)])
  }

  /**
   * `updateMessage`: the messages with the id are merged with the patch and
   * stamped as edited at `now`, whatever the patch holds; with no such message
   * nothing changes, not even a stamp.
   */
  function UpdateMessage(st: Snapshot, id: Id, p: MessagePatch, now: Timestamp): (r: Snapshot)
    ensures r.(messages := st.messages) == st
    ensures |r.messages| == |st.messages|
    ensures forall i :: 0 <= i < |st.messages| && st.messages[i].id != id ==> r.messages[i] == st.messages[i]
    ensures forall i :: 0 <= i < |st.messages| && st.messages[i].id == id ==>
      r.messages[i].editedAt == Some(now) &&
      r.messages[i] == MergeMessage(st.messages[i], p).(editedAt := Some(now))
    ensures (forall m :: m in st.messages ==> m.id != id) ==> r == st
  {
    st.(messages := PatchMessages(st.messages, id, p, now))
  }

  /** `deleteMessage`: exactly the messages with the id go; nothing cascades. */
  function DeleteMessage(st: Snapshot, id: Id): (r: Snapshot)
    ensures r.(messages := st.messages) == st
    ensures forall m :: m in r.messages <==> m in st.messages && m.id != id
    ensures IsSubsequence(r.messages, st.messages)
    ensures forall m :: multiset(r.messages)[m] == if m.id != id then multiset(st.messages)[m] else 0
  {
    FilterExact(st.messages, (m: Message) => m.id != id);
    st.(messages := DropMessage(st.messages, id))
  }

  /**
   * `addReaction`: only the reactions of the messages with the id change, as
   * `Reactions.AddReaction` says; with no such message nothing changes.
   */
  function AddReaction(st: Snapshot, messageId: Id, emoji: string, userId: Id): (r: Snapshot)
    ensures r.(messages := st.messages) == st
    ensures |r.messages| == |st.messages|
    ensures forall i :: 0 <= i < |st.messages| ==>
      r.messages[i].(reactions := st.messages[i].reactions) == st.messages[i]
    ensures forall i :: 0 <= i < |st.messages| ==>
      r.messages[i].reactions == if st.messages[i].id == messageId
        then Reactions.AddReaction(st.messages[i].reactions, emoji, userId)
        else st.messages[i].reactions
    ensures (forall m :: m in st.messages ==> m.id != messageId) ==> r == st
  {
    st.(messages := ReactMessages(st.messages, messageId, emoji, userId))
  }

  /**
   * `removeReaction`: only the reactions of the messages with the id change,
   * as `Reactions.RemoveReaction` says; with no such message nothing changes.
   */
  function RemoveReaction(st: Snapshot, messageId: Id, emoji: string, userId: Id): (r: Snapshot)
    ensures r.(messages := st.messages) == st
    ensures |r.messages| == |st.messages|
    ensures forall i :: 0 <= i < |st.messages| ==>
      r.messages[i].(reactions := st.messages[i].reactions) == st.messages[i]
    ensures forall i :: 0 <= i < |st.messages| ==>
      r.messages[i].reactions == if st.messages[i].id == messageId
        then Reactions.RemoveReaction(st.messages[i].reactions, emoji, userId)
        else st.messages[i].reactions
    ensures (forall m :: m in st.messages ==> m.id != messageId) ==> r == st
  {
    st.(messages := UnreactMessages(st.messages, messageId, emoji, userId))
  }

  /**
   * `addServerMember`: the row is appended as given, and its user id is
   * appended to the member list of every server with its server id, even when
   * it is already there. Servers with other ids are untouched.
   */
  function AddServerMember(st: Snapshot, member: ServerMember): (r: Snapshot)
    ensures r.(serverMembers := st.serverMembers, servers := st.servers) == st
    ensures r.serverMembers == st.serverMembers + [member]
    ensures |r.servers| == |st.servers|
    ensures forall i :: 0 <= i < |st.servers| && st.servers[i].id != member.serverId ==>
      r.servers[i] == st.servers[i]
    ensures forall i :: 0 <= i < |st.servers| && st.servers[i].id == member.serverId ==>
      r.servers[i] == st.servers[i].(memberIds := st.servers[i].memberIds + [member.userId])
  {
    st.(serverMembers := st.serverMembers + [member],
        servers := JoinServer(st.servers, member.serverId, member.userId))
  }

  /** `updateServerMember`: the rows with the key are merged; with no such row nothing changes. */
  function UpdateServerMember(st: Snapshot, serverId: Id, userId: Id, p: MemberPatch): (r: Snapshot)
    ensures r.(serverMembers := st.serverMembers) == st
    ensures |r.serverMembers| == |st.serverMembers|
    ensures forall i :: 0 <= i < |st.serverMembers| ==>
      r.serverMembers[i] == if st.serverMembers[i].serverId == serverId && st.serverMembers[i].userId == userId
        then MergeMember(st.serverMembers[i], p) else st.serverMembers[i]
    ensures (forall m :: m in st.serverMembers ==> !(m.serverId == serverId && m.userId == userId)) ==> r == st
  {
    st.(serverMembers := PatchMembers(st.serverMembers, serverId, userId, p))
  }

  /**
   * `removeServerMember`: every row with the key goes, and every occurrence
   * of the user id leaves the member lists of the servers with the server id.
   * Servers with other ids are untouched.
   */
  function RemoveServerMember(st: Snapshot, serverId: Id, userId: Id): (r: Snapshot)
    ensures r.(serverMembers := st.serverMembers, servers := st.servers) == st
    ensures forall m :: m in r.serverMembers <==>
      m in st.serverMembers && !(m.serverId == serverId && m.userId == userId)
    ensures IsSubsequence(r.serverMembers, st.serverMembers)
    ensures forall m :: multiset(r.serverMembers)[m] ==
                        if !(m.serverId == serverId && m.userId == userId) then multiset(st.serverMembers)[m] else 0
    ensures |r.servers| == |st.servers|
    ensures forall i :: 0 <= i < |st.servers| && st.servers[i].id != serverId ==>
      r.servers[i] == st.servers[i]
    ensures forall i :: 0 <= i < |st.servers| && st.servers[i].id == serverId ==>
      r.servers[i].(memberIds := st.servers[i].memberIds) == st.servers[i] &&
      userId !in r.servers[i].memberIds &&
      forall u :: u in r.servers[i].memberIds <==> u in st.servers[i].memberIds && u != userId
    ensures forall i :: 0 <= i < |st.servers| && st.servers[i].id == serverId ==>
      IsSubsequence(r.servers[i].memberIds, st.servers[i].memberIds)
    ensures forall i, u :: 0 <= i < |st.servers| && st.servers[i].id == serverId ==>
      multiset(r.servers[i].memberIds)[u] == if u != userId then multiset(st.servers[i].memberIds)[u] else 0
  {
    LeaveServerExact(st.servers, serverId, userId);
    FilterExact(st.serverMembers, (m: ServerMember) => !(m.serverId == serverId && m.userId == userId));
    st.(serverMembers := DropMember(st.serverMembers, serverId, userId),
        servers := LeaveServer(st.servers, serverId, userId))
  }

  /** Each member list the user leaves keeps every other occurrence, in order. */
  lemma LeaveServerExact(servers: seq<Server>, serverId: Id, userId: Id)
    ensures forall i :: 0 <= i < |servers| && servers[i].id == serverId ==>
      IsSubsequence(LeaveServer(servers, serverId, userId)[i].memberIds, servers[i].memberIds)
    ensures forall i, u :: 0 <= i < |servers| && servers[i].id == serverId ==>
      multiset(LeaveServer(servers, serverId, userId)[i].memberIds)[u] ==
        if u != userId then multiset(servers[i].memberIds)[u] else 0
  {
    forall i | 0 <= i < |servers| && servers[i].id == serverId
      ensures IsSubsequence(LeaveServer(servers, serverId, userId)[i].memberIds, servers[i].memberIds)
      ensures forall u :: multiset(LeaveServer(servers, serverId, userId)[i].memberIds)[u] ==
                          if u != userId then multiset(servers[i].memberIds)[u] else 0
    {
      assert LeaveServer(servers, serverId, userId)[i].memberIds == Without(servers[i].memberIds, userId);
      WithoutExact(servers[i].memberIds, userId);
    }
  }

  // ---------------------------------------------------------------------------
  // Invariants.

  function ServerIds(servers: seq<Server>): set<Id> {
    set s | s in servers :: s.id
  }

  /** (channel id, server id) of every channel. */
  function ChannelKeys(channels: seq<Channel>): set<(Id, Id)> {
    set c | c in channels :: (c.id, c.serverId)
  }

  /** (category id, server id) of every category. */
  function CategoryKeys(categories: seq<ChannelCategory>): set<(Id, Id)> {
    set k | k in categories :: (k.id, k.serverId)
  }

  /** (server id, user id) of every listed member of every server. */
  function ListedKeys(servers: seq<Server>): set<(Id, Id)> {
    set s, u | s in servers && u in s.memberIds :: (s.id, u)
  }

  /** (server id, user id) of every membership row. */
  function MemberKeys(rows: seq<ServerMember>): set<(Id, Id)> {
    set m | m in rows :: (m.serverId, m.userId)
  }

  /**
   * The member lists of the servers and the membership rows record the same
   * memberships: a user is listed by a server with id `s` exactly when a row
   * keyed `(s, user)` exists.
   */
  predicate MembershipInSync(servers: seq<Server>, rows: seq<ServerMember>) {
    ListedKeys(servers) == MemberKeys(rows)
  }

  /** Every reaction list of every message is well formed. */
  predicate ReactionsWellFormed(messages: seq<Message>) {
    forall m :: m in messages ==> Reactions.WellFormed(m.reactions)
  }

  /** No message has two reaction entries for one emoji. */
  predicate EmojisUnique(messages: seq<Message>) {
    forall m :: m in messages ==> Reactions.EmojiUnique(m.reactions)
  }

  /**
   * Nothing refers to a record that does not exist: channels, categories and
   * membership rows name an existing server, a message names an existing
   * channel of its own server, and a channel's category belongs to the
   * channel's server.
   */
  predicate Integrity(st: Snapshot) {
    && (forall c :: c in st.channels ==> c.serverId in ServerIds(st.servers))
    && (forall k :: k in st.categories ==> k.serverId in ServerIds(st.servers))
    && (forall m :: m in st.serverMembers ==> m.serverId in ServerIds(st.servers))
    && (forall m :: m in st.messages ==> (m.channelId, m.serverId) in ChannelKeys(st.channels))
    && (forall c :: c in st.channels && c.categoryId.Some? ==>
          (c.categoryId.value, c.serverId) in CategoryKeys(st.categories))
  }
}
