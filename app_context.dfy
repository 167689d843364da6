/**
 * The store provider of app/lib/context/AppContext.tsx: seven state slots
 * that the operations reassign. Fresh ids and the clock are parameters
 * (`newId`, `now`); each operation runs to completion on the current slots.
 */
module AppContext {
  import opened Types
  import opened Seqs
  import opened StoreState
  import DemoData

  class AppStore {
    var currentUser: Option<User>
    var users: seq<User>
    var servers: seq<Server>
    var channels: seq<Channel>
    var categories: seq<ChannelCategory>
    var messages: seq<Message>
    var serverMembers: seq<ServerMember>

    /** The seven slots as one value. */
    function State(): Snapshot
      reads this
    {
      Snapshot(currentUser, users, servers, channels, categories, messages, serverMembers)
    }

    /** The provider starts from what storage holds (`StoreState.Empty` on a first run). */
    constructor(persisted: Snapshot)
      ensures State() == persisted
    {
      currentUser := persisted.currentUser;
      users := persisted.users;
      servers := persisted.servers;
      channels := persisted.channels;
      categories := persisted.categories;
      messages := persisted.messages;
      serverMembers := persisted.serverMembers;
    }

    /** The mount effect: with no users at all, every slot is replaced by the demo data. */
    method Mount(ids: DemoData.DemoIds, now: Timestamp)
      modifies this
      ensures old(users) == [] ==> State() == DemoData.DemoSnapshot(ids, now)
      ensures old(users) != [] ==> State() == old(State())
    {
      if |users| == 0 {
        users := DemoData.DemoUsers(ids, now);
        currentUser := Some(users[0]);
        servers := DemoData.DemoServers(ids, now);
        categories := DemoData.DemoCategories(ids);
        channels := DemoData.DemoChannels(ids, now);
        messages := DemoData.DemoMessages(ids, now);
        serverMembers := DemoData.DemoMembers(ids, now);
      }
    }

    /** `setCurrentUser`: the signed-in user is replaced as given (`null` signs out); nothing else changes. */
    method SetCurrentUser(u: Option<User>)
      modifies this
      ensures State() == old(State()).(currentUser := u)
    {
      currentUser := u;
    }

    method AddUser(d: UserDraft, newId: Id, now: Timestamp) returns (u: User)
      modifies this
      ensures u == d.Build(newId, now) && u.id == newId && u.createdAt == now
      ensures State() == StoreState.AddUser(old(State()), d, newId, now)
      ensures users == old(users) + [u]
    {
      u := d.Build(newId, now);
      users := users + [u];
    }

    method UpdateUser(userId: Id, p: UserPatch)
      modifies this
      ensures State() == StoreState.UpdateUser(old(State()), userId, p)
    {
      users := PatchUsers(users, userId, p);
      if currentUser.Some? && currentUser.value.id == userId {
        currentUser := Some(MergeUser(currentUser.value, p));
      }
    }

    method AddServer(d: ServerDraft, newId: Id, now: Timestamp) returns (s: Server)
      modifies this
      ensures s == d.Build(newId, now) && s.id == newId && s.createdAt == now
      ensures State() == StoreState.AddServer(old(State()), d, newId, now)
      ensures servers == old(servers) + [s]
    {
      s := d.Build(newId, now);
      servers := servers + [s];
    }

    method UpdateServer(serverId: Id, p: ServerPatch)
      modifies this
      ensures State() == StoreState.UpdateServer(old(State()), serverId, p)
    {
      servers := PatchServers(servers, serverId, p);
    }

    method DeleteServer(serverId: Id)
      modifies this
      ensures State() == StoreState.DeleteServer(old(State()), serverId)
    {
      servers := DropServer(servers, serverId);
      channels := DropServerChannels(channels, serverId);
      messages := DropServerMessages(messages, serverId);
      categories := DropServerCategories(categories, serverId);
      serverMembers := DropServerMembers(serverMembers, serverId);
    }

    /** `getUserServers`: the servers listing the user, in store order. */
    function GetUserServers(userId: Id): (r: seq<Server>)
      reads this
      ensures forall s :: s in r <==> s in servers && userId in s.memberIds
      ensures forall s :: multiset(r)[s] == if userId in s.memberIds then multiset(servers)[s] else 0
      ensures IsSubsequence(r, servers)
    {
      FilterExact(servers, (s: Server) => userId in s.memberIds);
      Filter(servers, (s: Server) => userId in s.memberIds)
    }

    method AddChannel(d: ChannelDraft, newId: Id, now: Timestamp) returns (c: Channel)
      modifies this
      ensures c == d.Build(newId, now) && c.id == newId && c.createdAt == now
      ensures State() == StoreState.AddChannel(old(State()), d, newId, now)
      ensures channels == old(channels) + [c]
    {
      c := d.Build(newId, now);
      channels := channels + [c];
    }

    method UpdateChannel(channelId: Id, p: ChannelPatch)
      modifies this
      ensures State() == StoreState.UpdateChannel(old(State()), channelId, p)
    {
      channels := PatchChannels(channels, channelId, p);
    }

    method DeleteChannel(channelId: Id)
      modifies this
      ensures State() == StoreState.DeleteChannel(old(State()), channelId)
    {
      channels := DropChannel(channels, channelId);
      messages := DropChannelMessages(messages, channelId);
    }

    /** `getServerChannels`: the channels of the server, in store order. */
    function GetServerChannels(serverId: Id): (r: seq<Channel>)
      reads this
      ensures forall c :: c in r <==> c in channels && c.serverId == serverId
      ensures forall c :: multiset(r)[c] == if c.serverId == serverId then multiset(channels)[c] else 0
      ensures IsSubsequence(r, channels)
    {
      FilterExact(channels, (c: Channel) => c.serverId == serverId);
      Filter(channels, (c: Channel) => c.serverId == serverId)
    }

    /** A category is given an id but no timestamp. */
    method AddCategory(d: CategoryDraft, newId: Id) returns (k: ChannelCategory)
      modifies this
      ensures k == d.Build(newId) && k.id == newId
      ensures State() == StoreState.AddCategory(old(State()), d, newId)
      ensures categories == old(categories) + [k]
    {
      k := d.Build(newId);
      categories := categories + [k];
    }

    method UpdateCategory(categoryId: Id, p: CategoryPatch)
      modifies this
      ensures State() == StoreState.UpdateCategory(old(State()), categoryId, p)
    {
      categories := PatchCategories(categories, categoryId, p);
    }

    method DeleteCategory(categoryId: Id)
      modifies this
      ensures State() == StoreState.DeleteCategory(old(State()), categoryId)
    {
      categories := DropCategory(categories, categoryId);
      channels := Uncategorize(channels, categoryId);
    }

    /** The new message starts without reactions. */
    method AddMessage(d: MessageDraft, newId: Id, now: Timestamp) returns (m: Message)
      modifies this
      ensures m == d.Build(newId, now) && m.id == newId && m.createdAt == now && m.reactions == []
      ensures State() == StoreState.AddMessage(old(State()), d, newId, now)
      ensures messages == old(messages) + [m]
    {
      m := d.Build(newId, now);
      messages := messages + [m];
    }

    method UpdateMessage(messageId: Id, p: MessagePatch, now: Timestamp)
      modifies this
      ensures State() == StoreState.UpdateMessage(old(State()), messageId, p, now)
    {
      messages := PatchMessages(messages, messageId, p, now);
    }

    method DeleteMessage(messageId: Id)
      modifies this
      ensures State() == StoreState.DeleteMessage(old(State()), messageId)
    {
      messages := DropMessage(messages, messageId);
    }

    /** `getChannelMessages`: the messages of the channel, in store order. */
    function GetChannelMessages(channelId: Id): (r: seq<Message>)
      reads this
      ensures forall m :: m in r <==> m in messages && m.channelId == channelId
      ensures forall m :: multiset(r)[m] == if m.channelId == channelId then multiset(messages)[m] else 0
      ensures IsSubsequence(r, messages)
    {
      FilterExact(messages, (m: Message) => m.channelId == channelId);
      Filter(messages, (m: Message) => m.channelId == channelId)
    }

    method AddReaction(messageId: Id, emoji: string, userId: Id)
      modifies this
      ensures State() == StoreState.AddReaction(old(State()), messageId, emoji, userId)
    {
      messages := ReactMessages(messages, messageId, emoji, userId);
    }

    method RemoveReaction(messageId: Id, emoji: string, userId: Id)
      modifies this
      ensures State() == StoreState.RemoveReaction(old(State()), messageId, emoji, userId)
    {
      messages := UnreactMessages(messages, messageId, emoji, userId);
    }

    method AddServerMember(member: ServerMember)
      modifies this
      ensures State() == StoreState.AddServerMember(old(State()), member)
    {
      serverMembers := serverMembers + [member];
      servers := JoinServer(servers, member.serverId, member.userId);
    }

    method UpdateServerMember(serverId: Id, userId: Id, p: MemberPatch)
      modifies this
      ensures State() == StoreState.UpdateServerMember(old(State()), serverId, userId, p)
    {
      serverMembers := PatchMembers(serverMembers, serverId, userId, p);
    }

    method RemoveServerMember(serverId: Id, userId: Id)
      modifies this
      ensures State() == StoreState.RemoveServerMember(old(State()), serverId, userId)
    {
      serverMembers := DropMember(serverMembers, serverId, userId);
      servers := LeaveServer(servers, serverId, userId);
    }

    /** `getServerMembers`: the membership rows of the server, in store order. */
    function GetServerMembers(serverId: Id): (r: seq<ServerMember>)
      reads this
      ensures forall m :: m in r <==> m in serverMembers && m.serverId == serverId
      ensures forall m :: multiset(r)[m] == if m.serverId == serverId then multiset(serverMembers)[m] else 0
      ensures IsSubsequence(r, serverMembers)
    {
      FilterExact(serverMembers, (m: ServerMember) => m.serverId == serverId);
      Filter(serverMembers, (m: ServerMember) => m.serverId == serverId)
    }
  }
}
