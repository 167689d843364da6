/**
 * The entity records of the chat store (app/lib/types.ts), their creation
 * drafts (the `Omit<T, ...>` arguments of the store's add operations) and their
 * shallow-merge patches (the `Partial<T>` arguments of the update operations).
 *
 * Identifiers are opaque strings. ISO-8601 timestamps are modelled as integer
 * milliseconds since the epoch.
 */
module Types {

  datatype Option<+T> = None | Some(value: T)

  /** Value of an optional patch field: the patch's value when present, else the record's. */
  function Pick<T>(patch: Option<T>, current: T): (r: T)
    ensures patch.None? ==> r == current
    ensures patch.Some? ==> r == patch.value
  {
    match patch
    case None => current
    case Some(v) => v
  }

  type Id = string
  type Timestamp = int

  datatype UserRole = Admin | Moderator | Member
  datatype UserStatus = Online | Away | Offline
  datatype ChannelType = Text | Voice
  datatype AttachmentType = Image | File

  datatype User = User(
    id: Id,
    username: string,
    avatar: string,
    status: UserStatus,
    role: UserRole,
    createdAt: Timestamp)

  datatype Server = Server(
    id: Id,
    name: string,
    icon: string,
    ownerId: Id,
    description: Option<string>,
    memberIds: seq<Id>,
    createdAt: Timestamp)

  /** Unlike the other entities, a category carries no creation timestamp. */
  datatype ChannelCategory = ChannelCategory(
    id: Id,
    name: string,
    serverId: Id,
    collapsed: bool,
    position: int)

  datatype Channel = Channel(
    id: Id,
    name: string,
    serverId: Id,
    categoryId: Option<Id>,
    kind: ChannelType,
    description: Option<string>,
    position: int,
    createdAt: Timestamp)

  datatype MessageAttachment = MessageAttachment(
    id: Id,
    name: string,
    url: string,
    kind: AttachmentType,
    size: int)

  /** `count` is stored beside `userIds`; keeping the two equal is the store's job. */
  datatype MessageReaction = MessageReaction(
    emoji: string,
    userIds: seq<Id>,
    count: int)

  datatype Message = Message(
    id: Id,
    content: string,
    authorId: Id,
    channelId: Id,
    serverId: Id,
    createdAt: Timestamp,
    editedAt: Option<Timestamp>,
    reactions: seq<MessageReaction>,
    mentions: seq<string>,
    attachments: Option<seq<MessageAttachment>>,
    replyToId: Option<Id>)

  /** A membership row has no id of its own: it is keyed by (serverId, userId). */
  datatype ServerMember = ServerMember(
    userId: Id,
    serverId: Id,
    role: UserRole,
    joinedAt: Timestamp,
    nickname: Option<string>)

  // ---------------------------------------------------------------------------
  // Drafts: what the caller of an add operation supplies.

  datatype UserDraft = UserDraft(username: string, avatar: string, status: UserStatus, role: UserRole)
  {
    function Build(id: Id, now: Timestamp): (u: User)
    {
      User(id, username, avatar, status, role, now)
    }
  }

  datatype ServerDraft = ServerDraft(
    name: string, icon: string, ownerId: Id, description: Option<string>, memberIds: seq<Id>)
  {
    function Build(id: Id, now: Timestamp): (s: Server)
    {
      Server(id, name, icon, ownerId, description, memberIds, now)
    }
  }

  datatype ChannelDraft = ChannelDraft(
    name: string, serverId: Id, categoryId: Option<Id>, kind: ChannelType,
    description: Option<string>, position: int)
  {
    function Build(id: Id, now: Timestamp): (c: Channel)
    {
      Channel(id, name, serverId, categoryId, kind, description, position, now)
    }
  }

  datatype CategoryDraft = CategoryDraft(name: string, serverId: Id, collapsed: bool, position: int)
  {
    /** A category is given an id only, no timestamp. */
    function Build(id: Id): (k: ChannelCategory)
    {
      ChannelCategory(id, name, serverId, collapsed, position)
    }
  }

  datatype MessageDraft = MessageDraft(
    content: string, authorId: Id, channelId: Id, serverId: Id,
    editedAt: Option<Timestamp>, mentions: seq<string>,
    attachments: Option<seq<MessageAttachment>>, replyToId: Option<Id>)
  {
    /** The store assigns the id and timestamp and starts with no reactions. */
    function Build(id: Id, now: Timestamp): (m: Message)
    {
      Message(id, content, authorId, channelId, serverId, now, editedAt, [], mentions, attachments, replyToId)
    }
  }

  // ---------------------------------------------------------------------------
  // Patches: `{ ...record, ...patch }`. A field left out of the patch keeps the
  // record's value. For a field that is optional in the record the patch may
  // also carry it explicitly as undefined, which clears it: `Some(None)`.

  datatype UserPatch = UserPatch(
    id: Option<Id>, username: Option<string>, avatar: Option<string>,
    status: Option<UserStatus>, role: Option<UserRole>, createdAt: Option<Timestamp>)

  datatype ServerPatch = ServerPatch(
    id: Option<Id>, name: Option<string>, icon: Option<string>, ownerId: Option<Id>,
    description: Option<Option<string>>, memberIds: Option<seq<Id>>, createdAt: Option<Timestamp>)

  datatype CategoryPatch = CategoryPatch(
    id: Option<Id>, name: Option<string>, serverId: Option<Id>,
    collapsed: Option<bool>, position: Option<int>)

  datatype ChannelPatch = ChannelPatch(
    id: Option<Id>, name: Option<string>, serverId: Option<Id>, categoryId: Option<Option<Id>>,
    kind: Option<ChannelType>, description: Option<Option<string>>, position: Option<int>,
    createdAt: Option<Timestamp>)

  datatype MessagePatch = MessagePatch(
    id: Option<Id>, content: Option<string>, authorId: Option<Id>, channelId: Option<Id>,
    serverId: Option<Id>, createdAt: Option<Timestamp>, editedAt: Option<Option<Timestamp>>,
    reactions: Option<seq<MessageReaction>>, mentions: Option<seq<string>>,
    attachments: Option<Option<seq<MessageAttachment>>>, replyToId: Option<Option<Id>>)

  datatype MemberPatch = MemberPatch(
    userId: Option<Id>, serverId: Option<Id>, role: Option<UserRole>,
    joinedAt: Option<Timestamp>, nickname: Option<Option<string>>)

  function MergeUser(u: User, p: UserPatch): (r: User)
    ensures p == UserPatch(None, None, None, None, None, None) ==> r == u
    ensures p.id.None? ==> r.id == u.id
    ensures p.username.None? ==> r.username == u.username
    ensures p.avatar.None? ==> r.avatar == u.avatar
    ensures p.status.None? ==> r.status == u.status
    ensures p.role.None? ==> r.role == u.role
    ensures p.createdAt.None? ==> r.createdAt == u.createdAt
  {
    User(Pick(p.id, u.id), Pick(p.username, u.username), Pick(p.avatar, u.avatar),
         Pick(p.status, u.status), Pick(p.role, u.role), Pick(p.createdAt, u.createdAt))
  }

  function MergeServer(s: Server, p: ServerPatch): (r: Server)
    ensures p == ServerPatch(None, None, None, None, None, None, None) ==> r == s
    ensures p.id.None? ==> r.id == s.id
    ensures p.ownerId.None? ==> r.ownerId == s.ownerId
    ensures p.memberIds.None? ==> r.memberIds == s.memberIds
    ensures p.createdAt.None? ==> r.createdAt == s.createdAt
    ensures p.description == Some(None) ==> r.description == None
  {
    Server(Pick(p.id, s.id), Pick(p.name, s.name), Pick(p.icon, s.icon), Pick(p.ownerId, s.ownerId),
           Pick(p.description, s.description), Pick(p.memberIds, s.memberIds), Pick(p.createdAt, s.createdAt))
  }

  function MergeCategory(k: ChannelCategory, p: CategoryPatch): (r: ChannelCategory)
    ensures p == CategoryPatch(None, None, None, None, None) ==> r == k
    ensures p.id.None? ==> r.id == k.id
    ensures p.serverId.None? ==> r.serverId == k.serverId
    ensures p.position.None? ==> r.position == k.position
  {
    ChannelCategory(Pick(p.id, k.id), Pick(p.name, k.name), Pick(p.serverId, k.serverId),
                    Pick(p.collapsed, k.collapsed), Pick(p.position, k.position))
  }

  function MergeChannel(c: Channel, p: ChannelPatch): (r: Channel)
    ensures p == ChannelPatch(None, None, None, None, None, None, None, None) ==> r == c
    ensures p.id.None? ==> r.id == c.id
    ensures p.serverId.None? ==> r.serverId == c.serverId
    ensures p.categoryId.None? ==> r.categoryId == c.categoryId
    ensures p.categoryId == Some(None) ==> r.categoryId == None
    ensures p.position.None? ==> r.position == c.position
  {
    Channel(Pick(p.id, c.id), Pick(p.name, c.name), Pick(p.serverId, c.serverId),
            Pick(p.categoryId, c.categoryId), Pick(p.kind, c.kind), Pick(p.description, c.description),
            Pick(p.position, c.position), Pick(p.createdAt, c.createdAt))
  }

  function MergeMessage(m: Message, p: MessagePatch): (r: Message)
    ensures p == MessagePatch(None, None, None, None, None, None, None, None, None, None, None) ==> r == m
    ensures p.id.None? ==> r.id == m.id
    ensures p.authorId.None? ==> r.authorId == m.authorId
    ensures p.channelId.None? && p.serverId.None? ==> r.channelId == m.channelId && r.serverId == m.serverId
    ensures p.createdAt.None? ==> r.createdAt == m.createdAt
    ensures p.reactions.None? ==> r.reactions == m.reactions
  {
    Message(Pick(p.id, m.id), Pick(p.content, m.content), Pick(p.authorId, m.authorId),
            Pick(p.channelId, m.channelId), Pick(p.serverId, m.serverId), Pick(p.createdAt, m.createdAt),
            Pick(p.editedAt, m.editedAt), Pick(p.reactions, m.reactions), Pick(p.mentions, m.mentions),
            Pick(p.attachments, m.attachments), Pick(p.replyToId, m.replyToId))
  }

  function MergeMember(m: ServerMember, p: MemberPatch): (r: ServerMember)
    ensures p == MemberPatch(None, None, None, None, None) ==> r == m
    ensures p.userId.None? && p.serverId.None? ==> r.userId == m.userId && r.serverId == m.serverId
    ensures p.joinedAt.None? ==> r.joinedAt == m.joinedAt
    ensures p.nickname == Some(None) ==> r.nickname == None
  {
    ServerMember(Pick(p.userId, m.userId), Pick(p.serverId, m.serverId), Pick(p.role, m.role),
                 Pick(p.joinedAt, m.joinedAt), Pick(p.nickname, m.nickname))
  }
  /** A patch spread a second time over its own result changes nothing more. */
  lemma MergeAgain(u: User, s: Server, k: ChannelCategory, c: Channel, m: Message, w: ServerMember,
                   pu: UserPatch, ps: ServerPatch, pk: CategoryPatch, pc: ChannelPatch,
                   pm: MessagePatch, pw: MemberPatch)
    ensures MergeUser(MergeUser(u, pu), pu) == MergeUser(u, pu)
    ensures MergeServer(MergeServer(s, ps), ps) == MergeServer(s, ps)
    ensures MergeCategory(MergeCategory(k, pk), pk) == MergeCategory(k, pk)
    ensures MergeChannel(MergeChannel(c, pc), pc) == MergeChannel(c, pc)
    ensures MergeMessage(MergeMessage(m, pm), pm) == MergeMessage(m, pm)
    ensures MergeMember(MergeMember(w, pw), pw) == MergeMember(w, pw)
  {
  }

}
