/**
 * The message list of a channel (app/components/MessageList.tsx): the feed
 * of the channel's messages in posting order, each shown with its author,
 * the reaction highlight of `MessageItem`, and the reaction toggle
 * `handleReaction`, which decides which store operation to call.
 */
module MessageList {
  import opened Types
  import opened Seqs
  import opened Sorting
  import opened StoreState
  import Reactions
  import StoreLemmas

  function CreatedAt(m: Message): int {
    m.createdAt
  }

  /** The channel's messages, in store order. */
  function InChannel(messages: seq<Message>, channelId: Id): seq<Message> {
    Filter(messages, (m: Message) => m.channelId == channelId)
  }

  /**
   * `channelMessages`: exactly the messages of the channel, each as often as
   * the store holds it, ordered by creation time.
   */
  function ChannelFeed(messages: seq<Message>, channelId: Id): (r: seq<Message>)
    ensures forall m :: m in r <==> m in messages && m.channelId == channelId
    ensures forall m :: multiset(r)[m] == if m.channelId == channelId then multiset(messages)[m] else 0
    ensures SortedBy(r, CreatedAt)
  {
    FilterExact(messages, (m: Message) => m.channelId == channelId);
    SortBy(InChannel(messages, channelId), CreatedAt)
  }

  /** Messages posted at the same instant appear in the order the store holds them. */
  lemma {:induction false} ChannelFeedStable(messages: seq<Message>, channelId: Id, t: int)
    ensures WithKey(ChannelFeed(messages, channelId), CreatedAt, t) == WithKey(InChannel(messages, channelId), CreatedAt, t)
  {
    SortByStable(InChannel(messages, channelId), CreatedAt, t);
  }

  /** `users.find(u => u.id === authorId)`: the first user with the id. */
  function Author(users: seq<User>, authorId: Id): (r: Option<User>)
    ensures r.Some? ==> r.value.id == authorId
    ensures r.Some? ==> exists i :: FirstUserWithId(users, i, authorId) && users[i] == r.value
    ensures r.None? <==> forall u :: u in users ==> u.id != authorId
  {
    match FindFirst(users, (u: User) => u.id == authorId)
    case None => None
    case Some(i) => Some(users[i])
  }

  /** Position `i` holds the first user with the id. */
  predicate FirstUserWithId(users: seq<User>, i: int, id: Id) {
    0 <= i < |users| && users[i].id == id && forall j :: 0 <= j < i ==> users[j].id != id
  }

  predicate HasAuthor(users: seq<User>, m: Message) {
    Author(users, m.authorId).Some?
  }

  datatype FeedItem = FeedItem(message: Message, author: User)

  function ShownMessages(items: seq<FeedItem>): seq<Message> {
    Map(items, (it: FeedItem) => it.message)
  }

  /**
   * What the list renders: each message of the feed with its author, in feed
   * order; a message whose author is not among the users is skipped.
   */
  function FeedItems(feed: seq<Message>, users: seq<User>): (r: seq<FeedItem>)
    ensures ShownMessages(r) == Filter(feed, (m: Message) => HasAuthor(users, m))
    ensures forall it :: it in r ==> Author(users, it.message.authorId) == Some(it.author)
  {
    if feed == [] then []
    else
      var rest := FeedItems(feed[1..], users);
      assert feed == [feed[0]] + feed[1..];
      match Author(users, feed[0].authorId)
      case None => rest
      case Some(u) =>
        var r := [FeedItem(feed[0], u)] + rest;
        assert r[1..] == rest;
        r
  }

  // ---------------------------------------------------------------------------
  // Reactions.

  /** `reaction?.userIds.includes(userId)` for the first entry of the emoji. */
  function Reacted(rs: seq<MessageReaction>, emoji: string, userId: Id): (b: bool)
    ensures (forall x :: x in rs ==> x.emoji != emoji) ==> !b
    ensures b ==> exists x :: x in rs && x.emoji == emoji && userId in x.userIds
    ensures (forall x :: x in rs && x.emoji == emoji ==> userId in x.userIds) && (exists x :: x in rs && x.emoji == emoji) ==> b
  {
    match Reactions.FindEmoji(rs, emoji)
    case None => false
    case Some(j) => userId in rs[j].userIds
  }

  /** `hasReacted` of `MessageItem`: off whenever the current user id is missing or empty. */
  function HasReacted(r: MessageReaction, currentUserId: Option<Id>): (b: bool)
    ensures currentUserId == None || currentUserId == Some("") ==> !b
    ensures b <==> currentUserId.Some? && currentUserId.value != "" && currentUserId.value in r.userIds
  {
    match currentUserId
    case None => false
    case Some(id) => if id == "" then false else id in r.userIds
  }

  /** Position `i` holds the first message with the id. */
  predicate FirstMessageWithId(messages: seq<Message>, i: int, id: Id) {
    0 <= i < |messages| && messages[i].id == id && forall j :: 0 <= j < i ==> messages[j].id != id
  }

  /** The store operation a click calls, if any. */
  datatype ReactionCall =
    | NoCall
    | CallAdd(messageId: Id, emoji: string, userId: Id)
    | CallRemove(messageId: Id, emoji: string, userId: Id)

  /** What the called operation does to the store. */
  function Perform(st: Snapshot, c: ReactionCall): Snapshot {
    match c
    case NoCall => st
    case CallAdd(messageId, emoji, userId) => StoreState.AddReaction(st, messageId, emoji, userId)
    case CallRemove(messageId, emoji, userId) => StoreState.RemoveReaction(st, messageId, emoji, userId)
  }

  /**
   * `handleReaction`: nothing without a current user or when no message has
   * the id; otherwise, for the first message with the id, a removal when the
   * user is listed under the emoji and an addition when not.
   */
  function HandleReaction(currentUser: Option<User>, messages: seq<Message>, messageId: Id, emoji: string): (c: ReactionCall)
    ensures currentUser.None? ==> c == NoCall
    ensures (forall m :: m in messages ==> m.id != messageId) ==> c == NoCall
    ensures currentUser.Some? && (exists m :: m in messages && m.id == messageId) ==> c != NoCall
    ensures c != NoCall ==> c.messageId == messageId && c.emoji == emoji && c.userId == currentUser.value.id
    ensures c != NoCall ==>
      exists i ::
        FirstMessageWithId(messages, i, messageId) &&
        (c.CallRemove? <==> Reacted(messages[i].reactions, emoji, currentUser.value.id))
  {
    if currentUser.None? then NoCall
    else
      match FindFirst(messages, (m: Message) => m.id == messageId)
      case None => NoCall
      case Some(i) =>
        var userId := currentUser.value.id;
        if Reacted(messages[i].reactions, emoji, userId) then CallRemove(messageId, emoji, userId)
        else CallAdd(messageId, emoji, userId)
  }

  /** After `addReaction`, the first entry of the emoji lists the user. */
  lemma ReactedAfterAdd(rs: seq<MessageReaction>, emoji: string, userId: Id)
    ensures Reacted(Reactions.AddReaction(rs, emoji, userId), emoji, userId)
  {
    var after := Reactions.AddReaction(rs, emoji, userId);
    match Reactions.FindEmoji(rs, emoji)
    case None =>
      assert after[|rs|].emoji == emoji;
      assert forall j :: 0 <= j < |rs| ==> after[j].emoji != emoji;
    case Some(i) =>
      if userId !in rs[i].userIds {
        assert forall j :: 0 <= j < |rs| ==> after[j].emoji == rs[j].emoji;
        assert after[i] == Reactions.Joined(rs[i], userId);
      }
  }

  /** `handleReaction` looks at the first message with the id and at nothing else. */
  lemma HandleReactionAt(user: User, messages: seq<Message>, messageId: Id, i: nat, emoji: string)
    requires FirstMessageWithId(messages, i, messageId)
    ensures HandleReaction(Some(user), messages, messageId, emoji) ==
      if Reacted(messages[i].reactions, emoji, user.id) then CallRemove(messageId, emoji, user.id)
      else CallAdd(messageId, emoji, user.id)
  {
    var c := HandleReaction(Some(user), messages, messageId, emoji);
    assert messages[i] in messages;
    var i' :| FirstMessageWithId(messages, i', messageId) &&
      (c.CallRemove? <==> Reacted(messages[i'].reactions, emoji, user.id));
    assert i' == i;
  }

  /** For a user with an id, the highlight of the emoji's entry tells whether a click removes. */
  lemma HighlightMatchesToggle(user: User, messages: seq<Message>, messageId: Id, i: nat, emoji: string, j: nat)
    requires user.id != ""
    requires FirstMessageWithId(messages, i, messageId)
    requires Reactions.FindEmoji(messages[i].reactions, emoji) == Some(j)
    ensures HasReacted(messages[i].reactions[j], Some(user.id)) <==>
      HandleReaction(Some(user), messages, messageId, emoji).CallRemove?
  {
    HandleReactionAt(user, messages, messageId, i, emoji);
  }

  /** `addReaction` changes no message id, so the first message with an id stays first. */
  lemma AddReactionKeepsFirst(st: Snapshot, messageId: Id, emoji: string, userId: Id, i: nat)
    requires FirstMessageWithId(st.messages, i, messageId)
    ensures var after := StoreState.AddReaction(st, messageId, emoji, userId).messages;
      FirstMessageWithId(after, i, messageId) &&
      after[i].reactions == Reactions.AddReaction(st.messages[i].reactions, emoji, userId)
  {
    var after := StoreState.AddReaction(st, messageId, emoji, userId).messages;
    forall k | 0 <= k < |after| ensures after[k].id == st.messages[k].id {
      assert after[k].(reactions := st.messages[k].reactions) == st.messages[k];
    }
  }

  /** Some message has the id, so there is a first one. */
  lemma FirstMessageExists(messages: seq<Message>, messageId: Id) returns (i: nat)
    requires exists m :: m in messages && m.id == messageId
    ensures FirstMessageWithId(messages, i, messageId)
  {
    var f := FindFirst(messages, (m: Message) => m.id == messageId);
    var m :| m in messages && m.id == messageId;
    i := f.value;
  }

  /** A user not yet listed under the emoji of the first message: the click adds. */
  lemma FirstClickAdds(st: Snapshot, user: User, messageId: Id, emoji: string, i: nat)
    requires FirstMessageWithId(st.messages, i, messageId)
    requires forall x :: x in st.messages[i].reactions && x.emoji == emoji ==> user.id !in x.userIds
    ensures HandleReaction(Some(user), st.messages, messageId, emoji) == CallAdd(messageId, emoji, user.id)
  {
    var rs := st.messages[i].reactions;
    assert !Reacted(rs, emoji, user.id) by {
      match Reactions.FindEmoji(rs, emoji)
      case None =>
      case Some(j) =>
        assert rs[j] in rs;
    }
    HandleReactionAt(user, st.messages, messageId, i, emoji);
  }

  /** Right after the user's reaction was added, the click removes. */
  lemma SecondClickRemoves(st: Snapshot, user: User, messageId: Id, emoji: string, i: nat)
    requires FirstMessageWithId(st.messages, i, messageId)
    ensures var st1 := StoreState.AddReaction(st, messageId, emoji, user.id);
      HandleReaction(Some(user), st1.messages, messageId, emoji) == CallRemove(messageId, emoji, user.id)
  {
    var st1 := StoreState.AddReaction(st, messageId, emoji, user.id);
    AddReactionKeepsFirst(st, messageId, emoji, user.id, i);
    ReactedAfterAdd(st.messages[i].reactions, emoji, user.id);
    HandleReactionAt(user, st1.messages, messageId, i, emoji);
  }

  /**
   * Clicking an emoji twice, from a state where the user has not reacted with
   * it, first adds the reaction and then removes it, leaving the store as it
   * was.
   */
  lemma ToggleTwiceRestores(st: Snapshot, user: User, messageId: Id, emoji: string)
    requires exists m :: m in st.messages && m.id == messageId
    requires forall m :: m in st.messages && m.id == messageId ==> Reactions.AllPositive(m.reactions)
    requires forall m, x :: m in st.messages && m.id == messageId && x in m.reactions && x.emoji == emoji ==>
      user.id !in x.userIds
    ensures HandleReaction(Some(user), st.messages, messageId, emoji) == CallAdd(messageId, emoji, user.id)
    ensures var st1 := Perform(st, CallAdd(messageId, emoji, user.id));
      HandleReaction(Some(user), st1.messages, messageId, emoji) == CallRemove(messageId, emoji, user.id) &&
      Perform(st1, CallRemove(messageId, emoji, user.id)) == st
  {
    var i := FirstMessageExists(st.messages, messageId);
    assert st.messages[i] in st.messages;
    FirstClickAdds(st, user, messageId, emoji, i);
    SecondClickRemoves(st, user, messageId, emoji, i);
    StoreLemmas.ReactionToggleRestores(st, messageId, emoji, user.id);
  }
}
