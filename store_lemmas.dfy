/**
 * What the store operations keep and what they undo: reaction lists stay well
 * formed, a reaction toggled on and off leaves the store as it was, the member
 * lists of the servers stay in step with the membership rows, and the deletes
 * leave no reference to a record that is gone.
 */
module StoreLemmas {
  import opened Types
  import opened Seqs
  import opened StoreState
  import Reactions

  // ---------------------------------------------------------------------------
  // Reactions.

  /** `addReaction` keeps every reaction list of the store well formed. */
  lemma AddReactionKeepsWellFormed(st: Snapshot, messageId: Id, emoji: string, userId: Id)
    requires ReactionsWellFormed(st.messages)
    ensures ReactionsWellFormed(StoreState.AddReaction(st, messageId, emoji, userId).messages)
  {
    var r := StoreState.AddReaction(st, messageId, emoji, userId);
    forall m | m in r.messages ensures Reactions.WellFormed(m.reactions) {
      var i :| 0 <= i < |r.messages| && r.messages[i] == m;
      assert st.messages[i] in st.messages;
      Reactions.AddReactionPreservesWellFormed(st.messages[i].reactions, emoji, userId);
    }
  }

  /**
   * `addReaction` never gives a message a second entry for an emoji, even
   * when ids and counts have drifted apart.
   */
  lemma AddReactionKeepsEmojiUnique(st: Snapshot, messageId: Id, emoji: string, userId: Id)
    requires EmojisUnique(st.messages)
    ensures EmojisUnique(StoreState.AddReaction(st, messageId, emoji, userId).messages)
  {
    var r := StoreState.AddReaction(st, messageId, emoji, userId);
    forall m | m in r.messages ensures Reactions.EmojiUnique(m.reactions) {
      var i :| 0 <= i < |r.messages| && r.messages[i] == m;
      assert st.messages[i] in st.messages;
      Reactions.AddReactionKeepsEmojiUnique(st.messages[i].reactions, emoji, userId);
    }
  }

  /** `removeReaction` never gives a message a second entry for an emoji, unconditionally. */
  lemma RemoveReactionKeepsEmojiUnique(st: Snapshot, messageId: Id, emoji: string, userId: Id)
    requires EmojisUnique(st.messages)
    ensures EmojisUnique(StoreState.RemoveReaction(st, messageId, emoji, userId).messages)
  {
    var r := StoreState.RemoveReaction(st, messageId, emoji, userId);
    forall m | m in r.messages ensures Reactions.EmojiUnique(m.reactions) {
      var i :| 0 <= i < |r.messages| && r.messages[i] == m;
      assert st.messages[i] in st.messages;
      Reactions.RemoveReactionKeepsEmojiUnique(st.messages[i].reactions, emoji, userId);
    }
  }

  /**
   * `removeReaction` keeps every reaction list well formed provided that,
   * on the messages it touches, the user is listed in the emoji's entry or
   * the entry has a count of one (and so disappears). When neither holds,
   * `Reactions.RemoveReactionWellFormed` shows the entry is left inconsistent.
   */
  lemma RemoveReactionKeepsWellFormed(st: Snapshot, messageId: Id, emoji: string, userId: Id)
    requires ReactionsWellFormed(st.messages)
    requires forall m, x :: m in st.messages && m.id == messageId && x in m.reactions && x.emoji == emoji ==>
      userId in x.userIds || x.count == 1
    ensures ReactionsWellFormed(StoreState.RemoveReaction(st, messageId, emoji, userId).messages)
  {
    var r := StoreState.RemoveReaction(st, messageId, emoji, userId);
    forall m | m in r.messages ensures Reactions.WellFormed(m.reactions) {
      var i :| 0 <= i < |r.messages| && r.messages[i] == m;
      RemoveReactionKeepsWellFormedAt(st, messageId, emoji, userId, i);
    }
  }

  lemma RemoveReactionKeepsWellFormedAt(st: Snapshot, messageId: Id, emoji: string, userId: Id, i: nat)
    requires ReactionsWellFormed(st.messages)
    requires forall m, x :: m in st.messages && m.id == messageId && x in m.reactions && x.emoji == emoji ==>
      userId in x.userIds || x.count == 1
    requires i < |st.messages|
    ensures Reactions.WellFormed(StoreState.RemoveReaction(st, messageId, emoji, userId).messages[i].reactions)
  {
    var rs := st.messages[i].reactions;
    assert st.messages[i] in st.messages;
    if st.messages[i].id == messageId {
      match Reactions.FindEmoji(rs, emoji)
      case None =>
        Reactions.RemoveReactionNoEntry(rs, emoji, userId);
      case Some(j) =>
        assert rs[j] in rs;
        Reactions.RemoveReactionWellFormed(rs, emoji, userId, j);
    }
  }

  /**
   * A reaction added and then removed by the same user leaves the whole store
   * as it was, provided every touched message has positive counts and the
   * user is not already listed under the emoji.
   */
  lemma ReactionToggleRestores(st: Snapshot, messageId: Id, emoji: string, userId: Id)
    requires forall m :: m in st.messages && m.id == messageId ==> Reactions.AllPositive(m.reactions)
    requires forall m, x :: m in st.messages && m.id == messageId && x in m.reactions && x.emoji == emoji ==>
      userId !in x.userIds
    ensures StoreState.RemoveReaction(StoreState.AddReaction(st, messageId, emoji, userId), messageId, emoji, userId) == st
  {
    var a := StoreState.AddReaction(st, messageId, emoji, userId);
    var b := StoreState.RemoveReaction(a, messageId, emoji, userId);
    ReactionToggleRestoresMessages(st, messageId, emoji, userId);
    assert b == a.(messages := st.messages);
  }

  lemma ReactionToggleRestoresMessages(st: Snapshot, messageId: Id, emoji: string, userId: Id)
    requires forall m :: m in st.messages && m.id == messageId ==> Reactions.AllPositive(m.reactions)
    requires forall m, x :: m in st.messages && m.id == messageId && x in m.reactions && x.emoji == emoji ==>
      userId !in x.userIds
    ensures var a := StoreState.AddReaction(st, messageId, emoji, userId);
      StoreState.RemoveReaction(a, messageId, emoji, userId).messages == st.messages
  {
    var a := StoreState.AddReaction(st, messageId, emoji, userId);
    var b := StoreState.RemoveReaction(a, messageId, emoji, userId);
    forall i | 0 <= i < |st.messages| ensures b.messages[i] == st.messages[i] {
      ReactionToggleRestoresAt(st, messageId, emoji, userId, i);
    }
  }

  lemma ReactionToggleRestoresAt(st: Snapshot, messageId: Id, emoji: string, userId: Id, i: nat)
    requires forall m :: m in st.messages && m.id == messageId ==> Reactions.AllPositive(m.reactions)
    requires forall m, x :: m in st.messages && m.id == messageId && x in m.reactions && x.emoji == emoji ==>
      userId !in x.userIds
    requires i < |st.messages|
    ensures var a := StoreState.AddReaction(st, messageId, emoji, userId);
      StoreState.RemoveReaction(a, messageId, emoji, userId).messages[i] == st.messages[i]
  {
    var m := st.messages[i];
    var a := StoreState.AddReaction(st, messageId, emoji, userId);
    assert a.messages[i].id == m.id;
    assert m in st.messages;
    if m.id == messageId {
      Reactions.AddThenRemove(m.reactions, emoji, userId);
    }
  }

  /** Adding the same reaction twice is the same as adding it once. */
  lemma AddReactionTwice(st: Snapshot, messageId: Id, emoji: string, userId: Id)
    ensures var once := StoreState.AddReaction(st, messageId, emoji, userId);
      StoreState.AddReaction(once, messageId, emoji, userId) == once
  {
    ReactMessagesTwice(st.messages, messageId, emoji, userId);
  }

  /** The message-level form: reacting twice equals reacting once, message by message. */
  lemma ReactMessagesTwice(messages: seq<Message>, messageId: Id, emoji: string, userId: Id)
    ensures var once := ReactMessages(messages, messageId, emoji, userId);
      ReactMessages(once, messageId, emoji, userId) == once
  {
    var once := ReactMessages(messages, messageId, emoji, userId);
    var twice := ReactMessages(once, messageId, emoji, userId);
    forall i | 0 <= i < |messages| ensures twice[i] == once[i] {
      if messages[i].id == messageId {
        Reactions.AddReactionIdempotent(messages[i].reactions, emoji, userId);
      }
    }
  }

  // ---------------------------------------------------------------------------
  // Membership.

  lemma ListedKeysJoin(servers: seq<Server>, serverId: Id, userId: Id)
    ensures ListedKeys(JoinServer(servers, serverId, userId)) ==
      ListedKeys(servers) + (if serverId in ServerIds(servers) then {(serverId, userId)} else {})
  {
    var after := JoinServer(servers, serverId, userId);
    var extra: set<(Id, Id)> := if serverId in ServerIds(servers) then {(serverId, userId)} else {};
    forall k | k in ListedKeys(after) ensures k in ListedKeys(servers) + extra {
      var s, v :| s in after && v in s.memberIds && k == (s.id, v);
      var i :| 0 <= i < |after| && after[i] == s;
      assert servers[i] in servers;
      if servers[i].id == serverId && v !in servers[i].memberIds {
        assert v == userId;
      }
    }
    forall k | k in ListedKeys(servers) + extra ensures k in ListedKeys(after) {
      if k in ListedKeys(servers) {
        var s, v :| s in servers && v in s.memberIds && k == (s.id, v);
        var i :| 0 <= i < |servers| && servers[i] == s;
        assert after[i] in after && after[i].id == s.id;
        assert v in after[i].memberIds;
      } else {
        var s :| s in servers && s.id == serverId;
        var i :| 0 <= i < |servers| && servers[i] == s;
        assert after[i] in after && after[i].memberIds == s.memberIds + [userId];
        assert userId in after[i].memberIds;
      }
    }
  }

  lemma ListedKeysLeave(servers: seq<Server>, serverId: Id, userId: Id)
    ensures ListedKeys(LeaveServer(servers, serverId, userId)) == ListedKeys(servers) - {(serverId, userId)}
  {
    var after := LeaveServer(servers, serverId, userId);
    forall k | k in ListedKeys(after) ensures k in ListedKeys(servers) - {(serverId, userId)} {
      var s, v :| s in after && v in s.memberIds && k == (s.id, v);
      var i :| 0 <= i < |after| && after[i] == s;
      assert servers[i] in servers;
    }
    forall k | k in ListedKeys(servers) - {(serverId, userId)} ensures k in ListedKeys(after) {
      var s, v :| s in servers && v in s.memberIds && k == (s.id, v);
      var i :| 0 <= i < |servers| && servers[i] == s;
      assert after[i] in after && after[i].id == s.id;
      assert v in after[i].memberIds;
    }
  }

  lemma ListedKeysDrop(servers: seq<Server>, serverId: Id)
    ensures ListedKeys(DropServer(servers, serverId)) == set k | k in ListedKeys(servers) && k.0 != serverId
  {
    var after := DropServer(servers, serverId);
    forall k | k in ListedKeys(servers) && k.0 != serverId ensures k in ListedKeys(after) {
      var s, v :| s in servers && v in s.memberIds && k == (s.id, v);
      assert s in after;
    }
  }

  lemma MemberKeysDrop(rows: seq<ServerMember>, serverId: Id)
    ensures MemberKeys(DropServerMembers(rows, serverId)) == set k | k in MemberKeys(rows) && k.0 != serverId
  {
    var after := DropServerMembers(rows, serverId);
    forall k | k in MemberKeys(rows) && k.0 != serverId ensures k in MemberKeys(after) {
      var m :| m in rows && k == (m.serverId, m.userId);
      assert m in after;
    }
  }

  lemma MemberKeysDropMember(rows: seq<ServerMember>, serverId: Id, userId: Id)
    ensures MemberKeys(DropMember(rows, serverId, userId)) == MemberKeys(rows) - {(serverId, userId)}
  {
    var after := DropMember(rows, serverId, userId);
    forall k | k in MemberKeys(rows) - {(serverId, userId)} ensures k in MemberKeys(after) {
      var m :| m in rows && k == (m.serverId, m.userId);
      assert m in after;
    }
  }

  /**
   * `addServerMember` keeps the member lists and the rows in step exactly
   * when a server with the row's server id exists; otherwise the row is
   * stored with no server listing it.
   */
  lemma AddServerMemberSync(st: Snapshot, member: ServerMember)
    requires MembershipInSync(st.servers, st.serverMembers)
    ensures MembershipInSync(StoreState.AddServerMember(st, member).servers,
                             StoreState.AddServerMember(st, member).serverMembers)
      <==> member.serverId in ServerIds(st.servers)
  {
    var r := StoreState.AddServerMember(st, member);
    ListedKeysJoin(st.servers, member.serverId, member.userId);
    assert MemberKeys(r.serverMembers) == MemberKeys(st.serverMembers) + {(member.serverId, member.userId)} by {
      assert member in r.serverMembers;
      forall k | k in MemberKeys(r.serverMembers)
        ensures k in MemberKeys(st.serverMembers) + {(member.serverId, member.userId)}
      {
        var m :| m in r.serverMembers && k == (m.serverId, m.userId);
        if m != member {
          assert m in st.serverMembers;
        }
      }
    }
    if member.serverId !in ServerIds(st.servers) {
      assert (member.serverId, member.userId) in MemberKeys(r.serverMembers);
      assert (member.serverId, member.userId) !in ListedKeys(st.servers);
    }
  }

  /** `removeServerMember` keeps the member lists and the rows in step. */
  lemma RemoveServerMemberSync(st: Snapshot, serverId: Id, userId: Id)
    requires MembershipInSync(st.servers, st.serverMembers)
    ensures MembershipInSync(StoreState.RemoveServerMember(st, serverId, userId).servers,
                             StoreState.RemoveServerMember(st, serverId, userId).serverMembers)
  {
    ListedKeysLeave(st.servers, serverId, userId);
    MemberKeysDropMember(st.serverMembers, serverId, userId);
  }

  /** `deleteServer` keeps the member lists and the rows in step. */
  lemma DeleteServerSync(st: Snapshot, serverId: Id)
    requires MembershipInSync(st.servers, st.serverMembers)
    ensures MembershipInSync(StoreState.DeleteServer(st, serverId).servers,
                             StoreState.DeleteServer(st, serverId).serverMembers)
  {
    ListedKeysDrop(st.servers, serverId);
    MemberKeysDrop(st.serverMembers, serverId);
  }

  /**
   * `addServerMember` does not check for duplicates: for a user already
   * listed, the server lists it once more and its list is no longer free of
   * repetitions.
   */
  lemma AddServerMemberDuplicates(st: Snapshot, member: ServerMember, i: nat)
    requires i < |st.servers| && st.servers[i].id == member.serverId
    requires member.userId in st.servers[i].memberIds
    ensures var after := StoreState.AddServerMember(st, member).servers[i].memberIds;
      multiset(after)[member.userId] == multiset(st.servers[i].memberIds)[member.userId] + 1 &&
      !Distinct(after)
  {
    var before := st.servers[i].memberIds;
    var after := StoreState.AddServerMember(st, member).servers[i].memberIds;
    assert after == before + [member.userId];
    var j :| 0 <= j < |before| && before[j] == member.userId;
    assert after[j] == after[|before|];
  }

  /**
   * Creating a server that lists its owner and then adding the owner's
   * membership row, one operation after the other, lists the owner twice.
   */
  lemma CreateServerListsOwnerTwice(st: Snapshot, d: ServerDraft, id: Id, now: Timestamp, joinedAt: Timestamp)
    requires d.memberIds == [d.ownerId]
    ensures var after := StoreState.AddServerMember(StoreState.AddServer(st, d, id, now),
                                                    ServerMember(d.ownerId, id, Admin, joinedAt, None));
      after.servers[|st.servers|].id == id &&
      after.servers[|st.servers|].memberIds == [d.ownerId, d.ownerId]
  {
  }

  // ---------------------------------------------------------------------------
  // Referential integrity.

  /** A new message keeps the store consistent exactly when it names an existing channel of its server. */
  lemma AddMessageIntegrity(st: Snapshot, d: MessageDraft, id: Id, now: Timestamp)
    requires Integrity(st)
    ensures Integrity(StoreState.AddMessage(st, d, id, now)) <==> (d.channelId, d.serverId) in ChannelKeys(st.channels)
  {
    var r := StoreState.AddMessage(st, d, id, now);
    assert d.Build(id, now) in r.messages;
    assert forall m :: m in r.messages ==> m in st.messages || m == d.Build(id, now);
  }

  /** A new message has no reactions, so every reaction list stays well formed. */
  lemma AddMessageKeepsWellFormed(st: Snapshot, d: MessageDraft, id: Id, now: Timestamp)
    requires ReactionsWellFormed(st.messages)
    ensures ReactionsWellFormed(StoreState.AddMessage(st, d, id, now).messages)
  {
    var r := StoreState.AddMessage(st, d, id, now);
    assert forall m :: m in r.messages ==> m in st.messages || m == d.Build(id, now);
  }

  /**
   * A new channel keeps the store consistent exactly when its server exists
   * and its category, if any, belongs to that server.
   */
  lemma AddChannelIntegrity(st: Snapshot, d: ChannelDraft, id: Id, now: Timestamp)
    requires Integrity(st)
    ensures Integrity(StoreState.AddChannel(st, d, id, now)) <==>
      d.serverId in ServerIds(st.servers) &&
      (d.categoryId.Some? ==> (d.categoryId.value, d.serverId) in CategoryKeys(st.categories))
  {
    var r := StoreState.AddChannel(st, d, id, now);
    var c := d.Build(id, now);
    assert c in r.channels;
    assert forall x :: x in r.channels ==> x in st.channels || x == c;
    assert forall m :: m in st.messages ==> (m.channelId, m.serverId) in ChannelKeys(r.channels) by {
      forall m | m in st.messages ensures (m.channelId, m.serverId) in ChannelKeys(r.channels) {
        var x :| x in st.channels && (x.id, x.serverId) == (m.channelId, m.serverId);
        assert x in r.channels;
      }
    }
  }

  /** A new category keeps the store consistent exactly when its server exists. */
  lemma AddCategoryIntegrity(st: Snapshot, d: CategoryDraft, id: Id)
    requires Integrity(st)
    ensures Integrity(StoreState.AddCategory(st, d, id)) <==> d.serverId in ServerIds(st.servers)
  {
    var r := StoreState.AddCategory(st, d, id);
    var k := d.Build(id);
    assert k in r.categories;
    assert forall x :: x in r.categories ==> x in st.categories || x == k;
    forall c | c in r.channels && c.categoryId.Some?
      ensures (c.categoryId.value, c.serverId) in CategoryKeys(r.categories)
    {
      var x :| x in st.categories && (x.id, x.serverId) == (c.categoryId.value, c.serverId);
      assert x in r.categories;
    }
  }

  /** A new server keeps the store consistent: nothing refers to it yet and nothing else moves. */
  lemma AddServerKeepsIntegrity(st: Snapshot, d: ServerDraft, id: Id, now: Timestamp)
    requires Integrity(st)
    ensures Integrity(StoreState.AddServer(st, d, id, now))
  {
    var r := StoreState.AddServer(st, d, id, now);
    forall s | s in st.servers ensures s.id in ServerIds(r.servers) {
      assert s in r.servers;
    }
  }

  lemma ListedKeysAppend(servers: seq<Server>, s: Server)
    ensures ListedKeys(servers + [s]) == ListedKeys(servers) + set u | u in s.memberIds :: (s.id, u)
  {
    var after := servers + [s];
    forall k | k in ListedKeys(servers) ensures k in ListedKeys(after) {
      var x, v :| x in servers && v in x.memberIds && k == (x.id, v);
      assert x in after;
    }
    assert s in after;
  }

  /**
   * The create-server flow run step by step: a server created listing its
   * owner, followed by the owner's membership row, keeps the member lists and
   * the rows in step, although the owner is then listed twice.
   */
  lemma CreateServerKeepsSync(st: Snapshot, d: ServerDraft, id: Id, now: Timestamp, joinedAt: Timestamp)
    requires MembershipInSync(st.servers, st.serverMembers)
    requires d.memberIds == [d.ownerId]
    ensures var after := StoreState.AddServerMember(StoreState.AddServer(st, d, id, now),
                                                    ServerMember(d.ownerId, id, Admin, joinedAt, None));
      MembershipInSync(after.servers, after.serverMembers)
  {
    var mid := StoreState.AddServer(st, d, id, now);
    var s := d.Build(id, now);
    ListedKeysAppend(st.servers, s);
    assert (set u | u in s.memberIds :: (s.id, u)) == {(id, d.ownerId)};
    assert s in mid.servers;
    var after := StoreState.AddServerMember(mid, ServerMember(d.ownerId, id, Admin, joinedAt, None));
    ListedKeysJoin(mid.servers, id, d.ownerId);
    assert ListedKeys(after.servers) == ListedKeys(st.servers) + {(id, d.ownerId)};
    assert MemberKeys(after.serverMembers) == MemberKeys(st.serverMembers) + {(id, d.ownerId)} by {
      var row := ServerMember(d.ownerId, id, Admin, joinedAt, None);
      assert row in after.serverMembers;
      forall k | k in MemberKeys(after.serverMembers)
        ensures k in MemberKeys(st.serverMembers) + {(id, d.ownerId)}
      {
        var m :| m in after.serverMembers && k == (m.serverId, m.userId);
        if m != row {
          assert m in st.serverMembers;
        }
      }
    }
  }

  /** After `deleteServer` nothing refers to a record that is gone. */
  lemma DeleteServerKeepsIntegrity(st: Snapshot, serverId: Id)
    requires Integrity(st)
    ensures Integrity(StoreState.DeleteServer(st, serverId))
  {
    var r := StoreState.DeleteServer(st, serverId);
    assert forall s :: s in st.servers && s.id != serverId ==> s in r.servers;
    forall c | c in r.channels ensures c.serverId in ServerIds(r.servers) {
      var s :| s in st.servers && s.id == c.serverId;
      assert s in r.servers;
    }
    forall k | k in r.categories ensures k.serverId in ServerIds(r.servers) {
      var s :| s in st.servers && s.id == k.serverId;
      assert s in r.servers;
    }
    forall m | m in r.serverMembers ensures m.serverId in ServerIds(r.servers) {
      var s :| s in st.servers && s.id == m.serverId;
      assert s in r.servers;
    }
    forall m | m in r.messages ensures (m.channelId, m.serverId) in ChannelKeys(r.channels) {
      var c :| c in st.channels && (c.id, c.serverId) == (m.channelId, m.serverId);
      assert c in r.channels;
    }
    forall c | c in r.channels && c.categoryId.Some?
      ensures (c.categoryId.value, c.serverId) in CategoryKeys(r.categories)
    {
      var k :| k in st.categories && (k.id, k.serverId) == (c.categoryId.value, c.serverId);
      assert k in r.categories;
    }
  }

  /** After `deleteChannel` no message refers to the deleted channel. */
  lemma DeleteChannelKeepsIntegrity(st: Snapshot, channelId: Id)
    requires Integrity(st)
    ensures Integrity(StoreState.DeleteChannel(st, channelId))
  {
    var r := StoreState.DeleteChannel(st, channelId);
    forall m | m in r.messages ensures (m.channelId, m.serverId) in ChannelKeys(r.channels) {
      var c :| c in st.channels && (c.id, c.serverId) == (m.channelId, m.serverId);
      assert c in r.channels;
    }
  }

  /** After `deleteCategory` no channel refers to the deleted category, and messages keep their channels. */
  lemma DeleteCategoryKeepsIntegrity(st: Snapshot, categoryId: Id)
    requires Integrity(st)
    ensures Integrity(StoreState.DeleteCategory(st, categoryId))
  {
    var r := StoreState.DeleteCategory(st, categoryId);
    assert ChannelKeys(r.channels) == ChannelKeys(st.channels) by {
      forall k | k in ChannelKeys(st.channels) ensures k in ChannelKeys(r.channels) {
        var c :| c in st.channels && k == (c.id, c.serverId);
        var i :| 0 <= i < |st.channels| && st.channels[i] == c;
        assert r.channels[i] in r.channels;
      }
      forall k | k in ChannelKeys(r.channels) ensures k in ChannelKeys(st.channels) {
        var c :| c in r.channels && k == (c.id, c.serverId);
        var i :| 0 <= i < |r.channels| && r.channels[i] == c;
        assert st.channels[i] in st.channels;
      }
    }
    forall c | c in r.channels ensures c.serverId in ServerIds(r.servers) {
      var i :| 0 <= i < |r.channels| && r.channels[i] == c;
      assert st.channels[i] in st.channels;
    }
    forall c | c in r.channels && c.categoryId.Some?
      ensures (c.categoryId.value, c.serverId) in CategoryKeys(r.categories)
    {
      var i :| 0 <= i < |r.channels| && r.channels[i] == c;
      var o := st.channels[i];
      assert o in st.channels;
      var k :| k in st.categories && (k.id, k.serverId) == (o.categoryId.value, o.serverId);
      assert k in r.categories;
    }
  }
}
