/**
 * The first-run demo data of the store (`initializeDemoData`): three users,
 * two servers, two categories, four channels, three messages with two
 * reactions, and five membership rows. The fourteen ids come from the
 * injected id supplier and every timestamp from one injected clock reading.
 */
module DemoData {
  import opened Types
  import opened Seqs
  import opened StoreState
  import Reactions

  datatype DemoIds = DemoIds(
    demoUser: Id, alice: Id, bob: Id,
    hub: Id, gaming: Id,
    textCategory: Id, voiceCategory: Id,
    general: Id, random: Id, voice: Id, gamingGeneral: Id,
    welcome: Id, second: Id, third: Id)
  {
    function All(): seq<Id> {
      [demoUser, alice, bob, hub, gaming, textCategory, voiceCategory,
       general, random, voice, gamingGeneral, welcome, second, third]
    }

    /** The id supplier never hands out the same id twice. */
    predicate Fresh() {
      Distinct(All())
    }
  }

  const Wave := "\U{1F44B}"
  const Fire := "\U{1F525}"

  function Avatar(seed: string): string {
    "https://api.dicebear.com/7.x/avataaars/svg?seed=" + seed
  }

  function DemoUsers(ids: DemoIds, now: Timestamp): seq<User> {
    [User(ids.demoUser, "DemoUser", Avatar("DemoUser"), Online, Admin, now),
     User(ids.alice, "Alice", Avatar("Alice"), Online, Member, now),
     User(ids.bob, "Bob", Avatar("Bob"), Away, Moderator, now)]
  }

  function DemoServers(ids: DemoIds, now: Timestamp): seq<Server> {
    [Server(ids.hub, "Community Hub", "\U{1F3E0}", ids.demoUser, Some("Welcome to the Community Hub!"),
            [ids.demoUser, ids.alice, ids.bob], now),
     Server(ids.gaming, "Gaming Squad", "\U{1F3AE}", ids.demoUser, Some("Gaming community"),
            [ids.demoUser, ids.alice], now)]
  }

  function DemoCategories(ids: DemoIds): seq<ChannelCategory> {
    [ChannelCategory(ids.textCategory, "TEXT CHANNELS", ids.hub, false, 0),
     ChannelCategory(ids.voiceCategory, "VOICE CHANNELS", ids.hub, false, 1)]
  }

  function DemoChannels(ids: DemoIds, now: Timestamp): seq<Channel> {
    [Channel(ids.general, "general", ids.hub, Some(ids.textCategory), Text, Some("General discussion"), 0, now),
     Channel(ids.random, "random", ids.hub, Some(ids.textCategory), Text, Some("Random stuff"), 1, now),
     Channel(ids.voice, "General Voice", ids.hub, Some(ids.voiceCategory), Voice, None, 0, now),
     Channel(ids.gamingGeneral, "general", ids.gaming, None, Text, Some("General gaming chat"), 0, now)]
  }

  /** Posted an hour, half an hour and a quarter of an hour before `now`. */
  function DemoMessages(ids: DemoIds, now: Timestamp): seq<Message> {
    [Message(ids.welcome, "Welcome to Community Hub! Feel free to chat and share.", ids.demoUser,
             ids.general, ids.hub, now - 3600000, None, [], [], None, None),
     Message(ids.second, "Hey everyone! Happy to be here!", ids.alice,
             ids.general, ids.hub, now - 1800000, None,
             [MessageReaction(Wave, [ids.demoUser], 1)], [], None, None),
     Message(ids.third, "This platform looks awesome!", ids.bob,
             ids.general, ids.hub, now - 900000, None,
             [MessageReaction(Fire, [ids.demoUser, ids.alice], 2)], [], None, None)]
  }

  function DemoMembers(ids: DemoIds, now: Timestamp): seq<ServerMember> {
    [ServerMember(ids.demoUser, ids.hub, Admin, now, None),
     ServerMember(ids.alice, ids.hub, Member, now, None),
     ServerMember(ids.bob, ids.hub, Moderator, now, None),
     ServerMember(ids.demoUser, ids.gaming, Admin, now, None),
     ServerMember(ids.alice, ids.gaming, Member, now, None)]
  }

  /** Every slot replaced by the demo data; the demo user becomes the current user. */
  function DemoSnapshot(ids: DemoIds, now: Timestamp): Snapshot {
    Snapshot(Some(DemoUsers(ids, now)[0]), DemoUsers(ids, now), DemoServers(ids, now),
             DemoChannels(ids, now), DemoCategories(ids), DemoMessages(ids, now), DemoMembers(ids, now))
  }

  /** The demo data satisfies every store invariant. */
  lemma DemoInvariants(ids: DemoIds, now: Timestamp)
    requires ids.Fresh()
    ensures var st := DemoSnapshot(ids, now);
      Integrity(st) && MembershipInSync(st.servers, st.serverMembers) && ReactionsWellFormed(st.messages)
  {
    DemoReactionsWellFormed(ids, now);
    DemoListedAreRows(ids, now);
    DemoRowsAreListed(ids, now);
    DemoIntegrity(ids, now);
  }

  /** The two demo reactions are consistent; this needs the demo user and Alice to differ. */
  lemma DemoReactionsWellFormed(ids: DemoIds, now: Timestamp)
    requires ids.Fresh()
    ensures ReactionsWellFormed(DemoMessages(ids, now))
  {
    assert ids.All()[0] != ids.All()[1];
    var wave := MessageReaction(Wave, [ids.demoUser], 1);
    var fire := MessageReaction(Fire, [ids.demoUser, ids.alice], 2);
    assert Reactions.EntryConsistent(wave) && Reactions.EntryConsistent(fire);
    assert Reactions.WellFormed([wave]) && Reactions.WellFormed([fire]);
  }

  lemma DemoListedAreRows(ids: DemoIds, now: Timestamp)
    ensures ListedKeys(DemoServers(ids, now)) <= MemberKeys(DemoMembers(ids, now))
  {
    var servers := DemoServers(ids, now);
    var rows := DemoMembers(ids, now);
    forall k | k in ListedKeys(servers) ensures k in MemberKeys(rows) {
      var s, v :| s in servers && v in s.memberIds && k == (s.id, v);
      assert rows[0] in rows && rows[1] in rows && rows[2] in rows && rows[3] in rows && rows[4] in rows;
      if s == servers[0] {
        assert v == ids.demoUser || v == ids.alice || v == ids.bob;
      } else {
        assert v == ids.demoUser || v == ids.alice;
      }
    }
  }

  lemma DemoRowsAreListed(ids: DemoIds, now: Timestamp)
    ensures MemberKeys(DemoMembers(ids, now)) <= ListedKeys(DemoServers(ids, now))
  {
    var servers := DemoServers(ids, now);
    var rows := DemoMembers(ids, now);
    forall k | k in MemberKeys(rows) ensures k in ListedKeys(servers) {
      var m :| m in rows && k == (m.serverId, m.userId);
      var i :| 0 <= i < 5 && rows[i] == m;
      assert servers[0] in servers && servers[1] in servers;
      if i < 3 {
        assert m.serverId == servers[0].id && m.userId in servers[0].memberIds;
      } else {
        assert m.serverId == servers[1].id && m.userId in servers[1].memberIds;
      }
    }
  }

  lemma DemoIntegrity(ids: DemoIds, now: Timestamp)
    ensures Integrity(DemoSnapshot(ids, now))
  {
    var st := DemoSnapshot(ids, now);
    assert st.servers[0] in st.servers && st.servers[1] in st.servers;
    assert (ids.general, ids.hub) in ChannelKeys(st.channels) by {
      assert st.channels[0] in st.channels;
    }
    assert (ids.textCategory, ids.hub) in CategoryKeys(st.categories) by {
      assert st.categories[0] in st.categories;
    }
    assert (ids.voiceCategory, ids.hub) in CategoryKeys(st.categories) by {
      assert st.categories[1] in st.categories;
    }
  }
}
