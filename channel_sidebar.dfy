/**
 * The channel sidebar of a server (app/components/ChannelSidebar.tsx): the
 * server's channels grouped under its categories, each group and the
 * categories themselves ordered by position, and the set of categories the
 * viewer has collapsed.
 */
module ChannelSidebar {
  import opened Types
  import opened Seqs
  import opened Sorting

  function Position(c: Channel): int {
    c.position
  }

  function CategoryPosition(k: ChannelCategory): int {
    k.position
  }

  /** `serverChannels`: the server's channels, in store order. */
  function ServerChannels(channels: seq<Channel>, serverId: Id): (r: seq<Channel>)
    ensures forall c :: c in r <==> c in channels && c.serverId == serverId
    ensures forall c :: multiset(r)[c] == if c.serverId == serverId then multiset(channels)[c] else 0
    ensures IsSubsequence(r, channels)
  {
    FilterExact(channels, (c: Channel) => c.serverId == serverId);
    Filter(channels, (c: Channel) => c.serverId == serverId)
  }

  /** `serverCategories`: the server's categories, in store order. */
  function ServerCategories(categories: seq<ChannelCategory>, serverId: Id): (r: seq<ChannelCategory>)
    ensures forall k :: k in r <==> k in categories && k.serverId == serverId
    ensures forall k :: multiset(r)[k] == if k.serverId == serverId then multiset(categories)[k] else 0
    ensures IsSubsequence(r, categories)
  {
    FilterExact(categories, (k: ChannelCategory) => k.serverId == serverId);
    Filter(categories, (k: ChannelCategory) => k.serverId == serverId)
  }

  function InCategory(channels: seq<Channel>, categoryId: Id): seq<Channel> {
    Filter(channels, (c: Channel) => c.categoryId == Some(categoryId))
  }

  /**
   * `categoryChannels` in `renderCategory`: exactly the given channels that
   * name the category, each as often as given, by ascending position.
   */
  function CategoryChannels(channels: seq<Channel>, categoryId: Id): (r: seq<Channel>)
    ensures forall c :: c in r <==> c in channels && c.categoryId == Some(categoryId)
    ensures forall c :: multiset(r)[c] == if c.categoryId == Some(categoryId) then multiset(channels)[c] else 0
    ensures SortedBy(r, Position)
  {
    FilterExact(channels, (c: Channel) => c.categoryId == Some(categoryId));
    SortBy(InCategory(channels, categoryId), Position)
  }

  /** Channels of a category at the same position keep their store order. */
  lemma {:induction false} CategoryChannelsStable(channels: seq<Channel>, categoryId: Id, p: int)
    ensures WithKey(CategoryChannels(channels, categoryId), Position, p) ==
      WithKey(InCategory(channels, categoryId), Position, p)
  {
    SortByStable(InCategory(channels, categoryId), Position, p);
  }

  /** `!c.categoryId`: no category, or the empty string, which is falsy. */
  predicate Uncategorized(c: Channel) {
    c.categoryId == None || c.categoryId == Some("")
  }

  function WithoutCategory(channels: seq<Channel>): seq<Channel> {
    Filter(channels, Uncategorized)
  }

  /**
   * `uncategorizedChannels`: exactly the given channels with no category (or
   * an empty one), each as often as given, by ascending position.
   */
  function UncategorizedChannels(channels: seq<Channel>): (r: seq<Channel>)
    ensures forall c :: c in r <==> c in channels && Uncategorized(c)
    ensures forall c :: multiset(r)[c] == if Uncategorized(c) then multiset(channels)[c] else 0
    ensures SortedBy(r, Position)
  {
    FilterExact(channels, Uncategorized);
    SortBy(WithoutCategory(channels), Position)
  }

  /** Uncategorized channels at the same position keep their store order. */
  lemma {:induction false} UncategorizedChannelsStable(channels: seq<Channel>, p: int)
    ensures WithKey(UncategorizedChannels(channels), Position, p) == WithKey(WithoutCategory(channels), Position, p)
  {
    SortByStable(WithoutCategory(channels), Position, p);
  }

  /** The categories in the order they are shown: a permutation, by ascending position. */
  function OrderedCategories(categories: seq<ChannelCategory>): (r: seq<ChannelCategory>)
    ensures multiset(r) == multiset(categories)
    ensures SortedBy(r, CategoryPosition)
  {
    SortBy(categories, CategoryPosition)
  }

  /** The sort is stable: categories with equal positions keep their store order. */
  lemma {:induction false} OrderedCategoriesStable(categories: seq<ChannelCategory>, p: int)
    ensures WithKey(OrderedCategories(categories), CategoryPosition, p) == WithKey(categories, CategoryPosition, p)
  {
    SortByStable(categories, CategoryPosition, p);
  }

  /** A category heading, whether it is collapsed, and the channels listed under it. */
  datatype Section = Section(category: ChannelCategory, collapsed: bool, shown: seq<Channel>)

  datatype SidebarView = SidebarView(uncategorized: seq<Channel>, sections: seq<Section>)

  /**
   * `renderCategory`: the heading of the category, and under it nothing when
   * it is collapsed, or else exactly its channels by ascending position.
   */
  function RenderCategory(serverChannels: seq<Channel>, collapsed: set<Id>, k: ChannelCategory): (s: Section)
    ensures s.category == k
    ensures s.collapsed <==> k.id in collapsed
    ensures s.collapsed ==> s.shown == []
    ensures !s.collapsed ==> s.shown == CategoryChannels(serverChannels, k.id)
    ensures !s.collapsed ==> forall c :: c in s.shown <==> c in serverChannels && c.categoryId == Some(k.id)
    ensures SortedBy(s.shown, Position)
  {
    var isCollapsed := k.id in collapsed;
    Section(k, isCollapsed, if isCollapsed then [] else CategoryChannels(serverChannels, k.id))
  }

  /** One section per category, in the given order. */
  function Sections(serverChannels: seq<Channel>, collapsed: set<Id>, ordered: seq<ChannelCategory>): (r: seq<Section>)
    ensures |r| == |ordered|
    ensures forall i :: 0 <= i < |r| ==> r[i].category == ordered[i]
    ensures forall s :: s in r ==> (s.collapsed <==> s.category.id in collapsed)
    ensures forall s :: s in r && s.collapsed ==> s.shown == []
    ensures forall s :: s in r && !s.collapsed ==> s.shown == CategoryChannels(serverChannels, s.category.id)
  {
    Map(ordered, k => RenderCategory(serverChannels, collapsed, k))
  }

  /**
   * The channel list of the sidebar: the uncategorized channels of the server
   * first, then one section per category of the server by position; a
   * collapsed section lists no channel and an expanded one lists the
   * category's channels of this server.
   */
  function Sidebar(channels: seq<Channel>, categories: seq<ChannelCategory>, serverId: Id, collapsed: set<Id>): (v: SidebarView)
    ensures v.uncategorized == UncategorizedChannels(ServerChannels(channels, serverId))
    ensures |v.sections| == |ServerCategories(categories, serverId)|
    ensures forall i :: 0 <= i < |v.sections| ==>
      v.sections[i].category == OrderedCategories(ServerCategories(categories, serverId))[i]
    ensures forall s :: s in v.sections ==> (s.collapsed <==> s.category.id in collapsed)
    ensures forall s :: s in v.sections && s.collapsed ==> s.shown == []
    ensures forall s :: s in v.sections && !s.collapsed ==>
      s.shown == CategoryChannels(ServerChannels(channels, serverId), s.category.id)
  {
    var serverCategories := ServerCategories(categories, serverId);
    var ordered := OrderedCategories(serverCategories);
    assert |ordered| == |multiset(ordered)| == |multiset(serverCategories)| == |serverCategories|;
    SidebarView(UncategorizedChannels(ServerChannels(channels, serverId)),
                Sections(ServerChannels(channels, serverId), collapsed, ordered))
  }

  /** Only channels of the server are listed. */
  lemma SidebarShowsOnlyServerChannels(channels: seq<Channel>, categories: seq<ChannelCategory>, serverId: Id,
                                       collapsed: set<Id>, c: Channel)
    requires c.serverId != serverId
    ensures var v := Sidebar(channels, categories, serverId, collapsed);
      c !in v.uncategorized && forall s :: s in v.sections ==> c !in s.shown
  {
  }

  /** Every section heads a category of the server. */
  lemma SectionsHeadServerCategories(channels: seq<Channel>, categories: seq<ChannelCategory>, serverId: Id,
                                     collapsed: set<Id>, s: Section)
    requires s in Sidebar(channels, categories, serverId, collapsed).sections
    ensures s.category in categories && s.category.serverId == serverId
  {
    var sections := Sidebar(channels, categories, serverId, collapsed).sections;
    var serverCategories := ServerCategories(categories, serverId);
    var ordered := OrderedCategories(serverCategories);
    var i :| 0 <= i < |sections| && sections[i] == s;
    assert s.category == ordered[i];
    assert s.category in multiset(ordered);
    assert s.category in multiset(serverCategories);
    assert s.category in serverCategories;
  }

  /**
   * A channel whose category is not a category of this server is listed
   * nowhere: neither among the uncategorized channels nor in any section.
   */
  lemma OrphanChannelHidden(channels: seq<Channel>, categories: seq<ChannelCategory>, serverId: Id,
                            collapsed: set<Id>, c: Channel)
    requires c.categoryId.Some? && c.categoryId.value != ""
    requires forall k :: k in categories && k.serverId == serverId ==> k.id != c.categoryId.value
    ensures var v := Sidebar(channels, categories, serverId, collapsed);
      c !in v.uncategorized && forall s :: s in v.sections ==> c !in s.shown
  {
    var v := Sidebar(channels, categories, serverId, collapsed);
    forall s | s in v.sections ensures c !in s.shown {
      SectionsHeadServerCategories(channels, categories, serverId, collapsed, s);
    }
  }

  /**
   * Every channel of the server is listed where it belongs: with no category
   * among the uncategorized channels, and with a category of this server in
   * that category's section unless the section is collapsed.
   */
  lemma ChannelListedWhereItBelongs(channels: seq<Channel>, categories: seq<ChannelCategory>, serverId: Id,
                                    collapsed: set<Id>, c: Channel, i: nat)
    requires c in channels && c.serverId == serverId
    requires i < |Sidebar(channels, categories, serverId, collapsed).sections|
    ensures var v := Sidebar(channels, categories, serverId, collapsed);
      (Uncategorized(c) ==> c in v.uncategorized) &&
      (c.categoryId == Some(v.sections[i].category.id) && !v.sections[i].collapsed ==> c in v.sections[i].shown)
  {
    var v := Sidebar(channels, categories, serverId, collapsed);
    assert v.sections[i] in v.sections;
  }

  /** `toggleCategory` on a set value: only the category's own membership flips. */
  function Toggled(collapsed: set<Id>, categoryId: Id): (r: set<Id>)
    ensures categoryId in r <==> categoryId !in collapsed
    ensures forall x :: x != categoryId ==> (x in r <==> x in collapsed)
  {
    if categoryId in collapsed then collapsed - {categoryId} else collapsed + {categoryId}
  }

  /** Toggling a category twice restores the collapsed set. */
  lemma ToggledTwice(collapsed: set<Id>, categoryId: Id)
    ensures Toggled(Toggled(collapsed, categoryId), categoryId) == collapsed
  {
    var once := Toggled(collapsed, categoryId);
    assert forall x :: x in Toggled(once, categoryId) <==> x in collapsed;
  }

  /** The viewer's collapsed categories: component state, starting empty. */
  class CategoryCollapse {
    var collapsed: set<Id>

    constructor()
      ensures collapsed == {}
    {
      collapsed := {};
    }

    /** Copies the set, adds or deletes the category in the copy, and stores the copy. */
    method ToggleCategory(categoryId: Id)
      modifies this
      ensures collapsed == Toggled(old(collapsed), categoryId)
    {
      var next := collapsed;
      if categoryId in next {
        next := next - {categoryId};
      } else {
        next := next + {categoryId};
      }
      collapsed := next;
    }
  }
}
