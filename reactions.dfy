/**
 * Reaction bookkeeping on one message (the per-message bodies of `addReaction`
 * and `removeReaction` in app/lib/context/AppContext.tsx). Each entry keeps its
 * reacting user ids and, separately, a count; the intended invariant is that
 * the count equals the number of ids, that no id repeats and that a retained
 * entry has a positive count, with at most one entry per emoji.
 */
module Reactions {
  import opened Types
  import opened Seqs

  /** `reactions.find(r => r.emoji === emoji)`, as the position of that entry. */
  function FindEmoji(rs: seq<MessageReaction>, emoji: string): Option<nat> {
    FindFirst(rs, (r: MessageReaction) => r.emoji == emoji)
  }

  /** The entry with `userId` appended and the count raised by one. */
  function Joined(r: MessageReaction, userId: Id): MessageReaction {
    r.(userIds := r.userIds + [userId], count := r.count + 1)
  }

  /** The entry with every `userId` filtered out and the count lowered by one. */
  function Withdrawn(r: MessageReaction, userId: Id): MessageReaction {
    r.(userIds := Without(r.userIds, userId), count := r.count - 1)
  }

  /**
   * `addReaction` on one message: a new entry `{emoji, [userId], 1}` when the
   * emoji has none; no change when the first entry for it already lists the
   * user; otherwise every entry for the emoji gets the user and one more count.
   */
  function AddReaction(rs: seq<MessageReaction>, emoji: string, userId: Id): (r: seq<MessageReaction>)
    ensures |r| == |rs| || r == rs + [MessageReaction(emoji, [userId], 1)]
    ensures |r| != |rs| ==> forall i :: 0 <= i < |rs| ==> rs[i].emoji != emoji
    ensures forall i :: 0 <= i < |rs| ==> r[i].emoji == rs[i].emoji
    ensures forall i :: 0 <= i < |rs| && rs[i].emoji != emoji ==> r[i] == rs[i]
  {
    match FindEmoji(rs, emoji)
    case None => rs + [MessageReaction(emoji, [userId], 1)]
    case Some(i) =>
      if userId in rs[i].userIds then rs
      else Map(rs, (r: MessageReaction) => if r.emoji == emoji then Joined(r, userId) else r)
  }

  /**
   * `removeReaction` on one message: every entry for the emoji loses the user
   * and one count, whether or not it listed the user, and then every entry
   * whose count is not positive is dropped.
   */
  function RemoveReaction(rs: seq<MessageReaction>, emoji: string, userId: Id): (r: seq<MessageReaction>)
    ensures AllPositive(r)
    ensures |r| <= |rs|
  {
    Filter(Map(rs, r => WithdrawEmoji(r, emoji, userId)), (r: MessageReaction) => r.count > 0)
  }

  /** The withdrawal step of removing, entry by entry. */
  function WithdrawEmoji(r: MessageReaction, emoji: string, userId: Id): MessageReaction {
    if r.emoji != emoji then r else Withdrawn(r, userId)
  }

  /**
   * Entries of other emojis are neither touched nor invented: those with a
   * positive count stay, and every remaining entry of another emoji was there.
   */
  lemma RemoveReactionKeepsOthers(rs: seq<MessageReaction>, emoji: string, userId: Id)
    ensures forall x :: x in rs && x.emoji != emoji && x.count > 0 ==> x in RemoveReaction(rs, emoji, userId)
    ensures forall x :: x in RemoveReaction(rs, emoji, userId) && x.emoji != emoji ==> x in rs
  {
    var mapped := Map(rs, r => WithdrawEmoji(r, emoji, userId));
    forall x | x in rs && x.emoji != emoji ensures x in mapped {
      var k :| 0 <= k < |rs| && rs[k] == x;
      assert mapped[k] == x;
    }
    forall x | x in mapped && x.emoji != emoji ensures x in rs {
      var k :| 0 <= k < |mapped| && mapped[k] == x;
      assert rs[k] == x;
    }
  }

  /** At most one entry per emoji. */
  predicate EmojiUnique(rs: seq<MessageReaction>) {
    forall i, j :: 0 <= i < j < |rs| ==> rs[i].emoji != rs[j].emoji
  }

  /** Every entry has a positive count. */
  predicate AllPositive(rs: seq<MessageReaction>) {
    forall r :: r in rs ==> r.count > 0
  }

  /** The count caches the number of distinct reacting users, and is positive. */
  predicate EntryConsistent(r: MessageReaction) {
    r.count == |r.userIds| && r.count > 0 && Distinct(r.userIds)
  }

  predicate WellFormed(rs: seq<MessageReaction>) {
    EmojiUnique(rs) && forall r :: r in rs ==> EntryConsistent(r)
  }

  /** With one entry per emoji, the entry found for an emoji is the one at its position. */
  lemma FindEmojiUnique(rs: seq<MessageReaction>, emoji: string, i: nat)
    requires EmojiUnique(rs) && i < |rs| && rs[i].emoji == emoji
    ensures FindEmoji(rs, emoji) == Some(i)
  {
    assert FindEmoji(rs, emoji).Some?;
  }

  /**
   * The three cases of adding a reaction; in each the other entries stay as
   * they were.
   */
  lemma AddReactionCases(rs: seq<MessageReaction>, emoji: string, userId: Id)
    requires EmojiUnique(rs)
    ensures (forall i :: 0 <= i < |rs| ==> rs[i].emoji != emoji) ==>
      AddReaction(rs, emoji, userId) == rs + [MessageReaction(emoji, [userId], 1)]
    ensures forall i :: 0 <= i < |rs| && rs[i].emoji == emoji && userId !in rs[i].userIds ==>
      AddReaction(rs, emoji, userId) ==
        rs[i := rs[i].(userIds := rs[i].userIds + [userId], count := rs[i].count + 1)]
    ensures forall i :: 0 <= i < |rs| && rs[i].emoji == emoji && userId in rs[i].userIds ==>
      AddReaction(rs, emoji, userId) == rs
  {
    forall i | 0 <= i < |rs| && rs[i].emoji == emoji
      ensures userId !in rs[i].userIds ==>
        AddReaction(rs, emoji, userId) == rs[i := Joined(rs[i], userId)]
      ensures userId in rs[i].userIds ==> AddReaction(rs, emoji, userId) == rs
    {
      FindEmojiUnique(rs, emoji, i);
      if userId !in rs[i].userIds {
        var r := AddReaction(rs, emoji, userId);
        forall j | 0 <= j < |rs| ensures r[j] == rs[i := Joined(rs[i], userId)][j] {
          if j != i {
            assert rs[j].emoji != emoji by {
              if j < i { assert rs[j].emoji != rs[i].emoji; } else { assert rs[i].emoji != rs[j].emoji; }
            }
          }
        }
      }
    }
  }

  /** Adding the same reaction twice is the same as adding it once. */
  lemma AddReactionIdempotent(rs: seq<MessageReaction>, emoji: string, userId: Id)
    ensures AddReaction(AddReaction(rs, emoji, userId), emoji, userId) == AddReaction(rs, emoji, userId)
  {
    var once := AddReaction(rs, emoji, userId);
    match FindEmoji(rs, emoji)
    case None =>
      var f := FindEmoji(once, emoji);
      assert once[|rs|].emoji == emoji;
      assert forall k :: 0 <= k < |rs| ==> once[k] == rs[k];
      assert f.Some? && f.value == |rs|;
      assert userId in once[|rs|].userIds;
    case Some(i) =>
      if userId !in rs[i].userIds {
        var f := FindEmoji(once, emoji);
        assert once[i] == Joined(rs[i], userId);
        assert forall k :: 0 <= k < i ==> once[k].emoji == rs[k].emoji;
        assert f.Some? && f.value == i;
        assert userId in once[i].userIds;
      }
  }

  /** Adding a reaction keeps the reactions well formed. */
  lemma AddReactionPreservesWellFormed(rs: seq<MessageReaction>, emoji: string, userId: Id)
    requires WellFormed(rs)
    ensures WellFormed(AddReaction(rs, emoji, userId))
  {
    AddReactionCases(rs, emoji, userId);
    var r := AddReaction(rs, emoji, userId);
    if i :| 0 <= i < |rs| && rs[i].emoji == emoji {
      assert rs[i] in rs;
      if userId !in rs[i].userIds {
        DistinctSnoc(rs[i].userIds, userId);
        assert r == rs[i := Joined(rs[i], userId)];
        forall x | x in r ensures EntryConsistent(x) {
          var k :| 0 <= k < |r| && r[k] == x;
          if k != i { assert x == rs[k]; }
        }
      }
    } else {
      var n := MessageReaction(emoji, [userId], 1);
      assert r == rs + [n];
      forall x | x in r ensures EntryConsistent(x) {
        if x != n { assert x in rs; }
      }
    }
  }

  /**
   * Adding a reaction never gives an emoji a second entry, whatever the ids
   * and counts hold: the emoji's entries are reused, or a new one is appended
   * only when it has none.
   */
  lemma AddReactionKeepsEmojiUnique(rs: seq<MessageReaction>, emoji: string, userId: Id)
    requires EmojiUnique(rs)
    ensures EmojiUnique(AddReaction(rs, emoji, userId))
  {
    var r := AddReaction(rs, emoji, userId);
    if |r| != |rs| {
      forall i, j | 0 <= i < j < |r| ensures r[i].emoji != r[j].emoji {
        if j == |rs| {
          assert rs[i].emoji != emoji;
        }
      }
    }
  }

  /** Filtering keeps at most one entry per emoji. */
  lemma {:induction false} FilterKeepsEmojiUnique(rs: seq<MessageReaction>, p: MessageReaction -> bool)
    requires EmojiUnique(rs)
    ensures EmojiUnique(Filter(rs, p))
  {
    if rs != [] {
      var tail := rs[1..];
      assert EmojiUnique(tail) by {
        forall i, j | 0 <= i < j < |tail| ensures tail[i].emoji != tail[j].emoji {
          assert tail[i] == rs[i + 1] && tail[j] == rs[j + 1];
        }
      }
      FilterKeepsEmojiUnique(tail, p);
      var rest := Filter(tail, p);
      if p(rs[0]) {
        forall x | x in rest ensures x.emoji != rs[0].emoji {
          var k :| 0 <= k < |tail| && tail[k] == x;
          assert rs[k + 1] == x;
        }
        var r := [rs[0]] + rest;
        forall i, j | 0 <= i < j < |r| ensures r[i].emoji != r[j].emoji {
          assert r[j] == rest[j - 1] && r[j] in rest;
          if i > 0 {
            assert r[i] == rest[i - 1];
          }
        }
      }
    }
  }

  /** Removing a reaction never gives an emoji a second entry: it only rewrites and drops entries. */
  lemma RemoveReactionKeepsEmojiUnique(rs: seq<MessageReaction>, emoji: string, userId: Id)
    requires EmojiUnique(rs)
    ensures EmojiUnique(RemoveReaction(rs, emoji, userId))
  {
    var mapped := Map(rs, r => WithdrawEmoji(r, emoji, userId));
    assert EmojiUnique(mapped) by {
      forall i, j | 0 <= i < j < |mapped| ensures mapped[i].emoji != mapped[j].emoji {
        assert mapped[i].emoji == rs[i].emoji && mapped[j].emoji == rs[j].emoji;
      }
    }
    FilterKeepsEmojiUnique(mapped, (r: MessageReaction) => r.count > 0);
  }

  /** `{emoji, ids, n}` with the user taken out again is the entry before the user joined. */
  lemma WithdrawnJoined(r: MessageReaction, userId: Id)
    requires userId !in r.userIds
    ensures Withdrawn(Joined(r, userId), userId) == r
  {
    WithoutAppended(r.userIds, userId);
  }

  /**
   * Inverse law: when every entry is positive and the user has no reaction
   * with this emoji, adding and then removing that reaction restores the list
   * exactly (a fresh single-user entry disappears again).
   */
  lemma {:induction false} AddThenRemove(rs: seq<MessageReaction>, emoji: string, userId: Id)
    requires AllPositive(rs)
    requires forall r :: r in rs && r.emoji == emoji ==> userId !in r.userIds
    ensures RemoveReaction(AddReaction(rs, emoji, userId), emoji, userId) == rs
  {
    var added := AddReaction(rs, emoji, userId);
    var back := Map(added, r => WithdrawEmoji(r, emoji, userId));
    var positive := (r: MessageReaction) => r.count > 0;
    match FindEmoji(rs, emoji)
    case None =>
      var gone := Withdrawn(MessageReaction(emoji, [userId], 1), userId);
      assert back == rs + [gone] by {
        forall k | 0 <= k < |back| ensures back[k] == (rs + [gone])[k] {
          if k < |rs| { assert added[k] == rs[k]; }
        }
      }
      FilterConcat(rs, [gone], positive);
      FilterKeepsAll(rs, positive);
      assert gone.count == 0;
      assert Filter([gone], positive) == [];
    case Some(i) =>
      assert back == rs by {
        forall k | 0 <= k < |rs| ensures back[k] == rs[k] {
          if rs[k].emoji == emoji {
            WithdrawnJoined(rs[k], userId);
          }
        }
      }
      FilterKeepsAll(rs, positive);
  }

  /** With one entry per emoji, the withdrawal step of removing touches only the emoji's entry. */
  lemma WithdrawOnly(rs: seq<MessageReaction>, emoji: string, userId: Id, i: nat)
    requires EmojiUnique(rs)
    requires i < |rs| && rs[i].emoji == emoji
    ensures Map(rs, r => WithdrawEmoji(r, emoji, userId)) == rs[i := Withdrawn(rs[i], userId)]
  {
    var mapped := Map(rs, r => WithdrawEmoji(r, emoji, userId));
    forall k | 0 <= k < |rs| ensures mapped[k] == rs[i := Withdrawn(rs[i], userId)][k] {
      assert mapped[k] == WithdrawEmoji(rs[k], emoji, userId);
      if k < i { assert rs[k].emoji != rs[i].emoji; }
      if k > i { assert rs[i].emoji != rs[k].emoji; }
    }
  }

  /** Dropping non-positive entries around one entry `w` among positive ones. */
  lemma KeepPositiveAround(a: seq<MessageReaction>, w: MessageReaction, b: seq<MessageReaction>)
    requires AllPositive(a) && AllPositive(b)
    ensures Filter(a + [w] + b, (r: MessageReaction) => r.count > 0) ==
      a + (if w.count > 0 then [w] else []) + b
  {
    var positive := (r: MessageReaction) => r.count > 0;
    FilterConcat(a + [w], b, positive);
    FilterConcat(a, [w], positive);
    FilterKeepsAll(a, positive);
    FilterKeepsAll(b, positive);
    assert Filter([w], positive) == if w.count > 0 then [w] else [];
  }

  /** Removing a reaction splices the withdrawn entry back in place, or drops it when nobody is left counted. */
  lemma RemoveReactionSplice(rs: seq<MessageReaction>, emoji: string, userId: Id, i: nat)
    requires EmojiUnique(rs) && AllPositive(rs)
    requires i < |rs| && rs[i].emoji == emoji
    ensures var w := Withdrawn(rs[i], userId);
      RemoveReaction(rs, emoji, userId) == rs[..i] + (if w.count > 0 then [w] else []) + rs[i + 1..]
  {
    var w := Withdrawn(rs[i], userId);
    WithdrawOnly(rs, emoji, userId, i);
    assert rs[i := w] == rs[..i] + [w] + rs[i + 1..];
    assert AllPositive(rs[..i]) && AllPositive(rs[i + 1..]) by {
      assert forall r :: r in rs[..i] ==> r in rs;
      assert forall r :: r in rs[i + 1..] ==> r in rs;
    }
    KeepPositiveAround(rs[..i], w, rs[i + 1..]);
  }

  /**
   * Removing a reaction with one entry per emoji and positive counts: the
   * emoji's entry is dropped when its count was 1, and otherwise loses the user
   * and one count; whether the user was listed plays no part.
   */
  lemma RemoveReactionCases(rs: seq<MessageReaction>, emoji: string, userId: Id, i: nat)
    requires EmojiUnique(rs) && AllPositive(rs)
    requires i < |rs| && rs[i].emoji == emoji
    ensures rs[i].count == 1 ==> RemoveReaction(rs, emoji, userId) == rs[..i] + rs[i + 1..]
    ensures rs[i].count != 1 ==> RemoveReaction(rs, emoji, userId) == rs[i := Withdrawn(rs[i], userId)]
  {
    RemoveReactionSplice(rs, emoji, userId, i);
    assert rs[i] in rs;
    if rs[i].count == 1 {
      assert rs[..i] + [] + rs[i + 1..] == rs[..i] + rs[i + 1..];
    } else {
      assert rs[i := Withdrawn(rs[i], userId)] == rs[..i] + [Withdrawn(rs[i], userId)] + rs[i + 1..];
    }
  }

  /** An emoji nobody reacted with: removing it changes nothing (counts being positive). */
  lemma RemoveReactionNoEntry(rs: seq<MessageReaction>, emoji: string, userId: Id)
    requires AllPositive(rs)
    requires forall r :: r in rs ==> r.emoji != emoji
    ensures RemoveReaction(rs, emoji, userId) == rs
  {
    var mapped := Map(rs, r => WithdrawEmoji(r, emoji, userId));
    assert mapped == rs;
    FilterKeepsAll(rs, (r: MessageReaction) => r.count > 0);
  }

  /** Dropping one entry keeps the reactions well formed. */
  lemma DropEntryWellFormed(rs: seq<MessageReaction>, i: nat)
    requires WellFormed(rs) && i < |rs|
    ensures WellFormed(rs[..i] + rs[i + 1..])
  {
    var r := rs[..i] + rs[i + 1..];
    forall a, b | 0 <= a < b < |r| ensures r[a].emoji != r[b].emoji {
      var a' := if a < i then a else a + 1;
      var b' := if b < i then b else b + 1;
      assert r[a] == rs[a'] && r[b] == rs[b'];
    }
    forall x | x in r ensures EntryConsistent(x) {
      var k :| 0 <= k < |r| && r[k] == x;
      assert x == rs[if k < i then k else k + 1];
    }
  }

  /** Replacing one entry by a consistent entry for the same emoji keeps the reactions well formed. */
  lemma ReplaceEntryWellFormed(rs: seq<MessageReaction>, i: nat, w: MessageReaction)
    requires WellFormed(rs) && i < |rs|
    requires w.emoji == rs[i].emoji && EntryConsistent(w)
    ensures WellFormed(rs[i := w])
  {
    var r := rs[i := w];
    forall x | x in r ensures EntryConsistent(x) {
      var k :| 0 <= k < |r| && r[k] == x;
      if k != i { assert x == rs[k]; }
    }
  }

  /**
   * Removing keeps well-formed reactions well formed exactly when the user was
   * listed in the emoji's entry or that entry had a count of 1. When the user
   * was not listed and others were, the count drops below the number of ids.
   */
  lemma RemoveReactionWellFormed(rs: seq<MessageReaction>, emoji: string, userId: Id, i: nat)
    requires WellFormed(rs)
    requires i < |rs| && rs[i].emoji == emoji
    ensures WellFormed(RemoveReaction(rs, emoji, userId)) <==>
      (userId in rs[i].userIds || rs[i].count == 1)
  {
    assert rs[i] in rs;
    assert AllPositive(rs);
    RemoveReactionCases(rs, emoji, userId, i);
    FilterOutDistinct(rs[i].userIds, userId);
    var w := Withdrawn(rs[i], userId);
    if rs[i].count == 1 {
      DropEntryWellFormed(rs, i);
    } else if userId in rs[i].userIds {
      assert EntryConsistent(w);
      ReplaceEntryWellFormed(rs, i, w);
    } else {
      assert !EntryConsistent(w);
      assert rs[i := w][i] == w;
    }
  }

  /**
   * Two users react with the same emoji, one after the other, and the first
   * then withdraws: one entry listing both with a count of 2, then one entry
   * listing the second user alone.
   */
  lemma TwoReactorsScenario(emoji: string, a: Id, b: Id)
    requires a != b
    ensures AddReaction(AddReaction([], emoji, a), emoji, b) == [MessageReaction(emoji, [a, b], 2)]
    ensures RemoveReaction([MessageReaction(emoji, [a, b], 2)], emoji, a) == [MessageReaction(emoji, [b], 1)]
  {
    var one := AddReaction([], emoji, a);
    assert one == [MessageReaction(emoji, [a], 1)];
    AddReactionCases(one, emoji, b);
    assert [a] + [b] == [a, b];
    FirstWithdraws(emoji, a, b);
  }

  lemma FirstWithdraws(emoji: string, a: Id, b: Id)
    requires a != b
    ensures RemoveReaction([MessageReaction(emoji, [a, b], 2)], emoji, a) == [MessageReaction(emoji, [b], 1)]
  {
    var two := [MessageReaction(emoji, [a, b], 2)];
    RemoveReactionCases(two, emoji, a, 0);
    assert Without([a, b], a) == [b] by {
      FilterConcat([a], [b], id => id != a);
      assert [a] + [b] == [a, b];
    }
  }
}
