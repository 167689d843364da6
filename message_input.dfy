/**
 * The message composer (app/components/MessageInput.tsx): the submit guard,
 * the mention extraction and the message draft handed to `addMessage`.
 */
module MessageInput {
  import opened Types
  import opened Seqs
  import opened Strings

  /**
   * The characters `String.prototype.trim` removes: the ECMAScript white space
   * and line terminator code points.
   */
  predicate IsJsWhitespace(c: char) {
    || c == '\t' || c == '\n' || c == '\U{000B}' || c == '\U{000C}' || c == '\r' || c == ' '
    || c == '\U{00A0}' || c == '\U{1680}' || ('\U{2000}' <= c <= '\U{200A}')
    || c == '\U{2028}' || c == '\U{2029}' || c == '\U{202F}' || c == '\U{205F}' || c == '\U{3000}'
    || c == '\U{FEFF}'
  }

  /** `!text.trim()`: the text is empty once white space is trimmed from both ends. */
  predicate IsBlank(text: string) {
    forall i :: 0 <= i < |text| ==> IsJsWhitespace(text[i])
  }

  /** `word.startsWith("@")`. */
  predicate IsMention(word: string) {
    |word| > 0 && word[0] == '@'
  }

  /** `word.slice(1)`. */
  function DropFirst(word: string): string {
    if word == [] then [] else word[1..]
  }

  /** The mentions of a list of words: each word starting with `@`, in order, without the `@`. */
  function MentionsOf(words: seq<string>): (r: seq<string>)
    ensures |r| == |Filter(words, IsMention)|
    ensures forall i :: 0 <= i < |r| ==> "@" + r[i] == Filter(words, IsMention)[i]
    ensures forall w :: w in r ==> "@" + w in words
  {
    var ats := Filter(words, IsMention);
    assert forall i :: 0 <= i < |ats| ==> ats[i] in ats && ats[i] == "@" + DropFirst(ats[i]);
    Map(ats, DropFirst)
  }

  /** The mentions of a message: taken from the words between single spaces. */
  function Mentions(text: string): (r: seq<string>)
    ensures |r| == |Filter(Split(text, ' '), IsMention)|
    ensures forall w :: w in r ==> "@" + w in Split(text, ' ') && ' ' !in w
  {
    MentionsOf(Split(text, ' '))
  }

  /**
   * A mention is what follows the `@` of a word, for exactly the words that
   * start with `@`; so no mention holds a space, and there is one mention per
   * `@`-word.
   */
  lemma MentionsExact(text: string)
    ensures forall w :: w in Mentions(text) <==> "@" + w in Split(text, ' ')
    ensures forall w :: w in Mentions(text) ==> ' ' !in w
    ensures |Mentions(text)| == |Filter(Split(text, ' '), IsMention)|
  {
    var words := Split(text, ' ');
    var ats := Filter(words, IsMention);
    forall w | w in Mentions(text) ensures "@" + w in words && ' ' !in w {
      var i :| 0 <= i < |ats| && Mentions(text)[i] == w;
      assert ats[i] in ats;
      assert ats[i] == "@" + w;
      assert forall c :: c in w ==> c in ats[i];
    }
    forall w | "@" + w in words ensures w in Mentions(text) {
      var word := "@" + w;
      assert IsMention(word);
      assert word in ats;
      var i :| 0 <= i < |ats| && ats[i] == word;
      assert DropFirst(word) == w;
      assert Mentions(text)[i] == w;
    }
  }

  /**
   * Words without spaces, joined by single spaces, give back their own
   * mentions: extraction reads exactly the words the text was made of.
   */
  lemma MentionsOfJoin(words: seq<string>)
    requires |words| >= 1
    requires forall w :: w in words ==> ' ' !in w
    ensures Mentions(Join(words, ' ')) == MentionsOf(words)
  {
    SplitJoin(words, ' ');
  }

  /** "ping @bob for help" mentions bob only. */
  lemma MentionsExample()
    ensures Mentions("ping @bob for help") == ["bob"]
  {
    var words := ["ping", "@bob", "for", "help"];
    assert Join(words, ' ') == "ping @bob for help" by {
      assert words[1..] == ["@bob", "for", "help"] && words[2..] == ["for", "help"] && words[3..] == ["help"];
      assert Join(words[2..], ' ') == "for help";
      assert Join(words[1..], ' ') == "@bob for help";
    }
    assert forall w :: w in words ==> ' ' !in w;
    MentionsOfJoin(words);
    MentionsOfExample(words);
  }

  /** The words of that text: one `@`-word, so one mention. */
  lemma MentionsOfExample(words: seq<string>)
    requires words == ["ping", "@bob", "for", "help"]
    ensures MentionsOf(words) == ["bob"]
  {
    assert words[1..] == ["@bob", "for", "help"] && words[2..] == ["for", "help"] && words[3..] == ["help"];
    assert Filter(words[3..], IsMention) == [];
    assert Filter(words[2..], IsMention) == [];
    assert Filter(words[1..], IsMention) == ["@bob"];
    assert Filter(words, IsMention) == ["@bob"];
    assert Map(["@bob"], DropFirst) == ["bob"];
  }

  /** A lone `@` mentions the empty name, `@a@b` mentions `a@b`, and two spaces make an empty word that is no mention. */
  lemma MentionsEdgeCases()
    ensures Mentions("@") == [""]
    ensures Mentions("@a@b") == ["a@b"]
    ensures Mentions("hi  @x") == ["x"]
  {
    MentionsOneWord("@");
    MentionsOneWord("@a@b");
    MentionsDoubleSpace();
  }

  /** Two spaces in a row make an empty word, which is no mention. */
  lemma MentionsDoubleSpace()
    ensures Mentions("hi  @x") == ["x"]
  {
    var words := ["hi", "", "@x"];
    assert words[1..] == ["", "@x"] && words[2..] == ["@x"];
    assert Join(words[1..], ' ') == " @x";
    assert Join(words, ' ') == "hi  @x";
    MentionsOfJoin(words);
    assert Filter(words[2..], IsMention) == ["@x"];
    assert Filter(words[1..], IsMention) == ["@x"];
    assert Filter(words, IsMention) == ["@x"];
    assert Map(["@x"], DropFirst) == ["x"];
  }

  /** A text without spaces that starts with `@` mentions the rest of itself. */
  lemma MentionsOneWord(word: string)
    requires IsMention(word) && ' ' !in word
    ensures Mentions(word) == [word[1..]]
  {
    MentionsOfJoin([word]);
    assert Join([word], ' ') == word;
    assert Filter([word], IsMention) == [word];
  }

  /** What a submit leaves behind: the draft sent, if any, and the text in the input box. */
  datatype SubmitOutcome = SubmitOutcome(sent: Option<MessageDraft>, input: string)

  /**
   * `handleSubmit`: nothing is sent when the text is blank or nobody is signed
   * in, and the input keeps its text; otherwise the raw, untrimmed text is sent
   * by the current user to the channel with the mentions read from that same
   * text, and the input is cleared.
   */
  function Submit(text: string, currentUser: Option<User>, channelId: Id, serverId: Id): (r: SubmitOutcome)
    ensures r.sent.None? <==> IsBlank(text) || currentUser.None?
    ensures r.sent.None? ==> r.input == text
    ensures r.sent.Some? ==> r.input == ""
    ensures r.sent.Some? ==>
      var d := r.sent.value;
      d.content == text && d.authorId == currentUser.value.id &&
      d.channelId == channelId && d.serverId == serverId && d.mentions == Mentions(text) &&
      d.editedAt == None && d.attachments == None && d.replyToId == None
  {
    if IsBlank(text) || currentUser.None? then SubmitOutcome(None, text)
    else
      var d := MessageDraft(text, currentUser.value.id, channelId, serverId, None, Mentions(text), None, None);
      SubmitOutcome(Some(d), "")
  }

  /** Surrounding spaces make no difference to whether a text is sent, and are kept in what is sent. */
  lemma SubmitKeepsSpaces(u: User, channelId: Id, serverId: Id)
    ensures Submit("  hi ", Some(u), channelId, serverId).sent.Some?
    ensures Submit("  hi ", Some(u), channelId, serverId).sent.value.content == "  hi "
    ensures Submit(" \t\n", Some(u), channelId, serverId).sent.None?
  {
    assert !IsJsWhitespace("  hi "[2]);
  }
}
