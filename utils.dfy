/**
 * The string and integer helpers of app/lib/utils.ts: `cn`, `getInitials`
 * and the relative-time buckets of `formatTimestamp`.
 */
module Utils {
  import opened Types
  import opened Seqs
  import opened Strings

  // ---------------------------------------------------------------------------
  // cn

  /** An argument of `cn`: a string, `undefined`, `null` or `false`. */
  datatype ClassArg = Str(text: string) | Undefined | Null | False

  /** `Boolean(arg)`: only a non-empty string is truthy. */
  predicate Truthy(a: ClassArg) {
    a.Str? && a.text != ""
  }

  function TextOf(a: ClassArg): string {
    if a.Str? then a.text else ""
  }

  /** The class names `cn` keeps: the truthy arguments' strings, in order. */
  function ClassNames(args: seq<ClassArg>): seq<string> {
    Map(Filter(args, Truthy), TextOf)
  }

  /** `cn(...classes)`: the truthy arguments joined by single spaces; `""` when there are none. */
  function Cn(args: seq<ClassArg>): (r: string)
    ensures (forall a :: a in args ==> !Truthy(a)) ==> r == ""
  {
    assert (forall a :: a in args ==> !Truthy(a)) ==> Filter(args, Truthy) == [] by {
      if Filter(args, Truthy) != [] {
        assert Filter(args, Truthy)[0] in Filter(args, Truthy);
      }
    }
    Join(ClassNames(args), ' ')
  }

  /**
   * When the class names hold no spaces and at least one is truthy, splitting
   * the result on spaces gives back exactly the truthy arguments, in order:
   * the falsy ones are dropped and nothing else is.
   */
  lemma CnSplit(args: seq<ClassArg>)
    requires exists a :: a in args && Truthy(a)
    requires forall a :: a in args ==> ' ' !in TextOf(a)
    ensures Split(Cn(args), ' ') == ClassNames(args)
  {
    var a :| a in args && Truthy(a);
    assert a in Filter(args, Truthy);
    var names := ClassNames(args);
    forall w | w in names ensures ' ' !in w {
      var i :| 0 <= i < |names| && names[i] == w;
      assert Filter(args, Truthy)[i] in args;
    }
    SplitJoin(names, ' ');
  }

  /**
   * One more truthy argument is appended to the class string, after a space
   * unless nothing truthy came before it.
   */
  lemma CnAppend(args: seq<ClassArg>, b: string)
    requires b != ""
    ensures Cn(args + [Str(b)]) == if ClassNames(args) == [] then b else Cn(args) + " " + b
  {
    var kept := Filter(args, Truthy);
    FilterConcat(args, [Str(b)], Truthy);
    assert Filter([Str(b)], Truthy) == [Str(b)];
    var names := ClassNames(args + [Str(b)]);
    assert names == ClassNames(args) + [b] by {
      assert Filter(args + [Str(b)], Truthy) == kept + [Str(b)];
      forall i | 0 <= i < |names| ensures names[i] == (ClassNames(args) + [b])[i] {
        if i < |kept| {
          assert (kept + [Str(b)])[i] == kept[i];
        }
      }
    }
    if ClassNames(args) == [] {
      assert names == [b];
    } else {
      JoinSnoc(ClassNames(args), b, ' ');
    }
  }

  /** Falsy arguments in between change nothing. */
  lemma CnExample(a: string, b: string)
    requires a != "" && b != ""
    ensures Cn([Str(a), Undefined, Str(""), Null, False, Str(b)]) == a + " " + b
  {
    var args := [Str(a), Undefined, Str(""), Null, False, Str(b)];
    assert Filter(args[5..], Truthy) == [Str(b)];
    assert args[4..][1..] == args[5..];
    assert Filter(args[4..], Truthy) == [Str(b)];
    assert args[3..][1..] == args[4..];
    assert Filter(args[3..], Truthy) == [Str(b)];
    assert args[2..][1..] == args[3..];
    assert Filter(args[2..], Truthy) == [Str(b)];
    assert args[1..][1..] == args[2..];
    assert Filter(args[1..], Truthy) == [Str(b)];
    assert Filter(args, Truthy) == [Str(a), Str(b)];
    assert ClassNames(args) == [a, b];
    assert [a, b][1..] == [b];
    assert Join([a, b], ' ') == a + [' '] + b;
    assert Cn(args) == Join([a, b], ' ');
  }

  // ---------------------------------------------------------------------------
  // getInitials

  /** `toUpperCase` on ASCII letters; every other character is kept. */
  function UpperAscii(c: char): char {
    if 'a' <= c <= 'z' then (c as int - 32) as char else c
  }

  function Upper(s: string): (r: string)
    ensures |r| == |s|
    ensures forall i :: 0 <= i < |s| ==> r[i] == UpperAscii(s[i])
  {
    if s == [] then [] else [UpperAscii(s[0])] + Upper(s[1..])
  }

  /** `words.map(n => n[0]).join("")`: an empty word has no first character and adds nothing. */
  function FirstChars(words: seq<string>): (r: string)
    ensures |r| <= |words|
  {
    if words == [] then ""
    else (if words[0] == "" then "" else [words[0][0]]) + FirstChars(words[1..])
  }

  predicate NonEmpty(w: string) {
    w != ""
  }

  /** The first characters are those of the non-empty words, one per word, in order. */
  lemma {:induction false} FirstCharsOfNonEmpty(words: seq<string>)
    ensures |FirstChars(words)| == |Filter(words, NonEmpty)|
    ensures forall i :: 0 <= i < |FirstChars(words)| ==>
      Filter(words, NonEmpty)[i] != "" && FirstChars(words)[i] == Filter(words, NonEmpty)[i][0]
  {
    if words != [] {
      FirstCharsOfNonEmpty(words[1..]);
      assert words == [words[0]] + words[1..];
      var rest := Filter(words[1..], NonEmpty);
      assert forall w :: w in rest ==> w != "";
      if words[0] != "" {
        var r := FirstChars(words);
        assert r == [words[0][0]] + FirstChars(words[1..]);
        assert Filter(words, NonEmpty) == [words[0]] + rest;
        forall i | 0 <= i < |r|
          ensures Filter(words, NonEmpty)[i] != "" && r[i] == Filter(words, NonEmpty)[i][0]
        {
          if i > 0 {
            assert r[i] == FirstChars(words[1..])[i - 1];
          }
        }
      }
    }
  }

  /**
   * `getInitials(name)`: the first character of each space-separated word,
   * upper-cased, at most two of them.
   */
  function GetInitials(name: string): (r: string)
    ensures |r| <= 2
  {
    var firsts := Upper(FirstChars(Split(name, ' ')));
    if |firsts| <= 2 then firsts else firsts[..2]
  }

  /**
   * A name made of words without spaces gets the upper-cased first letters of
   * its first two non-empty words.
   */
  lemma GetInitialsOfWords(words: seq<string>)
    requires |words| >= 1
    requires forall w :: w in words ==> ' ' !in w
    ensures var named := Filter(words, NonEmpty);
      |GetInitials(Join(words, ' '))| == if |named| <= 2 then |named| else 2
    ensures forall i :: 0 <= i < |GetInitials(Join(words, ' '))| ==>
      Filter(words, NonEmpty)[i] != "" &&
      GetInitials(Join(words, ' '))[i] == UpperAscii(Filter(words, NonEmpty)[i][0])
  {
    SplitJoin(words, ' ');
    FirstCharsOfNonEmpty(words);
  }

  lemma GetInitialsTwoWords()
    ensures GetInitials("Demo User") == "DU"
  {
    var words := ["Demo", "User"];
    assert words[1..] == ["User"];
    assert Join(words, ' ') == "Demo User";
    GetInitialsOfWords(words);
    assert Filter(words[1..], NonEmpty) == ["User"];
    assert Filter(words, NonEmpty) == ["Demo", "User"];
  }

  lemma GetInitialsOneWord()
    ensures GetInitials("alice") == "A"
    ensures GetInitials("") == ""
  {
    assert Join(["alice"], ' ') == "alice";
    GetInitialsOfWords(["alice"]);
    assert Filter(["alice"], NonEmpty) == ["alice"];
    assert Split("", ' ') == [""];
  }

  // ---------------------------------------------------------------------------
  // formatTimestamp

  const Minute := 60000
  const Hour := 3600000
  const Day := 86400000
  const Week := 604800000

  /** The branch `formatTimestamp` takes for a difference `now - timestamp` in milliseconds. */
  datatype Relative = JustNow | MinutesAgo(n: int) | HoursAgo(n: int) | DaysAgo(n: int) | CalendarDate

  /**
   * Every difference below a minute, negative ones included, is "just now";
   * then whole minutes (1 to 59), whole hours (1 to 23) and whole days (1 to
   * 6), each rounded down; from a week on, a calendar date.
   */
  function Bucket(diff: int): (r: Relative)
    ensures r == JustNow <==> diff < Minute
    ensures r.MinutesAgo? <==> Minute <= diff < Hour
    ensures r.HoursAgo? <==> Hour <= diff < Day
    ensures r.DaysAgo? <==> Day <= diff < Week
    ensures r == CalendarDate <==> Week <= diff
    ensures r.MinutesAgo? ==> 1 <= r.n <= 59 && r.n * Minute <= diff < (r.n + 1) * Minute
    ensures r.HoursAgo? ==> 1 <= r.n <= 23 && r.n * Hour <= diff < (r.n + 1) * Hour
    ensures r.DaysAgo? ==> 1 <= r.n <= 6 && r.n * Day <= diff < (r.n + 1) * Day
  {
    if diff < Minute then JustNow
    else if diff < Hour then MinutesAgo(diff / Minute)
    else if diff < Day then HoursAgo(diff / Hour)
    else if diff < Week then DaysAgo(diff / Day)
    else CalendarDate
  }

  function DigitChar(d: int): char
    requires 0 <= d < 10
  {
    ('0' as int + d) as char
  }

  /** The decimal form of a natural number, as template literals print it. */
  function NatToString(n: nat): (r: string)
    ensures |r| >= 1
    ensures forall i :: 0 <= i < |r| ==> '0' <= r[i] <= '9'
    ensures n > 0 ==> r[0] != '0'
  {
    if n < 10 then [DigitChar(n)] else NatToString(n / 10) + [DigitChar(n % 10)]
  }

  /** The value of a string of decimal digits. */
  function DigitsValue(s: string): nat
    requires forall i :: 0 <= i < |s| ==> '0' <= s[i] <= '9'
  {
    if s == [] then 0
    else
      DigitsValue(s[..|s| - 1]) * 10 + (s[|s| - 1] as int - '0' as int)
  }

  /** Reading back the printed number gives the number. */
  lemma {:induction false} NatToStringValue(n: nat)
    ensures DigitsValue(NatToString(n)) == n
  {
    if n >= 10 {
      NatToStringValue(n / 10);
      var s := NatToString(n);
      assert s[..|s| - 1] == NatToString(n / 10);
    }
  }

  /** The text shown for a bucket; the calendar date is formatted elsewhere. */
  function BucketText(r: Relative): (t: Option<string>)
    requires r.MinutesAgo? || r.HoursAgo? || r.DaysAgo? ==> r.n >= 0
    ensures t.None? <==> r == CalendarDate
    ensures r == JustNow ==> t == Some("Just now")
    ensures r.MinutesAgo? ==> ReadsAs(t.value, "m ago", r.n)
    ensures r.HoursAgo? ==> ReadsAs(t.value, "h ago", r.n)
    ensures r.DaysAgo? ==> ReadsAs(t.value, "d ago", r.n)
  {
    match r
    case JustNow => Some("Just now")
    case MinutesAgo(n) => PrintedReadsAs(n, "m ago"); Some(NatToString(n) + "m ago")
    case HoursAgo(n) => PrintedReadsAs(n, "h ago"); Some(NatToString(n) + "h ago")
    case DaysAgo(n) => PrintedReadsAs(n, "d ago"); Some(NatToString(n) + "d ago")
    case CalendarDate => None
  }

  /**
   * `t` is a run of decimal digits worth `n` followed by `suffix`, printed
   * without leading zeros: it starts with `0` only when that is the one digit.
   */
  predicate ReadsAs(t: string, suffix: string, n: int) {
    |t| > |suffix| && t[|t| - |suffix|..] == suffix &&
    (forall i :: 0 <= i < |t| - |suffix| ==> '0' <= t[i] <= '9') &&
    (t[0] == '0' ==> |t| - |suffix| == 1) &&
    DigitsValue(t[..|t| - |suffix|]) == n
  }

  /** A printed number followed by a unit reads back as that number. */
  lemma PrintedReadsAs(n: nat, suffix: string)
    ensures ReadsAs(NatToString(n) + suffix, suffix, n)
  {
    NatToStringValue(n);
    var t := NatToString(n) + suffix;
    assert t[..|t| - |suffix|] == NatToString(n);
    assert t[|t| - |suffix|..] == suffix;
  }

  /** Digits that do not start with `0` are worth at least one. */
  lemma {:induction false} DigitsValuePositive(s: string)
    requires |s| >= 1 && s[0] != '0'
    requires forall i :: 0 <= i < |s| ==> '0' <= s[i] <= '9'
    ensures DigitsValue(s) >= 1
  {
    if |s| > 1 {
      DigitsValuePositive(s[..|s| - 1]);
    }
  }

  /** Digits without a leading zero are the printed form of their own value. */
  lemma {:induction false} DigitsCanonical(s: string)
    requires |s| >= 1 && (s[0] == '0' ==> |s| == 1)
    requires forall i :: 0 <= i < |s| ==> '0' <= s[i] <= '9'
    ensures NatToString(DigitsValue(s)) == s
  {
    var init := s[..|s| - 1];
    var last := s[|s| - 1] as int - '0' as int;
    if |s| > 1 {
      DigitsCanonical(init);
      DigitsValuePositive(init);
      var v := DigitsValue(s);
      assert v == DigitsValue(init) * 10 + last;
      assert v / 10 == DigitsValue(init) && v % 10 == last;
      assert s == init + [DigitChar(last)];
    }
  }

  /** Only one text reads as a given number: the printed one. */
  lemma ReadsAsUnique(t: string, suffix: string, n: nat)
    requires ReadsAs(t, suffix, n)
    ensures t == NatToString(n) + suffix
  {
    var digits := t[..|t| - |suffix|];
    DigitsCanonical(digits);
    assert t == digits + t[|t| - |suffix|..];
  }

  /** `formatTimestamp` for a difference below a week; `None` for the calendar-date branch. */
  function FormatTimestamp(diff: int): (r: Option<string>)
    ensures r.None? <==> diff >= Week
    ensures diff < Minute ==> r == Some("Just now")
  {
    BucketText(Bucket(diff))
  }

  lemma FormatTimestampExamples()
    ensures FormatTimestamp(-5000) == Some("Just now")
    ensures FormatTimestamp(90000) == Some("1m ago")
    ensures FormatTimestamp(2 * Hour + 1) == Some("2h ago")
    ensures FormatTimestamp(6 * Day + 23 * Hour) == Some("6d ago")
  {
    assert NatToString(1) == "1" && NatToString(2) == "2" && NatToString(6) == "6";
    assert Bucket(90000) == MinutesAgo(1);
    assert Bucket(2 * Hour + 1) == HoursAgo(2);
    assert Bucket(6 * Day + 23 * Hour) == DaysAgo(6);
    assert "1" + "m ago" == "1m ago" && "2" + "h ago" == "2h ago" && "6" + "d ago" == "6d ago";
  }
}
