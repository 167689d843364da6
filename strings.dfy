/**
 * `String.prototype.split(sep)` and `Array.prototype.join(sep)` for a
 * one-character separator, which is how the source splits on `" "`.
 */
module Strings {

  /** `parts.join(sep)`. */
  function Join(parts: seq<string>, sep: char): string {
    if parts == [] then ""
    else if |parts| == 1 then parts[0]
    else parts[0] + [sep] + Join(parts[1..], sep)
  }

  /** Number of occurrences of `c` in `s`. */
  function Occurrences(s: string, c: char): nat {
    if s == [] then 0 else (if s[0] == c then 1 else 0) + Occurrences(s[1..], c)
  }

  /**
   * `s.split(sep)`: the maximal separator-free pieces between separators.
   * There is always one more piece than separators, so `""` gives `[""]` and
   * two adjacent separators give an empty piece; joining the pieces again
   * gives back `s`.
   */
  function Split(s: string, sep: char): (r: seq<string>)
    ensures |r| == Occurrences(s, sep) + 1
    ensures forall w :: w in r ==> sep !in w
    ensures Join(r, sep) == s
  {
    if s == [] then [""]
    else
      var rest := Split(s[1..], sep);
      assert s == [s[0]] + s[1..];
      if s[0] == sep then
        assert Join([""] + rest, sep) == "" + [sep] + Join(rest, sep) by {
          assert ([""] + rest)[1..] == rest;
        }
        [""] + rest
      else
        var r := [[s[0]] + rest[0]] + rest[1..];
        forall w | w in r ensures sep !in w {
          if w != r[0] {
            assert w in rest;
          }
        }
        assert |rest| > 1 ==> Join(rest, sep) == rest[0] + [sep] + Join(rest[1..], sep);
        assert r[1..] == rest[1..];
        r
  }

  /** Splitting a join of separator-free pieces gives the pieces back. */
  lemma {:induction false} SplitJoin(parts: seq<string>, sep: char)
    requires |parts| >= 1
    requires forall w :: w in parts ==> sep !in w
    ensures Split(Join(parts, sep), sep) == parts
  {
    if |parts| == 1 {
      SplitPiece(parts[0], [], sep);
    } else {
      var tail := Join(parts[1..], sep);
      assert Join(parts, sep) == parts[0] + ([sep] + tail);
      SplitJoin(parts[1..], sep);
      SplitPiece(parts[0], [sep] + tail, sep);
      var st := Split([sep] + tail, sep);
      assert st == [""] + Split(tail, sep) by {
        assert ([sep] + tail)[1..] == tail;
      }
      assert st[0] == "" && st[1..] == parts[1..];
      assert parts[0] + "" == parts[0];
      assert parts == [parts[0]] + parts[1..];
    }
  }

  /** Joining one more piece adds a separator and the piece at the end. */
  lemma {:induction false} JoinSnoc(parts: seq<string>, w: string, sep: char)
    requires parts != []
    ensures Join(parts + [w], sep) == Join(parts, sep) + [sep] + w
  {
    var all := parts + [w];
    assert all[1..] == parts[1..] + [w];
    if |parts| == 1 {
      assert all[1..] == [w];
    } else {
      JoinSnoc(parts[1..], w, sep);
      assert Join(all, sep) == parts[0] + [sep] + (Join(parts[1..], sep) + [sep] + w);
    }
  }

  /** A separator-free prefix is glued onto the first piece of what follows it. */
  lemma {:induction false} SplitPiece(w: string, t: string, sep: char)
    requires sep !in w
    requires t == [] || t[0] == sep
    ensures Split(w + t, sep) == [w + Split(t, sep)[0]] + Split(t, sep)[1..]
  {
    if w == [] {
      assert w + t == t;
      assert Split(t, sep) == [Split(t, sep)[0]] + Split(t, sep)[1..];
    } else {
      SplitPiece(w[1..], t, sep);
      var rest := Split(w[1..] + t, sep);
      var st := Split(t, sep);
      assert (w + t)[1..] == w[1..] + t;
      assert (w + t)[0] == w[0] && w[0] != sep;
      assert Split(w + t, sep) == [[w[0]] + rest[0]] + rest[1..];
      assert rest[0] == w[1..] + st[0] && rest[1..] == st[1..];
      assert [w[0]] + (w[1..] + st[0]) == w + st[0] by { assert w == [w[0]] + w[1..]; }
    }
  }
}
