/**
 * `String.prototype.split` on a one-character separator, and its inverse, `join`.
 */
module Text {

  /** The pieces between separators: always at least one, none containing the separator. */
  function Split(s: string, sep: char): (parts: seq<string>)
    ensures |parts| >= 1
    ensures forall i :: 0 <= i < |parts| ==> sep !in parts[i]
  {
    if s == [] then [""]
    else
      var rest := Split(s[1..], sep);
      if s[0] == sep then [""] + rest
      else [[s[0]] + rest[0]] + rest[1..]
  }

  /** The pieces with one separator between each two neighbours. */
  function Join(parts: seq<string>, sep: char): string
    requires |parts| >= 1
  {
    if |parts| == 1 then parts[0] else parts[0] + [sep] + Join(parts[1..], sep)
  }

  /** Joining the pieces gives back the text that was split. */
  lemma {:induction false} JoinSplit(s: string, sep: char)
    ensures Join(Split(s, sep), sep) == s
  {
    if s != [] {
      var rest := Split(s[1..], sep);
      JoinSplit(s[1..], sep);
      if s[0] == sep {
        assert Split(s, sep)[1..] == rest;
      } else {
        var parts := Split(s, sep);
        if |rest| == 1 {
          assert parts == [[s[0]] + rest[0]];
        } else {
          assert parts[1..] == rest[1..];
          assert Join(rest, sep) == rest[0] + [sep] + Join(rest[1..], sep);
        }
      }
    }
  }

  /** Splitting a joined list of separator-free pieces gives back the pieces. */
  lemma {:induction false} SplitJoin(parts: seq<string>, sep: char)
    requires |parts| >= 1
    requires forall i :: 0 <= i < |parts| ==> sep !in parts[i]
    ensures Split(Join(parts, sep), sep) == parts
  {
    if |parts| == 1 {
      SplitPiece(parts[0], sep, []);
    } else {
      SplitJoin(parts[1..], sep);
      SplitPiece(parts[0], sep, parts[1..]);
    }
  }

  /** Text with exactly one separator splits into the two pieces around it. */
  lemma SplitTwo(a: string, b: string, sep: char)
    requires sep !in a && sep !in b
    ensures Split(a + [sep] + b, sep) == [a, b]
  {
    SplitJoin([a, b], sep);
    assert Join([a, b], sep) == a + [sep] + b;
  }

  /** Text whose only separator is at position k splits into the pieces before and after k. */
  lemma SplitAt(t: string, k: int, sep: char)
    requires 0 <= k < |t| && t[k] == sep
    requires sep !in t[..k] && sep !in t[k + 1..]
    ensures Split(t, sep) == [t[..k], t[k + 1..]]
  {
    assert t == t[..k] + [sep] + t[k + 1..];
    SplitTwo(t[..k], t[k + 1..], sep);
  }

  /**
   * A separator-free piece in front of a separator and more text is the first piece;
   * with nothing after it, it is the only one.
   */
  lemma {:induction false} SplitPiece(p: string, sep: char, more: seq<string>)
    requires sep !in p
    requires |more| >= 1 ==> forall i :: 0 <= i < |more| ==> sep !in more[i]
    ensures |more| == 0 ==> Split(p, sep) == [p]
    ensures |more| >= 1 ==> Split(p + [sep] + Join(more, sep), sep) == [p] + Split(Join(more, sep), sep)
  {
    if p != [] {
      SplitPiece(p[1..], sep, more);
      assert p[0] != sep && p == [p[0]] + p[1..];
      if |more| == 0 {
        assert Split(p[1..], sep) == [p[1..]];
        assert Split(p, sep) == [[p[0]] + p[1..]];
      } else {
        var s := p + [sep] + Join(more, sep);
        var rest := Split(s[1..], sep);
        assert s[0] == p[0];
        assert s[1..] == p[1..] + [sep] + Join(more, sep);
        assert rest == [p[1..]] + Split(Join(more, sep), sep);
        assert rest[0] == p[1..] && rest[1..] == Split(Join(more, sep), sep);
      }
    } else if |more| >= 1 {
      assert p + [sep] + Join(more, sep) == [sep] + Join(more, sep);
      assert ([sep] + Join(more, sep))[1..] == Join(more, sep);
    }
  }
}
