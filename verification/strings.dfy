/** Splitting and joining text at a separator: `strings.Split`, and the comma lists that the SQL
    builders write. */
module Strings {

  function Split(s: string, sep: char): (r: seq<string>)
    ensures |r| > 0
  {
    if |s| == 0 then [""] else
    var r := Split(s[1..], sep);
    if s[0] == sep then [""] + r else [[s[0]] + r[0]] + r[1..]
  }

  function Join(segs: seq<string>, sep: char): string
  {
    if |segs| == 0 then "" else if |segs| == 1 then segs[0] else segs[0] + [sep] + Join(segs[1..], sep)
  }

  /** Joining the pieces of a split gives the text back. */
  lemma {:induction false} JoinUndoesSplit(s: string, sep: char)
    ensures Join(Split(s, sep), sep) == s
  {
    if |s| > 0 {
      JoinUndoesSplit(s[1..], sep);
      var r := Split(s[1..], sep);
      if s[0] == sep {
        JoinCons("", r, sep);
      } else if |r| > 1 {
        JoinHead(s[0], r, sep);
      }
    }
  }

  lemma JoinCons(a: string, r: seq<string>, sep: char)
    requires |r| > 0
    ensures Join([a] + r, sep) == a + [sep] + Join(r, sep)
  {
    assert ([a] + r)[1..] == r;
  }

  lemma JoinHead(c: char, r: seq<string>, sep: char)
    requires |r| > 1
    ensures Join([[c] + r[0]] + r[1..], sep) == [c] + Join(r, sep)
  {
    hide Join;
    JoinCons([c] + r[0], r[1..], sep);
    JoinCons(r[0], r[1..], sep);
    assert [r[0]] + r[1..] == r;
    assert ([c] + r[0]) + [sep] + Join(r[1..], sep) == [c] + (r[0] + [sep] + Join(r[1..], sep));
  }

  /** No piece of a split holds the separator. */
  lemma {:induction false} PiecesHaveNoSeparator(s: string, sep: char)
    ensures forall i :: 0 <= i < |Split(s, sep)| ==> sep !in Split(s, sep)[i]
  {
    if |s| > 0 {
      PiecesHaveNoSeparator(s[1..], sep);
    }
  }

  lemma {:induction false} SplitOne(s: string, sep: char)
    requires sep !in s
    ensures Split(s, sep) == [s]
  {
    if |s| > 0 {
      SplitOne(s[1..], sep);
      assert [s[0]] + s[1..] == s && [s[1..]][1..] == [];
    } else {
      assert s == "";
    }
  }

  lemma {:induction false} SplitFirst(a: string, rest: string, sep: char)
    requires sep !in a
    ensures Split(a + [sep] + rest, sep) == [a] + Split(rest, sep)
  {
    var s := a + [sep] + rest;
    if |a| == 0 {
      assert s == [sep] + rest && s[1..] == rest && a == "";
    } else {
      assert s[1..] == a[1..] + [sep] + rest;
      SplitFirst(a[1..], rest, sep);
      assert [a[0]] + a[1..] == a && ([a[1..]] + Split(rest, sep))[1..] == Split(rest, sep);
    }
  }

  /** Splitting a join gives the pieces back, if none of them holds the separator. */
  lemma {:induction false} SplitUndoesJoin(segs: seq<string>, sep: char)
    requires |segs| > 0 && forall i :: 0 <= i < |segs| ==> sep !in segs[i]
    ensures Split(Join(segs, sep), sep) == segs
  {
    if |segs| == 1 {
      SplitOne(segs[0], sep);
    } else {
      SplitUndoesJoin(segs[1..], sep);
      SplitFirst(segs[0], Join(segs[1..], sep), sep);
      assert [segs[0]] + segs[1..] == segs;
    }
  }

  /** A list with one more piece at its end. */
  lemma {:induction false} JoinMore(segs: seq<string>, s: string, sep: char)
    ensures Join(segs + [s], sep) == if |segs| == 0 then s else Join(segs, sep) + [sep] + s
  {
    if |segs| > 1 {
      JoinMore(segs[1..], s, sep);
      assert (segs + [s])[1..] == segs[1..] + [s];
    } else if |segs| == 1 {
      assert (segs + [s])[1..] == [s];
    }
  }
}
