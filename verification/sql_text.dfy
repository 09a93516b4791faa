/** SQL text with its arguments (orm/homework3/builder.go): the text and the argument list that a
    builder accumulates, seen as one sequence in which every placeholder carries its argument. */
module SqlText {

  /** An argument: a number, or any other value. */
  datatype Arg = Number(n: int) | Other(id: int)

  /** A character of the text: a placeholder, with its argument, or any other. */
  datatype Ch = Text(c: char) | Hole(arg: Arg)

  predicate NoMark(s: string)
  {
    '?' !in s
  }

  /** A name in quotes, as both dialects write it. */
  function Quoted(name: string): string
  {
    "`" + name + "`"
  }

  function TextOf(t: seq<Ch>): string
  {
    seq(|t|, i requires 0 <= i < |t| => if t[i].Hole? then '?' else t[i].c)
  }

  function ArgsTo(t: seq<Ch>, n: nat): seq<Arg>
    requires n <= |t|
  {
    if n == 0 then [] else ArgsTo(t, n - 1) + (if t[n - 1].Hole? then [t[n - 1].arg] else [])
  }

  function ArgsOf(t: seq<Ch>): seq<Arg>
  {
    ArgsTo(t, |t|)
  }

  /** Question marks are placeholders only. */
  predicate Clean(t: seq<Ch>)
  {
    Text('?') !in t
  }

  function Chars(s: string): (t: seq<Ch>)
    ensures |t| == |s|
  {
    seq(|s|, i requires 0 <= i < |s| => Text(s[i]))
  }

  function MarksTo(s: string, n: nat): nat
    requires n <= |s|
  {
    if n == 0 then 0 else MarksTo(s, n - 1) + (if s[n - 1] == '?' then 1 else 0)
  }

  /** How many question marks a text has. */
  function Marks(s: string): nat
  {
    MarksTo(s, |s|)
  }

  /** Raw text, each of its question marks with its argument. */
  function Weave(raw: string, args: seq<Arg>): (t: seq<Ch>)
  {
    seq(|raw|, i requires 0 <= i < |raw| =>
      if raw[i] != '?' then Text(raw[i])
      else if MarksTo(raw, i) < |args| then Hole(args[MarksTo(raw, i)]) else Text('?'))
  }

  lemma {:induction false} MarksMonotone(s: string, i: nat, n: nat)
    requires i <= n <= |s|
    ensures MarksTo(s, i) <= MarksTo(s, n)
    decreases n
  {
    if i < n {
      MarksMonotone(s, i, n - 1);
    }
  }

  lemma {:induction false} WeaveTo(raw: string, args: seq<Arg>, n: nat)
    requires Marks(raw) == |args| && n <= |raw|
    ensures MarksTo(raw, n) <= |args| && ArgsTo(Weave(raw, args), n) == args[..MarksTo(raw, n)]
  {
    MarksMonotone(raw, n, |raw|);
    if n > 0 {
      WeaveTo(raw, args, n - 1);
    }
  }

  lemma WeaveIs(raw: string, args: seq<Arg>)
    requires Marks(raw) == |args|
    ensures TextOf(Weave(raw, args)) == raw && ArgsOf(Weave(raw, args)) == args && Clean(Weave(raw, args))
  {
    WeaveTo(raw, args, |raw|);
    forall i | 0 <= i < |raw| ensures Weave(raw, args)[i] != Text('?') {
      MarksMonotone(raw, i + (if raw[i] == '?' then 1 else 0), |raw|);
    }
  }

  lemma {:induction false} ArgsPrefix(a: seq<Ch>, b: seq<Ch>, n: nat)
    requires n <= |a| + |b|
    ensures ArgsTo(a + b, n) == if n <= |a| then ArgsTo(a, n) else ArgsOf(a) + ArgsTo(b, n - |a|)
  {
    if n > 0 {
      ArgsPrefix(a, b, n - 1);
    }
  }

  lemma TextAppend(a: seq<Ch>, b: seq<Ch>)
    ensures TextOf(a + b) == TextOf(a) + TextOf(b)
    ensures ArgsOf(a + b) == ArgsOf(a) + ArgsOf(b)
    ensures Clean(a + b) <==> Clean(a) && Clean(b)
  {
    ArgsPrefix(a, b, |a| + |b|);
  }

  lemma {:induction false} CharsArgs(s: string, n: nat)
    requires n <= |s|
    ensures ArgsTo(Chars(s), n) == []
  {
    if n > 0 {
      CharsArgs(s, n - 1);
    }
  }

  lemma CharsAre(s: string)
    ensures TextOf(Chars(s)) == s && ArgsOf(Chars(s)) == []
    ensures '?' !in s ==> Clean(Chars(s))
  {
    CharsArgs(s, |s|);
  }

  lemma {:induction false} MarksAreArgs(t: seq<Ch>, n: nat)
    requires Clean(t) && n <= |t|
    ensures MarksTo(TextOf(t), n) == |ArgsTo(t, n)|
    ensures ArgsTo(t, n) <= ArgsOf(t)
    decreases |t| - n
  {
    if n < |t| {
      MarksAreArgs(t, n + 1);
    }
    MarksAreArgsBack(t, n);
  }

  lemma {:induction false} MarksAreArgsBack(t: seq<Ch>, n: nat)
    requires Clean(t) && n <= |t|
    ensures MarksTo(TextOf(t), n) == |ArgsTo(t, n)|
  {
    if n > 0 {
      MarksAreArgsBack(t, n - 1);
    }
  }

  /** Placeholders match arguments: there are as many of both, and the question mark before
      which the text has `i` others is the place of argument number `i`. */
  lemma PlaceholdersMatch(t: seq<Ch>)
    requires Clean(t)
    ensures Marks(TextOf(t)) == |ArgsOf(t)|
    ensures forall k :: 0 <= k < |t| && TextOf(t)[k] == '?' ==>
      var i := MarksTo(TextOf(t), k);
      i < |ArgsOf(t)| && t[k] == Hole(ArgsOf(t)[i])
  {
    MarksAreArgs(t, |t|);
    forall k | 0 <= k < |t| && TextOf(t)[k] == '?'
      ensures var i := MarksTo(TextOf(t), k);
        i < |ArgsOf(t)| && t[k] == Hole(ArgsOf(t)[i])
    {
      MarksAreArgs(t, k);
      MarksAreArgs(t, k + 1);
    }
  }

  /** A text without its last character, which is no placeholder. */
  lemma DropLast(t: seq<Ch>)
    requires |t| > 0 && t[|t| - 1].Text?
    ensures TextOf(t[..|t| - 1]) == TextOf(t)[..|t| - 1]
    ensures ArgsOf(t[..|t| - 1]) == ArgsOf(t)
    ensures Clean(t) ==> Clean(t[..|t| - 1])
  {
    var n := |t| - 1;
    assert t == t[..n] + t[n..];
    ArgsPrefix(t[..n], t[n..], n);
  }
}
