/** Paths as strings: the format check of `addRoute`, splitting and trimming
    (web/homework2/route.go). */
module RoutePath {
  import opened RouteTrie
  import Strings

  /** `strings.Split(s, "/")`. */
  function Split(s: string): (r: seq<string>)
    ensures |r| > 0
  {
    Strings.Split(s, '/')
  }

  function Join(segs: seq<string>): string
  {
    Strings.Join(segs, '/')
  }

  /** A text is split at every slash and nowhere else: no piece holds one, joining the pieces gives
      the text back, and no other list of pieces without slashes does. */
  lemma SplitExact(s: string, segs: seq<string>)
    requires |segs| > 0 && forall i :: 0 <= i < |segs| ==> '/' !in segs[i]
    ensures forall i :: 0 <= i < |Split(s)| ==> '/' !in Split(s)[i]
    ensures Join(segs) == s <==> segs == Split(s)
  {
    hide Strings.Split, Strings.Join;
    Strings.PiecesHaveNoSeparator(s, '/');
    Strings.JoinUndoesSplit(s, '/');
    Strings.SplitUndoesJoin(segs, '/');
  }

  /** Joining the pieces of a split gives the text back. */
  lemma JoinUndoesSplit(s: string)
    ensures Join(Split(s)) == s
  {
    Strings.JoinUndoesSplit(s, '/');
  }

  /** What `addRoute` demands of a path before it looks at the tree. */
  predicate RightFormat(path: string)
  {
    path != "" && path[0] == '/' && (path == "/" || path[|path| - 1] != '/')
  }

  function SegsOf(path: string): Path
    requires RightFormat(path)
  {
    if path == "/" then [] else Split(path[1..])
  }

  /** A path is determined by its segments. */
  lemma PathFromSegs(path: string)
    requires RightFormat(path)
    ensures path == "/" + (if SegsOf(path) == [] then "" else Join(SegsOf(path)))
  {
    if path != "/" {
      JoinUndoesSplit(path[1..]);
    }
  }

  function TrimLeft(s: string): string
  {
    if |s| > 0 && s[0] == '/' then TrimLeft(s[1..]) else s
  }

  function TrimRight(s: string): string
  {
    if |s| > 0 && s[|s| - 1] == '/' then TrimRight(s[..|s| - 1]) else s
  }

  /** The segments that `findRoute` looks for. */
  function RequestSegs(path: string): seq<string>
  {
    Split(TrimRight(TrimLeft(path)))
  }

  lemma {:induction false} TrimLeftExact(s: string) returns (i: nat)
    ensures i <= |s| && TrimLeft(s) == s[i..] && (forall k :: 0 <= k < i ==> s[k] == '/')
    ensures i < |s| ==> s[i] != '/'
  {
    if |s| > 0 && s[0] == '/' {
      i := TrimLeftExact(s[1..]);
      i := i + 1;
      assert s[1..][i - 1..] == s[i..];
      forall k | 0 < k < i ensures s[k] == '/' {
        assert s[k] == s[1..][k - 1];
      }
    } else {
      i := 0;
    }
  }

  lemma {:induction false} TrimRightExact(s: string) returns (j: nat)
    ensures j <= |s| && TrimRight(s) == s[..j] && (forall k :: j <= k < |s| ==> s[k] == '/')
    ensures j > 0 ==> s[j - 1] != '/'
  {
    if |s| > 0 && s[|s| - 1] == '/' {
      j := TrimRightExact(s[..|s| - 1]);
      assert s[..|s| - 1][..j] == s[..j];
    } else {
      j := |s|;
    }
  }

  /** What a request path is split from: it without all slashes at its beginning and its end. */
  lemma TrimExact(path: string) returns (i: nat, j: nat)
    ensures i <= j <= |path| && RequestSegs(path) == Split(path[i..j])
    ensures forall k :: 0 <= k < i || j <= k < |path| ==> path[k] == '/'
    ensures i < j ==> path[i] != '/' && path[j - 1] != '/'
  {
    hide Split, TrimLeft, TrimRight;
    i := TrimLeftExact(path);
    j := TrimRightExact(path[i..]);
    assert path[i..][..j] == path[i..i + j];
    forall k | i + j <= k < |path| ensures path[k] == '/' {
      assert path[i..][k - i] == '/';
    }
    j := i + j;
  }

  /** A registered path, sent as a request, has the segments it was registered with. */
  lemma RegisteredRequest(path: string)
    requires RightFormat(path) && path != "/" && SegsOf(path)[0] != ""
    ensures RequestSegs(path) == SegsOf(path)
  {
    assert path[1] != '/';
    assert TrimLeft(path) == TrimLeft(path[1..]) == path[1..];
    assert TrimRight(path[1..]) == path[1..];
  }

  /** The `route` of a node is its own full path if exactly that path was registered, and is
      not set otherwise, nor at the root. */
  lemma {:induction false} RouteIsFullPath(calls: seq<Registration>, n: nat, p: Path)
    requires n <= |calls|
    requires forall i :: 0 <= i < |calls| ==> RightFormat(calls[i].path) && calls[i].segs == SegsOf(calls[i].path)
    ensures Built(calls, n, p).route ==
      if p != [] && exists i :: 0 <= i < n && Accepted(calls, i) && calls[i].segs == p then "/" + Join(p) else ""
  {
    hide Accepted, RightFormat, SegsOf;
    if n > 0 {
      RouteIsFullPath(calls, n - 1, p);
      PathFromSegs(calls[n - 1].path);
    }
  }
}
