/** File access policy by path prefix (`cleanPolicyPath`, `pathHasPolicyPrefix`, `allow`). */
module PathPolicy {
  import opened Common
  import opened Text

  /** A name in a cleaned path. */
  predicate CleanName(n: string)
  {
    n != "" && n != "." && n != ".." && '/' !in n
  }

  ghost predicate CleanNames(ns: seq<string>)
  {
    forall i :: 0 <= i < |ns| ==> CleanName(ns[i])
  }

  /** One piece of a path: empty and "." vanish, ".." removes a name but never leaves the root. */
  function Push(done: seq<string>, p: string): seq<string>
  {
    if p == "" || p == "." then done
    else if p == ".." then (if done == [] then [] else done[..|done| - 1])
    else done + [p]
  }

  /** Rooted lexical normalisation. */
  function Normalize(done: seq<string>, pieces: seq<string>): seq<string>
    decreases |pieces|
  {
    if pieces == [] then done else Normalize(Push(done, pieces[0]), pieces[1..])
  }

  /** The names of the path that a raw string denotes below the root. */
  function Names(raw: string): seq<string>
  {
    Normalize([], Split(Trim(raw), '/'))
  }

  /** The empty string for the root, "/a/b" below it. */
  function Render(names: seq<string>): string
  {
    Join([""] + names, '/')
  }

  function CleanPolicyPath(raw: string): string
  {
    Render(Names(raw))
  }

  predicate HasPolicyPrefix(path: string, prefix: string)
  {
    path == CleanPolicyPath(prefix) || CleanPolicyPath(prefix) + "/" <= path
  }

  lemma {:induction false} NormalizeIsClean(done: seq<string>, pieces: seq<string>)
    requires CleanNames(done) && forall p <- pieces :: '/' !in p
    ensures CleanNames(Normalize(done, pieces))
    decreases |pieces|
  {
    if pieces != [] {
      assert pieces[0] in pieces;
      NormalizeIsClean(Push(done, pieces[0]), pieces[1..]);
    }
  }

  lemma NamesAreClean(raw: string)
    ensures CleanNames(Names(raw))
  {
    PiecesLackSeparator(Trim(raw), '/');
    NormalizeIsClean([], Split(Trim(raw), '/'));
  }

  lemma RenderSplits(ns: seq<string>)
    requires CleanNames(ns)
    ensures Split(Render(ns), '/') == [""] + ns
  {
    var ps := [""] + ns;
    forall p | p in ps ensures '/' !in p {
      var i :| 0 <= i < |ps| && ps[i] == p;
      assert i > 0 ==> CleanName(ns[i - 1]);
    }
    SplitOfJoin(ps, '/');
  }

  /** Different paths have different strings. */
  lemma RenderIsInjective(a: seq<string>, b: seq<string>)
    requires CleanNames(a) && CleanNames(b)
    ensures Render(a) == Render(b) <==> a == b
  {
    RenderSplits(a);
    RenderSplits(b);
    assert a == ([""] + a)[1..] && b == ([""] + b)[1..];
  }

  lemma SlashMeansDeeper(a: seq<string>, b: seq<string>)
    requires CleanNames(a) && CleanNames(b) && Render(b) + "/" <= Render(a)
    ensures b <= a
  {
    var rest := Render(a)[|Render(b)| + 1..];
    assert Render(a) == Render(b) + (['/'] + rest);
    SplitAtSeparator(Render(b), rest, '/');
    RenderSplits(a);
    RenderSplits(b);
    assert a == ([""] + a)[1..];
    assert ([""] + b + Split(rest, '/'))[1..] == b + Split(rest, '/');
  }

  lemma DeeperMeansSlash(a: seq<string>, b: seq<string>)
    requires b < a
    ensures Render(b) + "/" <= Render(a)
  {
    var rest := a[|b|..];
    assert [""] + a == ([""] + b) + rest;
    JoinConcat([""] + b, rest, '/');
    assert Render(a) == Render(b) + "/" + Join(rest, '/');
  }

  /** The string test is exactly the test whether one list of names begins with the other. */
  lemma PrefixIsAncestor(path: string, prefix: string)
    ensures HasPolicyPrefix(CleanPolicyPath(path), prefix) <==> Names(prefix) <= Names(path)
  {
    var a, b := Names(path), Names(prefix);
    NamesAreClean(path);
    NamesAreClean(prefix);
    RenderIsInjective(a, b);
    if b < a {
      DeeperMeansSlash(a, b);
    }
    if Render(b) + "/" <= Render(a) {
      SlashMeansDeeper(a, b);
    }
  }

  // ---- What normalisation does ----

  lemma {:induction false} NormalizeConcat(done: seq<string>, a: seq<string>, b: seq<string>)
    ensures Normalize(done, a + b) == Normalize(Normalize(done, a), b)
    decreases |a|
  {
    if a == [] {
      assert a + b == b;
    } else {
      assert (a + b)[1..] == a[1..] + b;
      NormalizeConcat(Push(done, a[0]), a[1..], b);
    }
  }

  lemma NormalizeOne(done: seq<string>, p: string)
    ensures Normalize(done, [p]) == Push(done, p)
  {
    assert [p][1..] == [];
  }

  /** A name and ".." after it, anywhere in a path, change nothing. */
  lemma UpUndoes(done: seq<string>, a: seq<string>, n: string, b: seq<string>)
    requires CleanName(n)
    ensures Normalize(done, a + [n, ".."] + b) == Normalize(done, a + b)
  {
    var d := Normalize(done, a);
    NormalizeConcat(done, a + [n, ".."], b);
    NormalizeConcat(done, a, [n, ".."]);
    NormalizeConcat(done, a, b);
    assert [n, ".."] == [n] + [".."];
    NormalizeConcat(d, [n], [".."]);
    NormalizeOne(d, n);
    NormalizeOne(d + [n], "..");
    assert (d + [n])[..|d|] == d;
  }

  /** Empty and "." pieces, anywhere in a path, change nothing. */
  lemma IdlePieces(done: seq<string>, a: seq<string>, p: string, b: seq<string>)
    requires p == "" || p == "."
    ensures Normalize(done, a + [p] + b) == Normalize(done, a + b)
  {
    NormalizeConcat(done, a + [p], b);
    NormalizeConcat(done, a, [p]);
    NormalizeConcat(done, a, b);
    NormalizeOne(Normalize(done, a), p);
  }

  /** ".." at the root stays at the root. */
  lemma UpAtRoot(b: seq<string>)
    ensures Normalize([], [".."] + b) == Normalize([], b)
  {
    NormalizeConcat([], [".."], b);
    NormalizeOne([], "..");
  }

  /** Clean names are their own normal form. */
  lemma {:induction false} CleanIsNormal(done: seq<string>, ns: seq<string>)
    requires CleanNames(ns)
    ensures Normalize(done, ns) == done + ns
    decreases |ns|
  {
    if ns != [] {
      CleanIsNormal(done + [ns[0]], ns[1..]);
      assert done + [ns[0]] + ns[1..] == done + ns;
    }
  }

  /** A cleaned path denotes the names it was rendered from, unless it ends in white space, which is trimmed. */
  lemma NamesOfRendered(ns: seq<string>)
    requires CleanNames(ns) && Trimmed(Render(ns))
    ensures Names(Render(ns)) == ns
  {
    TrimIsTrimmed(Render(ns));
    RenderSplits(ns);
    hide Render, Trim, Trimmed, Split;
    assert [] + [""] + ns == [""] + ns && [] + ns == ns;
    IdlePieces([], [], "", ns);
    CleanIsNormal([], ns);
  }

  // ---- ".." inside path strings ----

  /** Text that follows a complete piece: nothing, or a slash and more. */
  predicate Follows(b: string)
  {
    b == "" || b[0] == '/'
  }

  function Up(n: string): string
  {
    "/" + n + "/.."
  }

  lemma SplitBefore(x: string, b: string)
    requires Follows(b)
    ensures Split(x + b, '/') == Split(x, '/') + (if b == "" then [] else Split(b[1..], '/'))
  {
    if b == "" {
      assert x + b == x;
    } else {
      assert b == ['/'] + b[1..];
      SplitAtSeparator(x, b[1..], '/');
    }
  }

  lemma SplitUp(x: string, n: string)
    requires CleanName(n)
    ensures Split(x + Up(n), '/') == Split(x, '/') + [n, ".."]
  {
    assert Up(n) == ['/'] + (n + (['/'] + ".."));
    SplitAtSeparator(x, n + (['/'] + ".."), '/');
    SplitAtSeparator(n, "..", '/');
    SplitOfJoin([n], '/');
    SplitOfJoin([".."], '/');
  }

  lemma TrimAroundUp(a: string, n: string, b: string)
    ensures Trim(a + Up(n) + b) == TrimLeft(a) + Up(n) + TrimRight(b)
  {
    var m := Up(n);
    assert m[0] == '/' && m[|m| - 1] == '.';
    assert a + m + b == a + (m + b) && (m + b)[0] == m[0];
    TrimLeftBefore(a, m + b);
    assert TrimLeft(a) + (m + b) == (TrimLeft(a) + m) + b;
    TrimRightBehind(TrimLeft(a) + m, b);
  }

  lemma TrimAcross(a: string, b: string)
    requires b != "" && b[0] == '/'
    ensures Trim(a + b) == TrimLeft(a) + TrimRight(b) && Follows(TrimRight(b))
  {
    SlashIsVisible();
    hide IsSpace, TrimLeft, TrimRight;
    var slash, rest, x := ['/'], b[1..], TrimLeft(a);
    assert b == slash + rest;
    TrimLeftBefore(a, b);
    TrimRightBehind(slash, rest);
    assert x + b == (x + slash) + rest;
    TrimRightBehind(x + slash, rest);
    assert x + slash + TrimRight(rest) == x + (slash + TrimRight(rest));
  }

  lemma SlashIsVisible()
    ensures !IsSpace('/') && !IsSpace('.')
  {
  }

  /** The names of a path with a name and ".." in it, in terms of the trimmed front. */
  lemma NamesWithUp(a: string, n: string, b: string)
    requires CleanName(n) && Follows(b)
    ensures Names(a + Up(n) + b) == Normalize([], Split(TrimLeft(a) + TrimRight(b), '/')) && Follows(TrimRight(b))
  {
    hide Normalize, Split, IsSpace;
    var x, y := TrimLeft(a), TrimRight(b);
    TrimAroundUp(a, n, b);
    if b != "" {
      TrimAcross(a, b);
    }
    var rest := if y == "" then [] else Split(y[1..], '/');
    SplitBefore(x + Up(n), y);
    SplitBefore(x, y);
    SplitUp(x, n);
    UpUndoes([], Split(x, '/'), n, rest);
  }

  /**
   * Going into a directory and back out again does not change which path is meant, exactly when more of
   * the path follows or the front does not end in white space (which is trimmed only where it is last).
   */
  lemma UpIsIdleExactly(a: string, n: string, b: string)
    requires CleanName(n) && Follows(b)
    ensures Names(a + Up(n) + b) == Names(a + b) <==> b != "" || Trim(a) == TrimLeft(a)
  {
    hide Normalize, Split, IsSpace;
    NamesWithUp(a, n, b);
    if b != "" {
      TrimAcross(a, b);
    } else {
      assert a + b == a && TrimLeft(a) + TrimRight(b) == TrimLeft(a);
      TrailingSpaceMatters(TrimLeft(a));
    }
  }

  /** The text before the last piece, with its slash, if there is any. */
  ghost predicate Leads(x: string, front: seq<string>, lead: string, p: string)
  {
    && x == lead + p && '/' !in p
    && (lead == "" ==> front == [])
    && (lead != "" ==> lead[|lead| - 1] == '/' && Split(lead[..|lead| - 1], '/') == front)
  }

  lemma LastPiece(x: string) returns (front: seq<string>, lead: string, p: string)
    ensures Split(x, '/') == front + [p] && Leads(x, front, lead, p)
  {
    PiecesLackSeparator(x, '/');
    JoinOfSplit(x, '/');
    var ps := Split(x, '/');
    hide Split;
    front, p := ps[..|ps| - 1], ps[|ps| - 1];
    assert p in ps && ps == front + [p];
    if front == [] {
      lead := "";
      assert ps == [p];
    } else {
      JoinConcat(front, [p], '/');
      assert forall q <- front :: q in ps;
      SplitOfJoin(front, '/');
      lead := Join(front, '/') + ['/'];
      assert lead[..|lead| - 1] == Join(front, '/');
    }
  }

  lemma SplitLed(x: string, front: seq<string>, lead: string, p: string)
    requires Leads(x, front, lead, p)
    ensures Split(x, '/') == front + [p]
  {
    hide Split;
    Piece(p);
    if lead == "" {
      assert x == p && front + [p] == [p];
    } else {
      var y := lead[..|lead| - 1];
      assert x == y + (['/'] + p);
      SplitAtSeparator(y, p, '/');
    }
  }

  lemma Piece(p: string)
    requires '/' !in p
    ensures Split(p, '/') == [p]
  {
    SplitAfter(p, [], '/');
    assert p + [] == p;
  }

  /** White space at the end of a path belongs to its last name, so trimming it changes the path. */
  lemma TrailingSpaceMatters(x: string)
    ensures Normalize([], Split(x, '/')) == Normalize([], Split(TrimRight(x), '/')) <==> TrimRight(x) == x
  {
    if TrimRight(x) != x {
      var front, lead, p := LastPiece(x);
      LastTrimmed(x, front, lead, p);
      hide Split, Leads, IsSpace;
      var d := Normalize([], front);
      NormalizeConcat([], front, [p]);
      NormalizeOne(d, p);
      NormalizeConcat([], front, [TrimRight(p)]);
      NormalizeOne(d, TrimRight(p));
      assert (d + [TrimRight(p)])[|d|] == TrimRight(p) && (d + [p])[|d|] == p;
    }
  }

  lemma LastTrimmed(x: string, front: seq<string>, lead: string, p: string)
    requires Leads(x, front, lead, p) && TrimRight(x) != x
    ensures Split(TrimRight(x), '/') == front + [TrimRight(p)]
    ensures p != "" && p != "." && p != ".." && TrimRight(p) != p
  {
    SlashIsVisible();
    TrimRightPrefix(p);
    TrimmedLast(lead, p);
    hide IsSpace, TrimRight, Split;
    SplitLed(TrimRight(x), front, lead, TrimRight(p));
  }

  lemma TrimmedLast(lead: string, p: string)
    requires lead == "" || lead[|lead| - 1] == '/'
    ensures TrimRight(lead + p) == lead + TrimRight(p)
    ensures p in {"", ".", ".."} ==> TrimRight(p) == p
  {
    SlashIsVisible();
    if lead == "" {
      assert lead + p == p && lead + TrimRight(p) == TrimRight(p);
    } else {
      TrimRightBehind(lead, p);
    }
  }

  // ---- The decision ----

  datatype Action = Read | Write | Delete | OtherAction

  datatype Policy = Policy(
    read: Option<bool>,
    write: Option<bool>,
    delete: Option<bool>,
    allowedPrefixes: seq<string>,
    blockedPrefixes: seq<string>)

  datatype Decision = Allow | DeniesAction | BlocksPath | NotAllowed

  predicate Forbids(p: Policy, action: Action)
  {
    match action
    case Read => p.read == Some(false)
    case Write => p.write == Some(false)
    case Delete => p.delete == Some(false)
    case OtherAction => false
  }

  /** Some listed directory is the path or one of its ancestors. */
  ghost predicate Under(path: string, prefixes: seq<string>)
  {
    exists i :: 0 <= i < |prefixes| && Names(prefixes[i]) <= Names(path)
  }

  /** The decision in terms of directories. */
  ghost function Verdict(p: Policy, action: Action, path: string): Decision
  {
    if Forbids(p, action) then DeniesAction
    else if Under(path, p.blockedPrefixes) then BlocksPath
    else if p.allowedPrefixes == [] || Under(path, p.allowedPrefixes) then Allow
    else NotAllowed
  }

  method AnyPrefix(path: string, prefixes: seq<string>) returns (found: bool)
    ensures found <==> Under(path, prefixes)
  {
    var clean := CleanPolicyPath(path);
    for i := 0 to |prefixes|
      invariant forall k :: 0 <= k < i ==> !(Names(prefixes[k]) <= Names(path))
    {
      PrefixIsAncestor(path, prefixes[i]);
      if HasPolicyPrefix(clean, prefixes[i]) {
        return true;
      }
    }
    return false;
  }

  /** The whole decision in terms of directories: block beats allow, an empty allow list allows all. */
  method Decide(p: Policy, action: Action, path: string) returns (d: Decision)
    ensures d == Verdict(p, action, path)
    ensures d == DeniesAction <==> Forbids(p, action)
    ensures Forbids(p, action) <==>
              || (action == Read && p.read == Some(false))
              || (action == Write && p.write == Some(false))
              || (action == Delete && p.delete == Some(false))
    ensures d == BlocksPath <==> !Forbids(p, action) && Under(path, p.blockedPrefixes)
    ensures d == Allow <==> !Forbids(p, action) && !Under(path, p.blockedPrefixes)
                            && (p.allowedPrefixes == [] || Under(path, p.allowedPrefixes))
  {
    if Forbids(p, action) {
      return DeniesAction;
    }
    var blocked := AnyPrefix(path, p.blockedPrefixes);
    if blocked {
      return BlocksPath;
    }
    if |p.allowedPrefixes| > 0 {
      var allowed := AnyPrefix(path, p.allowedPrefixes);
      return if allowed then Allow else NotAllowed;
    }
    return Allow;
  }

  /** A block on a directory reaches every path below it. */
  lemma BlockReachesDescendants(path: string, below: string, prefixes: seq<string>)
    requires Under(path, prefixes) && Names(path) <= Names(below)
    ensures Under(below, prefixes)
  {
    var i :| 0 <= i < |prefixes| && Names(prefixes[i]) <= Names(path);
    assert Names(prefixes[i]) <= Names(below);
  }

  /** A prefix that denotes the root covers everything. */
  lemma RootCoversAll(path: string, prefix: string)
    requires Names(prefix) == []
    ensures HasPolicyPrefix(CleanPolicyPath(path), prefix)
  {
    PrefixIsAncestor(path, prefix);
  }

  /** No detour through a directory gets a path out of a listed one, or into it. */
  lemma DetoursAreSeen(a: string, n: string, b: string, prefixes: seq<string>)
    requires CleanName(n) && b != "" && b[0] == '/'
    ensures Under(a + Up(n) + b, prefixes) <==> Under(a + b, prefixes)
  {
    UpIsIdleExactly(a, n, b);
    hide Names;
  }

  /** The decision about a path with a detour is the decision about the path without it. */
  lemma DetoursChangeNothing(p: Policy, action: Action, a: string, n: string, b: string)
    requires CleanName(n) && b != "" && b[0] == '/'
    ensures Verdict(p, action, a + Up(n) + b) == Verdict(p, action, a + b)
  {
    DetoursAreSeen(a, n, b, p.blockedPrefixes);
    DetoursAreSeen(a, n, b, p.allowedPrefixes);
    hide Under;
  }
}
