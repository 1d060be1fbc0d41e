/** Trimming, splitting and joining strings. */
module Text {

  /** The white space `strings.TrimSpace` removes, within Latin-1. */
  predicate IsSpace(c: char)
  {
    '\t' <= c <= '\r' || c == ' ' || c == '\U{0085}' || c == '\U{00A0}'
  }

  function TrimLeft(s: string): string
  {
    if s != [] && IsSpace(s[0]) then TrimLeft(s[1..]) else s
  }

  function TrimRight(s: string): string
  {
    if s != [] && IsSpace(s[|s| - 1]) then TrimRight(s[..|s| - 1]) else s
  }

  function Trim(s: string): string
  {
    TrimRight(TrimLeft(s))
  }

  predicate Trimmed(s: string)
  {
    s == [] || (!IsSpace(s[0]) && !IsSpace(s[|s| - 1]))
  }

  lemma {:induction false} TrimLeftSuffix(s: string)
    ensures |TrimLeft(s)| <= |s| && TrimLeft(s) == s[|s| - |TrimLeft(s)|..]
    ensures TrimLeft(s) != [] ==> !IsSpace(TrimLeft(s)[0])
  {
    if s != [] && IsSpace(s[0]) {
      TrimLeftSuffix(s[1..]);
    }
  }

  lemma {:induction false} TrimRightPrefix(s: string)
    ensures TrimRight(s) <= s
    ensures TrimRight(s) != [] ==> !IsSpace(TrimRight(s)[|TrimRight(s)| - 1])
  {
    if s != [] && IsSpace(s[|s| - 1]) {
      TrimRightPrefix(s[..|s| - 1]);
    }
  }

  /** Trimming yields a trimmed piece of the string and leaves trimmed strings alone. */
  lemma TrimIsTrimmed(s: string)
    ensures Trimmed(Trim(s))
    ensures forall c <- Trim(s) :: c in s
    ensures Trimmed(s) ==> Trim(s) == s
  {
    var l := TrimLeft(s);
    TrimLeftSuffix(s);
    TrimRightPrefix(l);
    forall c | c in Trim(s) ensures c in s {
      assert c in l;
    }
  }

  lemma {:induction false} TrimLeftBefore(a: string, m: string)
    requires m != "" && !IsSpace(m[0])
    ensures TrimLeft(a + m) == TrimLeft(a) + m
  {
    if a == "" {
      assert a + m == m;
    } else {
      assert (a + m)[1..] == a[1..] + m;
      if IsSpace(a[0]) {
        TrimLeftBefore(a[1..], m);
      }
    }
  }

  lemma {:induction false} TrimRightBehind(a: string, v: string)
    requires a != "" && !IsSpace(a[|a| - 1])
    ensures TrimRight(a + v) == a + TrimRight(v)
  {
    if v == "" {
      assert a + v == a;
    } else {
      assert (a + v)[|a + v| - 1] == v[|v| - 1];
      assert (a + v)[..|a + v| - 1] == a + v[..|v| - 1];
      if IsSpace(v[|v| - 1]) {
        TrimRightBehind(a, v[..|v| - 1]);
      }
    }
  }

  // ---- Splitting ----

  /** One more character in front of a string that splits into ps. */
  function Prepend(c: char, sep: char, ps: seq<string>): (r: seq<string>)
    requires |ps| >= 1
    ensures |r| >= 1
  {
    if c == sep then [[]] + ps else [[c] + ps[0]] + ps[1..]
  }

  function Split(s: string, sep: char): (ps: seq<string>)
    ensures |ps| >= 1
  {
    if s == [] then [[]] else Prepend(s[0], sep, Split(s[1..], sep))
  }

  lemma PrependConcat(c: char, sep: char, pa: seq<string>, pb: seq<string>)
    requires |pa| >= 1
    ensures Prepend(c, sep, pa + pb) == Prepend(c, sep, pa) + pb
  {
    assert (pa + pb)[0] == pa[0] && (pa + pb)[1..] == pa[1..] + pb;
  }

  function Join(ps: seq<string>, sep: char): string
    requires ps != []
  {
    if |ps| == 1 then ps[0] else ps[0] + [sep] + Join(ps[1..], sep)
  }

  lemma {:induction false} PiecesLackSeparator(s: string, sep: char)
    ensures forall p <- Split(s, sep) :: sep !in p
  {
    if s != [] {
      PiecesLackSeparator(s[1..], sep);
      assert Split(s[1..], sep)[0] in Split(s[1..], sep);
    }
  }

  lemma {:induction false} SplitAfter(a: string, s: string, sep: char)
    requires sep !in a
    ensures Split(a + s, sep) == [a + Split(s, sep)[0]] + Split(s, sep)[1..]
  {
    if a == [] {
      assert a + s == s;
      assert Split(s, sep) == [Split(s, sep)[0]] + Split(s, sep)[1..];
      assert a + Split(s, sep)[0] == Split(s, sep)[0];
    } else {
      assert a[0] in a;
      assert (a + s)[1..] == a[1..] + s;
      SplitAfter(a[1..], s, sep);
      assert [a[0]] + (a[1..] + Split(s, sep)[0]) == a + Split(s, sep)[0];
    }
  }

  /** Joining pieces that lack the separator and splitting again gives the pieces back. */
  lemma {:induction false} SplitOfJoin(ps: seq<string>, sep: char)
    requires ps != [] && forall p <- ps :: sep !in p
    ensures Split(Join(ps, sep), sep) == ps
  {
    assert ps[0] in ps;
    assert ps[0] + [] == ps[0];
    if |ps| == 1 {
      SplitAfter(ps[0], [], sep);
    } else {
      var tail := [sep] + Join(ps[1..], sep);
      assert tail[1..] == Join(ps[1..], sep);
      SplitAfter(ps[0], tail, sep);
      assert ps[0] + tail == Join(ps, sep);
      SplitOfJoin(ps[1..], sep);
    }
  }

  /** A separator in the middle splits the list of pieces at that point. */
  lemma {:induction false} SplitAtSeparator(a: string, b: string, sep: char)
    ensures Split(a + ([sep] + b), sep) == Split(a, sep) + Split(b, sep)
  {
    var tail := [sep] + b;
    if a == [] {
      assert a + tail == tail && tail[1..] == b;
    } else {
      assert (a + tail)[1..] == a[1..] + tail && (a + tail)[0] == a[0];
      SplitAtSeparator(a[1..], b, sep);
      PrependConcat(a[0], sep, Split(a[1..], sep), Split(b, sep));
    }
  }

  lemma {:induction false} JoinConcat(a: seq<string>, b: seq<string>, sep: char)
    requires a != [] && b != []
    ensures Join(a + b, sep) == Join(a, sep) + [sep] + Join(b, sep)
  {
    assert (a + b)[1..] == a[1..] + b;
    if |a| > 1 {
      JoinConcat(a[1..], b, sep);
    } else {
      assert a[1..] + b == b;
    }
  }

  /** Splitting and joining again gives the string back. */
  lemma {:induction false} JoinOfSplit(x: string, sep: char)
    ensures Join(Split(x, sep), sep) == x
  {
    if x != [] {
      JoinOfSplit(x[1..], sep);
      var ps := Split(x[1..], sep);
      if x[0] == sep {
        assert ([[]] + ps)[1..] == ps;
      } else {
        assert ([[x[0]] + ps[0]] + ps[1..])[1..] == ps[1..];
      }
      assert x == [x[0]] + x[1..];
    }
  }
}
