/** Cutting text into chunks for the assistant's index (`chunkAssistantText`). */
module Chunker {
  import opened Text

  /** Position of the last occurrence, or -1. */
  function LastIndex(s: string, c: char): (n: int)
    ensures -1 <= n < |s|
    ensures n >= 0 ==> s[n] == c
    ensures forall k :: n < k < |s| ==> s[k] != c
  {
    if s == [] then -1 else if s[|s| - 1] == c then |s| - 1 else LastIndex(s[..|s| - 1], c)
  }

  /** What each cut takes off at least. */
  function Stride(maxChars: nat): nat
  {
    if maxChars / 3 >= 1 then maxChars / 3 else 1
  }

  function CutAt(text: string, maxChars: nat): int
    requires |text| > maxChars
  {
    var newline := LastIndex(text[..maxChars], '\n');
    var space := LastIndex(text[..maxChars], ' ');
    if newline >= maxChars / 3 then newline else if space >= maxChars / 3 then space else maxChars
  }

  /** Cutting the chunks off the front of t, each at its cut, and the white space after each, leaves rest. */
  ghost predicate Leaves(t: string, chunks: seq<string>, rest: string, maxChars: nat)
    decreases |chunks|
  {
    if chunks == [] then rest == t
    else
      && |t| > maxChars
      && chunks[0] <= t && CutAt(t, maxChars) >= |chunks[0]|
      && (forall i :: |chunks[0]| <= i < CutAt(t, maxChars) ==> IsSpace(t[i]))
      && Leaves(TrimLeft(t[|chunks[0]|..]), chunks[1..], rest, maxChars)
  }

  lemma {:induction false} LeavesAppend(t: string, chunks: seq<string>, rest: string, c: string, maxChars: nat)
    requires Leaves(t, chunks, rest, maxChars) && |rest| > maxChars && c <= rest
    requires |c| <= CutAt(rest, maxChars) && forall i :: |c| <= i < CutAt(rest, maxChars) ==> IsSpace(rest[i])
    ensures Leaves(t, chunks + [c], TrimLeft(rest[|c|..]), maxChars)
    decreases |chunks|
  {
    hide CutAt, IsSpace, TrimLeft;
    if chunks == [] {
      assert [c][1..] == [];
    } else {
      assert (chunks + [c])[1..] == chunks[1..] + [c];
      LeavesAppend(TrimLeft(t[|chunks[0]|..]), chunks[1..], rest, c, maxChars);
    }
  }

  lemma {:induction false} TrimLeftOver(a: string, b: string)
    requires forall i :: 0 <= i < |a| ==> IsSpace(a[i])
    ensures TrimLeft(a + b) == TrimLeft(b)
  {
    if a == [] {
      assert a + b == b;
    } else {
      assert (a + b)[1..] == a[1..] + b;
      TrimLeftOver(a[1..], b);
    }
  }

  lemma {:induction false} TrimRightDropsSpace(s: string, i: nat)
    requires |TrimRight(s)| <= i < |s|
    ensures IsSpace(s[i])
  {
    if s != [] && IsSpace(s[|s| - 1]) && i < |s| - 1 {
      TrimRightDropsSpace(s[..|s| - 1], i);
    }
  }

  lemma CutHead(text: string, cut: nat)
    requires Trimmed(text) && 0 < cut < |text|
    ensures var chunk := Trim(text[..cut]);
            chunk <= text && 0 < |chunk| <= cut && Trimmed(chunk)
    ensures forall i :: |Trim(text[..cut])| <= i < cut ==> IsSpace(text[i])
  {
    var head := text[..cut];
    TrimIsTrimmed(head);
    assert TrimLeft(head) == head;
    hide IsSpace, TrimLeft, TrimRight;
    TrimRightPrefix(head);
    TrimKeepsFirst(head);
    forall i | |Trim(head)| <= i < cut ensures IsSpace(text[i]) {
      TrimRightDropsSpace(head, i);
    }
  }

  lemma CutTail(text: string, cut: nat)
    requires Trimmed(text) && 0 < cut < |text|
    ensures var rest := Trim(text[cut..]);
            rest == TrimLeft(text[cut..]) && rest != "" && Trimmed(rest) && |rest| <= |text| - cut
  {
    hide IsSpace, TrimLeft, TrimRight;
    var tail := text[cut..];
    assert tail[|tail| - 1] == text[|text| - 1];
    TrimLeftSuffix(tail);
    KeepsLast(tail);
    TrimRightKeeps(TrimLeft(tail));
  }

  lemma TrimRightKeeps(s: string)
    requires s != "" && !IsSpace(s[|s| - 1])
    ensures TrimRight(s) == s
  {
  }

  /** One cut of a trimmed text: a non-empty trimmed chunk in front, a shorter trimmed text behind. */
  lemma Cut(text: string, cut: nat)
    requires Trimmed(text) && 0 < cut < |text|
    ensures var chunk, rest := Trim(text[..cut]), Trim(text[cut..]);
            && chunk <= text && 0 < |chunk| <= cut && Trimmed(chunk)
            && (forall i :: |chunk| <= i < cut ==> IsSpace(text[i]))
            && rest == TrimLeft(text[|chunk|..]) && rest != "" && Trimmed(rest) && |rest| <= |text| - cut
  {
    hide Trim, TrimLeft, TrimRight, Trimmed, IsSpace;
    CutHead(text, cut);
    CutTail(text, cut);
    var gap, tail := text[|Trim(text[..cut])|..cut], text[cut..];
    TrimLeftOver(gap, tail);
    assert gap + tail == text[|Trim(text[..cut])|..];
  }

  lemma {:induction false} TrimKeepsFirst(s: string)
    requires s != "" && !IsSpace(s[0])
    ensures TrimRight(s) != ""
  {
    if IsSpace(s[|s| - 1]) {
      TrimKeepsFirst(s[..|s| - 1]);
    }
  }

  lemma {:induction false} KeepsLast(s: string)
    requires s != "" && !IsSpace(s[|s| - 1])
    ensures TrimLeft(s) != "" && TrimLeft(s)[|TrimLeft(s)| - 1] == s[|s| - 1]
  {
    if IsSpace(s[0]) {
      KeepsLast(s[1..]);
    }
  }

  /** The chosen cut lies inside the text, within the limit, and takes off at least the stride. */
  lemma CutIsInside(text: string, maxChars: nat)
    requires Trimmed(text) && |text| > maxChars >= 1
    ensures 1 <= Stride(maxChars) <= CutAt(text, maxChars) <= maxChars
  {
    assert IsSpace('\n') && IsSpace(' ');
    assert text[..maxChars][0] == text[0];
  }

  /** A pass of the loop shortens the text exactly when the limit is at least one. */
  lemma CutMovesExactly(text: string, maxChars: nat)
    requires Trimmed(text) && text != "" && |text| > maxChars
    ensures CutAt(text, maxChars) >= 0
    ensures |Trim(text[CutAt(text, maxChars)..])| < |text| <==> maxChars >= 1
    ensures maxChars == 0 ==> CutAt(text, 0) == 0 && Trim(text[..0]) == "" && Trim(text[0..]) == text
  {
    if maxChars == 0 {
      assert text[..0] == "" && text[0..] == text;
      TrimIsTrimmed(text);
      TrimIsTrimmed("");
    } else {
      CutIsInside(text, maxChars);
      hide CutAt, Stride;
      Cut(text, CutAt(text, maxChars));
    }
  }

  ghost predicate BreakAt(text: string, maxChars: nat, c: char, k: int)
  {
    maxChars / 3 <= k < maxChars && k < |text| && text[k] == c
  }

  /** A cut prefers the last line break past the first third, then the last blank there, then the limit. */
  lemma CutPrefersLineBreaks(text: string, maxChars: nat)
    requires |text| > maxChars
    ensures var cut := CutAt(text, maxChars);
            if exists k :: BreakAt(text, maxChars, '\n', k) then
              BreakAt(text, maxChars, '\n', cut) && forall k :: BreakAt(text, maxChars, '\n', k) ==> k <= cut
            else if exists k :: BreakAt(text, maxChars, ' ', k) then
              BreakAt(text, maxChars, ' ', cut) && forall k :: BreakAt(text, maxChars, ' ', k) ==> k <= cut
            else cut == maxChars
  {
    LastBreak(text, maxChars, '\n');
    LastBreak(text, maxChars, ' ');
    hide LastIndex, BreakAt;
  }

  lemma LastBreak(text: string, maxChars: nat, c: char)
    requires |text| > maxChars
    ensures var n := LastIndex(text[..maxChars], c);
            if n >= maxChars / 3 then
              BreakAt(text, maxChars, c, n) && forall k :: BreakAt(text, maxChars, c, k) ==> k <= n
            else !exists k :: BreakAt(text, maxChars, c, k)
  {
    assert forall k :: 0 <= k < maxChars ==> text[..maxChars][k] == text[k];
  }

  /** Non-blank text becomes trimmed chunks within the limit, cut where CutAt says, the last one being what is left. */
  method ChunkAssistantText(raw: string, maxChars: nat) returns (chunks: seq<string>)
    requires maxChars >= 1 || Trim(raw) == ""
    ensures |chunks| >= 1
    ensures Trim(raw) == "" ==> chunks == [""]
    ensures Trim(raw) != "" ==>
              && Leaves(Trim(raw), chunks[..|chunks| - 1], chunks[|chunks| - 1], maxChars)
              && (forall c <- chunks :: 0 < |c| <= maxChars && Trimmed(c))
              && (|chunks| - 1) * Stride(maxChars) < |Trim(raw)|
    ensures Squeeze(raw) == Squeeze(Concat(chunks))
  {
    hide Squeeze, Concat, Trim, TrimLeft, TrimRight, Trimmed, Stride, Leaves, IsSpace;
    var text := Trim(raw);
    ghost var whole := text;
    TrimIsTrimmed(raw);
    SqueezeTrim(raw);
    if text == "" {
      NothingInBlank();
      return [""];
    }
    chunks := [];
    LeavesNothing(whole, maxChars);
    while |text| > maxChars
      invariant Trimmed(text) && text != ""
      invariant Leaves(whole, chunks, text, maxChars)
      invariant forall c <- chunks :: 0 < |c| <= maxChars && Trimmed(c)
      invariant |chunks| * Stride(maxChars) + |text| <= |whole|
      decreases |text|
    {
      var cut := LastIndex(text[..maxChars], '\n');
      if cut < maxChars / 3 {
        cut := LastIndex(text[..maxChars], ' ');
      }
      if cut < maxChars / 3 {
        cut := maxChars;
      }
      assert cut == CutAt(text, maxChars);
      CutIsInside(text, maxChars);
      Cut(text, cut);
      assert (|chunks| + 1) * Stride(maxChars) == |chunks| * Stride(maxChars) + Stride(maxChars);
      LeavesAppend(whole, chunks, text, Trim(text[..cut]), maxChars);
      chunks := chunks + [Trim(text[..cut])];
      text := Trim(text[cut..]);
    }
    assert (chunks + [text])[..|chunks|] == chunks;
    NothingLost(whole, chunks, text, maxChars);
    chunks := chunks + [text];
  }

  lemma LeavesNothing(t: string, maxChars: nat)
    ensures Leaves(t, [], t, maxChars)
  {
  }

  // ---- Nothing but white space is lost ----

  function Squeeze(s: string): string
  {
    if s == [] then [] else if IsSpace(s[0]) then Squeeze(s[1..]) else [s[0]] + Squeeze(s[1..])
  }

  function Concat(chunks: seq<string>): string
  {
    if chunks == [] then [] else chunks[0] + Concat(chunks[1..])
  }

  lemma {:induction false} SqueezeConcat(a: string, b: string)
    ensures Squeeze(a + b) == Squeeze(a) + Squeeze(b)
  {
    if a == [] {
      assert a + b == b;
    } else {
      assert (a + b)[1..] == a[1..] + b;
      SqueezeConcat(a[1..], b);
    }
  }

  lemma {:induction false} SqueezeTrimLeft(s: string)
    ensures Squeeze(TrimLeft(s)) == Squeeze(s)
  {
    if s != [] && IsSpace(s[0]) {
      SqueezeTrimLeft(s[1..]);
    }
  }

  lemma {:induction false} SqueezeTrimRight(s: string)
    ensures Squeeze(TrimRight(s)) == Squeeze(s)
  {
    if s != [] && IsSpace(s[|s| - 1]) {
      var init, last := s[..|s| - 1], s[|s| - 1..];
      assert s == init + last;
      SqueezeConcat(init, last);
      SqueezeTrimRight(init);
    }
  }

  lemma SqueezeTrim(s: string)
    ensures Squeeze(Trim(s)) == Squeeze(s)
  {
    hide Squeeze, TrimLeft, TrimRight;
    SqueezeTrimLeft(s);
    SqueezeTrimRight(TrimLeft(s));
  }

  lemma NothingInBlank()
    ensures Squeeze("") == Squeeze(Concat([""]))
  {
    assert Concat([""]) == "" + Concat([""][1..]) == "";
  }

  /** Deleting white space from the text and from the chunks gives the same characters in the same order. */
  lemma {:induction false} NothingLost(t: string, chunks: seq<string>, last: string, maxChars: nat)
    requires Leaves(t, chunks, last, maxChars)
    ensures Squeeze(t) == Squeeze(Concat(chunks + [last]))
    decreases |chunks|
  {
    hide CutAt, IsSpace;
    if chunks == [] {
      assert Concat([last]) == last + Concat([last][1..]) == last;
    } else {
      var rest := t[|chunks[0]|..];
      assert t == chunks[0] + rest;
      NothingLost(TrimLeft(rest), chunks[1..], last, maxChars);
      SqueezeTrimLeft(rest);
      SqueezeConcat(chunks[0], rest);
      assert (chunks + [last])[1..] == chunks[1..] + [last];
      SqueezeConcat(chunks[0], Concat(chunks[1..] + [last]));
    }
  }
}
