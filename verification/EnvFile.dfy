/** The agent's env file: the printer, the parser, and read-modify-write through both. */
module EnvFile {
  import opened Common
  import opened Text

  type Env = map<string, string>

  // ---- Parsing ----

  /** Position of the first '=', or the length if there is none. */
  function FirstEquals(s: string): (n: nat)
    ensures n <= |s|
    ensures n < |s| ==> s[n] == '='
    ensures forall k :: 0 <= k < n ==> s[k] != '='
  {
    if s == [] || s[0] == '=' then 0 else 1 + FirstEquals(s[1..])
  }

  datatype Binding = Binding(key: string, value: string)

  function ParseLine(raw: string): Option<Binding>
  {
    var line := Trim(raw);
    if line == "" || line[0] == '#' then None
    else
      var n := FirstEquals(line);
      if n == |line| then None else Some(Binding(Trim(line[..n]), line[n + 1..]))
  }

  function ParseLines(env: Env, lines: seq<string>): Env
    decreases |lines|
  {
    if lines == [] then env
    else
      var b := ParseLine(lines[0]);
      ParseLines(if b.Some? then env[b.value.key := b.value.value] else env, lines[1..])
  }

  function Parse(data: string): Env
  {
    ParseLines(map[], Split(data, '\n'))
  }

  predicate GoodKey(k: string)
  {
    Trimmed(k) && '=' !in k && '\n' !in k && (k == "" || k[0] != '#')
  }

  predicate GoodValue(v: string)
  {
    '\n' !in v && (v == "" || !IsSpace(v[|v| - 1]))
  }

  ghost predicate WellFormed(env: Env)
  {
    forall k <- env :: GoodKey(k) && GoodValue(env[k])
  }

  /** Trimming the front part of a trimmed string only takes from its end. */
  lemma TrimOfPrefix(line: string, n: nat)
    requires Trimmed(line) && n <= |line|
    ensures Trim(line[..n]) <= line
  {
    var head := line[..n];
    assert TrimLeft(head) == head;
    TrimRightPrefix(head);
  }

  lemma ParsedBindingIsGood(raw: string)
    requires '\n' !in raw && ParseLine(raw).Some?
    ensures GoodKey(ParseLine(raw).value.key) && GoodValue(ParseLine(raw).value.value)
  {
    hide TrimLeft, TrimRight, IsSpace;
    var line := Trim(raw);
    TrimIsTrimmed(raw);
    var n := FirstEquals(line);
    var head := line[..n];
    TrimIsTrimmed(head);
    TrimOfPrefix(line, n);
  }

  lemma {:induction false} ParseLinesIsWellFormed(env: Env, lines: seq<string>)
    requires WellFormed(env) && forall l <- lines :: '\n' !in l
    ensures WellFormed(ParseLines(env, lines))
    decreases |lines|
  {
    if lines != [] {
      var b := ParseLine(lines[0]);
      assert lines[0] in lines;
      if b.Some? {
        ParsedBindingIsGood(lines[0]);
      }
      ParseLinesIsWellFormed(if b.Some? then env[b.value.key := b.value.value] else env, lines[1..]);
    }
  }

  /** Whatever the file holds, what is read from it is well-formed. */
  lemma ParseIsWellFormed(data: string)
    ensures WellFormed(Parse(data))
  {
    PiecesLackSeparator(data, '\n');
    ParseLinesIsWellFormed(map[], Split(data, '\n'));
  }

  // ---- Printing ----

  predicate Less(a: string, b: string)
  {
    b != [] && (a == [] || a[0] < b[0] || (a[0] == b[0] && Less(a[1..], b[1..])))
  }

  lemma {:induction false} LessIsTotalOrder(a: string, b: string, c: string)
    ensures !Less(a, a)
    ensures a == b || Less(a, b) || Less(b, a)
    ensures Less(a, b) && Less(b, c) ==> Less(a, c)
  {
    if a != [] {
      LessIsTotalOrder(a[1..], if b == [] then [] else b[1..], if c == [] then [] else c[1..]);
      if b != [] && a[0] == b[0] && a[1..] == b[1..] {
        assert a == [a[0]] + a[1..] == b;
      }
    }
  }

  ghost predicate Sorted(keys: seq<string>)
  {
    forall i, j :: 0 <= i < j < |keys| ==> Less(keys[i], keys[j])
  }

  ghost predicate Lists(keys: seq<string>, ks: set<string>)
  {
    forall k :: k in ks <==> k in keys
  }

  /** A set has only one sorted listing, so the printed file is determined by the map. */
  lemma {:induction false} SortedIsUnique(a: seq<string>, b: seq<string>)
    requires Sorted(a) && Sorted(b) && forall k :: k in a <==> k in b
    ensures a == b
  {
    if a != [] {
      assert a[0] in b;
      assert b != [] && b[0] in a;
      var i :| 0 <= i < |b| && b[i] == a[0];
      var j :| 0 <= j < |a| && a[j] == b[0];
      LessIsTotalOrder(a[0], b[0], a[0]);
      assert a[0] == b[0];
      forall k ensures k in a[1..] <==> k in b[1..] {
        RestLacksHead(a, k);
        RestLacksHead(b, k);
      }
      SortedIsUnique(a[1..], b[1..]);
      assert a == [a[0]] + a[1..] && b == [b[0]] + b[1..];
    } else {
      SameListingEmpty(a, b);
    }
  }

  lemma SameListingEmpty(a: seq<string>, b: seq<string>)
    requires forall k :: k in a <==> k in b
    ensures a == [] <==> b == []
  {
    assert a != [] ==> a[0] in a;
    assert b != [] ==> b[0] in b;
  }

  lemma RestLacksHead(a: seq<string>, k: string)
    requires Sorted(a) && a != []
    ensures k in a[1..] <==> k in a && k != a[0]
  {
    LessIsTotalOrder(a[0], a[0], a[0]);
    assert forall i :: 0 < i < |a| ==> Less(a[0], a[i]);
  }

  /** The map's keys in byte order. */
  method SortedKeys(env: Env) returns (keys: seq<string>)
    ensures Sorted(keys) && Lists(keys, env.Keys)
  {
    keys := [];
    var left := env.Keys;
    while left != {}
      invariant left <= env.Keys
      invariant Sorted(keys) && Lists(keys, env.Keys - left)
      decreases left
    {
      var k :| k in left;
      keys := Insert(keys, k);
      left := left - {k};
    }
  }

  method Insert(keys: seq<string>, k: string) returns (r: seq<string>)
    requires Sorted(keys) && k !in keys
    ensures Sorted(r) && forall x :: x in r <==> x in keys || x == k
  {
    var i := 0;
    while i < |keys| && Less(keys[i], k)
      invariant 0 <= i <= |keys|
      invariant forall n :: 0 <= n < i ==> Less(keys[n], k)
    {
      i := i + 1;
    }
    r := keys[..i] + [k] + keys[i..];
    forall n | i <= n < |keys| ensures Less(k, keys[n]) {
      LessIsTotalOrder(keys[i], k, k);
      LessIsTotalOrder(k, keys[i], keys[n]);
      assert keys[i] in keys;
    }
    forall x ensures x in r <==> x in keys || x == k {
      assert keys == keys[..i] + keys[i..];
    }
  }

  function KeyLines(env: Env, keys: seq<string>): (ls: seq<string>)
    requires forall k <- keys :: k in env
    ensures |ls| == |keys|
    ensures forall i :: 0 <= i < |ls| ==> ls[i] == keys[i] + "=" + env[keys[i]]
  {
    seq(|keys|, i requires 0 <= i < |keys| => keys[i] + "=" + env[keys[i]])
  }

  function PrintKeys(env: Env, keys: seq<string>): string
    requires forall k <- keys :: k in env
  {
    Join(KeyLines(env, keys) + [""], '\n')
  }

  /** The text written for a map: one line a key, keys sorted, a newline at the end. */
  method Print(env: Env) returns (text: string, ghost keys: seq<string>)
    ensures Sorted(keys) && Lists(keys, env.Keys) && text == PrintKeys(env, keys)
    ensures Parse(text) == env <==> WellFormed(env)
  {
    var sorted := SortedKeys(env);
    var lines: seq<string> := [];
    for i := 0 to |sorted|
      invariant lines == KeyLines(env, sorted)[..i]
    {
      lines := lines + [sorted[i] + "=" + env[sorted[i]]];
    }
    assert lines == KeyLines(env, sorted);
    text := Join(lines + [""], '\n');
    keys := sorted;
    RoundTrip(env, keys);
  }

  // ---- Round trip ----

  lemma PrintedLineIsTrimmed(k: string, v: string)
    requires GoodKey(k) && GoodValue(v)
    ensures Trimmed(k + "=" + v) && k + "=" + v != "" && (k + "=" + v)[0] != '#'
  {
    var line := k + "=" + v;
    assert line[|k|] == '=' && !IsSpace('=');
    assert k != "" ==> line[0] == k[0];
    assert v != "" ==> line[|line| - 1] == v[|v| - 1];
  }

  lemma ParsePrintedLine(k: string, v: string)
    requires GoodKey(k) && GoodValue(v)
    ensures ParseLine(k + "=" + v) == Some(Binding(k, v))
  {
    PrintedLineIsTrimmed(k, v);
    hide TrimLeft, TrimRight, Trim, IsSpace;
    var line := k + "=" + v;
    assert line[|k|] == '=';
    TrimIsTrimmed(line);
    var n := FirstEquals(line);
    assert forall i :: 0 <= i < |k| ==> line[i] == k[i] && k[i] in k;
    assert n == |k|;
    assert line[..n] == k && line[n + 1..] == v;
    TrimIsTrimmed(k);
  }

  /** The listed keys with their values of env, put on top of base one by one. */
  function Overlay(env: Env, keys: seq<string>, base: Env): Env
    requires forall k <- keys :: k in env
    decreases |keys|
  {
    if keys == [] then base else Overlay(env, keys[1..], base[keys[0] := env[keys[0]]])
  }

  lemma {:induction false} OverlayAt(env: Env, keys: seq<string>, base: Env, x: string)
    requires forall k <- keys :: k in env
    ensures x in Overlay(env, keys, base) <==> x in keys || x in base
    ensures x in keys ==> Overlay(env, keys, base)[x] == env[x]
    ensures x !in keys && x in base ==> Overlay(env, keys, base)[x] == base[x]
    decreases |keys|
  {
    if keys != [] {
      OverlayAt(env, keys[1..], base[keys[0] := env[keys[0]]], x);
    }
  }

  lemma OverlayIsAll(env: Env, keys: seq<string>)
    requires Lists(keys, env.Keys) && forall k <- keys :: k in env
    ensures Overlay(env, keys, map[]) == env
  {
    forall x
      ensures (x in Overlay(env, keys, map[]) <==> x in env) && (x in env ==> Overlay(env, keys, map[])[x] == env[x]) {
      OverlayAt(env, keys, map[], x);
      assert x in env.Keys <==> x in keys;
    }
  }

  // ---- What is read back, for any values ----

  lemma TrimPrinted(k: string, v: string)
    requires GoodKey(k)
    ensures Trim(k + "=" + v) == k + "=" + TrimRight(v)
  {
    hide TrimRight;
    var line := k + "=" + v;
    assert !IsSpace('=') && line[0] == (k + "=")[0];
    assert TrimLeft(line) == line;
    TrimRightBehind(k + "=", v);
  }

  /** A printed line reads back with the white space at its end cut off. */
  lemma ParseFirstLine(k: string, v: string)
    requires GoodKey(k) && '\n' !in v
    ensures ParseLine(k + "=" + v) == Some(Binding(k, TrimRight(v)))
  {
    hide TrimLeft, TrimRight, Trim, IsSpace, GoodKey;
    var w := TrimRight(v);
    TrimRightPrefix(v);
    TrimPrinted(k, v);
    PrintedLineIsTrimmed(k, w);
    TrimIsTrimmed(k + "=" + w);
    ParsePrintedLine(k, w);
  }

  function FirstLine(v: string): string
  {
    Split(v, '\n')[0]
  }

  /** The bindings that the lines of a value after its first one amount to. */
  function Extra(v: string): Env
  {
    ParseLines(map[], Split(v, '\n')[1..])
  }

  function ReadBack(env: Env, keys: seq<string>, base: Env): Env
    requires forall k <- keys :: k in env
    decreases |keys|
  {
    if keys == [] then base
    else
      var v := env[keys[0]];
      ReadBack(env, keys[1..], ParseLines(base[keys[0] := TrimRight(FirstLine(v))], Split(v, '\n')[1..]))
  }

  lemma {:induction false} ParseLinesConcat(env: Env, a: seq<string>, b: seq<string>)
    ensures ParseLines(env, a + b) == ParseLines(ParseLines(env, a), b)
    decreases |a|
  {
    if a == [] {
      assert a + b == b;
    } else {
      assert (a + b)[1..] == a[1..] + b;
      var p := ParseLine(a[0]);
      ParseLinesConcat(if p.Some? then env[p.value.key := p.value.value] else env, a[1..], b);
    }
  }

  lemma BlankText(base: Env)
    ensures ParseLines(base, Split("", '\n')) == base
  {
    assert [""][1..] == [];
  }

  lemma PrintedHead(env: Env, keys: seq<string>)
    requires keys != [] && forall k <- keys :: k in env
    ensures PrintKeys(env, keys) == keys[0] + "=" + env[keys[0]] + (['\n'] + PrintKeys(env, keys[1..]))
  {
    var ls := KeyLines(env, keys) + [""];
    assert ls[1..] == KeyLines(env, keys[1..]) + [""];
  }

  lemma PrintedLineSplits(k: string, v: string)
    requires GoodKey(k)
    ensures Split(k + "=" + v, '\n') == [k + "=" + FirstLine(v)] + Split(v, '\n')[1..]
  {
    SplitAfter(k + "=", v, '\n');
  }

  lemma FirstLineIsLine(v: string)
    ensures '\n' !in FirstLine(v)
  {
    PiecesLackSeparator(v, '\n');
    assert Split(v, '\n')[0] in Split(v, '\n');
  }

  /** Parsing the printed text is reading back value by value, whatever the values hold. */
  lemma {:induction false} ParsePrinted(env: Env, keys: seq<string>, base: Env)
    requires forall k <- keys :: k in env && GoodKey(k)
    ensures ParseLines(base, Split(PrintKeys(env, keys), '\n')) == ReadBack(env, keys, base)
    decreases |keys|
  {
    hide ParseLine, GoodKey, PrintKeys, Split;
    if keys == [] {
      NothingPrinted(env);
      BlankText(base);
    } else {
      var k, v := keys[0], env[keys[0]];
      assert k in keys;
      var rest := Split(v, '\n')[1..];
      PrintedHead(env, keys);
      SplitAtSeparator(k + "=" + v, PrintKeys(env, keys[1..]), '\n');
      PrintedLineSplits(k, v);
      ParseLinesConcat(base, Split(k + "=" + v, '\n'), Split(PrintKeys(env, keys[1..]), '\n'));
      FirstLineIsLine(v);
      ParseFirstLine(k, FirstLine(v));
      assert ([k + "=" + FirstLine(v)] + rest)[1..] == rest;
      ParsePrinted(env, keys[1..], ParseLines(base[k := TrimRight(FirstLine(v))], rest));
    }
  }

  lemma NothingPrinted(env: Env)
    ensures PrintKeys(env, []) == ""
  {
  }

  /** A value without line breaks is its own first line and brings no bindings. */
  lemma OneLine(v: string)
    requires '\n' !in v
    ensures FirstLine(v) == v && Split(v, '\n')[1..] == [] && Extra(v) == map[]
  {
    SplitAfter(v, [], '\n');
    assert v + [] == v;
  }

  lemma {:induction false} ReadBackPlain(env: Env, keys: seq<string>, base: Env)
    requires forall k <- keys :: k in env && GoodValue(env[k])
    ensures ReadBack(env, keys, base) == Overlay(env, keys, base)
    decreases |keys|
  {
    if keys != [] {
      assert keys[0] in keys;
      OneLine(env[keys[0]]);
      ReadBackPlain(env, keys[1..], base[keys[0] := env[keys[0]]]);
    }
  }

  /** Printing and parsing give the map back exactly when the map is well-formed. */
  lemma RoundTrip(env: Env, keys: seq<string>)
    requires Lists(keys, env.Keys) && forall k <- keys :: k in env
    ensures Parse(PrintKeys(env, keys)) == env <==> WellFormed(env)
  {
    hide Lists, ParseLines, GoodKey, GoodValue;
    ParseIsWellFormed(PrintKeys(env, keys));
    if WellFormed(env) {
      ParsePrinted(env, keys, map[]);
      ReadBackPlain(env, keys, map[]);
      OverlayIsAll(env, keys);
    }
  }

  // ---- Which lines count ----

  /** A line that says something: not blank, no comment, and with an '=' in it. */
  predicate Counts(raw: string)
  {
    var line := Trim(raw);
    line != "" && line[0] != '#' && '=' in line
  }

  /** Exactly such lines bind; the key is what stands before the first '=', trimmed, and the value all that follows. */
  lemma ParseLineExactly(raw: string)
    ensures ParseLine(raw).Some? <==> Counts(raw)
    ensures ParseLine(raw).Some? ==>
              exists head: string ::
                && Trim(raw) == head + "=" + ParseLine(raw).value.value && '=' !in head
                && ParseLine(raw).value.key == Trim(head)
  {
    hide Trim;
    var line := Trim(raw);
    var n := FirstEquals(line);
    if '=' in line {
      var k :| 0 <= k < |line| && line[k] == '=';
      assert n < |line|;
    }
    if n < |line| {
      var head := line[..n];
      assert '=' !in head;
      assert line == head + "=" + line[n + 1..];
    }
  }

  function Counting(lines: seq<string>): (r: seq<string>)
    ensures forall l <- r :: Counts(l) && l in lines
  {
    if lines == [] then []
    else (if Counts(lines[0]) then [lines[0]] else []) + Counting(lines[1..])
  }

  /** Blank lines, comments and lines without '=' can be dropped. */
  lemma {:induction false} OnlyCountingLines(env: Env, lines: seq<string>)
    ensures ParseLines(env, lines) == ParseLines(env, Counting(lines))
    decreases |lines|
  {
    hide ParseLine, Counts;
    if lines != [] {
      ParseLineExactly(lines[0]);
      var p := ParseLine(lines[0]);
      if Counts(lines[0]) {
        assert ([lines[0]] + Counting(lines[1..]))[1..] == Counting(lines[1..]);
        OnlyCountingLines(env[p.value.key := p.value.value], lines[1..]);
      } else {
        assert [] + Counting(lines[1..]) == Counting(lines[1..]);
        OnlyCountingLines(env, lines[1..]);
      }
    }
  }

  /** A line that does not count, anywhere in a file, changes nothing about what is read. */
  lemma IdleLine(a: seq<string>, raw: string, b: seq<string>)
    requires (forall l <- a + [raw] + b :: '\n' !in l) && a + b != [] && !Counts(raw)
    ensures Parse(Join(a + [raw] + b, '\n')) == Parse(Join(a + b, '\n'))
  {
    hide ParseLine, Counts;
    SplitOfJoin(a + [raw] + b, '\n');
    SplitOfJoin(a + b, '\n');
    ParseLinesConcat(map[], a + [raw], b);
    ParseLinesConcat(map[], a, [raw]);
    ParseLinesConcat(map[], a, b);
    ParseLineExactly(raw);
    assert [raw][1..] == [];
  }

  /** Of two lines with one key the later one is read. */
  lemma LastLineWins(env: Env, lines: seq<string>, raw: string)
    requires ParseLine(raw).Some?
    ensures var b := ParseLine(raw).value;
            ParseLines(env, lines + [raw]) == ParseLines(env, lines)[b.key := b.value]
  {
    hide ParseLine;
    ParseLinesConcat(env, lines, [raw]);
    assert [raw][1..] == [];
    assert ParseLines(ParseLines(env, lines), [raw])
        == ParseLines(ParseLines(env, lines)[ParseLine(raw).value.key := ParseLine(raw).value.value], []);
  }

  // ---- Which keys survive line breaks in values ----

  /** What a text binds a key to. */
  function At(env: Env, q: string): Option<string>
  {
    if q in env then Some(env[q]) else None
  }

  lemma {:induction false} ParseLinesAt(env: Env, lines: seq<string>, q: string)
    ensures var extra := ParseLines(map[], lines);
            At(ParseLines(env, lines), q) == if q in extra then Some(extra[q]) else At(env, q)
    decreases |lines|
  {
    if lines != [] {
      var p := ParseLine(lines[0]);
      if p.Some? {
        ParseLinesAt(env[p.value.key := p.value.value], lines[1..], q);
        ParseLinesAt(map[][p.value.key := p.value.value], lines[1..], q);
      } else {
        ParseLinesAt(env, lines[1..], q);
      }
    }
  }

  /** The last thing that the listed keys say about q, in their own lines or in their values. */
  function LastWord(env: Env, keys: seq<string>, q: string): Option<string>
    requires forall k <- keys :: k in env
  {
    if keys == [] then None
    else
      var later := LastWord(env, keys[1..], q);
      var v := env[keys[0]];
      if later.Some? then later
      else if q in Extra(v) then Some(Extra(v)[q])
      else if q == keys[0] then Some(TrimRight(FirstLine(v)))
      else None
  }

  lemma {:induction false} ReadBackAt(env: Env, keys: seq<string>, base: Env, q: string)
    requires forall k <- keys :: k in env
    ensures At(ReadBack(env, keys, base), q)
         == if LastWord(env, keys, q).Some? then LastWord(env, keys, q) else At(base, q)
    decreases |keys|
  {
    hide ParseLine;
    if keys != [] {
      var v := env[keys[0]];
      var own := base[keys[0] := TrimRight(FirstLine(v))];
      ParseLinesAt(own, Split(v, '\n')[1..], q);
      ReadBackAt(env, keys[1..], ParseLines(own, Split(v, '\n')[1..]), q);
    }
  }

  lemma {:induction false} LastWordPlain(env: Env, keys: seq<string>, q: string)
    requires Sorted(keys) && forall k <- keys :: k in env && q !in Extra(env[k])
    ensures LastWord(env, keys, q) == if q in keys then Some(TrimRight(FirstLine(env[q]))) else None
  {
    if keys != [] {
      assert keys[0] in keys;
      RestLacksHead(keys, q);
      LastWordPlain(env, keys[1..], q);
    }
  }

  /** t is the last key, in the order of printing, whose value has a line that binds q. */
  ghost predicate Spoils(env: Env, t: string, q: string)
  {
    t in env && q in Extra(env[t]) && forall k <- env :: Less(t, k) ==> q !in Extra(env[k])
  }

  lemma {:induction false} LastWordSpoiled(env: Env, keys: seq<string>, t: string, q: string)
    requires Sorted(keys) && (forall k <- keys :: k in env) && t in keys && Spoils(env, t, q)
    ensures LastWord(env, keys, q)
         == Some(if q in keys && Less(t, q) then TrimRight(FirstLine(env[q])) else Extra(env[t])[q])
  {
    hide Extra;
    RestLacksHead(keys, q);
    RestLacksHead(keys, t);
    if t == keys[0] {
      forall k | k in keys[1..] ensures k in env && q !in Extra(env[k]) {
        var i :| 0 <= i < |keys[1..]| && keys[1..][i] == k;
        assert Less(keys[0], keys[i + 1]);
      }
      LastWordPlain(env, keys[1..], q);
      LaterThanHead(keys, q);
      LessIsTotalOrder(t, t, t);
    } else {
      LastWordSpoiled(env, keys[1..], t, q);
      if q == keys[0] {
        LaterThanHead(keys, t);
        LessIsTotalOrder(q, t, q);
      }
    }
  }

  lemma LaterThanHead(keys: seq<string>, q: string)
    requires Sorted(keys) && keys != []
    ensures q in keys[1..] ==> Less(keys[0], q)
  {
    if q in keys[1..] {
      var i :| 0 <= i < |keys[1..]| && keys[1..][i] == q;
      assert Less(keys[0], keys[i + 1]);
    }
  }

  /**
   * A key whose own value is good, or that is not in the map, reads back as it is if and only if no
   * value spoils it: the last value with a line that binds it is printed before its own line, or
   * binds it to what it is.
   */
  lemma KeySurvivesExactly(env: Env, keys: seq<string>, q: string)
    requires Sorted(keys) && Lists(keys, env.Keys) && (forall k <- keys :: k in env)
    requires (forall k <- env :: GoodKey(k)) && (q in env ==> GoodValue(env[q]))
    ensures At(Parse(PrintKeys(env, keys)), q) == At(env, q)
       <==> forall t :: Spoils(env, t, q) ==> q in env && (Less(t, q) || Extra(env[t])[q] == env[q])
  {
    hide ParseLines, Extra;
    ParsePrinted(env, keys, map[]);
    ReadBackAt(env, keys, map[], q);
    OwnWord(env, q);
    if t :| Spoils(env, t, q) {
      LastWordSpoiled(env, keys, t, q);
      forall u | Spoils(env, u, q) ensures u == t {
        LessIsTotalOrder(t, u, t);
      }
    } else {
      SpoilerExists(env, keys, q);
      LastWordPlain(env, keys, q);
    }
  }

  lemma OwnWord(env: Env, q: string)
    requires q in env ==> GoodValue(env[q])
    ensures q in env ==> TrimRight(FirstLine(env[q])) == env[q]
  {
    if q in env {
      OneLine(env[q]);
    }
  }

  /** If any listed value binds q, the last such value spoils it. */
  lemma {:induction false} SpoilerExists(env: Env, keys: seq<string>, q: string)
    requires Sorted(keys) && Lists(keys, env.Keys)
    ensures (exists t :: Spoils(env, t, q)) || forall k <- keys :: k in env && q !in Extra(env[k])
  {
    hide Extra;
    LastBinder(env, keys, q, |keys|);
  }

  lemma {:induction false} LastBinder(env: Env, keys: seq<string>, q: string, n: nat)
    requires n <= |keys| && Sorted(keys) && Lists(keys, env.Keys)
    requires forall i :: n <= i < |keys| ==> keys[i] in env && q !in Extra(env[keys[i]])
    ensures (exists t :: Spoils(env, t, q)) || forall k <- keys :: k in env && q !in Extra(env[k])
  {
    hide Extra;
    if n > 0 {
      var t := keys[n - 1];
      assert t in keys;
      if q in Extra(env[t]) {
        assert forall i :: 0 <= i < n - 1 ==> Less(keys[i], t);
        forall k | k in env && Less(t, k) ensures q !in Extra(env[k]) {
          assert k in env.Keys;
          var i :| 0 <= i < |keys| && keys[i] == k;
          LessIsTotalOrder(t, k, t);
        }
        assert Spoils(env, t, q);
      } else {
        LastBinder(env, keys, q, n - 1);
      }
    }
  }
}
