/** The agent's configuration: read-modify-write of the env file (`configManager`). */
module AgentConfig {
  import opened Common
  import opened Text
  import opened EnvFile

  // ---- File sources ----

  const SMB_KEYS: set<string> := {
    "HANK_REMOTE_SMB_HOST", "HANK_REMOTE_SMB_SHARE", "HANK_REMOTE_SMB_USERNAME",
    "HANK_REMOTE_SMB_PASSWORD", "HANK_REMOTE_SMB_DOMAIN"
  }
  const SMB_JSON: string := "HANK_REMOTE_SMB_SHARES_JSON"
  const ROOT_KEY: string := "HANK_REMOTE_AGENT_FILES_ROOT"
  const ROOTS_JSON: string := "HANK_REMOTE_AGENT_FILES_ROOTS_JSON"

  /** The two maps agree on every key not in the set. */
  ghost predicate SameOutside(a: Env, b: Env, touched: set<string>)
  {
    forall k :: k !in touched ==> (k in a <==> k in b) && (k in a ==> a[k] == b[k])
  }

  /** The legacy keys go away; the list is kept under its own key, or that key goes away too. */
  function Consolidate(env: Env, legacy: set<string>, jsonKey: string, json: Option<string>): Env
  {
    if json.Some? then (env - legacy)[jsonKey := json.value] else env - legacy - {jsonKey}
  }

  lemma ConsolidateKeepsRest(env: Env, legacy: set<string>, jsonKey: string, json: Option<string>)
    requires WellFormed(env) && GoodKey(jsonKey) && (json.Some? ==> GoodValue(json.value))
    ensures WellFormed(Consolidate(env, legacy, jsonKey, json))
    ensures SameOutside(env, Consolidate(env, legacy, jsonKey, json), legacy + {jsonKey})
    ensures forall k <- legacy :: k != jsonKey ==> k !in Consolidate(env, legacy, jsonKey, json)
    ensures jsonKey !in legacy ==>
              (json.Some? <==> jsonKey in Consolidate(env, legacy, jsonKey, json))
              && (json.Some? ==> Consolidate(env, legacy, jsonKey, json)[jsonKey] == json.value)
  {
  }

  predicate Capital(c: char)
  {
    c == '_' || 'A' <= c <= 'Z'
  }

  predicate Capitals(s: string)
  {
    forall i :: 0 <= i < |s| ==> Capital(s[i])
  }

  lemma CapitalsAreGood(s: string)
    requires Capitals(s) && s != []
    ensures GoodKey(s)
  {
  }

  lemma SmbJsonIsGood()
    ensures GoodKey(SMB_JSON)
  {
    hide GoodKey;
    assert Capitals(SMB_JSON);
    CapitalsAreGood(SMB_JSON);
  }

  lemma RootsJsonIsGood()
    ensures GoodKey(ROOTS_JSON)
  {
    hide GoodKey;
    assert Capitals(ROOTS_JSON);
    CapitalsAreGood(ROOTS_JSON);
  }

  lemma NamesDiffer()
    ensures SMB_JSON !in SMB_KEYS && ROOTS_JSON != ROOT_KEY && SMB_JSON != ROOT_KEY && SMB_JSON != ROOTS_JSON
    ensures ROOT_KEY !in SMB_KEYS && ROOTS_JSON !in SMB_KEYS
  {
    assert |SMB_JSON| == 27 && |ROOT_KEY| == 28 && |ROOTS_JSON| == 34;
    assert forall k <- SMB_KEYS :: |k| < 27;
  }

  // ---- Home Assistant ----

  const HA_URL: string := "HANK_REMOTE_HA_BASE_URL"
  const HA_TOKEN: string := "HANK_REMOTE_HA_TOKEN"
  const HA_TIMEOUT: string := "HANK_REMOTE_HA_TIMEOUT_SECONDS"

  function Digit(n: nat): char
    requires n < 10
  {
    ['0', '1', '2', '3', '4', '5', '6', '7', '8', '9'][n]
  }

  function Decimal(n: nat): (s: string)
    ensures s != "" && forall c <- s :: '0' <= c <= '9'
  {
    if n < 10 then [Digit(n)] else Decimal(n / 10) + [Digit(n % 10)]
  }

  /** The map that the handler means to store. The token is taken as it comes. */
  function HomeAssistant(env: Env, url: string, token: string, timeout: int): Env
  {
    var e := env[HA_URL := Trim(url)][HA_TOKEN := token];
    if timeout > 0 then e[HA_TIMEOUT := Decimal(timeout)] else e
  }

  function Touched(timeout: int): set<string>
  {
    {HA_URL, HA_TOKEN} + if timeout > 0 then {HA_TIMEOUT} else {}
  }

  lemma HaKeysAreGood()
    ensures GoodKey(HA_URL) && GoodKey(HA_TOKEN)
    ensures HA_URL != HA_TOKEN && HA_URL != HA_TIMEOUT && HA_TOKEN != HA_TIMEOUT
  {
    hide GoodKey;
    assert Capitals(HA_URL) && Capitals(HA_TOKEN);
    CapitalsAreGood(HA_URL);
    CapitalsAreGood(HA_TOKEN);
    assert |HA_URL| == 23 && |HA_TOKEN| == 20 && |HA_TIMEOUT| == 30;
  }

  lemma TimeoutKeyIsGood()
    ensures GoodKey(HA_TIMEOUT)
  {
    hide GoodKey;
    assert Capitals(HA_TIMEOUT);
    CapitalsAreGood(HA_TIMEOUT);
  }

  function DigitValue(c: char): int
  {
    c as int - '0' as int
  }

  /** The number that a text of digits stands for. */
  function Reading(s: string): int
  {
    if s == "" then 0 else 10 * Reading(s[..|s| - 1]) + DigitValue(s[|s| - 1])
  }

  /** The printed number reads as the number. */
  lemma {:induction false} DecimalReads(n: nat)
    ensures Reading(Decimal(n)) == n
  {
    var s := Decimal(n);
    if n < 10 {
      assert s[..0] == "";
    } else {
      assert s[..|s| - 1] == Decimal(n / 10);
      DecimalReads(n / 10);
    }
  }

  lemma DecimalIsGood(n: nat)
    ensures GoodValue(Decimal(n))
  {
    var s := Decimal(n);
    assert s[|s| - 1] in s;
  }

  lemma TrimmedIsGood(v: string)
    requires Trimmed(v)
    ensures GoodValue(v) <==> '\n' !in v
  {
  }

  /** The new map keeps good keys; it is well-formed exactly when the two texts are. */
  lemma HomeAssistantWellFormed(env: Env, url: string, token: string, timeout: int)
    requires WellFormed(env)
    ensures var e := HomeAssistant(env, url, token, timeout);
            && (forall k <- e :: GoodKey(k))
            && (forall k <- e :: k !in Touched(timeout) ==> k in env && e[k] == env[k] && GoodValue(e[k]))
            && (WellFormed(e) <==> '\n' !in Trim(url) && GoodValue(token))
            && At(e, HA_URL) == Some(Trim(url)) && At(e, HA_TOKEN) == Some(token)
            && At(e, HA_TIMEOUT) == (if timeout > 0 then Some(Decimal(timeout)) else At(env, HA_TIMEOUT))
  {
    hide GoodKey, GoodValue, Trim;
    HaKeysAreGood();
    TimeoutKeyIsGood();
    TrimIsTrimmed(url);
    TrimmedIsGood(Trim(url));
    if timeout > 0 {
      DecimalIsGood(timeout);
    }
    var e := HomeAssistant(env, url, token, timeout);
    assert e[HA_URL] == Trim(url) && e[HA_TOKEN] == token;
  }

  /** No value of the new map spoils the key for good. */
  ghost predicate Unspoiled(e: Env, q: string)
  {
    forall t :: Spoils(e, t, q) ==> q in e && (Less(t, q) || Extra(e[t])[q] == e[q])
  }

  lemma WithoutBreaksUnspoiled(env: Env, url: string, token: string, timeout: int, q: string)
    requires WellFormed(env) && '\n' !in Trim(url) && '\n' !in token
    ensures Unspoiled(HomeAssistant(env, url, token, timeout), q)
  {
    hide Trim, Decimal, Extra;
    OnlyTokenBreaks(env, url, token, timeout);
    OneLine(token);
  }

  lemma {:induction false} LessBehind(p: string, a: string, b: string)
    requires Less(a, b)
    ensures Less(p + a, p + b)
  {
    if p == "" {
      assert p + a == a && p + b == b;
    } else {
      assert (p + a)[1..] == p[1..] + a && (p + b)[1..] == p[1..] + b;
      LessBehind(p[1..], a, b);
    }
  }

  lemma RootName()
    ensures ROOT_KEY == "HANK_REMOTE_" + "AGENT_FILES_ROOT"
  {
  }

  lemma TokenName()
    ensures HA_TOKEN == "HANK_REMOTE_" + "HA_TOKEN"
  {
  }

  lemma RootIsPrintedFirst()
    ensures Less(ROOT_KEY, HA_TOKEN)
  {
    RootName();
    TokenName();
    assert "AGENT_FILES_ROOT"[0] < "HA_TOKEN"[0];
    LessBehind("HANK_REMOTE_", "AGENT_FILES_ROOT", "HA_TOKEN");
  }

  lemma RootIsOther()
    ensures GoodKey(ROOT_KEY) && ROOT_KEY !in Touched(0)
  {
    hide GoodKey;
    assert Capitals(ROOT_KEY);
    CapitalsAreGood(ROOT_KEY);
    assert |ROOT_KEY| == 28 && |HA_URL| == 23 && |HA_TOKEN| == 20;
  }

  lemma OneBinding(line: string, b: Binding)
    requires ParseLine(line) == Some(b)
    ensures ParseLines(map[], [line]) == map[b.key := b.value]
  {
    hide ParseLine;
    assert [line][1..] == [];
    assert ParseLines(map[], [line]) == ParseLines(map[][b.key := b.value], []);
  }

  lemma SecondLineBinds(x: string, q: string, v: string)
    requires '\n' !in x && GoodKey(q) && GoodValue(v)
    ensures Extra(x + (['\n'] + (q + "=" + v))) == map[q := v]
  {
    var line := q + "=" + v;
    assert '\n' !in line;
    hide GoodKey, GoodValue;
    SplitAtSeparator(x, line, '\n');
    Alone(x);
    Alone(line);
    ParsePrintedLine(q, v);
    OneBinding(line, Binding(q, v));
    hide Split, ParseLine;
    assert ([x] + [line])[1..] == [line];
  }

  lemma Alone(v: string)
    requires '\n' !in v
    ensures Split(v, '\n') == [v]
  {
    SplitAfter(v, [], '\n');
    assert v + [] == v;
  }

  /** A token with a second line rewrites any key that is printed before it. */
  lemma TokenRewrites(env: Env, keys: seq<string>, url: string, token: string, timeout: int, x: string, q: string,
                      v: string)
    requires WellFormed(env) && '\n' !in Trim(url) && '\n' !in x && GoodKey(q) && GoodValue(v)
    requires token == x + (['\n'] + (q + "=" + v)) && q !in Touched(timeout) && Less(q, HA_TOKEN)
    requires var e := HomeAssistant(env, url, token, timeout);
             Sorted(keys) && Lists(keys, e.Keys) && forall k <- keys :: k in e
    ensures At(Parse(PrintKeys(HomeAssistant(env, url, token, timeout), keys)), q) == Some(v)
  {
    hide Extra, GoodKey, GoodValue, Trim, Decimal, Less, Touched;
    var e := HomeAssistant(env, url, token, timeout);
    HomeAssistantWellFormed(env, url, token, timeout);
    SecondLineBinds(x, q, v);
    LessIsTotalOrder(HA_TOKEN, HA_TOKEN, HA_TOKEN);
    LessIsTotalOrder(q, HA_TOKEN, q);
    OnlyTokenBreaks(env, url, token, timeout);
    assert Spoils(e, HA_TOKEN, q);
    hide HomeAssistant;
    ParsePrinted(e, keys, map[]);
    ReadBackAt(e, keys, map[], q);
    assert HA_TOKEN in e.Keys;
    LastWordSpoiled(e, keys, HA_TOKEN, q);
  }

  lemma OnlyTokenBreaks(env: Env, url: string, token: string, timeout: int)
    requires WellFormed(env) && '\n' !in Trim(url)
    ensures var e := HomeAssistant(env, url, token, timeout);
            && HA_TOKEN in e && e[HA_TOKEN] == token
            && forall k <- e :: k != HA_TOKEN ==> Extra(e[k]) == map[]
  {
    HaKeysAreGood();
    hide Extra, GoodKey, Trim, Decimal;
    var e := HomeAssistant(env, url, token, timeout);
    forall k | k in e && k != HA_TOKEN ensures Extra(e[k]) == map[] {
      if timeout > 0 {
        DecimalIsGood(timeout);
      }
      OneLine(e[k]);
    }
  }

  /** For example: the agent's file root becomes "/", though the handler never touches that key. */
  lemma TokenRewritesRoot(env: Env, keys: seq<string>, url: string, x: string)
    requires WellFormed(env) && '\n' !in Trim(url) && '\n' !in x
    requires var e := HomeAssistant(env, url, x + (['\n'] + (ROOT_KEY + "=" + "/")), 0);
             Sorted(keys) && Lists(keys, e.Keys) && forall k <- keys :: k in e
    ensures At(Parse(PrintKeys(HomeAssistant(env, url, x + (['\n'] + (ROOT_KEY + "=" + "/")), 0), keys)), ROOT_KEY)
         == Some("/")
  {
    hide HomeAssistant, Parse, Sorted, Lists, PrintKeys, Less, GoodKey, Trim, Touched;
    RootIsPrintedFirst();
    RootIsOther();
    SlashIsGood();
    TokenRewrites(env, keys, url, x + (['\n'] + (ROOT_KEY + "=" + "/")), 0, x, ROOT_KEY, "/");
  }

  lemma SlashIsGood()
    ensures GoodValue("/")
  {
  }

  lemma Surviving(env: Env, e: Env, keys: seq<string>, timeout: int, q: string)
    requires Sorted(keys) && Lists(keys, e.Keys) && (forall k <- keys :: k in e) && (forall k <- e :: GoodKey(k))
    requires forall k <- e :: k !in Touched(timeout) ==> k in env && e[k] == env[k] && GoodValue(e[k])
    requires q !in Touched(timeout) && (q in env ==> q in e)
    ensures At(Parse(PrintKeys(e, keys)), q) == At(env, q) <==> Unspoiled(e, q)
  {
    hide Parse, GoodKey, GoodValue, Sorted, Lists, Less, Extra;
    KeySurvivesExactly(e, keys, q);
  }

  lemma AtMeansSame(a: Env, b: Env, touched: set<string>)
    requires forall q :: q !in touched ==> At(b, q) == At(a, q)
    ensures SameOutside(a, b, touched)
  {
  }

  class ConfigManager {
    var file: string

    constructor (file: string)
      ensures this.file == file
    {
      this.file := file;
    }

    /** The parsing loop over the lines of the file. */
    method ReadEnvFile() returns (env: Env)
      ensures env == Parse(file) && WellFormed(env)
    {
      env := map[];
      var lines := Split(file, '\n');
      var i := 0;
      while i < |lines|
        invariant 0 <= i <= |lines|
        invariant ParseLines(env, lines[i..]) == Parse(file)
      {
        var b := ParseLine(lines[i]);
        assert lines[i..][0] == lines[i] && lines[i..][1..] == lines[i + 1..];
        if b.Some? {
          env := env[b.value.key := b.value.value];
        }
        i := i + 1;
      }
      ParseIsWellFormed(file);
    }

    method WriteEnvFile(env: Env) returns (ghost keys: seq<string>)
      modifies this
      ensures Sorted(keys) && Lists(keys, env.Keys) && (forall k <- keys :: k in env) && file == PrintKeys(env, keys)
      ensures Parse(file) == env <==> WellFormed(env)
    {
      file, keys := Print(env);
    }

    /**
     * Stores the Home Assistant settings. The file reads back as meant exactly when the address has no
     * inner line break and the token none and no white space at its end. Any other key reads back
     * unchanged exactly when no line inside the two texts spoils it; without line breaks none is.
     */
    method PersistHomeAssistant(url: string, token: string, timeout: int)
      modifies this
      ensures Parse(file) == HomeAssistant(Parse(old(file)), url, token, timeout)
         <==> '\n' !in Trim(url) && GoodValue(token)
      ensures forall q :: q !in Touched(timeout) ==>
                (At(Parse(file), q) == At(Parse(old(file)), q)
                 <==> Unspoiled(HomeAssistant(Parse(old(file)), url, token, timeout), q))
      ensures '\n' !in Trim(url) && '\n' !in token ==> SameOutside(Parse(old(file)), Parse(file), Touched(timeout))
      ensures '\n' !in Trim(url) && GoodValue(token) ==>
                && At(Parse(file), HA_URL) == Some(Trim(url)) && At(Parse(file), HA_TOKEN) == Some(token)
                && At(Parse(file), HA_TIMEOUT) ==
                     (if timeout > 0 then Some(Decimal(timeout)) else At(Parse(old(file)), HA_TIMEOUT))
    {
      hide Parse, WellFormed, GoodKey, GoodValue, Trim, Less, Unspoiled, Sorted, Lists;
      var env := ReadEnvFile();
      ghost var before := env;
      HomeAssistantWellFormed(env, url, token, timeout);
      env := env[HA_URL := Trim(url)];
      env := env[HA_TOKEN := token];
      if timeout > 0 {
        env := env[HA_TIMEOUT := Decimal(timeout)];
      }
      ghost var keys := WriteEnvFile(env);
      forall q | q !in Touched(timeout)
        ensures At(Parse(file), q) == At(before, q) <==> Unspoiled(env, q)
        ensures '\n' !in Trim(url) && '\n' !in token ==> Unspoiled(env, q)
      {
        Surviving(before, env, keys, timeout, q);
        if '\n' !in Trim(url) && '\n' !in token {
          WithoutBreaksUnspoiled(before, url, token, timeout, q);
        }
      }
      hide HomeAssistant;
      if '\n' !in Trim(url) && '\n' !in token {
        AtMeansSame(before, Parse(file), Touched(timeout));
      }
    }

    /** SMB shares and, when asked, local folders: every other key of the file reads back unchanged. */
    method PersistFileConfigs(smbJson: Option<string>, localJson: Option<string>, applyLocal: bool)
      requires smbJson.Some? ==> GoodValue(smbJson.value)
      requires localJson.Some? ==> GoodValue(localJson.value)
      modifies this
      ensures var touched := SMB_KEYS + {SMB_JSON} + (if applyLocal then {ROOT_KEY, ROOTS_JSON} else {});
              SameOutside(Parse(old(file)), Parse(file), touched)
      ensures forall k <- SMB_KEYS :: k !in Parse(file)
      ensures applyLocal ==> ROOT_KEY !in Parse(file)
      ensures smbJson.Some? <==> SMB_JSON in Parse(file)
      ensures smbJson.Some? ==> Parse(file)[SMB_JSON] == smbJson.value
      ensures applyLocal ==> (localJson.Some? <==> ROOTS_JSON in Parse(file))
      ensures applyLocal && localJson.Some? ==> Parse(file)[ROOTS_JSON] == localJson.value
    {
      hide Parse, WellFormed, GoodKey, GoodValue, Consolidate;
      SmbJsonIsGood();
      RootsJsonIsGood();
      NamesDiffer();
      var env := ReadEnvFile();
      ConsolidateKeepsRest(env, SMB_KEYS, SMB_JSON, smbJson);
      env := Consolidate(env, SMB_KEYS, SMB_JSON, smbJson);
      if applyLocal {
        ConsolidateKeepsRest(env, {ROOT_KEY}, ROOTS_JSON, localJson);
        env := Consolidate(env, {ROOT_KEY}, ROOTS_JSON, localJson);
      }
      ghost var keys := WriteEnvFile(env);
    }
  }
}
