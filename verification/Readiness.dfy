/** How an agent's readiness is folded from its newest events (`applyDesktopReadinessEvent`). */
module Readiness {
  import opened Common

  datatype EventName =
    | SessionReady | PermissionRequired | PermissionLost | PermissionGranted
    | IndicatorLost | IndicatorRestored | HelperFailed | HelperRestarted
    | SecureDesktopUnavailable | OtherEvent

  datatype Event = Event(name: EventName, metadata: map<string, string>)

  datatype Setting = Setting(check: string, value: string)

  const REPORTED := ["service", "daemon", "host", "indicator", "capture", "control"]

  function Value(metadata: map<string, string>, key: string): string
  {
    if key in metadata then metadata[key] else ""
  }

  /** The value a session-ready event gives to one check. */
  function Reported(metadata: map<string, string>, check: string): string
  {
    if check == "capture" && Value(metadata, check) == "synthetic" then "ready" else Value(metadata, check)
  }

  function ReportedSettings(metadata: map<string, string>, n: nat): seq<Setting>
    requires n <= |REPORTED|
  {
    if n == 0 then []
    else ReportedSettings(metadata, n - 1) + [Setting(REPORTED[n - 1], Reported(metadata, REPORTED[n - 1]))]
  }

  function BackendSettings(metadata: map<string, string>): seq<Setting>
  {
    var backend := Value(metadata, "capture_backend");
    if backend == "" then [] else [Setting("capture", if backend != "unavailable" then "ready" else "unavailable")]
  }

  function PermissionCheck(metadata: map<string, string>): string
  {
    if Value(metadata, "permission") == "screen_recording" then "capture" else "control"
  }

  /** The settings an event asks for, in the order in which it asks. */
  function Settings(e: Event): seq<Setting>
  {
    match e.name
    case SessionReady =>
      ReportedSettings(e.metadata, |REPORTED|) + BackendSettings(e.metadata)
      + [Setting("host", Value(e.metadata, "data_plane"))]
    case PermissionRequired => [Setting(PermissionCheck(e.metadata), "required")]
    case PermissionLost => [Setting(PermissionCheck(e.metadata), "required")]
    case PermissionGranted => [Setting(PermissionCheck(e.metadata), "ready")]
    case IndicatorLost => [Setting("indicator", "unavailable")]
    case IndicatorRestored => [Setting("indicator", "ready")]
    case HelperFailed => [Setting("host", "unavailable")]
    case HelperRestarted => [Setting("host", "ready")]
    case SecureDesktopUnavailable => [Setting("capture", "unavailable")]
    case OtherEvent => []
  }

  datatype Board = Board(checks: map<string, string>, seen: set<string>)

  /** First writer wins. */
  function Set(b: Board, s: Setting): Board
  {
    if s.check in b.seen || s.value == "" then b else Board(b.checks[s.check := s.value], b.seen + {s.check})
  }

  function Scan(b: Board, settings: seq<Setting>): Board
    decreases |settings|
  {
    if settings == [] then b else Scan(Set(b, settings[0]), settings[1..])
  }

  function Flatten(events: seq<Event>): seq<Setting>
  {
    if events == [] then [] else Settings(events[0]) + Flatten(events[1..])
  }

  /** The mutable maps that the event loop fills. */
  class ReadinessBoard {
    var checks: map<string, string>
    var seen: set<string>

    function State(): Board
      reads this
    {
      Board(checks, seen)
    }

    constructor (base: map<string, string>)
      ensures State() == Board(base, {})
    {
      checks, seen := base, {};
    }

    method SetCheck(check: string, value: string)
      modifies this
      ensures State() == Set(old(State()), Setting(check, value))
    {
      if check !in seen && value != "" {
        checks := checks[check := value];
        seen := seen + {check};
      }
    }

    method ApplyReported(metadata: map<string, string>)
      modifies this
      ensures State() == Scan(old(State()), ReportedSettings(metadata, |REPORTED|))
    {
      ghost var before := State();
      for n := 0 to |REPORTED|
        invariant State() == Scan(before, ReportedSettings(metadata, n))
      {
        var value := Value(metadata, REPORTED[n]);
        if REPORTED[n] == "capture" && value == "synthetic" {
          value := "ready";
        }
        ScanAppend(before, ReportedSettings(metadata, n), Setting(REPORTED[n], value));
        SetCheck(REPORTED[n], value);
      }
    }

    method ApplyEvent(e: Event)
      modifies this
      ensures State() == Scan(old(State()), Settings(e))
    {
      ghost var before := State();
      match e.name
      case SessionReady =>
        ApplyReported(e.metadata);
        ghost var reported := ReportedSettings(e.metadata, |REPORTED|);
        ghost var middle := reported + BackendSettings(e.metadata);
        var backend := Value(e.metadata, "capture_backend");
        if backend != "" {
          ScanAppend(before, reported, BackendSettings(e.metadata)[0]);
          SetCheck("capture", if backend != "unavailable" then "ready" else "unavailable");
        } else {
          assert middle == reported;
        }
        ScanAppend(before, middle, Setting("host", Value(e.metadata, "data_plane")));
        SetCheck("host", Value(e.metadata, "data_plane"));
      case PermissionRequired => SetCheck(PermissionCheck(e.metadata), "required");
      case PermissionLost => SetCheck(PermissionCheck(e.metadata), "required");
      case PermissionGranted => SetCheck(PermissionCheck(e.metadata), "ready");
      case IndicatorLost => SetCheck("indicator", "unavailable");
      case IndicatorRestored => SetCheck("indicator", "ready");
      case HelperFailed => SetCheck("host", "unavailable");
      case HelperRestarted => SetCheck("host", "ready");
      case SecureDesktopUnavailable => SetCheck("capture", "unavailable");
      case OtherEvent =>
    }

    /** The loop over the event list, newest first, from an empty `seen`. */
    method ApplyEvents(events: seq<Event>)
      requires seen == {}
      modifies this
      ensures checks == Replay(old(checks), Flatten(events))
      ensures forall check :: At(checks, check) == Newest(events, check, At(old(checks), check))
    {
      hide Settings;
      ghost var before := State();
      for n := 0 to |events|
        invariant State() == Scan(before, Flatten(events[..n]))
      {
        ApplyEvent(events[n]);
        assert events[..n + 1][..n] == events[..n];
        FlattenAppend(events[..n], events[n]);
        ScanConcat(before, Flatten(events[..n]), Settings(events[n]));
        assert events[..n + 1] == events[..n] + [events[n]];
      }
      assert events[..|events|] == events;
      ScanIsReplay(before, Flatten(events));
      forall check ensures At(checks, check) == Newest(events, check, At(before.checks, check)) {
        NewestDecides(before.checks, events, check);
      }
    }
  }

  lemma {:induction false} ScanConcat(b: Board, xs: seq<Setting>, ys: seq<Setting>)
    ensures Scan(b, xs + ys) == Scan(Scan(b, xs), ys)
    decreases |xs|
  {
    if xs == [] {
      assert xs + ys == ys;
    } else {
      assert (xs + ys)[1..] == xs[1..] + ys;
      ScanConcat(Set(b, xs[0]), xs[1..], ys);
    }
  }

  lemma ScanAppend(b: Board, xs: seq<Setting>, x: Setting)
    ensures Scan(b, xs + [x]) == Set(Scan(b, xs), x)
  {
    ScanConcat(b, xs, [x]);
    assert [x][1..] == [];
  }

  lemma {:induction false} FlattenAppend(events: seq<Event>, e: Event)
    ensures Flatten(events + [e]) == Flatten(events) + Settings(e)
  {
    if events == [] {
      assert Flatten([e]) == Settings(e) + Flatten([e][1..]);
    } else {
      assert (events + [e])[1..] == events[1..] + [e];
      FlattenAppend(events[1..], e);
    }
  }

  // ---- The reference: replay from the oldest setting to the newest, overwriting ----

  /** The last setting of the list is applied first, so earlier ones overwrite later ones. */
  function Replay(checks: map<string, string>, settings: seq<Setting>): map<string, string>
  {
    if settings == [] then checks
    else
      var older := Replay(checks, settings[1..]);
      if settings[0].value == "" then older else older[settings[0].check := settings[0].value]
  }

  ghost predicate SameAt(a: map<string, string>, b: map<string, string>, k: string)
  {
    (k in a <==> k in b) && (k in a ==> a[k] == b[k])
  }

  lemma {:induction false} ReplayIgnores(checks: map<string, string>, check: string, value: string,
                                         settings: seq<Setting>, k: string)
    requires k != check
    ensures SameAt(Replay(checks[check := value], settings), Replay(checks, settings), k)
  {
    if settings != [] {
      ReplayIgnores(checks, check, value, settings[1..], k);
    }
  }

  lemma {:induction false} ScanAt(b: Board, settings: seq<Setting>, k: string)
    ensures k in b.seen ==> SameAt(Scan(b, settings).checks, b.checks, k)
    ensures k !in b.seen ==> SameAt(Scan(b, settings).checks, Replay(b.checks, settings), k)
    decreases |settings|
  {
    if settings != [] {
      var s := settings[0];
      ScanAt(Set(b, s), settings[1..], k);
      if k != s.check {
        ReplayIgnores(b.checks, s.check, s.value, settings[1..], k);
      }
    }
  }

  /** Scanning newest first with first-writer-wins equals replaying oldest first with overwriting. */
  lemma ScanIsReplay(b: Board, settings: seq<Setting>)
    requires b.seen == {}
    ensures Scan(b, settings).checks == Replay(b.checks, settings)
  {
    forall k: string ensures SameAt(Scan(b, settings).checks, Replay(b.checks, settings), k) {
      ScanAt(b, settings, k);
    }
    MapsEqual(Scan(b, settings).checks, Replay(b.checks, settings));
  }

  lemma MapsEqual(a: map<string, string>, b: map<string, string>)
    requires forall k: string :: SameAt(a, b, k)
    ensures a == b
  {
    forall k | k in a ensures k in b && a[k] == b[k] {
      assert SameAt(a, b, k);
    }
    forall k | k in b ensures k in a {
      assert SameAt(a, b, k);
    }
  }

  // ---- What an event says about a check, read from the check's side ----

  function At(checks: map<string, string>, check: string): Option<string>
  {
    if check in checks then Some(checks[check]) else None
  }

  function NonEmpty(value: string): Option<string>
  {
    if value == "" then None else Some(value)
  }

  /** What a session-ready event says: its own entry first, then for two checks a second source. */
  function ReadySays(metadata: map<string, string>, check: string): Option<string>
  {
    var own := Value(metadata, check);
    if check == "capture" then
      var backend := Value(metadata, "capture_backend");
      if own == "synthetic" then Some("ready")
      else if own != "" then Some(own)
      else if backend == "" then None
      else if backend == "unavailable" then Some("unavailable")
      else Some("ready")
    else if check == "host" then
      if own != "" then Some(own) else NonEmpty(Value(metadata, "data_plane"))
    else if check in {"service", "daemon", "indicator", "control"} then NonEmpty(own)
    else None
  }

  /** The check that a permission event is about. */
  predicate Concerns(metadata: map<string, string>, check: string)
  {
    if Value(metadata, "permission") == "screen_recording" then check == "capture" else check == "control"
  }

  function Says(e: Event, check: string): Option<string>
  {
    match e.name
    case SessionReady => ReadySays(e.metadata, check)
    case PermissionRequired => if Concerns(e.metadata, check) then Some("required") else None
    case PermissionLost => if Concerns(e.metadata, check) then Some("required") else None
    case PermissionGranted => if Concerns(e.metadata, check) then Some("ready") else None
    case IndicatorLost => if check == "indicator" then Some("unavailable") else None
    case IndicatorRestored => if check == "indicator" then Some("ready") else None
    case HelperFailed => if check == "host" then Some("unavailable") else None
    case HelperRestarted => if check == "host" then Some("ready") else None
    case SecureDesktopUnavailable => if check == "capture" then Some("unavailable") else None
    case OtherEvent => None
  }

  /** The first of the settings that has a value for the check. */
  function FirstFor(settings: seq<Setting>, check: string): Option<string>
  {
    if settings == [] then None
    else if settings[0].check == check && settings[0].value != "" then Some(settings[0].value)
    else FirstFor(settings[1..], check)
  }

  lemma {:induction false} FirstForConcat(a: seq<Setting>, b: seq<Setting>, check: string)
    ensures FirstFor(a + b, check) == if FirstFor(a, check).Some? then FirstFor(a, check) else FirstFor(b, check)
  {
    if a == [] {
      assert a + b == b;
    } else {
      assert (a + b)[1..] == a[1..] + b;
      FirstForConcat(a[1..], b, check);
    }
  }

  lemma FirstForOne(s: Setting, check: string)
    ensures FirstFor([s], check) == if s.check == check then NonEmpty(s.value) else None
  {
    assert [s][1..] == [];
  }

  lemma {:induction false} ReplayAt(checks: map<string, string>, settings: seq<Setting>, check: string)
    ensures At(Replay(checks, settings), check)
         == if FirstFor(settings, check).Some? then FirstFor(settings, check) else At(checks, check)
  {
    if settings != [] {
      ReplayAt(checks, settings[1..], check);
    }
  }

  lemma {:induction false} ReportedFirst(metadata: map<string, string>, n: nat, check: string)
    requires n <= |REPORTED|
    ensures FirstFor(ReportedSettings(metadata, n), check)
         == if check in REPORTED[..n] then NonEmpty(Reported(metadata, check)) else None
  {
    hide Reported;
    if n > 0 {
      ReportedFirst(metadata, n - 1, check);
      var s := Setting(REPORTED[n - 1], Reported(metadata, REPORTED[n - 1]));
      FirstForConcat(ReportedSettings(metadata, n - 1), [s], check);
      FirstForOne(s, check);
      assert REPORTED[..n] == REPORTED[..n - 1] + [REPORTED[n - 1]];
    }
  }

  lemma ReadyFirst(e: Event, check: string)
    requires e.name == SessionReady
    ensures FirstFor(Settings(e), check) == ReadySays(e.metadata, check)
  {
    var reported := ReportedSettings(e.metadata, |REPORTED|);
    var backend := BackendSettings(e.metadata);
    var plane := Setting("host", Value(e.metadata, "data_plane"));
    ReportedFirst(e.metadata, |REPORTED|, check);
    assert REPORTED[..|REPORTED|] == REPORTED;
    assert check in REPORTED <==> check in {"service", "daemon", "host", "indicator", "capture", "control"};
    hide ReportedSettings;
    FirstForConcat(reported + backend, [plane], check);
    FirstForConcat(reported, backend, check);
    FirstForOne(plane, check);
    if backend != [] {
      FirstForOne(backend[0], check);
      assert backend == [backend[0]];
    }
  }

  /** An event's settings, in their order, say about each check what the table above says. */
  lemma EventSays(e: Event, check: string)
    ensures FirstFor(Settings(e), check) == Says(e, check)
  {
    if e.name == SessionReady {
      ReadyFirst(e, check);
    } else if Settings(e) != [] {
      hide ReadySays, FirstFor;
      FirstForOne(Settings(e)[0], check);
      assert Settings(e) == [Settings(e)[0]];
    }
  }

  /** The newest event that says anything about the check decides it. */
  function Newest(events: seq<Event>, check: string, base: Option<string>): Option<string>
  {
    if events == [] then base
    else if Says(events[0], check).Some? then Says(events[0], check)
    else Newest(events[1..], check, base)
  }

  lemma {:induction false} NewestDecides(base: map<string, string>, events: seq<Event>, check: string)
    ensures At(Replay(base, Flatten(events)), check) == Newest(events, check, At(base, check))
  {
    hide Settings, Says;
    ReplayAt(base, Flatten(events), check);
    if events != [] {
      EventSays(events[0], check);
      FirstForConcat(Settings(events[0]), Flatten(events[1..]), check);
      NewestDecides(base, events[1..], check);
      ReplayAt(base, Flatten(events[1..]), check);
    }
  }
}
