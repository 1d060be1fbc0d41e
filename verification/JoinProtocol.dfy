/**
 * Connecting to the relay (`handleDesktopDataWebSocket`): a handler prepares a claim from the stored
 * row, reserves, uses up the credential, accepts the connection and joins, while the session and the
 * relay go on around it. One session id is watched; other ids join the relay as they like. The
 * relay is the full machine: what a session's handlers ask of it are its steps, and the summary of the
 * relay that a life carries by itself stays out of use.
 */
module JoinProtocol {
  import opened Common
  import opened RelayTypes
  import opened SessionStore
  import opened RelayAuthorization
  import L = SessionLifecycle
  import R = RelayRegistry
  import M = RelayMachine
  import Lane = RelayLane

  /** How far a handler has come. `index` is the place of the credential it used. */
  datatype Phase = Prepared | Reserved | Consumed(index: nat) | Joined(index: nat) | Gone

  /** `now` is the time the handler read when it began, which it keeps for the credential. */
  datatype Handler = Handler(claim: Claim, hash: nat, now: int, phase: Phase)

  /** An endpoint in the relay is the number of its handler. */
  datatype World = World(life: L.Life, relay: M.State, handlers: seq<Handler>)

  datatype Step =
    | OfLife(life: L.Step)
    | OfRelay(relay: M.Step)
    | Arrive(side: Side, credential: string, hash: nat, agentId: string, at: int)
    | ReserveSide(n: nat, now: nat)
    | UseUp(n: nat, index: nat)
    | JoinSide(n: nat, now: nat)
    | Leave(n: nat)
    | Revoke(op: L.Op, text: string)

  predicate HasIndex(p: Phase)
  {
    p.Consumed? || p.Joined?
  }

  predicate Enabled(id: string, w: World, step: Step)
  {
    match step
    case OfLife(s) => L.Enabled(w.life, s) && !AtRelay(s)
    case OfRelay(s) => M.Enabled(w.relay, s) && !Asked(id, s)
    case Arrive(_, _, _, _, _) => true
    case ReserveSide(n, now) =>
      n < |w.handlers| && w.handlers[n].phase.Prepared? && M.Enabled(w.relay, M.DoReserve(w.handlers[n].claim, now))
    case UseUp(n, _) => n < |w.handlers| && w.handlers[n].phase.Reserved?
    case JoinSide(n, now) =>
      n < |w.handlers| && w.handlers[n].phase.Consumed? && M.Enabled(w.relay, M.DoJoin(w.handlers[n].claim, n, now))
    case Leave(n) => n < |w.handlers| && !w.handlers[n].phase.Joined?
    case Revoke(op, text) => op in w.life.pending && op.RevokeOp? && M.Enabled(w.relay, M.DoRevoke(id, text))
  }

  /** Steps of a life that are done here by handlers or at the relay. */
  predicate AtRelay(s: L.Step)
  {
    s.UseCredential? || s.AskJoin? || s.RelayEnds? || (s.DoCommit? && (s.op.RevokeOp? || s.op.ReserveOp?))
  }

  /** Joins and revocations of the watched session come from its handlers and operations alone. */
  predicate Asked(id: string, s: M.Step)
  {
    (s.DoJoin? && s.claim.sessionId == id) || (s.DoRevoke? && s.id == id)
  }

  function Moved(w: World, n: nat, phase: Phase): World
    requires n < |w.handlers|
  {
    w.(handlers := w.handlers[n := w.handlers[n].(phase := phase)])
  }

  function Use(h: Handler, index: nat): L.Step
  {
    L.UseCredential(index, h.hash, h.claim.side, h.claim.keyEpoch, h.now)
  }

  predicate CanUse(w: World, h: Handler, index: nat)
  {
    ValidClaim(h.claim, h.now) && Consume(w.life.row, index, h.hash, h.claim.side, h.claim.keyEpoch, h.now).Some?
  }

  /** A rejected credential ends the handler and leaves its reservation where it is. */
  function Apply(limits: Limits, id: string, w: World, step: Step): World
    requires Enabled(id, w, step)
  {
    match step
    case OfLife(s) => w.(life := L.Apply(w.life, s))
    case OfRelay(s) => w.(relay := M.Apply(limits, w.relay, s))
    case Arrive(side, credential, hash, agentId, at) =>
      var claim := Prepare(id, w.life.row, side, credential, agentId, at);
      if claim.None? then w else w.(handlers := w.handlers + [Handler(claim.value, hash, at, Prepared)])
    case ReserveSide(n, now) =>
      var claim := w.handlers[n].claim;
      var w' := w.(relay := M.Apply(limits, w.relay, M.DoReserve(claim, now)));
      Moved(w', n, if R.Reserve(limits, w.relay.registry, claim, now).Accepted? then Reserved else Gone)
    case UseUp(n, index) =>
      var h := w.handlers[n];
      if CanUse(w, h, index) then Moved(w.(life := L.Apply(w.life, Use(h, index))), n, Consumed(index))
      else Moved(w, n, Gone)
    case JoinSide(n, now) =>
      var h := w.handlers[n];
      var w' := w.(relay := M.Apply(limits, w.relay, M.DoJoin(h.claim, n, now)));
      Moved(w', n, if R.Join(limits, w.relay.registry, h.claim, n, now).Accepted? then Joined(h.phase.index) else Gone)
    case Leave(n) => Moved(w, n, Gone)
    case Revoke(op, text) =>
      w.(life := L.Apply(w.life, L.DoCommit(op)), relay := M.Apply(limits, w.relay, M.DoRevoke(id, text)))
  }

  // ---- Endpoints in the relay ----

  function EndpointAt(r: R.Registry, h: nat, side: Side): Option<R.Joined>
  {
    if h < |r.table| then R.SlotOf(r.table[h], side).endpoint else None
  }

  /** The seat is the one that an accepted join fills. */
  ghost predicate Fills(limits: Limits, st: M.State, step: M.Step, h: nat, side: Side)
    requires M.Enabled(st, step)
  {
    step.DoJoin? && side == step.claim.side &&
    (var v := R.Join(limits, st.registry, step.claim, step.endpoint, step.now); v.Accepted? && v.handle == h)
  }

  lemma JoinSeats(limits: Limits, r: R.Registry, claim: Claim, endpoint: nat, now: int, h: nat, side: Side)
    requires R.RegistryInv(limits, r) && R.InTable(r) && R.Join(limits, r, claim, endpoint, now).Accepted?
    ensures var v := R.Join(limits, r, claim, endpoint, now);
            if h == v.handle && side == claim.side then
              EndpointAt(r, h, side).None? && EndpointAt(v.registry, h, side) == Some(R.Joined(endpoint, claim))
            else EndpointAt(v.registry, h, side) == EndpointAt(r, h, side)
  {
    hide R.RegistryInv, R.Join;
    R.JoinFrame(limits, r, claim, endpoint, now);
  }

  lemma ReserveSeats(limits: Limits, r: R.Registry, claim: Claim, now: int, h: nat, side: Side)
    requires R.RegistryInv(limits, r) && R.InTable(r) && R.Reserve(limits, r, claim, now).Accepted?
    ensures EndpointAt(R.Reserve(limits, r, claim, now).registry, h, side) == EndpointAt(r, h, side)
  {
    hide R.RegistryInv, R.Reserve;
    R.ReserveFrame(limits, r, claim, now);
  }

  lemma CancelSeats(r: R.Registry, claim: Claim, h: nat, side: Side)
    requires R.InTable(r)
    ensures EndpointAt(R.CancelReservation(r, claim), h, side) == EndpointAt(r, h, side)
  {
    if claim.sessionId in r.sessions {
      R.CancelFrame(r, claim);
    } else {
      R.CancelAbsent(r, claim);
    }
    hide R.CancelReservation;
  }

  lemma FailSeats(r: R.Registry, k: nat, reason: Reason, h: nat, side: Side)
    requires k < |r.table|
    ensures EndpointAt(R.Fail(r, k, reason), h, side) == EndpointAt(r, h, side)
  {
  }

  lemma PumpSeats(limits: Limits, r: R.Registry, k: nat, pumped: Side, now: nat, move: Lane.Move, h: nat, side: Side)
    requires k < |r.table| && Lane.Enabled(R.SlotOf(r.table[k], pumped).lane, r.table[k].finished, move)
    ensures EndpointAt(R.Put(r, k, M.Pumped(limits, r.table[k], pumped, now, move)), h, side) == EndpointAt(r, h, side)
  {
    hide Lane.Apply, Lane.Enabled;
  }

  /** No step of the relay touches an endpoint, except that an accepted join fills one free seat. */
  lemma StepSeats(limits: Limits, st: M.State, step: M.Step, h: nat, side: Side)
    requires M.MachineInv(limits, st) && M.Enabled(st, step)
    ensures var r' := M.Apply(limits, st, step).registry;
            if Fills(limits, st, step, h, side) then
              EndpointAt(st.registry, h, side).None?
              && EndpointAt(r', h, side) == Some(R.Joined(step.endpoint, step.claim))
            else EndpointAt(r', h, side) == EndpointAt(st.registry, h, side)
  {
    hide R.RegistryInv, M.EffectsMatch, M.Watched, M.CallsInTable, R.Reserve, R.Join, R.CancelReservation, R.Fail,
         EndpointAt, Lane.Apply, Lane.Enabled, M.Pumped;
    var r := st.registry;
    match step
    case DoReserve(claim, now) =>
      if R.Reserve(limits, r, claim, now).Accepted? {
        ReserveSeats(limits, r, claim, now, h, side);
      }
    case DoJoin(claim, endpoint, now) =>
      if R.Join(limits, r, claim, endpoint, now).Accepted? {
        JoinSeats(limits, r, claim, endpoint, now, h, side);
      }
    case DoCancel(claim) => CancelSeats(r, claim, h, side);
    case RunFail(call) => FailSeats(r, call.handle, call.reason, h, side);
    case Pump(k, pumped, move) => PumpSeats(limits, r, k, pumped, st.clock, move, h, side);
    case _ =>
  }

  // ---- Invariant ----

  /** A handler past its credential has used one of its claim's side and epoch. */
  ghost predicate HandlerOk(id: string, row: Row, h: Handler)
  {
    h.claim.sessionId == id && (HasIndex(h.phase) ==> L.UsedAs(row, h.phase.index, h.claim.side, h.claim.keyEpoch))
  }

  ghost predicate HandlersOk(id: string, row: Row, handlers: seq<Handler>)
  {
    forall n :: 0 <= n < |handlers| ==> HandlerOk(id, row, handlers[n])
  }

  /** No two handlers have used the same credential. */
  ghost predicate OwnCredentials(handlers: seq<Handler>)
  {
    forall n, m ::
      (&& 0 <= n < |handlers| && 0 <= m < |handlers| && n != m
       && HasIndex(handlers[n].phase) && HasIndex(handlers[m].phase))
      ==> handlers[n].phase.index != handlers[m].phase.index
  }

  /** The seat holds a connection of the watched session. */
  ghost predicate Holds(id: string, r: R.Registry, h: nat, side: Side)
  {
    EndpointAt(r, h, side).Some? && EndpointAt(r, h, side).value.claim.sessionId == id
  }

  ghost predicate SeatOk(id: string, r: R.Registry, handlers: seq<Handler>, h: nat, side: Side)
  {
    Holds(id, r, h, side) ==>
      var j := EndpointAt(r, h, side).value;
      j.endpoint < |handlers| && handlers[j.endpoint].phase.Joined? && handlers[j.endpoint].claim == j.claim
  }

  /** Every endpoint of the watched session is a handler that has joined with the endpoint's claim. */
  ghost predicate SeatsOk(id: string, r: R.Registry, handlers: seq<Handler>)
  {
    forall h: nat, side :: SeatOk(id, r, handlers, h, side)
  }

  /** No handler sits in two seats. */
  ghost predicate OneSeat(id: string, r: R.Registry)
  {
    forall h: nat, side, h': nat, side' ::
      (&& Holds(id, r, h, side) && Holds(id, r, h', side')
       && EndpointAt(r, h, side).value.endpoint == EndpointAt(r, h', side').value.endpoint)
      ==> h == h' && side == side'
  }

  ghost predicate WorldInv(limits: Limits, id: string, w: World)
  {
    && M.MachineInv(limits, w.relay)
    && L.LifeInv(w.life)
    && HandlersOk(id, w.life.row, w.handlers)
    && OwnCredentials(w.handlers)
    && SeatsOk(id, w.relay.registry, w.handlers)
    && OneSeat(id, w.relay.registry)
  }

  lemma RowMoves(id: string, life: L.Life, step: L.Step, handlers: seq<Handler>)
    requires L.Enabled(life, step) && HandlersOk(id, life.row, handlers)
    ensures HandlersOk(id, L.Apply(life, step).row, handlers)
  {
    hide L.Apply, L.Enabled, L.UsedAs;
    forall n | 0 <= n < |handlers| ensures HandlerOk(id, L.Apply(life, step).row, handlers[n]) {
      assert HandlerOk(id, life.row, handlers[n]);
      var h := handlers[n];
      if HasIndex(h.phase) {
        L.UsedStays(life, step, h.phase.index, h.claim.side, h.claim.keyEpoch);
      }
    }
  }

  /** A step of the relay that seats nobody of the watched session keeps the seats. */
  lemma SeatsStay(limits: Limits, id: string, st: M.State, step: M.Step, handlers: seq<Handler>)
    requires M.MachineInv(limits, st) && M.Enabled(st, step) && !(step.DoJoin? && step.claim.sessionId == id)
    requires SeatsOk(id, st.registry, handlers) && OneSeat(id, st.registry)
    ensures SeatsOk(id, M.Apply(limits, st, step).registry, handlers) && OneSeat(id, M.Apply(limits, st, step).registry)
  {
    hide M.Apply, M.Enabled, M.MachineInv, EndpointAt;
    var r' := M.Apply(limits, st, step).registry;
    forall h: nat, side
      ensures Holds(id, r', h, side) ==>
                Holds(id, st.registry, h, side) && EndpointAt(r', h, side) == EndpointAt(st.registry, h, side)
    {
      StepSeats(limits, st, step, h, side);
    }
    forall h: nat, side ensures SeatOk(id, r', handlers, h, side) {
      assert SeatOk(id, st.registry, handlers, h, side);
    }
  }

  /** Handlers that change without joining, leaving or doubling a credential keep their seats. */
  lemma HandlersMove(id: string, r: R.Registry, handlers: seq<Handler>, n: nat, phase: Phase)
    requires SeatsOk(id, r, handlers) && n < |handlers| && !handlers[n].phase.Joined?
    ensures SeatsOk(id, r, handlers[n := handlers[n].(phase := phase)])
  {
    hide EndpointAt;
    var handlers' := handlers[n := handlers[n].(phase := phase)];
    forall h: nat, side ensures SeatOk(id, r, handlers', h, side) {
      assert SeatOk(id, r, handlers, h, side);
    }
  }

  lemma ArriveKeeps(limits: Limits, id: string, w: World, h: Handler)
    requires WorldInv(limits, id, w) && h.claim.sessionId == id && h.phase.Prepared?
    ensures WorldInv(limits, id, w.(handlers := w.handlers + [h]))
  {
    hide M.MachineInv, L.LifeInv, OneSeat, EndpointAt, L.UsedAs;
    var handlers' := w.handlers + [h];
    forall k: nat, side ensures SeatOk(id, w.relay.registry, handlers', k, side) {
      assert SeatOk(id, w.relay.registry, w.handlers, k, side);
    }
  }

  /** The phase of one handler changes, to one without a credential. */
  lemma DropKeeps(limits: Limits, id: string, w: World, n: nat, phase: Phase)
    requires WorldInv(limits, id, w) && n < |w.handlers| && !w.handlers[n].phase.Joined? && !HasIndex(phase)
    ensures WorldInv(limits, id, Moved(w, n, phase))
  {
    hide M.MachineInv, L.LifeInv, OneSeat, SeatsOk, L.UsedAs;
    HandlersMove(id, w.relay.registry, w.handlers, n, phase);
  }

  lemma UseKeeps(limits: Limits, id: string, w: World, n: nat, index: nat)
    requires WorldInv(limits, id, w) && n < |w.handlers| && w.handlers[n].phase.Reserved?
    requires CanUse(w, w.handlers[n], index)
    requires L.Enabled(w.life, Use(w.handlers[n], index))
    ensures WorldInv(limits, id, Moved(w.(life := L.Apply(w.life, Use(w.handlers[n], index))), n, Consumed(index)))
  {
    hide M.MachineInv, L.LifeInv, OneSeat, SeatsOk, L.Apply, L.Enabled, EndpointAt, ValidClaim;
    var h := w.handlers[n];
    var step := Use(h, index);
    L.StepKeeps(w.life, step);
    L.UseMarks(w.life, step);
    RowMoves(id, w.life, step, w.handlers);
    HandlersMove(id, w.relay.registry, w.handlers, n, Consumed(index));
    forall m | 0 <= m < |w.handlers| && HasIndex(w.handlers[m].phase) ensures w.handlers[m].phase.index != index {
      assert HandlerOk(id, w.life.row, w.handlers[m]);
    }
  }

  lemma UseUpEnabled(life: L.Life, h: Handler, index: nat)
    ensures L.Enabled(life, Use(h, index))
  {
  }

  /** An accepted join seats its handler in a free seat and changes no other. */
  lemma Seated(limits: Limits, id: string, st: M.State, handlers: seq<Handler>, n: nat, now: nat)
    requires M.MachineInv(limits, st) && SeatsOk(id, st.registry, handlers) && OneSeat(id, st.registry)
    requires n < |handlers| && handlers[n].phase.Consumed? && M.Enabled(st, M.DoJoin(handlers[n].claim, n, now))
    ensures var r' := M.Apply(limits, st, M.DoJoin(handlers[n].claim, n, now)).registry;
            && SeatsOk(id, r', handlers[n := handlers[n].(phase := Joined(handlers[n].phase.index))])
            && OneSeat(id, r')
  {
    hide M.MachineInv, M.Apply, M.Enabled, EndpointAt, Fills;
    var step := M.DoJoin(handlers[n].claim, n, now);
    var handlers' := handlers[n := handlers[n].(phase := Joined(handlers[n].phase.index))];
    var r, r' := st.registry, M.Apply(limits, st, step).registry;
    forall h: nat, side
      ensures if Fills(limits, st, step, h, side) then EndpointAt(r', h, side) == Some(R.Joined(n, step.claim))
              else EndpointAt(r', h, side) == EndpointAt(r, h, side)
      ensures Holds(id, r, h, side) ==> EndpointAt(r, h, side).value.endpoint != n
    {
      StepSeats(limits, st, step, h, side);
      assert SeatOk(id, r, handlers, h, side);
    }
    forall h: nat, side ensures SeatOk(id, r', handlers', h, side) {
      assert SeatOk(id, r, handlers, h, side);
    }
    forall h: nat, side, h': nat, side' | Fills(limits, st, step, h, side) && Fills(limits, st, step, h', side')
      ensures h == h' && side == side'
    {
      FillsOne(limits, st, step, h, side, h', side');
    }
  }

  lemma FillsOne(limits: Limits, st: M.State, step: M.Step, h: nat, side: Side, h': nat, side': Side)
    requires M.Enabled(st, step) && Fills(limits, st, step, h, side) && Fills(limits, st, step, h', side')
    ensures h == h' && side == side'
  {
    hide M.Enabled, R.Join;
  }

  lemma JoinKeeps(limits: Limits, id: string, w: World, n: nat, now: nat)
    requires WorldInv(limits, id, w) && Enabled(id, w, JoinSide(n, now))
    ensures WorldInv(limits, id, Apply(limits, id, w, JoinSide(n, now)))
  {
    hide M.MachineInv, L.LifeInv, M.Apply, R.Join, L.UsedAs, OneSeat, SeatsOk;
    var h := w.handlers[n];
    M.StepKeeps(limits, w.relay, M.DoJoin(h.claim, n, now));
    if R.Join(limits, w.relay.registry, h.claim, n, now).Accepted? {
      Seated(limits, id, w.relay, w.handlers, n, now);
    } else {
      RefusedJoin(limits, w.relay, h.claim, n, now);
      HandlersMove(id, w.relay.registry, w.handlers, n, Gone);
    }
  }

  lemma RefusedJoin(limits: Limits, st: M.State, claim: Claim, n: nat, now: nat)
    requires M.Enabled(st, M.DoJoin(claim, n, now)) && R.Join(limits, st.registry, claim, n, now).Failed?
    ensures M.Apply(limits, st, M.DoJoin(claim, n, now)) == st
  {
    hide R.Join;
  }

  lemma ReserveKeeps(limits: Limits, id: string, w: World, n: nat, now: nat)
    requires WorldInv(limits, id, w) && Enabled(id, w, ReserveSide(n, now))
    ensures WorldInv(limits, id, Apply(limits, id, w, ReserveSide(n, now)))
  {
    hide M.MachineInv, L.LifeInv, M.Apply, R.Reserve, L.UsedAs, OneSeat, SeatsOk, HandlersOk, OwnCredentials;
    var step := M.DoReserve(w.handlers[n].claim, now);
    M.StepKeeps(limits, w.relay, step);
    SeatsStay(limits, id, w.relay, step, w.handlers);
    var w' := w.(relay := M.Apply(limits, w.relay, step));
    DropKeeps(limits, id, w', n,
              if R.Reserve(limits, w.relay.registry, w.handlers[n].claim, now).Accepted? then Reserved else Gone);
  }

  lemma RevokeKeeps(limits: Limits, id: string, w: World, op: L.Op, text: string)
    requires WorldInv(limits, id, w) && Enabled(id, w, Revoke(op, text))
    ensures WorldInv(limits, id, Apply(limits, id, w, Revoke(op, text)))
  {
    hide M.MachineInv, L.LifeInv, M.Apply, L.Apply, M.Enabled, HandlersOk, OwnCredentials, SeatsOk, OneSeat;
    L.StepKeeps(w.life, L.DoCommit(op));
    RowMoves(id, w.life, L.DoCommit(op), w.handlers);
    M.StepKeeps(limits, w.relay, M.DoRevoke(id, text));
    SeatsStay(limits, id, w.relay, M.DoRevoke(id, text), w.handlers);
  }

  lemma StepKeeps(limits: Limits, id: string, w: World, step: Step)
    requires WorldInv(limits, id, w) && Enabled(id, w, step)
    ensures WorldInv(limits, id, Apply(limits, id, w, step))
  {
    hide M.MachineInv, L.LifeInv, M.Apply, L.Apply, M.Enabled, L.Enabled, HandlersOk, OwnCredentials, SeatsOk, OneSeat,
         R.Reserve, R.Join, CanUse;
    match step
    case OfLife(s) =>
      L.StepKeeps(w.life, s);
      RowMoves(id, w.life, s, w.handlers);
    case OfRelay(s) =>
      M.StepKeeps(limits, w.relay, s);
      SeatsStay(limits, id, w.relay, s, w.handlers);
    case Arrive(side, credential, hash, agentId, at) =>
      var claim := Prepare(id, w.life.row, side, credential, agentId, at);
      if claim.Some? {
        ArriveKeeps(limits, id, w, Handler(claim.value, hash, at, Prepared));
      }
    case ReserveSide(n, now) => ReserveKeeps(limits, id, w, n, now);
    case UseUp(n, index) =>
      if CanUse(w, w.handlers[n], index) {
        UseUpEnabled(w.life, w.handlers[n], index);
        UseKeeps(limits, id, w, n, index);
      } else {
        DropKeeps(limits, id, w, n, Gone);
      }
    case JoinSide(n, now) => JoinKeeps(limits, id, w, n, now);
    case Leave(n) => DropKeeps(limits, id, w, n, Gone);
    case Revoke(op, text) => RevokeKeeps(limits, id, w, op, text);
  }

  // ---- Runs ----

  ghost predicate Start(w: World)
  {
    L.Fresh(w.life) && w.relay == M.INIT && w.handlers == []
  }

  ghost predicate Run(limits: Limits, id: string, states: seq<World>, steps: seq<Step>)
  {
    && |states| == |steps| + 1
    && Start(states[0])
    && forall i {:trigger steps[i]} :: 0 <= i < |steps| ==>
         Enabled(id, states[i], steps[i]) && states[i + 1] == Apply(limits, id, states[i], steps[i])
  }

  lemma StartInv(limits: Limits, id: string, w: World)
    requires Start(w)
    ensures WorldInv(limits, id, w)
  {
    M.InitInv(limits);
    L.RunIsSane([w.life], [], 0);
  }

  /** The invariant holds in every state of every run. */
  lemma {:induction false} RunIsSafe(limits: Limits, id: string, states: seq<World>, steps: seq<Step>, i: nat)
    requires Run(limits, id, states, steps) && i < |states|
    ensures WorldInv(limits, id, states[i])
  {
    hide WorldInv, Apply, Enabled, Start;
    if i == 0 {
      StartInv(limits, id, states[0]);
    } else {
      RunIsSafe(limits, id, states, steps, i - 1);
      StepKeeps(limits, id, states[i - 1], steps[i - 1]);
    }
  }

  lemma RunStep(limits: Limits, id: string, states: seq<World>, steps: seq<Step>, i: nat)
    requires Run(limits, id, states, steps) && i < |steps|
    ensures i + 1 < |states| && Enabled(id, states[i], steps[i])
    ensures states[i + 1] == Apply(limits, id, states[i], steps[i])
    ensures WorldInv(limits, id, states[i])
  {
    hide WorldInv, Apply, Enabled, Start;
    RunIsSafe(limits, id, states, steps, i);
  }

  // ---- What every connection in the relay has behind it ----

  /** Every endpoint that the relay holds has used a credential of its claim's side and epoch. */
  lemma EveryEndpointUsedACredential(limits: Limits, id: string, states: seq<World>, steps: seq<Step>, i: nat, h: nat,
                                     side: Side)
    requires Run(limits, id, states, steps) && i < |states| && Holds(id, states[i].relay.registry, h, side)
    ensures var j := EndpointAt(states[i].relay.registry, h, side).value;
            && j.endpoint < |states[i].handlers| && states[i].handlers[j.endpoint].phase.Joined?
            && L.UsedAs(states[i].life.row, states[i].handlers[j.endpoint].phase.index, j.claim.side, j.claim.keyEpoch)
  {
    hide Run, M.MachineInv, L.LifeInv, L.UsedAs, OneSeat, OwnCredentials, EndpointAt;
    RunIsSafe(limits, id, states, steps, i);
    assert SeatOk(id, states[i].relay.registry, states[i].handlers, h, side);
    assert HandlerOk(id, states[i].life.row,
                     states[i].handlers[EndpointAt(states[i].relay.registry, h, side).value.endpoint]);
  }

  /** Two seats never go back to one credential, in the same relay session or in successive ones. */
  lemma OneSeatPerCredential(limits: Limits, id: string, states: seq<World>, steps: seq<Step>, i: nat, h: nat,
                             side: Side, h': nat, side': Side)
    requires Run(limits, id, states, steps) && i < |states|
    requires Holds(id, states[i].relay.registry, h, side) && Holds(id, states[i].relay.registry, h', side')
    requires h != h' || side != side'
    ensures var a, b := EndpointAt(states[i].relay.registry, h, side).value.endpoint,
                        EndpointAt(states[i].relay.registry, h', side').value.endpoint;
            && a < |states[i].handlers| && b < |states[i].handlers| && a != b
            && states[i].handlers[a].phase.Joined? && states[i].handlers[b].phase.Joined?
            && states[i].handlers[a].phase.index != states[i].handlers[b].phase.index
  {
    hide Run, M.MachineInv, L.LifeInv, HandlersOk, EndpointAt;
    RunIsSafe(limits, id, states, steps, i);
    assert SeatOk(id, states[i].relay.registry, states[i].handlers, h, side);
    assert SeatOk(id, states[i].relay.registry, states[i].handlers, h', side');
  }

  /** The step by which handler n used the credential at index. */
  predicate UsesUp(step: Step, n: nat, index: nat)
  {
    step.UseUp? && step.n == n && step.index == index
  }

  lemma IndexComesFromUse(limits: Limits, id: string, w: World, step: Step, n: nat)
    requires Enabled(id, w, step)
    requires var w' := Apply(limits, id, w, step); n < |w'.handlers| && HasIndex(w'.handlers[n].phase)
    ensures var h' := Apply(limits, id, w, step).handlers[n];
            || (n < |w.handlers| && HasIndex(w.handlers[n].phase)
                && w.handlers[n].phase.index == h'.phase.index && w.handlers[n].claim == h'.claim)
            || (UsesUp(step, n, h'.phase.index) && n < |w.handlers| && w.handlers[n].claim == h'.claim
                && CanUse(w, w.handlers[n], h'.phase.index))
  {
    hide M.Apply, L.Apply, M.Enabled, L.Enabled, R.Reserve, R.Join, Prepare, CanUse;
  }

  /**
   * A handler that has come past its credential used it in the run at a moment when its claim's epoch
   * was the session's and the session had not ended.
   */
  lemma {:induction false} UsedWhileCurrent(limits: Limits, id: string, states: seq<World>, steps: seq<Step>, j: nat,
                                            n: nat) returns (i: nat)
    requires Run(limits, id, states, steps) && j < |states| && n < |states[j].handlers|
    requires HasIndex(states[j].handlers[n].phase)
    ensures i < j && i < |steps| && UsesUp(steps[i], n, states[j].handlers[n].phase.index)
    ensures states[i].life.row.epoch == states[j].handlers[n].claim.keyEpoch && !IsTerminal(states[i].life.row.state)
    decreases j
  {
    hide Apply, Enabled, WorldInv, CanUse, UsesUp;
    if j == 0 {
      NobodyAtStart(limits, id, states, steps);
      assert false;
    } else {
      RunStep(limits, id, states, steps, j - 1);
      IndexComesFromUse(limits, id, states[j - 1], steps[j - 1], n);
      if UsesUp(steps[j - 1], n, states[j].handlers[n].phase.index) {
        i := j - 1;
        UsesOnce(id, states[i], steps[i], n, states[j].handlers[n].phase.index);
        CurrentWhenUsed(limits, id, states[i], states[i].handlers[n], states[j].handlers[n].phase.index);
      } else {
        i := UsedWhileCurrent(limits, id, states, steps, j - 1, n);
      }
    }
  }

  lemma UsesOnce(id: string, w: World, step: Step, n: nat, index: nat)
    requires Enabled(id, w, step) && UsesUp(step, n, index)
    ensures n < |w.handlers| && !HasIndex(w.handlers[n].phase)
  {
  }

  lemma NobodyAtStart(limits: Limits, id: string, states: seq<World>, steps: seq<Step>)
    requires Run(limits, id, states, steps)
    ensures |states| > 0 && states[0].handlers == []
  {
  }

  lemma CurrentWhenUsed(limits: Limits, id: string, w: World, h: Handler, index: nat)
    requires WorldInv(limits, id, w) && CanUse(w, h, index)
    ensures w.life.row.epoch == h.claim.keyEpoch && !IsTerminal(w.life.row.state)
  {
    L.RowOf(w.life);
    hide WorldInv, ValidClaim;
    L.ConsumeKeeps(w.life.row, index, h.hash, h.claim.side, h.claim.keyEpoch, h.now);
  }

  /** A connecting side becomes a handler exactly when it is given a claim, and keeps claim, credential and time. */
  lemma ArriveExactly(limits: Limits, id: string, w: World, side: Side, credential: string, hash: nat, agentId: string,
                      at: int)
    ensures var claim := Prepare(id, w.life.row, side, credential, agentId, at);
            var w' := Apply(limits, id, w, Arrive(side, credential, hash, agentId, at));
            && w'.life == w.life && w'.relay == w.relay
            && (claim.None? ==> w'.handlers == w.handlers)
            && (claim.Some? ==>
                  && |w'.handlers| == |w.handlers| + 1 && w'.handlers[..|w.handlers|] == w.handlers
                  && (var h := w'.handlers[|w.handlers|];
                      h.claim == claim.value && h.hash == hash && h.now == at && h.phase == Prepared))
  {
    hide Prepare;
  }

  /** Exactly when a handler gets past its credential: the claim is valid at its time, and the credential its own. */
  lemma UseUpExactly(limits: Limits, id: string, w: World, n: nat, index: nat)
    requires Enabled(id, w, UseUp(n, index)) && index < |w.life.row.credentials| && n < |w.handlers|
    ensures var h, c := w.handlers[n], w.life.row.credentials[index];
            var w' := Apply(limits, id, w, UseUp(n, index));
            if && ValidClaim(h.claim, h.now) && c.hash == h.hash && c.side == h.claim.side
               && c.epoch == h.claim.keyEpoch && !c.consumed && !c.revoked && h.now < c.expiresAt
            then w'.handlers[n].phase == Consumed(index) && w'.life.row.credentials[index] == c.(consumed := true)
            else w'.handlers[n].phase == Gone && w'.life == w.life
    ensures Apply(limits, id, w, UseUp(n, index)).relay == w.relay
  {
    hide L.Apply;
    var h := w.handlers[n];
    if CanUse(w, h, index) {
      UsedNow(w.life, h, index);
    }
    assert ValidClaim(h.claim, h.now) ==> h.claim.keyEpoch != 0;
  }

  lemma UsedNow(life: L.Life, h: Handler, index: nat)
    requires Consume(life.row, index, h.hash, h.claim.side, h.claim.keyEpoch, h.now).Some?
    ensures var row' := L.Apply(life, Use(h, index)).row;
            var used := life.row.credentials[index].(consumed := true);
            row' == life.row.(credentials := life.row.credentials[index := used])
  {
  }

  // ---- Nothing is checked again after the credential ----

  /** In every run: exactly when a handler gets its reservation. */
  lemma ReservationExactly(limits: Limits, id: string, states: seq<World>, steps: seq<Step>, i: nat, n: nat, now: nat)
    requires Run(limits, id, states, steps) && i < |states| && Enabled(id, states[i], ReserveSide(n, now))
    ensures n < |states[i].handlers| && R.InTable(states[i].relay.registry)
    ensures var r, claim := states[i].relay.registry, states[i].handlers[n].claim;
            Apply(limits, id, states[i], ReserveSide(n, now)).handlers[n].phase.Reserved? <==>
              && ValidClaim(claim, now)
              && (id in r.sessions ==>
                    Agrees(r.table[r.sessions[id]].claim, claim)
                    && R.SlotOf(r.table[r.sessions[id]], claim.side).endpoint.None?)
              && (id !in r.sessions ==> R.Room(limits, r, claim))
  {
    hide Run, L.LifeInv, R.RegistryInv, M.Apply, R.Reserve, Agrees, ValidClaim, R.Room, SeatsOk, OneSeat,
         OwnCredentials, L.UsedAs;
    RunIsSafe(limits, id, states, steps, i);
    var h := states[i].handlers[n];
    assert HandlerOk(id, states[i].life.row, h);
    R.ReserveExactly(limits, states[i].relay.registry, h.claim, now);
  }

  /**
   * In every run: exactly when a handler that has used its credential gets its seat. The stored row plays no
   * part, so a claim of an older epoch or of an ended session joins exactly as a current one does.
   */
  lemma LateJoinExactly(limits: Limits, id: string, states: seq<World>, steps: seq<Step>, i: nat, n: nat, now: nat)
    requires Run(limits, id, states, steps) && i < |states| && Enabled(id, states[i], JoinSide(n, now))
    ensures n < |states[i].handlers| && R.InTable(states[i].relay.registry)
    ensures var r, claim := states[i].relay.registry, states[i].handlers[n].claim;
            Apply(limits, id, states[i], JoinSide(n, now)).handlers[n].phase.Joined? <==>
              && ValidClaim(claim, now)
              && (id in r.sessions ==>
                    Agrees(r.table[r.sessions[id]].claim, claim)
                    && R.SlotOf(r.table[r.sessions[id]], claim.side).endpoint.None?)
              && (id !in r.sessions ==> R.Room(limits, r, claim))
  {
    hide Run, L.LifeInv, R.RegistryInv, M.Apply, R.Join, Agrees, ValidClaim, R.Room, SeatsOk, OneSeat, OwnCredentials,
         L.UsedAs;
    RunIsSafe(limits, id, states, steps, i);
    var h := states[i].handlers[n];
    assert HandlerOk(id, states[i].life.row, h);
    R.JoinExactly(limits, states[i].relay.registry, h.claim, n, now);
  }
}
