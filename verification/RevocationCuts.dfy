/**
 * What a revocation asked for by a session's handlers does to the connections in the relay, whatever
 * epoch it was meant for, and a run in which a stale failed offer closes a newer epoch's connections.
 */
module RevocationCuts {
  import opened RelayTypes
  import opened RelayAuthorization
  import opened JoinProtocol
  import T = RelayTheorems
  import L = SessionLifecycle
  import R = RelayRegistry
  import M = RelayMachine

  // ---- In every run ----

  /** A step of the world is at most one step of the relay. */
  lemma RelayEvolves(limits: Limits, id: string, w: World, step: Step, h: nat)
    requires WorldInv(limits, id, w) && Enabled(id, w, step) && h < |w.relay.registry.table|
    ensures var r' := Apply(limits, id, w, step).relay.registry;
            h < |r'.table| && T.Evolves(w.relay.registry.table[h], r'.table[h])
  {
    hide M.MachineInv, L.LifeInv, M.Apply, L.Apply, L.Enabled, R.Reserve, R.Join, T.Evolves, CanUse, Prepare,
         HandlersOk, SeatsOk, OneSeat, OwnCredentials;
    T.EvolvesReflexive(w.relay.registry.table[h]);
    match step
    case OfRelay(s) => T.StepEvolves(limits, w.relay, s, h);
    case ReserveSide(n, now) => T.StepEvolves(limits, w.relay, M.DoReserve(w.handlers[n].claim, now), h);
    case JoinSide(n, now) => T.StepEvolves(limits, w.relay, M.DoJoin(w.handlers[n].claim, n, now), h);
    case Revoke(_, text) => T.StepEvolves(limits, w.relay, M.DoRevoke(id, text), h);
    case _ =>
  }

  lemma {:induction false} RelayHistory(limits: Limits, id: string, states: seq<World>, steps: seq<Step>, i: nat,
                                        j: nat, h: nat)
    requires Run(limits, id, states, steps) && i <= j < |states| && h < |states[i].relay.registry.table|
    ensures h < |states[j].relay.registry.table|
    ensures T.Evolves(states[i].relay.registry.table[h], states[j].relay.registry.table[h])
    decreases j
  {
    hide WorldInv, Apply, Enabled, T.Evolves;
    if i == j {
      T.EvolvesReflexive(states[i].relay.registry.table[h]);
    } else {
      RelayHistory(limits, id, states, steps, i, j - 1, h);
      RunStep(limits, id, states, steps, j - 1);
      hide Run;
      RelayEvolves(limits, id, states[j - 1], steps[j - 1], h);
      T.EvolvesTransitive(states[i].relay.registry.table[h], states[j - 1].relay.registry.table[h],
                          states[j].relay.registry.table[h]);
    }
  }

  /**
   * A revocation leaves the relay alone if and only if the relay does not have the session; otherwise a
   * call of `fail` on whatever epoch is there is on its way.
   */
  lemma RevocationExactly(limits: Limits, id: string, states: seq<World>, steps: seq<Step>, i: nat)
    requires Run(limits, id, states, steps) && i < |steps| && steps[i].Revoke?
    ensures i + 1 < |states|
    ensures states[i + 1].relay == states[i].relay <==> id !in states[i].relay.registry.sessions
    ensures id in states[i].relay.registry.sessions ==>
              M.FailCall(states[i].relay.registry.sessions[id], Revoked(steps[i].text)) in states[i + 1].relay.calls
  {
    hide Run, WorldInv, L.Apply, M.Apply, M.Enabled;
    RunStep(limits, id, states, steps, i);
    AtTheRelay(limits, states[i].relay, id, steps[i].text);
  }

  lemma AtTheRelay(limits: Limits, st: M.State, id: string, text: string)
    requires M.Enabled(st, M.DoRevoke(id, text))
    ensures var st' := M.Apply(limits, st, M.DoRevoke(id, text));
            && (st' == st <==> id !in st.registry.sessions)
            && (id in st.registry.sessions ==> M.FailCall(st.registry.sessions[id], Revoked(text)) in st'.calls)
  {
    if id in st.registry.sessions {
      var call := M.FailCall(st.registry.sessions[id], Revoked(text));
      assert (st.calls + multiset{call})[call] == st.calls[call] + 1;
    }
  }

  /** The relay owes the endpoint of the seat one closing, done or to be done, and no second one. */
  ghost predicate ClosedOnce(st: M.State, h: nat, side: Side)
  {
    && M.Promised(st, M.EndpointClosed(h, side)) == 1
    && ((forall k :: 0 <= k < |st.tasks| ==> st.tasks[k] == []) ==> multiset(st.log)[M.EndpointClosed(h, side)] == 1)
  }

  lemma FinishedCloses(limits: Limits, st: M.State, h: nat, side: Side)
    requires M.MachineInv(limits, st) && h < |st.registry.table| && st.registry.table[h].finished
    requires R.SlotOf(st.registry.table[h], side).endpoint.Some?
    ensures ClosedOnce(st, h, side)
  {
    hide R.RegistryInv, M.Watched, M.CallsInTable;
    var e := M.EndpointClosed(h, side);
    assert M.Promised(st, e) == M.Expected(st.registry.table, e);
    if forall k :: 0 <= k < |st.tasks| ==> st.tasks[k] == [] {
      T.NothingOutstanding(st.tasks);
    }
  }

  /**
   * Once the call of a revocation has run, the session that the relay had under the id when the
   * revocation was made is finished for good, and every endpoint it held is closed, once. The
   * operation's epoch plays no part: a stale revocation closes the newer epoch's connections.
   */
  lemma RevocationCloses(limits: Limits, id: string, states: seq<World>, steps: seq<Step>, i: nat, j: nat, k: nat,
                         side: Side)
    requires Run(limits, id, states, steps) && i < j < |steps| && j < k < |states|
    requires steps[i].Revoke? && id in states[i].relay.registry.sessions
    requires steps[j] == OfRelay(M.RunFail(M.FailCall(states[i].relay.registry.sessions[id], Revoked(steps[i].text))))
    ensures var h := states[i].relay.registry.sessions[id];
            && h < |states[i].relay.registry.table| && h < |states[k].relay.registry.table|
            && states[k].relay.registry.table[h].finished
            && (R.SlotOf(states[i].relay.registry.table[h], side).endpoint.Some? ==>
                  ClosedOnce(states[k].relay, h, side))
  {
    hide M.MachineInv, L.LifeInv, M.Apply, L.Apply, T.Evolves, ClosedOnce, HandlersOk, SeatsOk, OneSeat, OwnCredentials;
    var h := states[i].relay.registry.sessions[id];
    RunStep(limits, id, states, steps, i);
    RunStep(limits, id, states, steps, j);
    RunIsSafe(limits, id, states, steps, k);
    InTable(limits, states[i].relay);
    RelayHistory(limits, id, states, steps, i, k, h);
    FailedNow(limits, states[j].relay, steps[j].relay.call);
    RelayHistory(limits, id, states, steps, j + 1, k, h);
    hide Run;
    Kept(states[j + 1].relay.registry.table[h], states[k].relay.registry.table[h], side);
    Kept(states[i].relay.registry.table[h], states[k].relay.registry.table[h], side);
    if R.SlotOf(states[i].relay.registry.table[h], side).endpoint.Some? {
      FinishedCloses(limits, states[k].relay, h, side);
    }
  }

  lemma InTable(limits: Limits, st: M.State)
    requires M.MachineInv(limits, st)
    ensures R.InTable(st.registry)
  {
    hide M.EffectsMatch, M.Watched, M.CallsInTable, R.WithinCapacity, R.SessionInv;
  }

  lemma FailedNow(limits: Limits, st: M.State, call: M.FailCall)
    requires M.Enabled(st, M.RunFail(call))
    ensures var r' := M.Apply(limits, st, M.RunFail(call)).registry;
            call.handle < |r'.table| && r'.table[call.handle].finished
  {
  }

  lemma Kept(s: R.Session, s': R.Session, side: Side)
    requires T.Evolves(s, s')
    ensures s.finished ==> s'.finished
    ensures R.SlotOf(s, side).endpoint.Some? ==> R.SlotOf(s', side).endpoint == R.SlotOf(s, side).endpoint
  {
  }
}
