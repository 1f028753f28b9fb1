/** Which connection a `ready` was earned on: a setup that outlives a reconnect reports ready for the old one. */
module MediaConnections {
  import opened Wrappers
  import opened MediaRecovery

  /** The machine with connections numbered: `epoch` counts the connects, `setupEpoch` is the connection on which the
      latest setup started signalling, and `readyEpoch` that of the latest setup to succeed. */
  datatype Trace = Trace(machine: Machine, epoch: nat, setupEpoch: nat, readyEpoch: nat)

  predicate Starts(m: Machine, e: Event) { !m.phase.Active? && Step(m, e).phase.Active? }

  predicate Connects(m: Machine, e: Event) { e.SocketConnect? && Enabled(m, e) }

  function Follow(t: Trace, e: Event): Trace {
    var epoch := if Connects(t.machine, e) then t.epoch + 1 else t.epoch;
    Trace(Step(t.machine, e), epoch,
          if Starts(t.machine, e) then epoch else t.setupEpoch,
          if e.SetupSucceeds? && Enabled(t.machine, e) && !t.machine.cancelled then t.setupEpoch else t.readyEpoch)
  }

  function Traced(connected: bool, run: seq<Event>): Trace {
    if run == [] then Trace(Mounted(connected), 0, 0, 0) else Follow(Traced(connected, run[..|run| - 1]), run[|run| - 1])
  }

  /** The numbering only watches. */
  lemma {:induction false} TracedIsPlayed(connected: bool, run: seq<Event>)
    ensures Traced(connected, run).machine == Play(connected, run).machine
  {
    hide Step, Resets;
    if run != [] { TracedIsPlayed(connected, run[..|run| - 1]); }
  }

  /** The machine just before the `i`-th event. */
  function Before(connected: bool, run: seq<Event>, i: nat): Machine
    requires i <= |run|
  {
    Traced(connected, run[..i]).machine
  }

  /** The `j`-th event reconnected the socket under a running setup, and no setup has started since. */
  ghost predicate CrossedAt(connected: bool, run: seq<Event>, j: nat)
    requires j < |run|
  {
    && Connects(Before(connected, run, j), run[j]) && Before(connected, run, j).phase.Active?
    && forall i :: j < i < |run| ==> !Starts(Before(connected, run, i), run[i])
  }

  ghost predicate Crossed(connected: bool, run: seq<Event>) {
    exists j: nat :: j < |run| && CrossedAt(connected, run, j)
  }

  lemma CrossedNext(connected: bool, run: seq<Event>, e: Event)
    ensures var m := Traced(connected, run).machine;
            Crossed(connected, run + [e])
            <==> (Connects(m, e) && m.phase.Active?) || (Crossed(connected, run) && !Starts(m, e))
  {
    hide Traced, Connects, Starts;
    var all, n, m := run + [e], |run|, Traced(connected, run).machine;
    assert all[..n] == run && all[n] == e;
    assert Before(connected, all, n) == m;
    forall i: nat | i < n ensures all[i] == run[i] && Before(connected, all, i) == Before(connected, run, i) {
      assert all[..i] == run[..i];
    }
    if Connects(m, e) && m.phase.Active? { assert CrossedAt(connected, all, n); }
    if Crossed(connected, run) && !Starts(m, e) {
      var j: nat :| j < n && CrossedAt(connected, run, j);
      assert CrossedAt(connected, all, j);
    }
    if Crossed(connected, all) {
      var j: nat :| j <= n && CrossedAt(connected, all, j);
      if j < n {
        assert !Starts(Before(connected, all, n), all[n]);
        assert CrossedAt(connected, run, j);
      }
    }
  }

  ghost predicate TraceInv(t: Trace, crossed: bool) {
    var m := t.machine;
    && t.setupEpoch <= t.epoch && (!m.phase.Idle? ==> m.hasStream)
    && (m.status.Ready? && !m.cancelled ==> m.phase.Idle? && m.hasStream && t.readyEpoch == t.setupEpoch)
    && (m.phase.Active? || (m.status.Ready? && !m.cancelled) ==> (t.setupEpoch != t.epoch <==> crossed))
  }

  lemma FollowKeepsInv(t: Trace, e: Event, crossed: bool)
    requires TraceInv(t, crossed)
    ensures var m := t.machine;
            TraceInv(Follow(t, e), (Connects(m, e) && m.phase.Active?) || (crossed && !Starts(m, e)))
  {
    hide Delay;
  }

  lemma {:induction false} TraceInvAlways(connected: bool, run: seq<Event>)
    ensures TraceInv(Traced(connected, run), Crossed(connected, run))
  {
    hide TraceInv, Crossed, Follow, Starts, Connects;
    if run == [] {
      InvAtStart(connected);
    } else {
      var init, e := run[..|run| - 1], run[|run| - 1];
      assert run == init + [e];
      TraceInvAlways(connected, init);
      CrossedNext(connected, init, e);
      FollowKeepsInv(Traced(connected, init), e, Crossed(connected, init));
    }
  }

  lemma InvAtStart(connected: bool)
    ensures TraceInv(Traced(connected, []), Crossed(connected, []))
  {
  }

  /** In every run, a connected `ready` stems from a setup started on the current connection exactly when the socket was
      not reconnected under the latest setup. */
  lemma ReadyIsCurrentExactlyWhenNotCrossed(connected: bool, run: seq<Event>)
    requires var m := Traced(connected, run).machine; !m.cancelled && m.connected && m.status.Ready?
    ensures Traced(connected, run).readyEpoch == Traced(connected, run).epoch <==> !Crossed(connected, run)
  {
    hide Traced, Crossed;
    TraceInvAlways(connected, run);
  }

  function CrossedRun(): seq<Event> { [MediaAcquired] + [SocketDisconnect] + [SocketConnect] + [SetupSucceeds] }

  lemma TracedAppend(connected: bool, run: seq<Event>, e: Event)
    ensures Traced(connected, run + [e]) == Follow(Traced(connected, run), e)
  {
    hide Follow;
    assert (run + [e])[..|run|] == run;
  }

  /** Such a run: the socket drops and returns while the first setup is under way. The hook reports ready on the old
      connection, with no timer, and starts nothing on the new one. */
  lemma StaleReady()
    ensures var t := Traced(true, CrossedRun());
            && t.machine.connected && t.machine.status.Ready? && t.machine.phase.Idle? && t.machine.timer.None?
            && t.readyEpoch != t.epoch
  {
    TracedAppend(true, [], MediaAcquired);
    assert [] + [MediaAcquired] == [MediaAcquired];
    TracedAppend(true, [MediaAcquired], SocketDisconnect);
    TracedAppend(true, [MediaAcquired] + [SocketDisconnect], SocketConnect);
    TracedAppend(true, [MediaAcquired] + [SocketDisconnect] + [SocketConnect], SetupSucceeds);
  }
}
