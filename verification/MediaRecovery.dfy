/** The first-connection recovery ladder: failed media setups are retried with backoff while the socket is up. */
module MediaRecovery {
  import opened Wrappers

  const MEDIA_RETRY_BASE_MS := 500
  const MEDIA_RETRY_MAX_MS := 8000
  const MEDIA_MAX_RETRIES := 5

  datatype Status = Connecting | Ready | Reconnecting | Exhausted

  /** A setup that starts while the socket is down is parked until the next `connect`. */
  datatype Phase = Idle | Parked | Active

  /** `timer` is the delay of the armed retry timer; `shownAttempt` is the attempt published with the status. */
  datatype Machine = Machine(
    cancelled: bool, hasStream: bool, connected: bool, phase: Phase, timer: Option<nat>, attempt: nat,
    status: Status, shownAttempt: nat)

  datatype Event =
    | MediaAcquired
    | SocketConnect
    | SocketDisconnect
    | SetupSucceeds
    | SetupFails
    | TimerFires
    | ManualRetry
    | Unmount

  function Mounted(connected: bool): Machine { Machine(false, false, connected, Idle, None, 0, Connecting, 0) }

  // ---------- Specification ----------

  function Power(n: nat): nat { if n == 0 then 1 else 2 * Power(n - 1) }

  function Delay(attempt: nat): nat {
    var delay := MEDIA_RETRY_BASE_MS * Power(attempt);
    if delay < MEDIA_RETRY_MAX_MS then delay else MEDIA_RETRY_MAX_MS
  }

  /** What the platform can raise: a settled setup must be running, a timer armed, a socket change its state. */
  predicate Enabled(m: Machine, e: Event) {
    match e
    case MediaAcquired => !m.hasStream
    case SocketConnect => !m.connected
    case SocketDisconnect => m.connected
    case SetupSucceeds => m.phase.Active?
    case SetupFails => m.phase.Active?
    case TimerFires => m.timer.Some?
    case ManualRetry => true
    case Unmount => !m.cancelled
  }

  function RunSetup(m: Machine): Machine {
    if m.cancelled || !m.hasStream || !m.phase.Idle? then m
    else m.(phase := if m.connected then Active else Parked, timer := None,
            status := if m.attempt == 0 then Connecting else Reconnecting, shownAttempt := m.attempt)
  }

  function ScheduleRetry(m: Machine): Machine {
    if m.cancelled then m
    else if !m.connected then m.(status := Reconnecting, shownAttempt := m.attempt)
    else if m.attempt >= MEDIA_MAX_RETRIES then m.(status := Exhausted, shownAttempt := m.attempt)
    else m.(timer := Some(Delay(m.attempt)), attempt := m.attempt + 1, status := Reconnecting, shownAttempt := m.attempt + 1)
  }

  function Connect(m: Machine): Machine {
    var up := m.(connected := true);
    if up.cancelled then up
    else
      var started := if up.hasStream then RunSetup(up.(attempt := 0)) else up;
      started.(phase := if started.phase.Parked? then Active else started.phase)
  }

  function Disconnect(m: Machine): Machine {
    var down := m.(connected := false);
    if !down.cancelled && (down.status.Ready? || down.status.Connecting?) then down.(status := Reconnecting) else down
  }

  function Step(m: Machine, e: Event): Machine {
    if !Enabled(m, e) then m
    else match e
      case MediaAcquired => if m.cancelled then m else RunSetup(m.(hasStream := true))
      case SocketConnect => Connect(m)
      case SocketDisconnect => Disconnect(m)
      case SetupSucceeds =>
        (if m.cancelled then m else m.(attempt := 0, status := Ready, shownAttempt := 0)).(phase := Idle)
      case SetupFails => ScheduleRetry(m).(phase := Idle)
      case TimerFires => RunSetup(m.(timer := None))
      case ManualRetry =>
        if m.cancelled then m
        else if m.connected then RunSetup(m.(attempt := 0))
        else m.(attempt := 0, status := Reconnecting, shownAttempt := 0)
      case Unmount => m.(cancelled := true, timer := None, attempt := 0)
  }

  // ---------- The hook ----------

  class MediaHook {
    var cancelled: bool
    var hasStream: bool
    var connected: bool
    var phase: Phase
    var retryTimer: Option<nat>
    var retryAttempt: nat
    var status: Status
    var shownAttempt: nat

    ghost function View(): Machine
      reads this
    {
      Machine(cancelled, hasStream, connected, phase, retryTimer, retryAttempt, status, shownAttempt)
    }

    constructor (connected: bool)
      ensures View() == Mounted(connected)
    {
      cancelled, hasStream, this.connected, phase := false, false, connected, Idle;
      retryTimer, retryAttempt, status, shownAttempt := None, 0, Connecting, 0;
    }

    method SetMediaRecovery(status: Status, attempt: nat)
      modifies `status, `shownAttempt
      ensures View() == old(View()).(status := status, shownAttempt := attempt)
    {
      this.status, shownAttempt := status, attempt;
    }

    method StartSetup()
      modifies this
      ensures View() == RunSetup(old(View()))
    {
      if cancelled || !hasStream || !phase.Idle? { return; }
      phase := if connected then Active else Parked;
      retryTimer := None;
      SetMediaRecovery(if retryAttempt == 0 then Connecting else Reconnecting, retryAttempt);
    }

    method Schedule()
      modifies this
      ensures View() == ScheduleRetry(old(View()))
    {
      if cancelled { return; }
      if !connected {
        SetMediaRecovery(Reconnecting, retryAttempt);
        return;
      }
      if retryAttempt >= MEDIA_MAX_RETRIES {
        SetMediaRecovery(Exhausted, retryAttempt);
        return;
      }
      var delay := Delay(retryAttempt);
      retryAttempt := retryAttempt + 1;
      SetMediaRecovery(Reconnecting, retryAttempt);
      retryTimer := Some(delay);
    }

    method OnMediaAcquired()
      requires !hasStream
      modifies this
      ensures View() == Step(old(View()), MediaAcquired)
    {
      if cancelled { return; }
      hasStream := true;
      StartSetup();
    }

    /** Both listeners: the hook's own, then the one of a parked setup. */
    method OnSocketConnect()
      requires !connected
      modifies this
      ensures View() == Step(old(View()), SocketConnect)
    {
      connected := true;
      if cancelled { return; }
      if hasStream {
        retryAttempt := 0;
        StartSetup();
      }
      if phase.Parked? { phase := Active; }
    }

    method OnSocketDisconnect()
      requires connected
      modifies this
      ensures View() == Step(old(View()), SocketDisconnect)
    {
      connected := false;
      if !cancelled && (status.Ready? || status.Connecting?) { status := Reconnecting; }
    }

    method OnSetupSettled(succeeded: bool)
      requires phase.Active?
      modifies this
      ensures View() == Step(old(View()), if succeeded then SetupSucceeds else SetupFails)
    {
      if !succeeded {
        Schedule();
      } else if !cancelled {
        retryAttempt := 0;
        SetMediaRecovery(Ready, 0);
      }
      phase := Idle;
    }

    method OnTimer()
      requires retryTimer.Some?
      modifies this
      ensures View() == Step(old(View()), TimerFires)
    {
      retryTimer := None;
      StartSetup();
    }

    method RetryMedia()
      modifies this
      ensures View() == Step(old(View()), ManualRetry)
    {
      if cancelled { return; }
      retryAttempt := 0;
      if connected { StartSetup(); } else { SetMediaRecovery(Reconnecting, 0); }
    }

    method OnUnmount()
      requires !cancelled
      modifies this
      ensures View() == Step(old(View()), Unmount)
    {
      cancelled := true;
      retryTimer := None;
      retryAttempt := 0;
    }
  }

  // ---------- Runs ----------

  /** The machine with what happened since the budget was last reset: the delays armed, and the timers that fired. */
  datatype History = History(machine: Machine, ladder: seq<nat>, fired: nat)

  predicate Resets(m: Machine, e: Event) {
    !m.cancelled && ((e.SocketConnect? && Enabled(m, e) && m.hasStream) || e.ManualRetry?)
  }

  function Extend(h: History, e: Event): History {
    var m := Step(h.machine, e);
    if Resets(h.machine, e) then History(m, [], 0)
    else History(m,
                 if e.SetupFails? && m.timer.Some? && h.machine.timer.None? then h.ladder + [m.timer.value] else h.ladder,
                 if e.TimerFires? && Enabled(h.machine, e) then h.fired + 1 else h.fired)
  }

  function Play(connected: bool, events: seq<Event>): History {
    if events == [] then History(Mounted(connected), [], 0)
    else Extend(Play(connected, events[..|events| - 1]), events[|events| - 1])
  }

  const BACKOFF: seq<nat> := [500, 1000, 2000, 4000, 8000]

  lemma {:induction false} PowerGrows(m: nat, n: nat)
    requires m <= n
    ensures 1 <= Power(m) <= Power(n)
  {
    if m > 0 { PowerGrows(m - 1, n - 1); } else if n > 0 { PowerGrows(0, n - 1); }
  }

  /** Five doubling delays, and never more than the last of them. */
  lemma DelayIsBackoff(attempt: nat)
    ensures Delay(attempt) == if attempt < MEDIA_MAX_RETRIES then BACKOFF[attempt] else MEDIA_RETRY_MAX_MS
  {
    assert Power(0) == 1 && Power(1) == 2 && Power(2) == 4 && Power(3) == 8 && Power(4) == 16;
    if attempt >= MEDIA_MAX_RETRIES { PowerGrows(4, attempt); }
  }

  /** A manual retry while the socket is down resets the budget of a timer already armed; that timer may still fire,
      but the setup it starts is parked, and the next `connect` resets the budget again. */
  ghost predicate Overhang(h: History) {
    var m := h.machine;
    && !m.connected && h.ladder == [] && m.attempt == 0
    && ((m.timer.Some? && h.fired == 0) || (m.phase.Parked? && h.fired == 1))
  }

  ghost predicate Inv(h: History) {
    var m := h.machine;
    && |h.ladder| <= MEDIA_MAX_RETRIES && h.ladder == BACKOFF[..|h.ladder|]
    && (m.timer.Some? ==> m.phase.Idle? && m.timer.value in BACKOFF)
    && (!m.hasStream ==> m.phase.Idle? && m.timer.None? && (!m.cancelled ==> m.attempt == 0 && h.ladder == []))
    && (m.cancelled ==> m.timer.None? && h.fired <= MEDIA_MAX_RETRIES)
    && (!m.cancelled ==>
          && (m.phase.Parked? ==> !m.connected)
          && (h.fired + (if m.timer.Some? then 1 else 0) == |h.ladder| || Overhang(h))
          && (m.attempt == |h.ladder| || (m.attempt == 0 && m.phase.Idle? && m.timer.None?))
          && (m.status.Exhausted? ==> m.phase.Idle? && m.timer.None? && |h.ladder| == MEDIA_MAX_RETRIES)
          && (m.hasStream && m.connected ==>
                !m.phase.Idle? || m.timer.Some? || m.status.Ready? || m.status.Exhausted?))
  }

  lemma ExtendKeepsInv(h: History, e: Event)
    requires Inv(h)
    ensures Inv(Extend(h, e))
  {
    if e.SetupFails? && h.machine.attempt < MEDIA_MAX_RETRIES { DelayIsBackoff(h.machine.attempt); }
    hide Delay;
  }

  lemma {:induction false} InvAlways(connected: bool, events: seq<Event>)
    ensures Inv(Play(connected, events))
  {
    if events != [] {
      InvAlways(connected, events[..|events| - 1]);
      ExtendKeepsInv(Play(connected, events[..|events| - 1]), events[|events| - 1]);
    }
  }

  /** Mounted, with local media and a connected socket, the hook is always setting up, about to retry, ready, or has said
      that it gave up. */
  lemma NeverStranded(connected: bool, events: seq<Event>)
    ensures var m := Play(connected, events).machine;
            !m.cancelled && m.hasStream && m.connected ==>
              m.phase.Active? || m.timer.Some? || m.status.Ready? || m.status.Exhausted?
  {
    hide Play;
    InvAlways(connected, events);
  }

  lemma TimerAndSetupExclude(connected: bool, events: seq<Event>)
    ensures var m := Play(connected, events).machine; m.timer.None? || m.phase.Idle?
  {
    hide Play;
    InvAlways(connected, events);
  }

  /** Between resets of the budget the delays armed are a prefix of the five-step backoff, no more timers fire than
      that has steps, and the hook gives up only once all five have fired. */
  lemma LadderIsBounded(connected: bool, events: seq<Event>)
    ensures var h := Play(connected, events);
            && h.ladder <= BACKOFF && h.fired <= 5
            && (h.machine.timer.Some? ==> h.machine.timer.value <= 8000)
            && (h.machine.status.Exhausted? && !h.machine.cancelled ==> h.ladder == BACKOFF && h.fired == 5)
  {
    hide Play;
    InvAlways(connected, events);
  }

  // ---------- What the page shows ----------

  ghost predicate ShownRight(m: Machine) {
    && m.shownAttempt <= 5
    && (m.status.Connecting? || m.status.Ready? ==> m.shownAttempt == 0)
    && (m.status.Exhausted? ==> m.shownAttempt == 5)
    && (m.timer.Some? ==> m.status.Reconnecting? && m.shownAttempt == m.attempt)
    && (m.timer.Some? && m.shownAttempt == 0 ==> !m.connected)
    && (m.timer.Some? && m.shownAttempt > 0 ==> m.timer.value == BACKOFF[m.shownAttempt - 1])
  }

  lemma ExtendKeepsShown(h: History, e: Event)
    requires Inv(h) && (!h.machine.cancelled ==> ShownRight(h.machine))
    ensures !Extend(h, e).machine.cancelled ==> ShownRight(Extend(h, e).machine)
  {
    if e.SetupFails? && h.machine.attempt < MEDIA_MAX_RETRIES { DelayIsBackoff(h.machine.attempt); }
    hide Delay;
  }

  /** While the hook is mounted the attempt shown is at most five: none while it first connects or is ready, all five once it
      has given up. While a timer is armed the page says that it is reconnecting and names the attempt whose delay runs, or
      no attempt after a manual retry without a connection. */
  lemma {:induction false} AttemptsAreShown(connected: bool, events: seq<Event>)
    ensures var m := Play(connected, events).machine; !m.cancelled ==> ShownRight(m)
  {
    if events != [] {
      var before := events[..|events| - 1];
      InvAlways(connected, before);
      AttemptsAreShown(connected, before);
      hide ShownRight;
      ExtendKeepsShown(Play(connected, before), events[|events| - 1]);
    }
  }

  /** Whatever came before, a socket that drops leaves a mounted hook reconnecting, at the attempt it showed, unless it had
      given up and goes on saying so; nothing else about the recovery changes. */
  lemma DropIsShown(connected: bool, events: seq<Event>)
    requires var m := Play(connected, events).machine; !m.cancelled && m.connected
    ensures var m, t := Play(connected, events).machine, Play(connected, events + [SocketDisconnect]).machine;
            && t == Machine(false, m.hasStream, false, m.phase, m.timer, m.attempt, t.status, m.shownAttempt)
            && (t.status.Reconnecting? <==> !m.status.Exhausted?) && (t.status.Exhausted? <==> m.status.Exhausted?)
  {
    assert (events + [SocketDisconnect])[..|events|] == events;
  }

  /** A setup that starts shows that the hook is connecting if no retry was made since the budget was last reset, and else
      that it is reconnecting and which retry this is. */
  lemma StartIsShown(connected: bool, events: seq<Event>, e: Event)
    requires Play(connected, events).machine.phase.Idle? && !Play(connected, events + [e]).machine.phase.Idle?
    ensures var h := Play(connected, events + [e]);
            && h.machine.shownAttempt == |h.ladder|
            && h.machine.status == (if h.ladder == [] then Connecting else Reconnecting)
  {
    InvAlways(connected, events);
    assert (events + [e])[..|events|] == events;
    hide Delay;
  }

  // ---------- Recovery settles ----------

  predicate Internal(e: Event) { e.SetupSucceeds? || e.SetupFails? || e.TimerFires? }

  function After(m: Machine, events: seq<Event>): Machine
    decreases |events|
  {
    if events == [] then m else After(Step(m, events[0]), events[1..])
  }

  ghost predicate Unattended(m: Machine, events: seq<Event>)
    decreases |events|
  {
    events == [] || (Internal(events[0]) && Enabled(m, events[0]) && Unattended(Step(m, events[0]), events[1..]))
  }

  /** How many setups can still settle and timers fire before the ladder comes to rest. */
  function StepsLeft(m: Machine): int {
    if m.phase.Active? then 2 * (MEDIA_MAX_RETRIES - m.attempt) + 1
    else if m.timer.Some? then 2 * (MEDIA_MAX_RETRIES - m.attempt) + 2
    else 0
  }

  lemma {:induction false} StepsAreBounded(h: History, events: seq<Event>)
    requires Inv(h) && !h.machine.cancelled && h.machine.hasStream && h.machine.connected
    requires Unattended(h.machine, events)
    ensures |events| <= StepsLeft(h.machine)
    ensures var m := After(h.machine, events);
            (forall e :: Internal(e) ==> !Enabled(m, e)) ==> m.status.Ready? || m.status.Exhausted?
    decreases |events|
  {
    if events != [] {
      var e := events[0];
      ExtendKeepsInv(h, e);
      StepLeavesLess(h, e);
      hide Inv, Step;
      StepsAreBounded(Extend(h, e), events[1..]);
    } else {
      NothingLeftMeansRest(h);
    }
  }

  lemma StepLeavesLess(h: History, e: Event)
    requires Inv(h) && !h.machine.cancelled && h.machine.hasStream && h.machine.connected
    requires Internal(e) && Enabled(h.machine, e)
    ensures var m := Step(h.machine, e);
            !m.cancelled && m.hasStream && m.connected && 0 <= StepsLeft(m) < StepsLeft(h.machine)
  {
    hide Delay;
  }

  lemma NothingLeftMeansRest(h: History)
    requires Inv(h) && !h.machine.cancelled && h.machine.hasStream && h.machine.connected
    ensures StepsLeft(h.machine) >= 0
    ensures (forall e :: Internal(e) ==> !Enabled(h.machine, e))
            ==> h.machine.status.Ready? || h.machine.status.Exhausted?
  {
    assert h.machine.phase.Active? ==> Internal(SetupFails) && Enabled(h.machine, SetupFails);
    assert h.machine.timer.Some? ==> Internal(TimerFires) && Enabled(h.machine, TimerFires);
  }

  /** Left alone with a connected socket, recovery comes to rest within eleven steps, and at rest it is ready or has
      said that it gave up. */
  lemma RecoverySettles(connected: bool, events: seq<Event>, next: seq<Event>)
    requires var m := Play(connected, events).machine;
             !m.cancelled && m.hasStream && m.connected && Unattended(m, next)
    ensures var m := Play(connected, events).machine;
            && |next| <= 11
            && ((forall e :: Internal(e) ==> !Enabled(After(m, next), e))
                ==> After(m, next).status.Ready? || After(m, next).status.Exhausted?)
  {
    hide Play, After, Unattended;
    InvAlways(connected, events);
    StepsAreBounded(Play(connected, events), next);
  }
}
