/**
 The life of an agent that is started, stopped and shut down: the client that calls
 these, the timer thread, the main loop and the session manager, interleaved in any
 way. A step of a thread is one blocking call or one change of shared state.

 Messages go through the unbounded channel into the main loop (`inbox`) and the
 10-slot channel into the session manager (`queue`). `stop` waits on a condition
 variable, which may also wake spuriously.
 */
module Agent {
  const CAPACITY: nat := 10

  datatype Signal = Terminate | NextSnapshot(until: nat)

  /** A session: the time in the signal that asked for it, its window, and what the backend reported. */
  datatype Session = Session(asked: nat, from: int, until: int, report: nat)

  /** `Session::new`: the range of the asked time, put back by ten seconds. */
  function NewSession(asked: nat, report: nat): Session {
    Session(asked, asked / 10 * 10 - 10, asked / 10 * 10 + 10 - 10, report)
  }

  datatype Message = Send(session: Session) | Kill

  datatype Client =
    | Ready | Attaching | Spawning | Started
    | SendingLast | SendingTerminate | StopLocking | StopChecking | StopWaiting
    | Stopped | DroppingListeners | JoiningTimer | SendingKill | JoiningManager | JoiningMain | Done | ClientFailed

  datatype Timer = Checking | Sleeping | Fired(from: nat) | TimerExited

  datatype Main =
    | NotSpawned | Receiving | Reporting(until: nat) | Sending(session: Session)
    | Locking | Setting | Unlocking | MainExited | MainFailed

  datatype Manager = Idle | Pushing(session: Session) | ManagerExited

  datatype Owner = Nobody | TheClient | TheMain

  datatype State = State(
    client: Client, timer: Timer, main: Main, manager: Manager,
    attached: bool, listeners: bool, inbox: seq<Signal>, queue: seq<Message>,
    lock: Owner, running: bool, notified: bool,
    history: History)

  /** Everything posted to the main loop, what the clock said to `stop`, the sessions made, and those pushed. */
  datatype History = History(
    posted: seq<Signal>, lastAt: nat, stopAt: nat, terminateAt: nat, handled: seq<Session>, pushed: seq<Session>)

  /** Thread steps, with what the step reads from outside, and the three things no thread decides. */
  datatype Event =
    | ClientStep(now: nat) | TimerStep | MainStep(report: nat) | ManagerStep
    | Tick(from: nat) | Interrupted | SpuriousWake

  function Init(): State {
    State(Ready, Checking, NotSpawned, Idle, false, true, [], [], Nobody, false, false,
          History([], 0, 0, 0, [], []))
  }

  // -------------------------------------------------------------------- steps

  /** Where the client is, as a number: later is greater. */
  function Progress(c: Client): nat {
    match c
    case Ready => 0 case Attaching => 1 case Spawning => 2 case Started => 3
    case SendingLast => 4 case SendingTerminate => 5
    case StopLocking => 6 case StopChecking => 6 case StopWaiting => 6
    case Stopped => 7 case DroppingListeners => 8 case JoiningTimer => 9 case SendingKill => 10
    case JoiningManager => 11 case JoiningMain => 12 case Done => 13 case ClientFailed => 0
  }

  predicate HasReceiver(s: State) {
    !s.main.MainExited? && !s.main.MainFailed?
  }

  function Post(s: State, signal: Signal): State {
    s.(inbox := s.inbox + [signal], history := s.history.(posted := s.history.posted + [signal]))
  }

  predicate ClientEnabled(s: State) {
    match s.client
    case StopLocking => s.lock == Nobody
    case StopWaiting => s.notified
    case JoiningTimer => s.timer.TimerExited?
    case SendingKill => |s.queue| < CAPACITY || s.manager.ManagerExited?
    case JoiningManager => s.manager.ManagerExited?
    case JoiningMain => !HasReceiver(s)
    case Done => false
    case ClientFailed => false
    case _ => true
  }

  /** `start`: the flag, the timer listener, the thread. */
  function StepStart(s: State): (t: State)
    ensures t == s.(client := t.client, running := t.running, attached := t.attached, main := t.main)
  {
    match s.client
    case Ready => s.(client := Attaching, running := true)
    case Attaching => s.(client := Spawning, attached := true)
    case Spawning => s.(client := Started, main := Receiving)
    case _ => s.(client := SendingLast)
  }

  /** `stop`: a last snapshot, Terminate, and the wait for the flag. */
  function StepStop(s: State, now: nat): (t: State)
    ensures t == s.(client := t.client, lock := t.lock, notified := t.notified, inbox := t.inbox,
                    history := s.history.(posted := t.history.posted, lastAt := t.history.lastAt,
                                          stopAt := t.history.stopAt, terminateAt := t.history.terminateAt))
  {
    match s.client
    case SendingLast =>
      if !HasReceiver(s) then s.(client := ClientFailed)
      else
        var t := Post(s, NextSnapshot(now / 10 * 10 + 10));
        t.(client := SendingTerminate, history := t.history.(lastAt := |s.history.posted|, stopAt := now))
    case SendingTerminate =>
      if !HasReceiver(s) then s.(client := ClientFailed)
      else
        var t := Post(s, Terminate);
        t.(client := StopLocking, history := t.history.(terminateAt := |s.history.posted|))
    case StopLocking => s.(client := StopChecking, lock := TheClient)
    case StopChecking => s.(client := if s.running then StopWaiting else Stopped, lock := Nobody)
    case _ => s.(client := StopLocking, notified := false)
  }

  /** `shutdown`: the timer, the session manager, the main loop. */
  function StepShutdown(s: State): (t: State)
    ensures t == s.(client := t.client, attached := t.attached, listeners := t.listeners, queue := t.queue)
  {
    match s.client
    case Stopped => s.(client := DroppingListeners)
    case DroppingListeners => s.(client := JoiningTimer, attached := false, listeners := false)
    case JoiningTimer => s.(client := SendingKill)
    case SendingKill => s.(client := JoiningManager, queue := if s.manager.ManagerExited? then s.queue else s.queue + [Kill])
    case JoiningManager => s.(client := JoiningMain)
    case _ => s.(client := Done)
  }

  function StepClient(s: State, now: nat): State {
    if Progress(s.client) < 4 then StepStart(s)
    else if Progress(s.client) < 7 then StepStop(s, now)
    else StepShutdown(s)
  }

  function StepTimer(s: State): (t: State)
    ensures t == s.(timer := t.timer, inbox := t.inbox, history := s.history.(posted := t.history.posted))
  {
    match s.timer
    case Checking => s.(timer := if s.listeners then Sleeping else TimerExited)
    case Fired(from) =>
      var t := s.(timer := Checking);
      if s.attached && HasReceiver(s) then Post(t, NextSnapshot(from)) else t
    case _ => s
  }

  /** No sender into the main loop is left: neither the client's nor the timer's. */
  predicate NoSender(s: State) {
    !s.attached && !s.client.Attaching? && !s.client.Ready? && !s.client.Spawning? && !s.client.Started?
    && !s.client.SendingLast? && !s.client.SendingTerminate?
  }

  predicate MainEnabled(s: State) {
    match s.main
    case NotSpawned => false
    case Receiving => s.inbox != [] || NoSender(s)
    case Sending(_) => |s.queue| < CAPACITY || s.manager.ManagerExited?
    case Locking => s.lock == Nobody
    case MainExited => false
    case MainFailed => false
    case _ => true
  }

  function TakeSignal(s: State): State
    requires s.inbox != []
  {
    s.(inbox := s.inbox[1..], main := if s.inbox[0] == Terminate then Locking else Reporting(s.inbox[0].until))
  }

  function TakeReport(s: State, session: Session): State {
    s.(main := Sending(session), history := s.history.(handled := s.history.handled + [session]))
  }

  function StepMain(s: State, report: nat): (t: State)
    ensures t == s.(main := t.main, inbox := t.inbox, queue := t.queue, lock := t.lock, running := t.running,
                    notified := t.notified, history := s.history.(handled := t.history.handled))
  {
    match s.main
    case Receiving => if s.inbox == [] then s.(main := MainExited) else TakeSignal(s)
    case Reporting(until) => TakeReport(s, NewSession(until, report))
    case Sending(session) =>
      if s.manager.ManagerExited? then s.(main := MainFailed)
      else s.(main := Receiving, queue := s.queue + [Send(session)])
    case Locking => s.(main := Setting, lock := TheMain)
    case Setting => s.(main := Unlocking, running := false, notified := s.client.StopWaiting?)
    case Unlocking => s.(main := MainExited, lock := Nobody)
    case _ => s
  }

  predicate ManagerEnabled(s: State) {
    s.manager.Pushing? || (s.manager.Idle? && s.queue != [])
  }

  function StepManager(s: State): (t: State)
    ensures t == s.(manager := t.manager, queue := t.queue, history := s.history.(pushed := t.history.pushed))
  {
    match s.manager
    case Idle =>
      if s.queue == [] then s
      else
        s.(queue := s.queue[1..], manager := if s.queue[0] == Kill then ManagerExited else Pushing(s.queue[0].session))
    case Pushing(session) =>
      s.(manager := Idle, history := s.history.(pushed := s.history.pushed + [session]))
    case ManagerExited => s
  }

  predicate Enabled(s: State, e: Event) {
    match e
    case ClientStep(_) => ClientEnabled(s)
    case TimerStep => s.timer.Checking? || s.timer.Fired?
    case MainStep(_) => MainEnabled(s)
    case ManagerStep => ManagerEnabled(s)
    case Tick(_) => s.timer.Sleeping?
    case Interrupted => s.timer.Sleeping?
    case SpuriousWake => s.client.StopWaiting?
  }

  /** A thread that is not enabled stays where it is. */
  function Step(s: State, e: Event): State {
    if !Enabled(s, e) then s
    else
      match e
      case ClientStep(now) => StepClient(s, now)
      case TimerStep => StepTimer(s)
      case MainStep(report) => StepMain(s, report)
      case ManagerStep => StepManager(s)
      case Tick(from) => s.(timer := Fired(from / 10 * 10))
      case Interrupted => s.(timer := Checking)
      case SpuriousWake => s.(client := StopLocking, notified := false)
  }

  function Run(events: seq<Event>): State {
    if events == [] then Init() else Step(Run(events[..|events| - 1]), events[|events| - 1])
  }

  // --------------------------------------------------------------- invariants

  /** The main loop has taken the Terminate signal. */
  predicate Terminated(m: Main) {
    m.Locking? || m.Setting? || m.Unlocking? || m.MainExited?
  }

  function Snapshots(sessions: seq<Session>): (r: seq<Signal>)
    ensures |r| == |sessions|
  {
    if sessions == [] then []
    else Snapshots(sessions[..|sessions| - 1]) + [NextSnapshot(sessions[|sessions| - 1].asked)]
  }

  function Sends(sessions: seq<Session>): (r: seq<Message>)
    ensures |r| == |sessions|
  {
    if sessions == [] then []
    else [Send(sessions[0])] + Sends(sessions[1..])
  }

  function InMain(m: Main): seq<Session> {
    if m.Sending? then [m.session] else []
  }

  function InManager(m: Manager): seq<Session> {
    if m.Pushing? then [m.session] else []
  }

  /** What the main loop has taken from its channel. */
  function Consumed(s: State): seq<Signal> {
    Snapshots(s.history.handled)
    + (if s.main.Reporting? then [NextSnapshot(s.main.until)] else if Terminated(s.main) then [Terminate] else [])
  }

  /** The client and main loop agree on lock, flag and wake-up. */
  ghost predicate StopRight(s: State) {
    && (s.lock == TheMain <==> s.main.Setting? || s.main.Unlocking?)
    && (s.lock == TheClient <==> s.client.StopChecking?)
    && (s.running <==> Progress(s.client) >= 1 && !s.main.Unlocking? && !s.main.MainExited?)
    && (s.client.StopWaiting? ==> s.notified || s.running)
    && (s.notified ==> s.client.StopWaiting? && !s.running)
    && (Progress(s.client) >= 7 ==> s.main.Unlocking? || s.main.MainExited?)
    && !s.client.ClientFailed? && !s.main.MainFailed?
    && (s.main.NotSpawned? <==> Progress(s.client) < 3)
    && (s.client.Done? ==> s.main.MainExited?)
  }

  ghost predicate InboxRight(s: State) {
    && s.history.posted == Consumed(s) + s.inbox
    && (Terminated(s.main) ==> Progress(s.client) >= 6)
    && PostedRight(Progress(s.client), s.history)
  }

  /** The client has posted its last snapshot and then the one Terminate signal, or not yet. */
  ghost predicate PostedRight(progress: nat, h: History) {
    && (progress < 6 ==> Terminate !in h.posted)
    && (progress >= 6 ==> TerminateOnce(h.posted, h.terminateAt))
    && (progress >= 5 ==> h.lastAt < |h.posted| && h.posted[h.lastAt].NextSnapshot?)
    && (progress >= 6 ==> h.lastAt < h.terminateAt)
  }

  ghost predicate TerminateOnce(posted: seq<Signal>, at: nat) {
    at < |posted| && forall i | 0 <= i < |posted| :: posted[i] == Terminate <==> i == at
  }

  /** The queue holds the sessions between the manager and the main loop, then perhaps the Kill. */
  ghost predicate QueueRight(s: State, waiting: seq<Session>) {
    && s.history.handled == s.history.pushed + InManager(s.manager) + waiting + InMain(s.main)
    && s.queue == Sends(waiting) + (if Progress(s.client) >= 11 && !s.manager.ManagerExited? then [Kill] else [])
    && |s.queue| <= CAPACITY
    && (s.manager.ManagerExited? ==> Progress(s.client) >= 11 && waiting == [])
    && (Progress(s.client) >= 12 ==> s.manager.ManagerExited?)
  }

  ghost predicate QueuesRight(s: State) {
    exists waiting :: QueueRight(s, waiting)
  }

  /** The timer's listeners are there until they are dropped, and the timer is gone once it was joined. */
  ghost predicate TimerRight(s: State) {
    TimerFits(Progress(s.client), s.timer, s.attached, s.listeners)
  }

  ghost predicate TimerFits(progress: nat, timer: Timer, attached: bool, listeners: bool) {
    && (timer.TimerExited? ==> !listeners)
    && (listeners <==> progress < 9)
    && (attached <==> 2 <= progress < 9)
    && (progress >= 10 ==> timer.TimerExited?)
  }

  ghost predicate Inv(s: State) {
    StopRight(s) && InboxRight(s) && QueuesRight(s) && TimerRight(s)
  }

  // ------------------------------------------------------- every step keeps it

  lemma {:induction false} SnapshotsAt(sessions: seq<Session>, i: nat)
    requires i < |sessions|
    ensures Snapshots(sessions)[i] == NextSnapshot(sessions[i].asked)
  {
    if i < |sessions| - 1 { SnapshotsAt(sessions[..|sessions| - 1], i); }
  }

  lemma NoTerminateIn(sessions: seq<Session>)
    ensures Terminate !in Snapshots(sessions)
  {
    forall i | 0 <= i < |sessions| ensures Snapshots(sessions)[i] != Terminate { SnapshotsAt(sessions, i); }
  }

  lemma SnapshotsPush(sessions: seq<Session>, x: Session)
    ensures Snapshots(sessions + [x]) == Snapshots(sessions) + [NextSnapshot(x.asked)]
  {
    assert (sessions + [x])[..|sessions|] == sessions;
  }

  lemma {:induction false} SendsPush(sessions: seq<Session>, x: Session)
    ensures Sends(sessions + [x]) == Sends(sessions) + [Send(x)]
  {
    if sessions == [] {
      assert sessions + [x] == [x];
    } else {
      SendsPush(sessions[1..], x);
      assert (sessions + [x])[1..] == sessions[1..] + [x];
    }
  }

  /** While the main loop still receives, the Terminate signal is still on its way. */
  lemma ReceivingHasMore(s: State)
    requires InboxRight(s) && s.main.Receiving? && Progress(s.client) >= 6
    ensures s.inbox != []
  {
    NoTerminateIn(s.history.handled);
    assert s.history.posted[s.history.terminateAt] == Terminate;
    assert Consumed(s) == Snapshots(s.history.handled);
  }

  lemma StopKeptByStart(s: State)
    requires StopRight(s) && Progress(s.client) < 4 && (Terminated(s.main) ==> Progress(s.client) >= 6)
    ensures StopRight(StepStart(s))
  {
  }

  lemma StopKeptByStop(s: State, now: nat)
    requires StopRight(s) && 4 <= Progress(s.client) < 7 && ClientEnabled(s)
    requires Terminated(s.main) ==> Progress(s.client) >= 6
    ensures StopRight(StepStop(s, now))
  {
  }

  lemma StopKeptByShutdown(s: State)
    requires StopRight(s) && Progress(s.client) >= 7 && ClientEnabled(s)
    ensures StopRight(StepShutdown(s))
  {
  }

  lemma StopKeptByClient(s: State, now: nat)
    requires StopRight(s) && ClientEnabled(s) && (Terminated(s.main) ==> Progress(s.client) >= 6)
    ensures StopRight(StepClient(s, now))
  {
    if Progress(s.client) < 4 {
      StopKeptByStart(s);
    } else if Progress(s.client) < 7 {
      StopKeptByStop(s, now);
    } else {
      StopKeptByShutdown(s);
    }
  }

  lemma StopKeptByMain(s: State, report: nat)
    requires StopRight(s) && InboxRight(s) && MainEnabled(s)
    requires s.manager.ManagerExited? ==> Progress(s.client) >= 11
    ensures StopRight(StepMain(s, report))
  {
    match s.main
    case Receiving => if Progress(s.client) >= 6 { ReceivingHasMore(s); }
    case Locking =>
    case Setting =>
    case Unlocking =>
    case _ =>
  }

  lemma StopKept(s: State, e: Event)
    requires StopRight(s) && InboxRight(s) && Enabled(s, e)
    requires s.manager.ManagerExited? ==> Progress(s.client) >= 11
    ensures StopRight(Step(s, e))
  {
    match e
    case ClientStep(now) => StopKeptByClient(s, now);
    case MainStep(report) => StopKeptByMain(s, report);
    case _ =>
  }

  lemma TimerKeptByStart(s: State)
    requires TimerRight(s) && Progress(s.client) < 4 && ClientEnabled(s)
    ensures TimerRight(StepStart(s))
  {
  }

  lemma TimerKeptByStop(s: State, now: nat)
    requires TimerRight(s) && 4 <= Progress(s.client) < 7 && !StepStop(s, now).client.ClientFailed?
    ensures TimerRight(StepStop(s, now))
  {
    var t := StepStop(s, now);
    assert t.timer == s.timer && t.attached == s.attached && t.listeners == s.listeners;
  }

  lemma TimerKeptByShutdown(s: State)
    requires TimerRight(s) && Progress(s.client) >= 7 && ClientEnabled(s)
    ensures TimerRight(StepShutdown(s))
  {
  }

  lemma TimerKeptByClient(s: State, now: nat)
    requires TimerRight(s) && ClientEnabled(s) && !StepClient(s, now).client.ClientFailed?
    ensures TimerRight(StepClient(s, now))
  {
    if Progress(s.client) < 4 {
      TimerKeptByStart(s);
    } else if Progress(s.client) < 7 {
      TimerKeptByStop(s, now);
    } else {
      TimerKeptByShutdown(s);
    }
  }

  lemma TimerKeptByTimer(s: State)
    requires TimerRight(s)
    ensures TimerRight(StepTimer(s))
  {
  }

  lemma TimerKeptByMain(s: State, report: nat)
    requires TimerRight(s)
    ensures TimerRight(StepMain(s, report))
  {
  }

  lemma TimerKeptByManager(s: State)
    requires TimerRight(s)
    ensures TimerRight(StepManager(s))
  {
  }

  lemma TimerKept(s: State, e: Event)
    requires TimerRight(s) && Enabled(s, e) && !Step(s, e).client.ClientFailed?
    ensures TimerRight(Step(s, e))
  {
    match e
    case ClientStep(now) => TimerKeptByClient(s, now);
    case TimerStep => TimerKeptByTimer(s);
    case MainStep(report) => TimerKeptByMain(s, report);
    case ManagerStep => TimerKeptByManager(s);
    case _ =>
  }

  /** Posting appends to the channel and to what was posted. */
  lemma PostAppends(s: State, signal: Signal, t: State)
    requires s.history.posted == Consumed(s) + s.inbox
    requires t.main == s.main && t.history.handled == s.history.handled
    requires t.inbox == s.inbox + [signal] && t.history.posted == s.history.posted + [signal]
    ensures t.history.posted == Consumed(t) + t.inbox
  {
    assert Consumed(t) == Consumed(s);
    assert s.history.posted + [signal] == Consumed(s) + (s.inbox + [signal]);
  }

  lemma PostedPush(progress: nat, h: History, signal: Signal)
    requires PostedRight(progress, h) && signal.NextSnapshot?
    ensures PostedRight(progress, h.(posted := h.posted + [signal]))
  {
  }

  lemma LastPosted(s: State, now: nat)
    requires InboxRight(s) && s.client.SendingLast? && HasReceiver(s)
    ensures InboxRight(StepClient(s, now))
  {
    var t := StepClient(s, now);
    PostAppends(s, NextSnapshot(now / 10 * 10 + 10), t);
    PostedPush(4, s.history, NextSnapshot(now / 10 * 10 + 10));
    assert t.history.posted[t.history.lastAt] == NextSnapshot(now / 10 * 10 + 10);
  }

  lemma TerminatePosted(s: State, now: nat)
    requires InboxRight(s) && s.client.SendingTerminate? && HasReceiver(s)
    ensures InboxRight(StepClient(s, now))
  {
    var t := StepClient(s, now);
    PostAppends(s, Terminate, t);
    assert TerminateOnce(t.history.posted, |s.history.posted|);
    assert t.history.posted[s.history.lastAt] == s.history.posted[s.history.lastAt];
  }

  /** A step that neither posts nor receives. */
  lemma QuietStep(s: State, t: State)
    requires InboxRight(s) && t.inbox == s.inbox && t.history == s.history
    requires Terminated(t.main) == Terminated(s.main) && t.main.Reporting? == s.main.Reporting? == false
    requires Progress(t.client) == Progress(s.client)
          || (Progress(s.client) < Progress(t.client) < 5) || 6 <= Progress(s.client) < Progress(t.client)
    ensures InboxRight(t)
  {
    assert Consumed(t) == Consumed(s);
  }

  lemma SameMain(s: State, t: State)
    requires InboxRight(s) && t.inbox == s.inbox && t.history == s.history && t.main == s.main
    requires Progress(t.client) == Progress(s.client)
          || (Progress(s.client) < Progress(t.client) < 5) || 6 <= Progress(s.client) < Progress(t.client)
    ensures InboxRight(t)
  {
    assert Consumed(t) == Consumed(s);
  }

  /** Nothing that the channels' invariants speak about has changed but the client's place. */
  ghost predicate OnlyMoved(s: State, t: State) {
    && t.inbox == s.inbox && t.history == s.history && t.manager == s.manager && t.main == s.main
    && (!s.client.SendingKill? ==> t.queue == s.queue)
    && (Progress(t.client) == Progress(s.client)
        || (Progress(s.client) < Progress(t.client) < 5) || 6 <= Progress(s.client) < Progress(t.client))
  }

  lemma StartMoves(s: State)
    requires Progress(s.client) < 4 && ClientEnabled(s) && !s.client.Spawning?
    ensures OnlyMoved(s, StepStart(s))
  {
  }

  lemma StopMoves(s: State, now: nat)
    requires s.client.StopLocking? || s.client.StopChecking? || s.client.StopWaiting?
    ensures OnlyMoved(s, StepStop(s, now))
  {
  }

  lemma ShutdownMoves(s: State)
    requires Progress(s.client) >= 7 && ClientEnabled(s)
    ensures OnlyMoved(s, StepShutdown(s))
  {
  }

  /** Most client steps only move the client on. */
  lemma ClientMoves(s: State, now: nat)
    requires ClientEnabled(s) && !s.client.SendingLast? && !s.client.SendingTerminate? && !s.client.Spawning?
    ensures OnlyMoved(s, StepClient(s, now))
  {
    if Progress(s.client) < 4 { StartMoves(s); } else if Progress(s.client) < 7 { StopMoves(s, now); } else { ShutdownMoves(s); }
  }

  lemma InboxKeptByClient(s: State, now: nat)
    requires InboxRight(s) && StopRight(s) && ClientEnabled(s) && !StepClient(s, now).client.ClientFailed?
    ensures InboxRight(StepClient(s, now))
  {
    match s.client
    case SendingLast => LastPosted(s, now);
    case SendingTerminate => TerminatePosted(s, now);
    case Spawning => QuietStep(s, StepClient(s, now));
    case _ =>
      ClientMoves(s, now);
      SameMain(s, StepClient(s, now));
  }

  /** The main loop takes the next signal. */
  lemma Received(s: State, report: nat)
    requires InboxRight(s) && s.main.Receiving? && s.inbox != []
    ensures InboxRight(StepMain(s, report))
  {
    var t := StepMain(s, report);
    assert s.history.posted[|Consumed(s)|] == s.inbox[0];
    ReceivedConsumed(s, t);
  }

  lemma ReceivedConsumed(s: State, t: State)
    requires s.main.Receiving? && s.inbox != [] && t.history.handled == s.history.handled && t.inbox == s.inbox[1..]
    requires s.history.posted == Consumed(s) + s.inbox && t.history.posted == s.history.posted
    requires t.main == if s.inbox[0] == Terminate then Locking else Reporting(s.inbox[0].until)
    ensures t.history.posted == Consumed(t) + t.inbox
  {
    assert s.inbox == [s.inbox[0]] + s.inbox[1..];
    assert Consumed(t) == Consumed(s) + [s.inbox[0]];
  }

  lemma Reported(s: State, report: nat)
    requires InboxRight(s) && s.main.Reporting?
    ensures InboxRight(StepMain(s, report))
  {
    ReportedConsumed(s, StepMain(s, report), NewSession(s.main.until, report));
  }

  lemma ReportedConsumed(s: State, t: State, session: Session)
    requires s.main.Reporting? && session.asked == s.main.until && t.main == Sending(session)
    requires t.history.handled == s.history.handled + [session]
    ensures Consumed(t) == Consumed(s)
  {
    SnapshotsPush(s.history.handled, session);
  }

  lemma InboxKeptByMain(s: State, report: nat)
    requires InboxRight(s) && StopRight(s) && MainEnabled(s) && !StepMain(s, report).main.MainFailed?
    ensures InboxRight(StepMain(s, report))
  {
    match s.main
    case Receiving =>
      if Progress(s.client) >= 6 { ReceivingHasMore(s); }
      Received(s, report);
    case Reporting(_) => Reported(s, report);
    case _ => QuietStep(s, StepMain(s, report));
  }

  lemma InboxKeptByTimer(s: State)
    requires InboxRight(s)
    ensures InboxRight(StepTimer(s))
  {
    var t := StepTimer(s);
    if s.timer.Fired? && s.attached && HasReceiver(s) {
      PostAppends(s, NextSnapshot(s.timer.from), t);
      PostedPush(Progress(s.client), s.history, NextSnapshot(s.timer.from));
    } else {
      SameMain(s, t);
    }
  }

  lemma InboxKeptByManager(s: State)
    requires InboxRight(s)
    ensures InboxRight(StepManager(s))
  {
    var t := StepManager(s);
    assert t.main == s.main && t.client == s.client && t.inbox == s.inbox;
    assert t.history == s.history.(pushed := t.history.pushed);
    assert Consumed(t) == Consumed(s);
  }

  lemma InboxKept(s: State, e: Event)
    requires InboxRight(s) && StopRight(s) && Enabled(s, e) && StopRight(Step(s, e))
    ensures InboxRight(Step(s, e))
  {
    match e
    case ClientStep(now) => InboxKeptByClient(s, now);
    case MainStep(report) => InboxKeptByMain(s, report);
    case TimerStep => InboxKeptByTimer(s);
    case ManagerStep => InboxKeptByManager(s);
    case _ => SameMain(s, Step(s, e));
  }

  lemma SameQueue(s: State, t: State, waiting: seq<Session>)
    requires QueueRight(s, waiting) && t.history.handled == s.history.handled && t.history.pushed == s.history.pushed
    requires t.manager == s.manager && InMain(t.main) == InMain(s.main) && t.queue == s.queue
    requires Progress(t.client) >= 11 <==> Progress(s.client) >= 11
    requires Progress(t.client) >= 12 ==> Progress(s.client) >= 12 || s.manager.ManagerExited?
    ensures QueueRight(t, waiting)
  {
  }

  lemma QueueKeptByStart(s: State, waiting: seq<Session>)
    requires QueueRight(s, waiting) && StopRight(s) && Progress(s.client) < 4 && ClientEnabled(s)
    ensures QueueRight(StepStart(s), waiting)
  {
  }

  lemma QueueKeptByStop(s: State, now: nat, waiting: seq<Session>)
    requires QueueRight(s, waiting) && 4 <= Progress(s.client) < 7 && !StepStop(s, now).client.ClientFailed?
    ensures QueueRight(StepStop(s, now), waiting)
  {
    SameQueue(s, StepStop(s, now), waiting);
  }

  lemma ShutdownKeepsQueue(s: State)
    requires Progress(s.client) >= 7 && !s.client.SendingKill? && ClientEnabled(s)
    ensures var t := StepShutdown(s);
            t.queue == s.queue && Progress(t.client) >= Progress(s.client)
            && (Progress(t.client) >= 12 ==> Progress(s.client) >= 12 || s.manager.ManagerExited?)
            && (Progress(t.client) >= 11 ==> Progress(s.client) >= 11)
  {
  }

  lemma QueueKeptByShutdown(s: State, waiting: seq<Session>)
    requires QueueRight(s, waiting) && Progress(s.client) >= 7 && ClientEnabled(s)
    ensures QueueRight(StepShutdown(s), waiting)
  {
    if s.client.SendingKill? {
      KillSent(s, waiting);
    } else {
      ShutdownKeepsQueue(s);
      SameQueue(s, StepShutdown(s), waiting);
    }
  }

  lemma QueueKeptByClient(s: State, now: nat, waiting: seq<Session>)
    requires QueueRight(s, waiting) && StopRight(s) && ClientEnabled(s) && !StepClient(s, now).client.ClientFailed?
    ensures QueueRight(StepClient(s, now), waiting)
  {
    if Progress(s.client) < 4 {
      QueueKeptByStart(s, waiting);
    } else if Progress(s.client) < 7 {
      QueueKeptByStop(s, now, waiting);
    } else {
      QueueKeptByShutdown(s, waiting);
    }
  }

  lemma KillSent(s: State, waiting: seq<Session>)
    requires QueueRight(s, waiting) && ClientEnabled(s) && s.client.SendingKill?
    ensures QueueRight(StepShutdown(s), waiting)
  {
  }

  lemma ManagerTakes(s: State, waiting: seq<Session>)
    requires QueueRight(s, waiting) && s.manager.Idle? && waiting != []
    ensures QueueRight(StepManager(s), waiting[1..])
  {
    assert waiting == [waiting[0]] + waiting[1..];
    assert s.queue[0] == Send(waiting[0]);
    assert s.queue[1..] == Sends(waiting[1..]) + (if Progress(s.client) >= 11 then [Kill] else []);
  }

  lemma ManagerQuits(s: State)
    requires QueueRight(s, []) && s.manager.Idle? && s.queue != []
    ensures QueueRight(StepManager(s), [])
  {
    assert s.queue == [Kill];
  }

  lemma ManagerPushed(s: State, waiting: seq<Session>)
    requires QueueRight(s, waiting) && s.manager.Pushing?
    ensures QueueRight(StepManager(s), waiting)
  {
  }

  lemma QueueKeptByManager(s: State, waiting: seq<Session>) returns (left: seq<Session>)
    requires QueueRight(s, waiting) && ManagerEnabled(s)
    ensures QueueRight(StepManager(s), left)
  {
    left := waiting;
    if s.manager.Pushing? {
      ManagerPushed(s, waiting);
    } else if waiting == [] {
      ManagerQuits(s);
    } else {
      ManagerTakes(s, waiting);
      left := waiting[1..];
    }
  }

  lemma QueueKeptByMain(s: State, report: nat, waiting: seq<Session>) returns (more: seq<Session>)
    requires QueueRight(s, waiting) && StopRight(s) && MainEnabled(s) && !StepMain(s, report).main.MainFailed?
    requires Terminated(s.main) || Progress(s.client) < 11
    ensures QueueRight(StepMain(s, report), more)
  {
    more := waiting;
    if s.main.Sending? {
      SendsPush(waiting, s.main.session);
      more := waiting + [s.main.session];
    }
  }

  lemma QueueKeptByTimer(s: State, waiting: seq<Session>)
    requires QueueRight(s, waiting)
    ensures QueueRight(StepTimer(s), waiting)
  {
    var t := StepTimer(s);
    assert t.queue == s.queue && t.manager == s.manager && t.main == s.main && t.client == s.client;
    assert t.history.handled == s.history.handled && t.history.pushed == s.history.pushed;
  }

  lemma QueueKeptByWake(s: State, waiting: seq<Session>)
    requires QueueRight(s, waiting) && s.client.StopWaiting?
    ensures QueueRight(s.(client := StopLocking, notified := false), waiting)
  {
  }

  lemma QueuesKept(s: State, e: Event)
    requires QueuesRight(s) && StopRight(s) && Enabled(s, e) && StopRight(Step(s, e))
    ensures QueuesRight(Step(s, e))
  {
    var waiting :| QueueRight(s, waiting);
    match e
    case ManagerStep =>
      var left := QueueKeptByManager(s, waiting);
    case MainStep(report) =>
      var more := QueueKeptByMain(s, report, waiting);
    case ClientStep(now) => QueueKeptByClient(s, now, waiting);
    case TimerStep => QueueKeptByTimer(s, waiting);
    case SpuriousWake => QueueKeptByWake(s, waiting);
    case _ => SameQueue(s, Step(s, e), waiting);
  }

  lemma StepKeeps(s: State, e: Event)
    requires Inv(s)
    ensures Inv(Step(s, e))
  {
    if Enabled(s, e) {
      var waiting :| QueueRight(s, waiting);
      StopKept(s, e);
      TimerKept(s, e);
      InboxKept(s, e);
      QueuesKept(s, e);
    }
  }

  lemma {:induction false} RunRight(events: seq<Event>)
    ensures Inv(Run(events))
  {
    if events == [] {
      assert QueueRight(Init(), []);
    } else {
      RunRight(events[..|events| - 1]);
      StepKeeps(Run(events[..|events| - 1]), events[|events| - 1]);
    }
  }

  // ------------------------------------------------------------- what it means

  /**
   At any moment of any run, the sessions made so far are, in order, those that were
   pushed, the one being pushed, those in the queue and the one that waits to get in;
   and they answer, one each and in order, the first snapshot signals that were posted.
   */
  lemma SessionsInOrder(events: seq<Event>) returns (waiting: seq<Session>)
    ensures var s := Run(events);
            && s.history.handled == s.history.pushed + InManager(s.manager) + waiting + InMain(s.main)
            && Sends(waiting) <= s.queue && |s.queue| <= CAPACITY
            && Snapshots(s.history.handled) <= s.history.posted
  {
    RunRight(events);
    waiting :| QueueRight(Run(events), waiting);
  }

  /** Once Terminate is taken, exactly the snapshots before it have been handled. */
  lemma TerminatedHandledAll(s: State)
    requires InboxRight(s) && Terminated(s.main)
    ensures var h := s.history;
            h.terminateAt == |h.handled| < |h.posted| && h.posted[..h.terminateAt] == Snapshots(h.handled)
  {
    assert Consumed(s)[|s.history.handled|] == Terminate;
    assert s.history.posted[|s.history.handled|] == Terminate;
  }

  /**
   When `stop` has returned, all that was posted before Terminate has become a
   session, the client's last snapshot among them, and each of these sessions has
   been put into the queue.
   */
  lemma StopReturnsAfterLastSession(events: seq<Event>) returns (waiting: seq<Session>)
    requires Progress(Run(events).client) >= Progress(Stopped)
    ensures var s := Run(events); var h := s.history;
            && h.terminateAt < |h.posted| && h.posted[h.terminateAt] == Terminate
            && h.posted[..h.terminateAt] == Snapshots(h.handled)
            && h.lastAt < h.terminateAt && h.posted[h.lastAt] == NextSnapshot(h.handled[h.lastAt].asked)
            && h.handled == h.pushed + InManager(s.manager) + waiting && Sends(waiting) <= s.queue
  {
    RunRight(events);
    var s := Run(events);
    waiting :| QueueRight(s, waiting);
    TerminatedHandledAll(s);
    SnapshotsAt(s.history.handled, s.history.lastAt);
    assert s.history.posted[s.history.lastAt] == s.history.posted[..s.history.terminateAt][s.history.lastAt];
  }

  /** The manager does not exit before it has pushed every session there will ever be. */
  lemma ManagerExitsLast(events: seq<Event>)
    requires Run(events).manager.ManagerExited?
    ensures var h := Run(events).history;
            && h.pushed == h.handled && h.terminateAt < |h.posted|
            && h.posted[..h.terminateAt] == Snapshots(h.pushed)
  {
    RunRight(events);
    var s := Run(events);
    var waiting :| QueueRight(s, waiting);
    TerminatedHandledAll(s);
  }

  /** After `shutdown` all three threads have exited. */
  lemma ShutdownJoinsAll(events: seq<Event>)
    requires Run(events).client.Done?
    ensures var s := Run(events); s.timer.TimerExited? && s.manager.ManagerExited? && s.main.MainExited?
  {
    RunRight(events);
    DoneMeans(Run(events));
  }

  lemma DoneMeans(s: State)
    requires StopRight(s) && TimerRight(s) && QueuesRight(s) && s.client.Done?
    ensures s.timer.TimerExited? && s.manager.ManagerExited? && s.main.MainExited?
  {
    var waiting :| QueueRight(s, waiting);
  }

  /**
   No reachable state is stuck: until the client is done some thread can take a step,
   without help from a spurious wake-up, and only `shutdown` joining the timer may have
   to wait for the clock.
   */
  lemma NeverStuck(events: seq<Event>) returns (e: Event)
    requires !Run(events).client.Done?
    ensures Enabled(Run(events), e) && !e.SpuriousWake? && !e.Interrupted?
    ensures e.Tick? ==> Run(events).client.JoiningTimer?
  {
    RunRight(events);
    var s := Run(events);
    e := ClientStep(0);
    if !ClientEnabled(s) {
      if s.client.StopWaiting? {
        e := MainWorks(s);
      } else if s.client.JoiningTimer? {
        e := if s.timer.Sleeping? then Tick(0) else TimerStep;
      } else if s.client.SendingKill? {
        e := ManagerStep;
      } else if s.client.JoiningManager? {
        e := KillArrives(s);
      } else {
        e := MainStep(0);
      }
    }
  }

  /** While `stop` waits, the main loop can go on, or the manager makes room for it. */
  lemma MainWorks(s: State) returns (e: Event)
    requires Inv(s) && s.client.StopWaiting? && !s.notified
    ensures Enabled(s, e) && (e.MainStep? || e.ManagerStep?)
  {
    if s.main.Receiving? { ReceivingHasMore(s); }
    var waiting :| QueueRight(s, waiting);
    e := if MainEnabled(s) then MainStep(0) else ManagerStep;
  }

  lemma KillArrives(s: State) returns (e: Event)
    requires QueuesRight(s) && s.client.JoiningManager?
    ensures Enabled(s, e) && (e.ClientStep? || e.ManagerStep?)
  {
    var waiting :| QueueRight(s, waiting);
    e := if s.manager.ManagerExited? then ClientStep(0) else ManagerStep;
  }

  // -------------------------------------------------------- how long it can last

  function ClientWork(c: Client, running: bool): nat {
    match c
    case Ready => 44 case Attaching => 43 case Spawning => 42 case Started => 41
    case SendingLast => 40 case SendingTerminate => 33
    case StopLocking => if running then 26 else 23
    case StopChecking => if running then 25 else 22
    case StopWaiting => 24
    case Stopped => 21 case DroppingListeners => 20 case JoiningTimer => 7 case SendingKill => 6
    case JoiningManager => 2 case JoiningMain => 1 case Done => 0 case ClientFailed => 0
  }

  /** Without listeners the timer needs one more tick at most. */
  function TimerWork(t: Timer, listeners: bool): nat {
    match t
    case Checking => if listeners then 2 else 1
    case Sleeping => if listeners then 1 else 12
    case Fired(_) => if listeners then 9 else 11
    case TimerExited => 0
  }

  function MainWork(m: Main): nat {
    match m
    case Reporting(_) => 5 case Sending(_) => 4
    case Locking => 5 case Setting => 4 case Unlocking => 3
    case _ => 0
  }

  function ManagerWork(m: Manager): nat {
    if m.Pushing? then 2 else 0
  }

  /** An upper bound of the steps that all threads together can still take without the outside. */
  function Work(s: State): nat {
    ClientWork(s.client, s.running) + TimerWork(s.timer, s.listeners) + MainWork(s.main) + ManagerWork(s.manager)
    + 6 * |s.inbox| + 3 * |s.queue|
  }

  predicate Outside(e: Event) {
    e.Tick? || e.Interrupted? || e.SpuriousWake?
  }

  lemma StartWorks(s: State)
    requires Progress(s.client) < 4 && ClientEnabled(s) && (s.client.Ready? ==> !s.running) && (s.client.Spawning? ==> s.main.NotSpawned?)
    ensures Work(StepStart(s)) < Work(s)
  {
  }

  lemma StopWorks(s: State, now: nat)
    requires 4 <= Progress(s.client) < 7 && ClientEnabled(s) && (s.notified ==> !s.running)
    ensures Work(StepStop(s, now)) < Work(s)
  {
  }

  lemma DropWorks(s: State)
    requires s.client.DroppingListeners?
    ensures Work(StepShutdown(s)) < Work(s)
  {
    assert TimerWork(s.timer, false) <= TimerWork(s.timer, s.listeners) + 11;
  }

  lemma KillWorks(s: State)
    requires s.client.SendingKill?
    ensures Work(StepShutdown(s)) < Work(s)
  {
  }

  lemma ShutdownWorks(s: State)
    requires Progress(s.client) >= 7 && ClientEnabled(s)
    ensures Work(StepShutdown(s)) < Work(s)
  {
    if s.client.DroppingListeners? {
      DropWorks(s);
    } else if s.client.SendingKill? {
      KillWorks(s);
    } else {
      assert StepShutdown(s) == s.(client := StepShutdown(s).client);
    }
  }

  lemma MainWorkGoesDown(s: State, report: nat)
    requires MainEnabled(s) && (s.main.Receiving? ==> s.inbox != [])
    ensures Work(StepMain(s, report)) < Work(s)
  {
  }

  lemma ManagerWorks(s: State)
    requires ManagerEnabled(s)
    ensures Work(StepManager(s)) < Work(s)
  {
  }

  lemma TimerWorks(s: State)
    requires (s.timer.Checking? || s.timer.Fired?) && (s.attached ==> s.listeners)
    ensures Work(StepTimer(s)) < Work(s)
  {
  }

  lemma OutsideWorks(s: State, e: Event)
    requires Outside(e) && Enabled(s, e)
    ensures Work(Step(s, e)) <= Work(s) + 8
    ensures e.Tick? && !s.listeners ==> Work(Step(s, e)) < Work(s)
  {
  }

  lemma ThreadWorks(s: State, e: Event)
    requires Inv(s) && Enabled(s, e) && !Outside(e)
    ensures Work(Step(s, e)) < Work(s)
  {
    match e
    case ClientStep(now) =>
      if Progress(s.client) < 4 {
        StartWorks(s);
      } else if Progress(s.client) < 7 {
        StopWorks(s, now);
      } else {
        ShutdownWorks(s);
      }
    case MainStep(report) =>
      if s.main.Receiving? && Progress(s.client) >= 6 { ReceivingHasMore(s); }
      MainWorkGoesDown(s, report);
    case ManagerStep => ManagerWorks(s);
    case TimerStep => TimerWorks(s);
  }

  /**
   Every thread step uses up work; a tick, an interrupt or a spurious wake-up adds at
   most eight, and a tick without listeners nothing.
   */
  lemma StepWorks(s: State, e: Event)
    requires Inv(s) && Enabled(s, e)
    ensures if Outside(e) then Work(Step(s, e)) <= Work(s) + 8 else Work(Step(s, e)) < Work(s)
  {
    if Outside(e) { OutsideWorks(s, e); } else { ThreadWorks(s, e); }
  }

  ghost predicate AllEnabled(events: seq<Event>) {
    events == [] || (AllEnabled(events[..|events| - 1]) && Enabled(Run(events[..|events| - 1]), events[|events| - 1]))
  }

  function OutsideCount(events: seq<Event>): nat {
    if events == [] then 0
    else OutsideCount(events[..|events| - 1]) + if Outside(events[|events| - 1]) then 1 else 0
  }

  /** With finitely many ticks, interrupts and spurious wake-ups every run is finite. */
  lemma {:induction false} RunsAreBounded(events: seq<Event>)
    requires AllEnabled(events)
    ensures |events| + Work(Run(events)) <= 46 + 9 * OutsideCount(events)
  {
    if events != [] {
      var n := |events| - 1;
      RunsAreBounded(events[..n]);
      RunRight(events[..n]);
      StepWorks(Run(events[..n]), events[n]);
    }
  }

  /** The first `n` events that a scheduler picks. */
  function Scheduled(pick: seq<Event> -> Event, n: nat): (events: seq<Event>)
    ensures |events| == n
  {
    if n == 0 then [] else Scheduled(pick, n - 1) + [pick(Scheduled(pick, n - 1))]
  }

  lemma {:induction false} ScheduledEnabled(pick: seq<Event> -> Event, n: nat)
    requires forall k: nat | k < n :: Enabled(Run(Scheduled(pick, k)), pick(Scheduled(pick, k)))
    ensures AllEnabled(Scheduled(pick, n))
  {
    if n > 0 {
      ScheduledEnabled(pick, n - 1);
      assert Scheduled(pick, n)[..n - 1] == Scheduled(pick, n - 1);
    }
  }

  /**
   `stop` and `shutdown` return under every scheduler that goes on while it can and
   takes at most `outside` ticks, interrupts and spurious wake-ups.
   */
  lemma EverySchedulerFinishes(pick: seq<Event> -> Event, outside: nat) returns (n: nat)
    requires forall k: nat | !Run(Scheduled(pick, k)).client.Done? :: Enabled(Run(Scheduled(pick, k)), pick(Scheduled(pick, k)))
    requires forall k: nat :: OutsideCount(Scheduled(pick, k)) <= outside
    ensures n <= 47 + 9 * outside && Run(Scheduled(pick, n)).client.Done?
  {
    n := 0;
    while !Run(Scheduled(pick, n)).client.Done?
      invariant AllEnabled(Scheduled(pick, n)) && n <= 47 + 9 * outside
      decreases 47 + 9 * outside - n
    {
      RunsAreBounded(Scheduled(pick, n));
      assert Scheduled(pick, n + 1)[..n] == Scheduled(pick, n);
      n := n + 1;
    }
  }

  /** The events continue the run, each enabled, without spurious wake-ups or interrupts, and tick only for the timer to be joined. */
  ghost predicate Continues(events: seq<Event>, more: seq<Event>)
    decreases |more|
  {
    more == [] ||
    var s, e := Run(events), more[0];
    && Enabled(s, e) && !e.SpuriousWake? && !e.Interrupted? && (e.Tick? ==> s.client.JoiningTimer?)
    && Continues(events + [e], more[1..])
  }

  lemma RunPush(events: seq<Event>, e: Event)
    ensures Run(events + [e]) == Step(Run(events), e)
  {
    assert (events + [e])[..|events|] == events;
  }

  /** A step that brings the run nearer to its end. */
  lemma NextStep(events: seq<Event>) returns (e: Event)
    requires !Run(events).client.Done?
    ensures Continues(events, [e]) && Work(Run(events + [e])) < Work(Run(events))
  {
    e := NeverStuck(events);
    RunRight(events);
    RunPush(events, e);
    if e.Tick? { OutsideWorks(Run(events), e); } else { ThreadWorks(Run(events), e); }
  }

  lemma ContinuesBoth(events: seq<Event>, e: Event, rest: seq<Event>)
    requires Continues(events, [e]) && Continues(events + [e], rest)
    ensures Continues(events, [e] + rest) && events + ([e] + rest) == events + [e] + rest
  {
    var more := [e] + rest;
    assert more[0] == e && more[1..] == rest;
  }

  /** Such schedulers exist: every run can be continued to its end. */
  lemma {:induction false} CanFinish(events: seq<Event>) returns (more: seq<Event>)
    ensures Continues(events, more) && Run(events + more).client.Done?
    decreases Work(Run(events))
  {
    if Run(events).client.Done? {
      more := [];
      assert events + more == events;
    } else {
      var e := NextStep(events);
      var rest := CanFinish(events + [e]);
      more := [e] + rest;
      ContinuesBoth(events, e, rest);
    }
  }

  // ------------------------------------------------------------------- windows

  /** Some tick was at a time whose ten-second slot begins then. */
  ghost predicate FromTick(events: seq<Event>, time: nat) {
    exists k :: 0 <= k < |events| && events[k].Tick? && events[k].from / 10 * 10 == time
  }

  /** Where the signal of `stop` is; -1 before it is posted. */
  function LastIndex(s: State): int {
    if Progress(s.client) >= 5 then s.history.lastAt else -1
  }

  ghost predicate SignalAtTick(last: int, posted: seq<Signal>, events: seq<Event>, i: nat)
    requires i < |posted|
  {
    posted[i].NextSnapshot? && i != last ==> FromTick(events, posted[i].until)
  }

  /** The signal of `stop` ends the slot of its clock, every other begins the slot of a tick. */
  ghost predicate SignalsRight(last: int, posted: seq<Signal>, stopAt: nat, events: seq<Event>) {
    && (last >= 0 ==> last < |posted| && posted[last] == NextSnapshot(stopAt / 10 * 10 + 10))
    && forall i | 0 <= i < |posted| :: SignalAtTick(last, posted, events, i)
  }

  ghost predicate AllNew(sessions: seq<Session>) {
    forall i | 0 <= i < |sessions| :: sessions[i] == NewSession(sessions[i].asked, sessions[i].report)
  }

  ghost predicate ClocksRight(s: State, events: seq<Event>) {
    && SignalsRight(LastIndex(s), s.history.posted, s.history.stopAt, events) && AllNew(s.history.handled)
    && (s.timer.Fired? ==> FromTick(events, s.timer.from))
  }

  lemma FromTickPush(events: seq<Event>, e: Event, time: nat)
    requires FromTick(events, time) || (e.Tick? && e.from / 10 * 10 == time)
    ensures FromTick(events + [e], time)
  {
    if FromTick(events, time) {
      var k :| 0 <= k < |events| && events[k].Tick? && events[k].from / 10 * 10 == time;
      assert (events + [e])[k] == events[k];
    } else {
      assert (events + [e])[|events|] == e;
    }
  }

  lemma SignalsRightPush(last: int, posted: seq<Signal>, stopAt: nat, events: seq<Event>, e: Event)
    requires SignalsRight(last, posted, stopAt, events)
    ensures SignalsRight(last, posted, stopAt, events + [e])
  {
    forall i | 0 <= i < |posted| ensures SignalAtTick(last, posted, events + [e], i) {
      assert SignalAtTick(last, posted, events, i);
      if posted[i].NextSnapshot? && i != last { FromTickPush(events, e, posted[i].until); }
    }
  }

  lemma ClocksRightPush(s: State, events: seq<Event>, e: Event)
    requires ClocksRight(s, events)
    ensures ClocksRight(s, events + [e])
  {
    SignalsRightPush(LastIndex(s), s.history.posted, s.history.stopAt, events, e);
    if s.timer.Fired? { FromTickPush(events, e, s.timer.from); }
  }

  /** Posting a signal that is Terminate, or a tick's, or the one of `stop`. */
  lemma SignalsPosted(last: int, posted: seq<Signal>, stopAt: nat, events: seq<Event>, signal: Signal)
    requires SignalsRight(last, posted, stopAt, events)
    requires signal.NextSnapshot? ==> FromTick(events, signal.until)
    ensures SignalsRight(last, posted + [signal], stopAt, events)
  {
    forall i | 0 <= i < |posted + [signal]| ensures SignalAtTick(last, posted + [signal], events, i) {
      if i < |posted| { assert SignalAtTick(last, posted, events, i); }
    }
  }

  lemma LastSignalPosted(posted: seq<Signal>, stopAt: nat, events: seq<Event>, now: nat)
    requires SignalsRight(-1, posted, stopAt, events)
    ensures SignalsRight(|posted|, posted + [NextSnapshot(now / 10 * 10 + 10)], now, events)
  {
    var more := posted + [NextSnapshot(now / 10 * 10 + 10)];
    forall i | 0 <= i < |more| ensures SignalAtTick(|posted|, more, events, i) {
      if i < |posted| { assert SignalAtTick(-1, posted, events, i); }
    }
  }

  lemma LastKeepsClocks(s: State, events: seq<Event>, now: nat)
    requires ClocksRight(s, events) && s.client.SendingLast? && HasReceiver(s)
    ensures ClocksRight(StepStop(s, now), events)
  {
    LastSignalPosted(s.history.posted, s.history.stopAt, events, now);
  }

  lemma TerminateKeepsClocks(s: State, events: seq<Event>, now: nat)
    requires ClocksRight(s, events) && s.client.SendingTerminate? && HasReceiver(s)
    ensures ClocksRight(StepStop(s, now), events)
  {
    SignalsPosted(LastIndex(s), s.history.posted, s.history.stopAt, events, Terminate);
  }

  lemma StopKeepsClocks(s: State, events: seq<Event>, now: nat)
    requires ClocksRight(s, events) && 4 <= Progress(s.client) < 7 && !StepStop(s, now).client.ClientFailed?
    ensures ClocksRight(StepStop(s, now), events)
  {
    match s.client
    case SendingLast => LastKeepsClocks(s, events, now);
    case SendingTerminate => TerminateKeepsClocks(s, events, now);
    case _ =>
  }

  lemma ClientKeepsClocks(s: State, events: seq<Event>, now: nat)
    requires ClocksRight(s, events) && ClientEnabled(s) && !StepClient(s, now).client.ClientFailed?
    ensures ClocksRight(StepClient(s, now), events)
  {
    if Progress(s.client) < 4 {
      assert LastIndex(StepStart(s)) == LastIndex(s);
    } else if Progress(s.client) < 7 {
      StopKeepsClocks(s, events, now);
    } else {
      assert LastIndex(StepShutdown(s)) == LastIndex(s);
    }
  }

  lemma TimerKeepsClocks(s: State, events: seq<Event>)
    requires ClocksRight(s, events)
    ensures ClocksRight(StepTimer(s), events)
  {
    if s.timer.Fired? && s.attached && HasReceiver(s) {
      SignalsPosted(LastIndex(s), s.history.posted, s.history.stopAt, events, NextSnapshot(s.timer.from));
    }
  }

  lemma MainKeepsClocks(s: State, events: seq<Event>, report: nat)
    requires ClocksRight(s, events) && MainEnabled(s)
    ensures ClocksRight(StepMain(s, report), events)
  {
  }

  lemma OutsideKeepsClocks(s: State, events: seq<Event>, e: Event)
    requires ClocksRight(s, events + [e]) && Enabled(s, e) && (e.Tick? || e.Interrupted? || e.SpuriousWake? || e.ManagerStep?)
    ensures ClocksRight(Step(s, e), events + [e])
  {
    if e.Tick? {
      assert (events + [e])[|events|] == e;
      assert FromTick(events + [e], e.from / 10 * 10);
    }
  }

  lemma StepKeepsClocks(s: State, events: seq<Event>, e: Event)
    requires ClocksRight(s, events) && !Step(s, e).client.ClientFailed?
    ensures ClocksRight(Step(s, e), events + [e])
  {
    ClocksRightPush(s, events, e);
    if Enabled(s, e) {
      match e
      case ClientStep(now) => ClientKeepsClocks(s, events + [e], now);
      case TimerStep => TimerKeepsClocks(s, events + [e]);
      case MainStep(report) => MainKeepsClocks(s, events + [e], report);
      case _ => OutsideKeepsClocks(s, events, e);
    }
  }

  lemma {:induction false} RunKeepsClocks(events: seq<Event>)
    ensures ClocksRight(Run(events), events)
  {
    if events != [] {
      var n := |events| - 1;
      RunKeepsClocks(events[..n]);
      RunRight(events);
      StepKeepsClocks(Run(events[..n]), events[..n], events[n]);
      assert events == events[..n] + [events[n]];
    }
  }

  predicate IsWindow(session: Session, time: int) {
    session.from == time - 10 && session.until == time
  }

  lemma WindowOfSlot(slot: nat, report: nat)
    ensures IsWindow(NewSession(slot * 10, report), slot * 10)
  {
  }

  /** Sessions are made by `NewSession` for the signals posted, in order. */
  lemma SessionOfSignal(events: seq<Event>, i: nat)
    requires i < |Run(events).history.handled|
    ensures var h := Run(events).history;
            i < |h.posted| && h.posted[i].NextSnapshot? && h.handled[i] == NewSession(h.posted[i].until, h.handled[i].report)
  {
    RunKeepsClocks(events);
    var waiting := SessionsInOrder(events);
    SnapshotsAt(Run(events).history.handled, i);
  }

  ghost predicate WindowOfTick(events: seq<Event>, session: Session) {
    exists k :: 0 <= k < |events| && events[k].Tick? && IsWindow(session, events[k].from / 10 * 10)
  }

  /**
   In every run the i-th session has the ten seconds before the slot of a tick for its
   window, unless it is the one that `stop` asked for: this has the slot of the clock
   that `stop` has read.
   */
  lemma SessionWindows(events: seq<Event>, i: nat, session: Session, stopAt: nat)
    requires i < |Run(events).history.handled| && session == Run(events).history.handled[i]
    requires stopAt == Run(events).history.stopAt
    ensures if i == LastIndex(Run(events))
            then IsWindow(session, stopAt / 10 * 10 + 10) && session.from <= stopAt < session.until
            else WindowOfTick(events, session)
  {
    RunKeepsClocks(events);
    SessionOfSignal(events, i);
    var posted := Run(events).history.posted;
    if i == LastIndex(Run(events)) {
      WindowOfSlot(stopAt / 10 + 1, session.report);
    } else {
      assert SignalAtTick(LastIndex(Run(events)), posted, events, i);
      var k :| 0 <= k < |events| && events[k].Tick? && events[k].from / 10 * 10 == posted[i].until;
      WindowOfSlot(events[k].from / 10, session.report);
    }
  }

  // ------------------------------------------------------ reports and signals

  /** What the backend answered, in order, while the main loop asked for a report. */
  function Answers(events: seq<Event>): seq<nat> {
    if events == [] then []
    else
      var init, last := events[..|events| - 1], events[|events| - 1];
      Answers(init) + if last.MainStep? && Run(init).main.Reporting? then [last.report] else []
  }

  ghost predicate Carries(sessions: seq<Session>, answers: seq<nat>) {
    |sessions| == |answers| && forall i | 0 <= i < |sessions| :: sessions[i].report == answers[i]
  }

  lemma HandledStep(s: State, e: Event)
    requires Enabled(s, e)
    ensures var more := Step(s, e).history.handled;
            if e.MainStep? && s.main.Reporting?
            then |more| == |s.history.handled| + 1 && more[..|s.history.handled|] == s.history.handled
                 && more[|s.history.handled|].report == e.report
            else more == s.history.handled
  {
  }

  lemma ReportingEnabled(s: State, e: Event)
    requires !Enabled(s, e)
    ensures !(e.MainStep? && s.main.Reporting?)
  {
  }

  /** In every run the i-th session carries the i-th report that the backend gave. */
  lemma {:induction false} SessionsCarryReports(events: seq<Event>)
    ensures Carries(Run(events).history.handled, Answers(events))
  {
    if events != [] {
      var init, e := events[..|events| - 1], events[|events| - 1];
      SessionsCarryReports(init);
      if Enabled(Run(init), e) {
        HandledStep(Run(init), e);
        CarriesMore(Run(init).history.handled, Run(events).history.handled, Answers(init), Answers(events));
      } else {
        ReportingEnabled(Run(init), e);
      }
    }
  }

  lemma CarriesMore(before: seq<Session>, after: seq<Session>, answers: seq<nat>, more: seq<nat>)
    requires Carries(before, answers)
    requires (after == before && more == answers)
          || (|after| == |before| + 1 && after[..|before|] == before && more == answers + [after[|before|].report])
    ensures Carries(after, more)
  {
    forall i | 0 <= i < |after| ensures after[i].report == more[i] {
      if i < |before| { assert after[i] == after[..|before|][i]; }
    }
  }

  /** The client has attached the listener and not dropped it, and the main loop can still hear it. */
  predicate Listening(s: State) {
    2 <= Progress(s.client) < 9 && HasReceiver(s)
  }

  /** The slots of the ticks that fired while the agent was listening, in order. */
  function TicksHeard(events: seq<Event>): seq<nat> {
    if events == [] then []
    else
      var init, last := events[..|events| - 1], events[|events| - 1];
      var s := Run(init);
      TicksHeard(init) + if last.TimerStep? && s.timer.Fired? && Listening(s) then [s.timer.from] else []
  }

  /** The times of the signals, without the one of `stop` and without Terminate. */
  function TimesOf(posted: seq<Signal>, last: int): seq<nat> {
    if posted == [] then []
    else
      var m := |posted| - 1;
      TimesOf(posted[..m], last) + if m != last && posted[m].NextSnapshot? then [posted[m].until] else []
  }

  lemma TimesPush(posted: seq<Signal>, last: int, signal: Signal)
    ensures TimesOf(posted + [signal], last)
         == TimesOf(posted, last) + if |posted| != last && signal.NextSnapshot? then [signal.until] else []
  {
    assert (posted + [signal])[..|posted|] == posted;
  }

  lemma {:induction false} TimesIgnore(posted: seq<Signal>, a: int, b: int)
    requires a < 0 || a >= |posted|
    requires b < 0 || b >= |posted|
    ensures TimesOf(posted, a) == TimesOf(posted, b)
  {
    if posted != [] { TimesIgnore(posted[..|posted| - 1], a, b); }
  }

  lemma LastTimes(s: State, now: nat, t: State)
    requires s.client.SendingLast? && HasReceiver(s) && t == StepStop(s, now)
    ensures TimesOf(t.history.posted, LastIndex(t)) == TimesOf(s.history.posted, LastIndex(s))
  {
    TimesPush(s.history.posted, LastIndex(t), NextSnapshot(now / 10 * 10 + 10));
    TimesIgnore(s.history.posted, LastIndex(t), LastIndex(s));
  }

  lemma TerminateTimes(s: State, now: nat, t: State)
    requires s.client.SendingTerminate? && HasReceiver(s) && t == StepStop(s, now)
    ensures TimesOf(t.history.posted, LastIndex(t)) == TimesOf(s.history.posted, LastIndex(s))
  {
    TimesPush(s.history.posted, LastIndex(t), Terminate);
  }

  lemma WaitTimes(s: State, now: nat, t: State)
    requires s.client.StopLocking? || s.client.StopChecking? || s.client.StopWaiting?
    requires t == StepStop(s, now)
    ensures t.history == s.history && LastIndex(t) == LastIndex(s)
  {
  }

  lemma StopTimes(s: State, now: nat, t: State)
    requires 4 <= Progress(s.client) < 7 && t == StepStop(s, now) && !t.client.ClientFailed?
    ensures TimesOf(t.history.posted, LastIndex(t)) == TimesOf(s.history.posted, LastIndex(s))
  {
    match s.client
    case SendingLast => LastTimes(s, now, t);
    case SendingTerminate => TerminateTimes(s, now, t);
    case _ => WaitTimes(s, now, t);
  }

  lemma StartTimes(s: State)
    requires Progress(s.client) < 4 && !s.client.ClientFailed?
    ensures StepStart(s).history == s.history && LastIndex(StepStart(s)) == LastIndex(s)
  {
  }

  lemma ShutdownTimes(s: State)
    requires Progress(s.client) >= 7
    ensures StepShutdown(s).history == s.history && LastIndex(StepShutdown(s)) == LastIndex(s)
  {
  }

  lemma ClientTimes(s: State, now: nat, t: State)
    requires ClientEnabled(s) && t == StepClient(s, now) && !t.client.ClientFailed?
    ensures TimesOf(t.history.posted, LastIndex(t)) == TimesOf(s.history.posted, LastIndex(s))
  {
    if Progress(s.client) < 4 {
      StartTimes(s);
    } else if Progress(s.client) < 7 {
      StopTimes(s, now, t);
    } else {
      ShutdownTimes(s);
    }
  }

  lemma TimerTimes(s: State, t: State)
    requires t == StepTimer(s) && TimerRight(s) && (LastIndex(s) >= 0 ==> LastIndex(s) < |s.history.posted|)
    ensures TimesOf(t.history.posted, LastIndex(t))
         == TimesOf(s.history.posted, LastIndex(s)) + if s.timer.Fired? && Listening(s) then [s.timer.from] else []
  {
    if s.timer.Fired? { TimesPush(s.history.posted, LastIndex(s), NextSnapshot(s.timer.from)); }
  }

  lemma OtherTimes(s: State, e: Event)
    requires Enabled(s, e) && !e.ClientStep? && !e.TimerStep?
    ensures Step(s, e).history.posted == s.history.posted && LastIndex(Step(s, e)) == LastIndex(s)
  {
  }

  lemma StepTimes(s: State, e: Event, t: State)
    requires Enabled(s, e) && t == Step(s, e) && !t.client.ClientFailed? && TimerRight(s)
    requires LastIndex(s) >= 0 ==> LastIndex(s) < |s.history.posted|
    ensures TimesOf(t.history.posted, LastIndex(t)) == TimesOf(s.history.posted, LastIndex(s))
         + if e.TimerStep? && s.timer.Fired? && Listening(s) then [s.timer.from] else []
  {
    match e
    case ClientStep(now) => ClientTimes(s, now, t);
    case TimerStep => TimerTimes(s, t);
    case _ => OtherTimes(s, e);
  }

  /**
   In every run the signals posted to the main loop are, but for those of `stop`, the ticks
   that fired while the agent was listening, each once and in order.
   */
  lemma {:induction false} TicksArePosted(events: seq<Event>)
    ensures TimesOf(Run(events).history.posted, LastIndex(Run(events))) == TicksHeard(events)
  {
    if events != [] {
      var init, e := events[..|events| - 1], events[|events| - 1];
      TicksArePosted(init);
      RunRight(init);
      RunRight(events);
      RunKeepsClocks(init);
      if Enabled(Run(init), e) { StepTimes(Run(init), e, Run(events)); }
    }
  }
}
