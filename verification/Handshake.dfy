/** The Windows control handshake once the event loop runs: any number of handler() calls
    on other threads post an event each and wait; the main thread takes the events one by
    one, runs the service's callback and wakes all waiting calls.  Every function is one
    atomic step of one thread. */
module Handshake {

  /* ---- codes ---- */

  const STARTUP := 256
  const STOP := 1
  const PAUSE := 2
  const CONTINUE := 3
  const SHUTDOWN := 5

  // The codes for which handler() posts an event and waits.
  predicate Posts(code: nat) {
    code == STARTUP || code == STOP || code == PAUSE || code == CONTINUE || code == SHUTDOWN || 128 <= code <= 255
  }

  // A shutdown is posted as a stop.
  function EventCode(code: nat): nat {
    if code == SHUTDOWN then STOP else code
  }

  // What handleCustomEvent calls on the service for an event.
  datatype Callback = Start | StopAndQuit | PauseService | ResumeService | Command(n: nat) | Nothing

  function CallbackOf(code: nat): Callback {
    if code == STARTUP then Start
    else if code == STOP then StopAndQuit
    else if code == PAUSE then PauseService
    else if code == CONTINUE then ResumeService
    else if 128 <= code <= 255 then Command(code - 128)
    else Nothing
  }

  // What the service is, by the callbacks that have returned.
  datatype Mode = NotStarted | Up | Suspended

  function ModeAfter(mode: Mode, b: Callback): Mode {
    match b
    case Start => Up
    case ResumeService => if mode == NotStarted then NotStarted else Up
    case PauseService => if mode == NotStarted then NotStarted else Suspended
    case _ => mode
  }

  datatype Status = Stopped | StartPending | StopPending | Running | ContinuePending | PausePending | Paused

  function PendingStatus(code: nat, status: Status): Status {
    if code == STARTUP then StartPending
    else if code == STOP then StopPending
    else if code == PAUSE then PausePending
    else if code == CONTINUE then ContinuePending
    else status
  }

  function FinalStatus(code: nat, status: Status): Status {
    if code == STARTUP || code == CONTINUE then Running
    else if code == PAUSE then Paused
    else status
  }

  /* ---- state ---- */

  // Where one call of handler() stands.
  datatype CallPc =
    | WantLock    // mutex.lock()
    | Locked      // setStatus(..._PENDING)
    | Pended      // postEvent
    | Posted      // condition.wait: about to release the mutex
    | Waiting
    | Woken       // condition.wait: about to take the mutex again
    | Relocked    // setStatus(RUNNING / PAUSED)
    | Restated    // mutex.unlock()
    | Unlocked    // report the status
    | Done

  datatype Call = Call(code: nat, pc: CallPc)

  // An event remembers the call that posted it.
  datatype Event = Event(code: nat, owner: nat)

  // Where the main thread stands in its event loop and in handleCustomEvent.
  datatype LoopPc =
    | Idle
    | Calling(e: Event)      // inside start(), stop(), pause(), ...
    | Called(e: Event)       // mutex.lock()
    | WakeLocked(e: Event)   // wakeAll()
    | Awake(e: Event)        // mutex.unlock()
    | Left                   // quit() took effect

  datatype Holder = Free | ByMain | ByCall(h: nat)

  datatype Control = Control(
    loop: LoopPc,
    calls: seq<Call>,
    queue: seq<Event>,
    lock: Holder,
    status: Status,
    taken: set<nat>,           // calls whose event the loop has taken
    ran: map<nat, Callback>,   // the callback that has returned, by call
    mode: Mode,
    starts: nat                // calls of QtServiceBase::start()
  )

  const QUIET := Control(Idle, [], [], Free, Stopped, {}, map[], NotStarted, 0)

  /* ---- steps ---- */

  datatype Action =
    | TakeEvent | RunCallback | LockToWake | WakeAll | UnlockAfterWake
    | Lock(h: nat) | SetPending(h: nat) | Post(h: nat) | Wait(h: nat)
    | Relock(h: nat) | SetFinal(h: nat) | Unlock(h: nat) | Report(h: nat)

  predicate At(c: Control, h: nat, pc: CallPc) {
    h < |c.calls| && c.calls[h].pc == pc
  }

  predicate Enabled(c: Control, a: Action) {
    match a
    case TakeEvent => c.loop == Idle && c.queue != []
    case RunCallback => c.loop.Calling?
    case LockToWake => c.loop.Called? && c.lock == Free
    case WakeAll => c.loop.WakeLocked?
    case UnlockAfterWake => c.loop.Awake?
    case Lock(h) => At(c, h, WantLock) && c.lock == Free
    case SetPending(h) => At(c, h, Locked)
    case Post(h) => At(c, h, Pended)
    case Wait(h) => At(c, h, Posted)
    case Relock(h) => At(c, h, Woken) && c.lock == Free
    case SetFinal(h) => At(c, h, Relocked)
    case Unlock(h) => At(c, h, Restated)
    case Report(h) => At(c, h, Unlocked)
  }

  function Move(calls: seq<Call>, h: nat, pc: CallPc): seq<Call>
    requires h < |calls|
  {
    calls[h := calls[h].(pc := pc)]
  }

  function Wake(call: Call): Call {
    if call.pc == Waiting then call.(pc := Woken) else call
  }

  function WakeCalls(calls: seq<Call>): seq<Call> {
    seq(|calls|, h requires 0 <= h < |calls| => Wake(calls[h]))
  }

  function Step(c: Control, a: Action): Control
    requires Enabled(c, a)
  {
    match a
    case TakeEvent =>
      var e := c.queue[0];
      c.(loop := Calling(e), queue := c.queue[1..], taken := c.taken + {e.owner},
         starts := if e.code == STARTUP then c.starts + 1 else c.starts)
    case RunCallback =>
      var b := CallbackOf(c.loop.e.code);
      c.(loop := Called(c.loop.e), ran := c.ran[c.loop.e.owner := b], mode := ModeAfter(c.mode, b))
    case LockToWake => c.(loop := WakeLocked(c.loop.e), lock := ByMain)
    case WakeAll => c.(loop := Awake(c.loop.e), calls := WakeCalls(c.calls))
    case UnlockAfterWake => c.(loop := if c.loop.e.code == STOP then Left else Idle, lock := Free)
    case Lock(h) => c.(calls := Move(c.calls, h, Locked), lock := ByCall(h))
    case SetPending(h) =>
      if Posts(c.calls[h].code) then
        c.(calls := Move(c.calls, h, Pended), status := PendingStatus(c.calls[h].code, c.status))
      else c.(calls := Move(c.calls, h, Restated))
    case Post(h) =>
      c.(calls := Move(c.calls, h, Posted), queue := c.queue + [Event(EventCode(c.calls[h].code), h)])
    case Wait(h) => c.(calls := Move(c.calls, h, Waiting), lock := Free)
    case Relock(h) => c.(calls := Move(c.calls, h, Relocked), lock := ByCall(h))
    case SetFinal(h) =>
      c.(calls := Move(c.calls, h, Restated), status := FinalStatus(c.calls[h].code, c.status))
    case Unlock(h) => c.(calls := Move(c.calls, h, Unlocked), lock := Free)
    case Report(h) => c.(calls := Move(c.calls, h, Done))
  }

  // A new call of handler().
  function Arrive(c: Control, code: nat): Control {
    c.(calls := c.calls + [Call(code, WantLock)])
  }

  /* ---- the invariant ---- */

  predicate Holds(pc: CallPc) {
    pc == Locked || pc == Pended || pc == Posted || pc == Relocked || pc == Restated
  }

  predicate HasPosted(call: Call) {
    Posts(call.code) && call.pc != WantLock && call.pc != Locked && call.pc != Pended
  }

  predicate LockInv(c: Control) {
    && (c.lock == ByMain <==> c.loop.WakeLocked? || c.loop.Awake?)
    && (forall h: nat | h < |c.calls| :: Holds(c.calls[h].pc) <==> c.lock == ByCall(h))
    && (c.lock.ByCall? ==> c.lock.h < |c.calls|)
  }

  predicate EventOf(c: Control, e: Event) {
    e.owner < |c.calls| && HasPosted(c.calls[e.owner]) && e.code == EventCode(c.calls[e.owner].code)
  }

  predicate EventInv(c: Control) {
    && (forall k | 0 <= k < |c.queue| :: EventOf(c, c.queue[k]) && c.queue[k].owner !in c.taken)
    && (forall j, k | 0 <= j < k < |c.queue| :: c.queue[j].owner != c.queue[k].owner)
    && (!c.loop.Idle? && !c.loop.Left? ==>
          && EventOf(c, c.loop.e) && c.loop.e.owner in c.taken
          && (c.loop.e.owner in c.ran <==> !c.loop.Calling?))
    && c.ran.Keys <= c.taken
    && (forall h | h in c.taken :: h < |c.calls| && HasPosted(c.calls[h]))
  }

  // The event of call h is still queued, or is being handled and has not woken anyone yet.
  predicate Pending(c: Control, h: nat) {
    || (exists k :: 0 <= k < |c.queue| && c.queue[k].owner == h)
    || ((c.loop.Calling? || c.loop.Called? || c.loop.WakeLocked?) && c.loop.e.owner == h)
  }

  // No wakeup is lost: a call that waits, or is about to, has its event still pending.
  predicate NoLostWakeup(c: Control) {
    forall h: nat | h < |c.calls| && (c.calls[h].pc == Posted || c.calls[h].pc == Waiting) :: Pending(c, h)
  }

  // Every callback that ran is the one its call was made for; no call is left without one.
  predicate Answered(c: Control) {
    forall h | h in c.ran ::
      && h < |c.calls|
      && c.ran[h] != Nothing
      && (c.ran[h] == Start <==> c.calls[h].code == STARTUP)
      && (c.ran[h] == StopAndQuit <==> c.calls[h].code == STOP || c.calls[h].code == SHUTDOWN)
      && (c.ran[h] == PauseService <==> c.calls[h].code == PAUSE)
      && (c.ran[h] == ResumeService <==> c.calls[h].code == CONTINUE)
      && (c.ran[h].Command? <==> 128 <= c.calls[h].code <= 255)
      && (c.ran[h].Command? ==> c.ran[h].n == c.calls[h].code - 128)
  }

  predicate Inv(c: Control) {
    LockInv(c) && EventInv(c) && PostersOnly(c) && NoLostWakeup(c) && Answered(c)
  }

  lemma StepKeepsLockInv(c: Control, a: Action)
    requires Enabled(c, a) && LockInv(c)
    ensures LockInv(Step(c, a))
  {
  }

  // Moving one call, whatever happens to lock and status, keeps the events as they are.
  lemma MoveKeepsEventInv(c: Control, d: Control, h: nat, pc: CallPc)
    requires EventInv(c) && h < |c.calls|
    requires d == c.(calls := Move(c.calls, h, pc), lock := d.lock, status := d.status)
    requires HasPosted(c.calls[h]) ==> HasPosted(d.calls[h])
    ensures EventInv(d)
  {
    forall e: Event | EventOf(c, e) ensures EventOf(d, e) {
    }
  }

  lemma PostKeepsEventInv(c: Control, h: nat)
    requires At(c, h, Pended) && Posts(c.calls[h].code) && EventInv(c)
    ensures EventInv(Step(c, Post(h)))
  {
    var d := Step(c, Post(h));
    forall e: Event | EventOf(c, e) ensures EventOf(d, e) && e.owner != h {
    }
    assert h !in c.taken;
  }

  lemma WakeAllKeepsEventInv(c: Control)
    requires c.loop.WakeLocked? && EventInv(c)
    ensures EventInv(Step(c, WakeAll))
  {
    var d := Step(c, WakeAll);
    forall e: Event | EventOf(c, e) ensures EventOf(d, e) {
    }
  }

  lemma TakeKeepsEventInv(c: Control)
    requires Enabled(c, TakeEvent) && EventInv(c)
    ensures EventInv(Step(c, TakeEvent))
  {
    var d := Step(c, TakeEvent);
    assert EventOf(c, c.queue[0]);
    forall e: Event | EventOf(c, e) ensures EventOf(d, e) {
    }
  }

  // Only calls that post ever get beyond the pending status.
  predicate PostersOnly(c: Control) {
    forall h: nat | h < |c.calls| && !Posts(c.calls[h].code) ::
      c.calls[h].pc in {WantLock, Locked, Restated, Unlocked, Done}
  }

  lemma {:induction false} StepKeepsEventInv(c: Control, a: Action)
    requires Enabled(c, a) && EventInv(c) && PostersOnly(c)
    ensures EventInv(Step(c, a))
  {
    var d := Step(c, a);
    match a
    case TakeEvent => TakeKeepsEventInv(c);
    case WakeAll => WakeAllKeepsEventInv(c);
    case Post(h) => PostKeepsEventInv(c, h);
    case RunCallback => assert forall e: Event :: EventOf(c, e) ==> EventOf(d, e);
    case LockToWake => assert forall e: Event :: EventOf(c, e) ==> EventOf(d, e);
    case UnlockAfterWake => assert forall e: Event :: EventOf(c, e) ==> EventOf(d, e);
    case _ => MoveKeepsEventInv(c, d, a.h, d.calls[a.h].pc);
  }

  lemma StepKeepsPostersOnly(c: Control, a: Action)
    requires Enabled(c, a) && PostersOnly(c)
    ensures PostersOnly(Step(c, a))
  {
  }

  lemma StepKeepsNoLostWakeup(c: Control, a: Action)
    requires Enabled(c, a) && LockInv(c) && NoLostWakeup(c)
    ensures NoLostWakeup(Step(c, a))
  {
    var d := Step(c, a);
    forall h: nat | h < |d.calls| && (d.calls[h].pc == Posted || d.calls[h].pc == Waiting) ensures Pending(d, h) {
      if a == Post(h) {
        assert d.queue[|c.queue|].owner == h;
      } else {
        PendingStays(c, a, h);
      }
    }
  }

  lemma PendingStays(c: Control, a: Action, h: nat)
    requires Enabled(c, a) && LockInv(c) && Pending(c, h)
    requires h < |c.calls| && (c.calls[h].pc == Posted || c.calls[h].pc == Waiting)
    requires Step(c, a).calls[h].pc == Posted || Step(c, a).calls[h].pc == Waiting
    ensures Pending(Step(c, a), h)
  {
    var d := Step(c, a);
    if k :| 0 <= k < |c.queue| && c.queue[k].owner == h {
      if a == TakeEvent {
        assert k > 0 ==> d.queue[k - 1].owner == h;
      } else {
        assert d.queue[k].owner == h;
      }
    }
  }

  lemma StepKeepsCodes(c: Control, a: Action)
    requires Enabled(c, a)
    ensures var d := Step(c, a);
            |d.calls| == |c.calls| && forall h: nat | h < |d.calls| :: d.calls[h].code == c.calls[h].code
  {
  }

  lemma CallbackIsAnswer(c: Control)
    requires c.loop.Calling? && EventOf(c, c.loop.e)
    ensures var b, code := CallbackOf(c.loop.e.code), c.calls[c.loop.e.owner].code;
            && b != Nothing
            && (b == Start <==> code == STARTUP)
            && (b == StopAndQuit <==> code == STOP || code == SHUTDOWN)
            && (b == PauseService <==> code == PAUSE)
            && (b == ResumeService <==> code == CONTINUE)
            && (b.Command? <==> 128 <= code <= 255)
            && (b.Command? ==> b.n == code - 128)
  {
  }

  lemma StepKeepsAnswered(c: Control, a: Action)
    requires Enabled(c, a) && EventInv(c) && Answered(c)
    ensures Answered(Step(c, a))
  {
    if a == RunCallback {
      CallbackIsAnswer(c);
    } else {
      StepKeepsCodes(c, a);
      assert Step(c, a).ran == c.ran;
    }
  }

  lemma {:induction false} StepKeepsInv(c: Control, a: Action)
    requires Enabled(c, a) && Inv(c)
    ensures Inv(Step(c, a))
  {
    StepKeepsLockInv(c, a);
    StepKeepsEventInv(c, a);
    StepKeepsPostersOnly(c, a);
    StepKeepsNoLostWakeup(c, a);
    StepKeepsAnswered(c, a);
  }

  lemma ArriveKeepsInv(c: Control, code: nat)
    requires Inv(c)
    ensures Inv(Arrive(c, code))
  {
    var d := Arrive(c, code);
    assert forall e: Event :: EventOf(c, e) ==> EventOf(d, e);
    forall h: nat | h < |d.calls| && (d.calls[h].pc == Posted || d.calls[h].pc == Waiting) ensures Pending(d, h) {
      assert Pending(c, h);
    }
  }
}
