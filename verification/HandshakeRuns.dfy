/** What holds of every interleaving of the handshake. */
module HandshakeRuns {
  import opened Handshake

  // One atomic step of some thread, or a new call of handler().
  datatype Turn = Do(a: Action) | Calls(code: nat)

  predicate CanTurn(c: Control, t: Turn) {
    t.Do? ==> Enabled(c, t.a)
  }

  function Turned(c: Control, t: Turn): Control
    requires CanTurn(c, t)
  {
    match t
    case Do(a) => Step(c, a)
    case Calls(code) => Arrive(c, code)
  }

  predicate IsRun(c: Control, ts: seq<Turn>)
    decreases |ts|
  {
    ts == [] || (CanTurn(c, ts[0]) && IsRun(Turned(c, ts[0]), ts[1..]))
  }

  function After(c: Control, ts: seq<Turn>): Control
    requires IsRun(c, ts)
    decreases |ts|
  {
    if ts == [] then c else After(Turned(c, ts[0]), ts[1..])
  }

  lemma {:induction false} TurnKeepsInv(c: Control, t: Turn)
    requires CanTurn(c, t) && Inv(c)
    ensures Inv(Turned(c, t))
  {
    match t
    case Do(a) => StepKeepsInv(c, a);
    case Calls(code) => ArriveKeepsInv(c, code);
  }

  // For any number of concurrent calls and every interleaving.
  lemma {:induction false} NoWakeupIsLost(c: Control, ts: seq<Turn>)
    requires IsRun(c, ts) && Inv(c)
    ensures Inv(After(c, ts))
    decreases |ts|
  {
    if ts != [] {
      TurnKeepsInv(c, ts[0]);
      NoWakeupIsLost(Turned(c, ts[0]), ts[1..]);
    }
  }

  /* ---- whom a wakeAll wakes ---- */

  // wakeAll wakes every waiting call; of those, the callback has run for the one whose
  // event is being handled and for no other.
  lemma WokenExactly(c: Control, h: nat)
    requires Inv(c) && Enabled(c, WakeAll) && At(c, h, Waiting)
    ensures At(Step(c, WakeAll), h, Woken)
    ensures h in c.ran <==> c.loop.e.owner == h
  {
    assert Pending(c, h);
  }

  /* ---- one posting call at a time ---- */

  predicate Active(call: Call) {
    Posts(call.code) && call.pc != Unlocked && call.pc != Done
  }

  predicate Alone(c: Control) {
    forall g: nat, h: nat | g < |c.calls| && h < |c.calls| && Active(c.calls[g]) && Active(c.calls[h]) :: g == h
  }

  // Nobody has been woken before its time: a pending event's call still waits for it, and
  // a call that no longer waits has had its callback run.
  predicate Punctual(c: Control) {
    PendingWaits(c) && GoesOnAnswered(c)
  }

  predicate PendingWaits(c: Control) {
    forall h: nat | h < |c.calls| && Pending(c, h) :: c.calls[h].pc == Posted || c.calls[h].pc == Waiting
  }

  predicate GoesOnAnswered(c: Control) {
    forall h: nat | h < |c.calls| && HasPosted(c.calls[h]) && c.calls[h].pc != Posted && c.calls[h].pc != Waiting ::
      h in c.ran
  }

  // A posting call comes only when no other is in flight.
  predicate SoloTurn(c: Control, t: Turn) {
    t.Calls? && Posts(t.code) ==> forall h: nat | h < |c.calls| :: !Active(c.calls[h])
  }

  predicate IsSoloRun(c: Control, ts: seq<Turn>)
    decreases |ts|
  {
    ts == [] || (CanTurn(c, ts[0]) && SoloTurn(c, ts[0]) && IsSoloRun(Turned(c, ts[0]), ts[1..]))
  }

  lemma PendingComesFrom(c: Control, a: Action, h: nat)
    requires Enabled(c, a) && Pending(Step(c, a), h)
    ensures Pending(c, h) || a == Post(h)
  {
    var d := Step(c, a);
    if k :| 0 <= k < |d.queue| && d.queue[k].owner == h {
      if a == TakeEvent {
        assert c.queue[k + 1] == d.queue[k];
      } else if k < |c.queue| {
        assert c.queue[k] == d.queue[k];
      }
    } else if a == TakeEvent {
      assert c.queue[0].owner == h;
    }
  }

  lemma HandledAlone(c: Control)
    requires Inv(c) && Alone(c) && Punctual(c) && c.loop.WakeLocked?
    ensures c.queue == [] && c.calls[c.loop.e.owner].pc == Waiting
  {
    assert Pending(c, c.loop.e.owner);
    if c.queue != [] {
      QueuedIsPending(c, 0);
    }
  }

  lemma QueuedIsPending(c: Control, k: nat)
    requires EventInv(c) && k < |c.queue|
    ensures var h := c.queue[k].owner; Pending(c, h) && h < |c.calls| && h !in c.taken
  {
    assert EventOf(c, c.queue[k]);
  }

  lemma WakeAllKeepsPunctual(c: Control)
    requires Inv(c) && Alone(c) && Punctual(c) && Enabled(c, WakeAll)
    ensures Punctual(Step(c, WakeAll))
  {
    var d := Step(c, WakeAll);
    HandledAlone(c);
    forall h: nat | h < |d.calls| && HasPosted(d.calls[h]) && d.calls[h].pc != Posted && d.calls[h].pc != Waiting
      ensures h in d.ran
    {
      if c.calls[h].pc == Waiting {
        assert Active(c.calls[h]) && Active(c.calls[c.loop.e.owner]);
      }
    }
  }

  lemma {:induction false} StepKeepsPunctual(c: Control, a: Action)
    requires Inv(c) && Alone(c) && Punctual(c) && Enabled(c, a)
    ensures Punctual(Step(c, a))
  {
    if a == WakeAll {
      WakeAllKeepsPunctual(c);
    } else {
      StepKeepsPendingWaits(c, a);
      StepKeepsGoesOnAnswered(c, a);
    }
  }

  lemma StepKeepsPendingWaits(c: Control, a: Action)
    requires PendingWaits(c) && Enabled(c, a) && a != WakeAll
    ensures PendingWaits(Step(c, a))
  {
    var d := Step(c, a);
    forall h: nat | h < |d.calls| && Pending(d, h) ensures d.calls[h].pc == Posted || d.calls[h].pc == Waiting {
      PendingComesFrom(c, a, h);
    }
  }

  lemma StepKeepsGoesOnAnswered(c: Control, a: Action)
    requires PostersOnly(c) && GoesOnAnswered(c) && Enabled(c, a) && a != WakeAll
    ensures GoesOnAnswered(Step(c, a))
  {
  }

  lemma {:induction false} TurnKeepsSolo(c: Control, t: Turn)
    requires CanTurn(c, t) && SoloTurn(c, t) && Inv(c) && Alone(c) && Punctual(c)
    ensures Alone(Turned(c, t)) && Punctual(Turned(c, t))
  {
    match t
    case Do(a) =>
      StepKeepsPunctual(c, a);
      StepKeepsAlone(c, a);
    case Calls(code) =>
      var d := Arrive(c, code);
      forall h: nat | h < |d.calls| && Pending(d, h) ensures d.calls[h].pc == Posted || d.calls[h].pc == Waiting {
        assert Pending(c, h);
        PendingIsOfACall(c, h);
      }
  }

  lemma PendingIsOfACall(c: Control, h: nat)
    requires Inv(c) && Pending(c, h)
    ensures h < |c.calls|
  {
    if k :| 0 <= k < |c.queue| && c.queue[k].owner == h {
      assert EventOf(c, c.queue[k]);
    }
  }

  lemma StepKeepsAlone(c: Control, a: Action)
    requires Enabled(c, a) && PostersOnly(c) && Alone(c)
    ensures Alone(Step(c, a))
  {
    var d := Step(c, a);
    assert forall h: nat | h < |d.calls| :: Active(d.calls[h]) ==> Active(c.calls[h]);
  }

  // With one posting call in flight at a time: when a call is about to report RUNNING or
  // PAUSED, or has gone on after its wait in any way, its own start, pause, resume, stop or
  // command has returned.
  lemma {:induction false} StatusFollowsCallback(c: Control, ts: seq<Turn>, h: nat)
    requires IsSoloRun(c, ts) && Inv(c) && Alone(c) && Punctual(c)
    ensures IsRun(c, ts)
    ensures var d := After(c, ts);
            (h < |d.calls| && Posts(d.calls[h].code) && d.calls[h].pc in {Woken, Relocked, Restated, Unlocked, Done})
            ==> h in d.ran
    decreases |ts|
  {
    if ts == [] {
      assert h < |c.calls| && c.calls[h].pc in {Woken, Relocked, Restated, Unlocked, Done} && Posts(c.calls[h].code) ==>
               HasPosted(c.calls[h]);
    } else {
      TurnKeepsInv(c, ts[0]);
      TurnKeepsSolo(c, ts[0]);
      StatusFollowsCallback(Turned(c, ts[0]), ts[1..], h);
    }
  }

  // The same from the moment the event loop starts.
  lemma StatusFollowsCallbackFromStart(ts: seq<Turn>, h: nat)
    requires IsSoloRun(QUIET, ts)
    ensures IsRun(QUIET, ts)
    ensures var d := After(QUIET, ts);
            At(d, h, Relocked) && Posts(d.calls[h].code) ==> h in d.ran
  {
    StatusFollowsCallback(QUIET, ts, h);
  }

  /* ---- the reported status ---- */

  predicate ChangesMode(code: nat) {
    code == STARTUP || code == PAUSE || code == CONTINUE
  }

  // A pause or continue comes only once start() has returned.
  predicate StartedTurn(c: Control, t: Turn) {
    t.Calls? && (t.code == PAUSE || t.code == CONTINUE) ==> c.mode != NotStarted
  }

  predicate IsOrderlyRun(c: Control, ts: seq<Turn>)
    decreases |ts|
  {
    ts == [] ||
    (CanTurn(c, ts[0]) && SoloTurn(c, ts[0]) && StartedTurn(c, ts[0]) && IsOrderlyRun(Turned(c, ts[0]), ts[1..]))
  }

  // start() has returned if its call has been answered.
  predicate StartIsUp(c: Control) {
    forall h | h in c.ran && c.ran[h] == Start :: c.mode != NotStarted
  }

  lemma StepKeepsStartIsUp(c: Control, a: Action)
    requires Enabled(c, a) && StartIsUp(c)
    ensures StartIsUp(Step(c, a))
  {
    if a == RunCallback {
      var d := Step(c, a);
      forall h | h in d.ran && d.ran[h] == Start ensures d.mode != NotStarted {
        assert h != c.loop.e.owner ==> h in c.ran;
      }
    }
  }

  // RUNNING and PAUSED are reported only of a service that is up or suspended.
  predicate HonestStatus(c: Control) {
    && (c.status == Running ==> c.mode == Up)
    && (c.status == Paused ==> c.mode == Suspended)
  }

  // A call whose callback has run finds its effect; a call that changes the mode has put a
  // pending status in place until it sets its final one.
  predicate HonestCalls(c: Control) {
    forall h: nat | h < |c.calls| && Active(c.calls[h]) && ChangesMode(c.calls[h].code) ::
      && (h in c.ran ==> c.mode == if c.calls[h].code == PAUSE then Suspended else Up)
      && (c.calls[h].pc in {Pended, Posted, Waiting, Woken, Relocked} ==> c.status != Running && c.status != Paused)
      && (c.calls[h].pc == Restated ==> c.status == if c.calls[h].code == PAUSE then Paused else Running)
      && (c.calls[h].code != STARTUP ==> c.mode != NotStarted)
  }

  lemma PendingIsActive(c: Control)
    requires Inv(c) && Punctual(c) && c.loop.Calling?
    ensures var g := c.loop.e.owner;
            && g < |c.calls| && Active(c.calls[g]) && (c.calls[g].pc == Posted || c.calls[g].pc == Waiting)
            && c.loop.e.code == EventCode(c.calls[g].code)
  {
    assert Pending(c, c.loop.e.owner);
  }

  lemma CallbackKeepsHonesty(c: Control)
    requires Enabled(c, RunCallback) && Inv(c) && Alone(c) && Punctual(c) && HonestStatus(c) && HonestCalls(c)
    ensures HonestStatus(Step(c, RunCallback)) && HonestCalls(Step(c, RunCallback))
  {
    PendingIsActive(c);
  }

  lemma StatusStepKeepsHonesty(c: Control, a: Action)
    requires a.SetPending? || a.SetFinal?
    requires Enabled(c, a) && PostersOnly(c) && Alone(c) && Punctual(c) && HonestStatus(c) && HonestCalls(c)
    ensures HonestStatus(Step(c, a)) && HonestCalls(Step(c, a))
  {
    assert a.SetFinal? && Posts(c.calls[a.h].code) ==> HasPosted(c.calls[a.h]);
  }

  lemma OtherStepKeepsHonesty(c: Control, a: Action)
    requires !a.SetPending? && !a.SetFinal? && !a.RunCallback?
    requires Enabled(c, a) && HonestStatus(c) && HonestCalls(c)
    ensures HonestStatus(Step(c, a)) && HonestCalls(Step(c, a))
  {
  }

  lemma StepKeepsHonesty(c: Control, a: Action)
    requires Enabled(c, a) && Inv(c) && Alone(c) && Punctual(c) && HonestStatus(c) && HonestCalls(c)
    ensures HonestStatus(Step(c, a)) && HonestCalls(Step(c, a))
  {
    if a == RunCallback {
      CallbackKeepsHonesty(c);
    } else if a.SetPending? || a.SetFinal? {
      StatusStepKeepsHonesty(c, a);
    } else {
      OtherStepKeepsHonesty(c, a);
    }
  }

  lemma {:induction false} TurnKeepsHonesty(c: Control, t: Turn)
    requires CanTurn(c, t) && SoloTurn(c, t) && StartedTurn(c, t) && Inv(c) && Alone(c) && Punctual(c)
    requires HonestStatus(c) && HonestCalls(c)
    ensures HonestStatus(Turned(c, t)) && HonestCalls(Turned(c, t))
  {
    match t
    case Do(a) => StepKeepsHonesty(c, a);
    case Calls(code) =>
  }

  lemma {:induction false} OrderlyRunKeepsHonesty(c: Control, ts: seq<Turn>)
    requires IsOrderlyRun(c, ts) && Inv(c) && Alone(c) && Punctual(c) && HonestStatus(c) && HonestCalls(c)
    ensures IsRun(c, ts) && HonestStatus(After(c, ts)) && HonestCalls(After(c, ts))
    decreases |ts|
  {
    if ts != [] {
      TurnKeepsInv(c, ts[0]);
      TurnKeepsSolo(c, ts[0]);
      TurnKeepsHonesty(c, ts[0]);
      OrderlyRunKeepsHonesty(Turned(c, ts[0]), ts[1..]);
    }
  }

  // With one posting call at a time, startup first, the reported status never claims what
  // is not so, and a startup, pause or continue call that gives the mutex up has reported
  // its final status.
  lemma StatusIsHonest(ts: seq<Turn>, h: nat)
    requires IsOrderlyRun(QUIET, ts)
    ensures IsRun(QUIET, ts) && HonestStatus(After(QUIET, ts))
    ensures var c := After(QUIET, ts);
            At(c, h, Restated) && ChangesMode(c.calls[h].code) ==>
              c.status == if c.calls[h].code == PAUSE then Paused else Running
  {
    OrderlyRunKeepsHonesty(QUIET, ts);
  }

  /* ---- start() at most once ---- */

  predicate StartsOnce(c: Control) {
    && (forall g: nat, h: nat | g < |c.calls| && h < |c.calls| &&
          c.calls[g].code == STARTUP && c.calls[h].code == STARTUP :: g == h)
    && c.starts <= 1
    && (c.starts == 1 ==> exists h: nat :: h in c.taken && h < |c.calls| && c.calls[h].code == STARTUP)
  }

  lemma TakeKeepsStartsOnce(c: Control)
    requires Enabled(c, TakeEvent) && EventInv(c) && StartsOnce(c)
    ensures StartsOnce(Step(c, TakeEvent))
  {
    var e := c.queue[0];
    assert EventOf(c, e) && e.owner !in c.taken;
    if c.starts == 1 {
      var h: nat :| h in c.taken && h < |c.calls| && c.calls[h].code == STARTUP;
      assert h in Step(c, TakeEvent).taken;
    } else {
      assert e.owner in Step(c, TakeEvent).taken;
    }
  }

  lemma StepKeepsStartsOnce(c: Control, a: Action)
    requires Enabled(c, a) && EventInv(c) && StartsOnce(c)
    ensures StartsOnce(Step(c, a))
  {
    if a == TakeEvent {
      TakeKeepsStartsOnce(c);
    } else {
      var d := Step(c, a);
      assert |d.calls| == |c.calls| && forall h: nat | h < |d.calls| :: d.calls[h].code == c.calls[h].code;
      assert d.taken == c.taken && d.starts == c.starts;
      if c.starts == 1 {
        var h: nat :| h in c.taken && h < |c.calls| && c.calls[h].code == STARTUP;
        assert h in d.taken && d.calls[h].code == STARTUP;
      }
    }
  }

  lemma ArriveKeepsStartsOnce(c: Control, code: nat)
    requires StartsOnce(c)
    requires code == STARTUP ==> forall h: nat | h < |c.calls| :: c.calls[h].code != STARTUP
    ensures StartsOnce(Arrive(c, code))
  {
    var d := Arrive(c, code);
    if c.starts == 1 {
      var h: nat :| h in c.taken && h < |c.calls| && c.calls[h].code == STARTUP;
      assert h in d.taken && d.calls[h].code == STARTUP;
    }
  }

  /* ---- every call gets through ---- */

  // Steps a call still has to make, and those its event costs the loop.
  function CallWork(pc: CallPc): nat {
    match pc
    case WantLock => 15
    case Locked => 14
    case Pended => 13
    case Posted => 6
    case Waiting => 5
    case Woken => 4
    case Relocked => 3
    case Restated => 2
    case Unlocked => 1
    case Done => 0
  }

  function CallsWork(calls: seq<Call>): nat {
    if calls == [] then 0 else CallWork(calls[0].pc) + CallsWork(calls[1..])
  }

  function LoopWork(loop: LoopPc): nat {
    match loop
    case Calling(_) => 4
    case Called(_) => 3
    case WakeLocked(_) => 2
    case Awake(_) => 1
    case _ => 0
  }

  function Work(c: Control): nat {
    CallsWork(c.calls) + 5 * |c.queue| + LoopWork(c.loop)
  }

  lemma {:induction false} MoveWork(calls: seq<Call>, h: nat, pc: CallPc)
    requires h < |calls|
    ensures CallsWork(Move(calls, h, pc)) == CallsWork(calls) - CallWork(calls[h].pc) + CallWork(pc)
    decreases h
  {
    if h == 0 {
      assert Move(calls, h, pc)[1..] == calls[1..];
    } else {
      MoveWork(calls[1..], h - 1, pc);
      assert Move(calls, h, pc)[1..] == Move(calls[1..], h - 1, pc);
    }
  }

  lemma {:induction false} WakeWork(calls: seq<Call>)
    ensures CallsWork(WakeCalls(calls)) <= CallsWork(calls)
  {
    if calls != [] {
      WakeWork(calls[1..]);
      assert WakeCalls(calls)[1..] == WakeCalls(calls[1..]);
    }
  }

  lemma CallStepWorks(c: Control, a: Action)
    requires Enabled(c, a) && !IsLoopStep(a)
    ensures Work(Step(c, a)) < Work(c)
  {
    MoveWork(c.calls, a.h, Step(c, a).calls[a.h].pc);
  }

  predicate IsLoopStep(a: Action) {
    a.TakeEvent? || a.RunCallback? || a.LockToWake? || a.WakeAll? || a.UnlockAfterWake?
  }

  lemma StepWorks(c: Control, a: Action)
    requires Enabled(c, a)
    ensures Work(Step(c, a)) < Work(c)
  {
    if IsLoopStep(a) {
      WakeWork(c.calls);
    } else {
      CallStepWorks(c, a);
    }
  }

  // Without new calls no run is longer than the work there is.
  lemma {:induction false} RunsAreBounded(c: Control, ts: seq<Turn>)
    requires IsRun(c, ts) && forall k | 0 <= k < |ts| :: ts[k].Do?
    ensures |ts| <= Work(c)
    decreases |ts|
  {
    if ts != [] {
      StepWorks(c, ts[0].a);
      assert forall k | 0 <= k < |ts[1..]| :: ts[1..][k] == ts[k + 1];
      RunsAreBounded(Turned(c, ts[0]), ts[1..]);
    }
  }

  lemma HolderCanStep(c: Control, g: nat)
    requires LockInv(c) && c.lock == ByCall(g)
    ensures exists a: Action :: Enabled(c, a)
  {
    var pc := c.calls[g].pc;
    assert Enabled(c, if pc == Locked then SetPending(g) else if pc == Pended then Post(g)
                      else if pc == Posted then Wait(g) else if pc == Relocked then SetFinal(g) else Unlock(g));
  }

  // As long as the event loop runs, a call in flight never leaves everybody stuck.
  lemma SomeoneCanStep(c: Control, h: nat)
    requires Inv(c) && c.loop != Left && h < |c.calls| && c.calls[h].pc != Done
    ensures exists a: Action :: Enabled(c, a)
  {
    match c.lock
    case ByMain => assert Enabled(c, if c.loop.WakeLocked? then WakeAll else UnlockAfterWake);
    case ByCall(g) => HolderCanStep(c, g);
    case Free =>
      var pc := c.calls[h].pc;
      if pc == Waiting {
        assert Pending(c, h);
        assert Enabled(c, if c.loop == Idle then TakeEvent else if c.loop.Calling? then RunCallback else LockToWake);
      } else {
        assert Enabled(c, if pc == WantLock then Lock(h) else if pc == Woken then Relock(h) else Report(h));
      }
  }

  // So a run that can go no further while the loop still runs has seen every call off.
  lemma EveryCallReturns(c: Control, h: nat)
    requires Inv(c) && c.loop != Left && (forall a: Action :: !Enabled(c, a)) && h < |c.calls|
    ensures c.calls[h].pc == Done && c.queue == [] && c.loop == Idle
  {
    if c.calls[h].pc != Done {
      SomeoneCanStep(c, h);
    }
    if c.lock.ByCall? {
      SomeoneCanStep(c, c.lock.h);
    }
    assert !Enabled(c, TakeEvent) && !Enabled(c, RunCallback) && !Enabled(c, LockToWake) &&
           !Enabled(c, WakeAll) && !Enabled(c, UnlockAfterWake);
  }

  lemma {:induction false} CallsStay(c: Control, ts: seq<Turn>)
    requires IsRun(c, ts)
    ensures |c.calls| <= |After(c, ts).calls|
    decreases |ts|
  {
    if ts != [] {
      if ts[0].Do? {
        StepKeepsCodes(c, ts[0].a);
      }
      CallsStay(Turned(c, ts[0]), ts[1..]);
    }
  }

  // Once quit() has taken effect, a call that waits does so for ever.
  lemma {:induction false} AfterQuitNobodyIsWoken(c: Control, ts: seq<Turn>, h: nat)
    requires IsRun(c, ts) && c.loop == Left && At(c, h, Waiting)
    ensures After(c, ts).loop == Left && At(After(c, ts), h, Waiting)
    decreases |ts|
  {
    if ts != [] {
      AfterQuitNobodyIsWoken(Turned(c, ts[0]), ts[1..], h);
    }
  }

  /* ---- two calls at a time ---- */

  lemma {:induction false} RunConcat(c: Control, ts: seq<Turn>, us: seq<Turn>)
    requires IsRun(c, ts) && IsRun(After(c, ts), us)
    ensures IsRun(c, ts + us) && After(c, ts + us) == After(After(c, ts), us)
    decreases |ts|
  {
    if ts == [] {
      assert ts + us == us;
    } else {
      RunConcat(Turned(c, ts[0]), ts[1..], us);
      assert (ts + us)[1..] == ts[1..] + us;
    }
  }

  lemma RunCons(c: Control, t: Turn, ts: seq<Turn>)
    requires CanTurn(c, t) && IsRun(Turned(c, t), ts)
    ensures IsRun(c, [t] + ts) && After(c, [t] + ts) == After(Turned(c, t), ts)
  {
    assert ([t] + ts)[1..] == ts;
  }

  function PostAndWait(h: nat): seq<Turn> {
    [Do(Lock(h))] + ([Do(SetPending(h))] + ([Do(Post(h))] + ([Do(Wait(h))] + [])))
  }

  lemma PostAndWaitRun(c: Control, h: nat)
    requires At(c, h, WantLock) && c.lock == Free && Posts(c.calls[h].code)
    ensures IsRun(c, PostAndWait(h))
    ensures var code := c.calls[h].code;
            After(c, PostAndWait(h)) ==
            c.(calls := Move(c.calls, h, Waiting), queue := c.queue + [Event(EventCode(code), h)],
               status := PendingStatus(code, c.status))
  {
    var c1 := Step(c, Lock(h));
    var c2 := Step(c1, SetPending(h));
    var c3 := Step(c2, Post(h));
    RunCons(c3, Do(Wait(h)), []);
    RunCons(c2, Do(Post(h)), [Do(Wait(h))] + []);
    RunCons(c1, Do(SetPending(h)), [Do(Post(h))] + ([Do(Wait(h))] + []));
    RunCons(c, Do(Lock(h)), [Do(SetPending(h))] + ([Do(Post(h))] + ([Do(Wait(h))] + [])));
    assert Step(c3, Wait(h)).calls == Move(c.calls, h, Waiting);
  }

  const HANDLE: seq<Turn> := [Do(TakeEvent)] + ([Do(RunCallback)] + ([Do(LockToWake)] + []))

  lemma HandleRun(c: Control)
    requires c.loop == Idle && c.queue != [] && c.lock == Free
    ensures IsRun(c, HANDLE)
    ensures var d, e := After(c, HANDLE), c.queue[0];
            && d.loop == WakeLocked(e) && d.calls == c.calls && d.queue == c.queue[1..] && d.status == c.status
            && d.ran == c.ran[e.owner := CallbackOf(e.code)]
            && d.mode == ModeAfter(c.mode, CallbackOf(e.code))
  {
    var c1 := Step(c, TakeEvent);
    var c2 := Step(c1, RunCallback);
    RunCons(c2, Do(LockToWake), []);
    RunCons(c1, Do(RunCallback), [Do(LockToWake)] + []);
    RunCons(c, Do(TakeEvent), [Do(RunCallback)] + ([Do(LockToWake)] + []));
  }

  function WakeAndSet(h: nat): seq<Turn> {
    [Do(WakeAll)] + ([Do(UnlockAfterWake)] + ([Do(Relock(h))] + ([Do(SetFinal(h))] + [])))
  }

  lemma RelockAndSet(c: Control, h: nat)
    requires At(c, h, Woken) && c.lock == Free
    ensures IsRun(c, [Do(Relock(h))] + ([Do(SetFinal(h))] + []))
    ensures var d := After(c, [Do(Relock(h))] + ([Do(SetFinal(h))] + []));
            && d.status == FinalStatus(c.calls[h].code, c.status) && At(d, h, Restated)
            && d.ran == c.ran && d.mode == c.mode && d.calls[h].code == c.calls[h].code
  {
    var c1 := Step(c, Relock(h));
    RunCons(c1, Do(SetFinal(h)), []);
    RunCons(c, Do(Relock(h)), [Do(SetFinal(h))] + []);
  }

  lemma WakeAndSetRun(c: Control, h: nat)
    requires c.loop.WakeLocked? && At(c, h, Waiting)
    ensures IsRun(c, WakeAndSet(h))
    ensures var d := After(c, WakeAndSet(h));
            && d.status == FinalStatus(c.calls[h].code, c.status) && At(d, h, Restated)
            && d.ran == c.ran && d.mode == c.mode && d.calls[h].code == c.calls[h].code
  {
    var c1 := Step(c, WakeAll);
    assert At(c1, h, Woken) && c1.calls[h].code == c.calls[h].code;
    var c2 := Step(c1, UnlockAfterWake);
    var last := [Do(Relock(h))] + ([Do(SetFinal(h))] + []);
    RelockAndSet(c2, h);
    RunCons(c1, Do(UnlockAfterWake), last);
    RunCons(c, Do(WakeAll), [Do(UnlockAfterWake)] + last);
  }

  // Whenever a call waits while another call's event is being finished, its final status
  // can be reported although its own callback has not run.
  lemma {:induction false} EarlyStatus(c: Control, h: nat)
    requires Inv(c) && Enabled(c, WakeAll) && At(c, h, Waiting) && c.loop.e.owner != h
    ensures IsRun(c, WakeAndSet(h))
    ensures var d := After(c, WakeAndSet(h));
            && d.status == FinalStatus(c.calls[h].code, c.status) && At(d, h, Restated)
            && h !in d.ran && d.mode == c.mode && d.calls[h].code == c.calls[h].code
  {
    WokenExactly(c, h);
    WakeAndSetRun(c, h);
  }

  function Overlap(g: nat, h: nat): seq<Turn> {
    PostAndWait(g) + (PostAndWait(h) + HANDLE)
  }

  // Nothing is going on in the loop and nobody holds the mutex.
  predicate Resting(c: Control) {
    c.loop == Idle && c.lock == Free && c.queue == []
  }

  // Two posting calls that overlap: both have posted and wait while the first one's
  // callback has just returned.
  lemma OverlapRun(c: Control, g: nat, h: nat)
    requires Resting(c) && g != h && At(c, g, WantLock) && At(c, h, WantLock)
    requires Posts(c.calls[g].code) && Posts(c.calls[h].code)
    ensures IsRun(c, Overlap(g, h))
    ensures var d := After(c, Overlap(g, h));
            && Enabled(d, WakeAll) && d.loop.e.owner == g && At(d, h, Waiting)
            && d.calls[h].code == c.calls[h].code
            && d.mode == ModeAfter(c.mode, CallbackOf(EventCode(c.calls[g].code)))
  {
    PostAndWaitRun(c, g);
    var c1 := After(c, PostAndWait(g));
    PostAndWaitRun(c1, h);
    var c2 := After(c1, PostAndWait(h));
    HandleRun(c2);
    RunConcat(c1, PostAndWait(h), HANDLE);
    RunConcat(c, PostAndWait(g), PostAndWait(h) + HANDLE);
  }

  // Then the second call can report its final status although its own callback has not run,
  // whatever the two codes are.
  lemma OverlapReportsEarly(c: Control, g: nat, h: nat)
    requires Inv(c) && Resting(c) && g != h && At(c, g, WantLock) && At(c, h, WantLock)
    requires Posts(c.calls[g].code) && Posts(c.calls[h].code)
    ensures IsRun(c, Overlap(g, h) + WakeAndSet(h))
    ensures var d := After(c, Overlap(g, h) + WakeAndSet(h));
            && At(d, h, Restated) && h !in d.ran && d.calls[h].code == c.calls[h].code
            && (c.calls[h].code == PAUSE ==> d.status == Paused)
            && (c.calls[h].code == STARTUP || c.calls[h].code == CONTINUE ==> d.status == Running)
            && d.mode == ModeAfter(c.mode, CallbackOf(EventCode(c.calls[g].code)))
  {
    OverlapRun(c, g, h);
    NoWakeupIsLost(c, Overlap(g, h));
    EarlyStatus(After(c, Overlap(g, h)), h);
    RunConcat(c, Overlap(g, h), WakeAndSet(h));
  }

  /* ---- exactly when a call can get ahead of its callback ---- */

  predicate OnlySteps(ts: seq<Turn>) {
    forall k | 0 <= k < |ts| :: ts[k].Do?
  }

  // Some posting call has gone on after its wait and its callback has not returned.
  predicate SomeoneEarly(c: Control) {
    exists h: nat :: h < |c.calls| && IsEarly(c, h)
  }

  predicate IsEarly(c: Control, h: nat)
    requires h < |c.calls|
  {
    HasPosted(c.calls[h]) && c.calls[h].pc != Posted && c.calls[h].pc != Waiting && h !in c.ran
  }

  predicate LeadsToEarly(c: Control, ts: seq<Turn>) {
    OnlySteps(ts) && IsRun(c, ts) && SomeoneEarly(After(c, ts))
  }

  // The calls in flight have all just arrived.
  predicate JustArrived(c: Control) {
    forall h: nat | h < |c.calls| && Active(c.calls[h]) :: c.calls[h].pc == WantLock
  }

  lemma {:induction false} StepsAreSolo(c: Control, ts: seq<Turn>)
    requires IsRun(c, ts) && OnlySteps(ts)
    ensures IsSoloRun(c, ts)
    decreases |ts|
  {
    if ts != [] {
      assert forall k | 0 <= k < |ts[1..]| :: ts[1..][k] == ts[k + 1];
      StepsAreSolo(Turned(c, ts[0]), ts[1..]);
    }
  }

  lemma {:induction false} AloneStaysPunctual(c: Control, ts: seq<Turn>)
    requires IsSoloRun(c, ts) && Inv(c) && Alone(c) && Punctual(c)
    ensures IsRun(c, ts) && !SomeoneEarly(After(c, ts))
    decreases |ts|
  {
    if ts != [] {
      TurnKeepsInv(c, ts[0]);
      TurnKeepsSolo(c, ts[0]);
      AloneStaysPunctual(Turned(c, ts[0]), ts[1..]);
    }
  }

  lemma OverlapOnlySteps(g: nat, h: nat)
    ensures OnlySteps(Overlap(g, h) + WakeAndSet(h))
  {
  }

  lemma OverlapLeadsToEarly(c: Control, g: nat, h: nat)
    requires Inv(c) && Resting(c) && g != h && At(c, g, WantLock) && At(c, h, WantLock)
    requires Posts(c.calls[g].code) && Posts(c.calls[h].code)
    ensures LeadsToEarly(c, Overlap(g, h) + WakeAndSet(h))
  {
    OverlapReportsEarly(c, g, h);
    OverlapOnlySteps(g, h);
    var d := After(c, Overlap(g, h) + WakeAndSet(h));
    assert HasPosted(d.calls[h]) && IsEarly(d, h);
  }

  lemma AloneNeverEarly(c: Control, ts: seq<Turn>)
    requires Inv(c) && Punctual(c) && Alone(c)
    ensures !LeadsToEarly(c, ts)
  {
    if OnlySteps(ts) && IsRun(c, ts) {
      StepsAreSolo(c, ts);
      AloneStaysPunctual(c, ts);
    }
  }

  // From a resting state the calls that have arrived can get ahead of their callbacks if
  // and only if two of them are posting calls.
  lemma EarlyExactly(c: Control)
    requires Inv(c) && Resting(c) && Punctual(c) && JustArrived(c)
    ensures (exists ts: seq<Turn> :: LeadsToEarly(c, ts)) <==> !Alone(c)
  {
    if Alone(c) {
      forall ts: seq<Turn> ensures !LeadsToEarly(c, ts) {
        AloneNeverEarly(c, ts);
      }
    } else {
      var g: nat, h: nat :| g < |c.calls| && h < |c.calls| && Active(c.calls[g]) && Active(c.calls[h]) && g != h;
      OverlapLeadsToEarly(c, g, h);
    }
  }

  /* ---- quitting with a call in flight ---- */

  const WAKE_AND_LEAVE: seq<Turn> := [Do(WakeAll)] + ([Do(UnlockAfterWake)] + [])

  lemma QuitOnlySteps(g: nat, h: nat)
    ensures OnlySteps(PostAndWait(g) + (HANDLE + (WAKE_AND_LEAVE + PostAndWait(h))))
  {
  }

  // A call that gets the mutex only after the stop has been handled waits with the loop gone.
  lemma QuitStrandsLateCall(c: Control, g: nat, h: nat)
    requires Resting(c) && g != h && At(c, g, WantLock) && At(c, h, WantLock)
    requires EventCode(c.calls[g].code) == STOP && Posts(c.calls[h].code)
    ensures var ts := PostAndWait(g) + (HANDLE + (WAKE_AND_LEAVE + PostAndWait(h)));
            IsRun(c, ts) && After(c, ts).loop == Left && At(After(c, ts), h, Waiting)
  {
    PostAndWaitRun(c, g);
    var c1 := After(c, PostAndWait(g));
    HandleRun(c1);
    var c2 := After(c1, HANDLE);
    var c3 := Step(c2, WakeAll);
    var c4 := Step(c3, UnlockAfterWake);
    RunCons(c3, Do(UnlockAfterWake), []);
    RunCons(c2, Do(WakeAll), [Do(UnlockAfterWake)] + []);
    assert At(c4, h, WantLock) && c4.lock == Free && c4.loop == Left;
    PostAndWaitRun(c4, h);
    RunConcat(c2, WAKE_AND_LEAVE, PostAndWait(h));
    RunConcat(c1, HANDLE, WAKE_AND_LEAVE + PostAndWait(h));
    RunConcat(c, PostAndWait(g), HANDLE + (WAKE_AND_LEAVE + PostAndWait(h)));
  }
}
