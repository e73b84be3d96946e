/** Which calls of handler() a stop leaves waiting for ever. */
module HandshakeQuit {
  import opened Handshake
  import opened HandshakeRuns

  // Only a wakeup that is still to come lets this call return.
  predicate Late(call: Call) {
    Posts(call.code) && call.pc in {WantLock, Locked, Pended, Posted, Waiting}
  }

  // The last wakeup has been given.
  predicate LastWakeGiven(c: Control) {
    c.loop == Left || (c.loop.Awake? && c.loop.e.code == STOP)
  }

  // No thread can make a step.
  ghost predicate Stuck(c: Control) {
    forall a: Action :: !Enabled(c, a)
  }

  // Right after a wakeAll nobody waits: no call can get the mutex to start waiting.
  predicate WakeReachedAll(c: Control) {
    c.loop.Awake? ==> forall h: nat | h < |c.calls| :: c.calls[h].pc != Waiting
  }

  lemma TurnKeepsWakeReachedAll(c: Control, t: Turn)
    requires CanTurn(c, t) && LockInv(c) && WakeReachedAll(c)
    ensures WakeReachedAll(Turned(c, t))
  {
  }

  lemma {:induction false} RunKeepsWakeReachedAll(c: Control, ts: seq<Turn>)
    requires IsRun(c, ts) && Inv(c) && WakeReachedAll(c)
    ensures Inv(After(c, ts)) && WakeReachedAll(After(c, ts))
    decreases |ts|
  {
    if ts != [] {
      TurnKeepsInv(c, ts[0]);
      TurnKeepsWakeReachedAll(c, ts[0]);
      RunKeepsWakeReachedAll(Turned(c, ts[0]), ts[1..]);
    }
  }

  lemma TurnKeepsLastWake(c: Control, t: Turn)
    requires CanTurn(c, t) && PostersOnly(c) && LastWakeGiven(c)
    ensures LastWakeGiven(Turned(c, t)) && PostersOnly(Turned(c, t)) && |c.calls| <= |Turned(c, t).calls|
  {
    if t.Do? {
      StepKeepsPostersOnly(c, t.a);
      StepKeepsCodes(c, t.a);
    }
  }

  lemma StepKeepsLate(c: Control, a: Action, h: nat)
    requires Enabled(c, a) && PostersOnly(c) && LastWakeGiven(c) && h < |c.calls|
    ensures var d := Step(c, a); h < |d.calls| && (Late(d.calls[h]) <==> Late(c.calls[h]))
  {
  }

  // After the last wakeup a late call stays late, no other call becomes late, and every
  // new posting call is.
  lemma {:induction false} TurnKeepsLate(c: Control, t: Turn, h: nat)
    requires CanTurn(c, t) && PostersOnly(c) && LastWakeGiven(c) && h < |Turned(c, t).calls|
    ensures var d := Turned(c, t);
            && (h < |c.calls| ==> d.calls[h].code == c.calls[h].code)
            && (Late(d.calls[h]) <==> Posts(d.calls[h].code) && (h < |c.calls| ==> Late(c.calls[h])))
  {
    if t.Do? {
      StepKeepsCodes(c, t.a);
      StepKeepsLate(c, t.a, h);
    }
  }

  lemma {:induction false} RunKeepsLate(c: Control, ts: seq<Turn>, h: nat)
    requires IsRun(c, ts) && PostersOnly(c) && LastWakeGiven(c) && h < |After(c, ts).calls|
    ensures var d := After(c, ts);
            && LastWakeGiven(d)
            && (Late(d.calls[h]) <==> Posts(d.calls[h].code) && (h < |c.calls| ==> Late(c.calls[h])))
            && (h < |c.calls| ==> d.calls[h].code == c.calls[h].code)
    decreases |ts|
  {
    if ts != [] {
      TurnKeepsLastWake(c, ts[0]);
      RunKeepsLate(Turned(c, ts[0]), ts[1..], h);
      if h < |Turned(c, ts[0]).calls| {
        TurnKeepsLate(c, ts[0], h);
      }
    }
  }

  lemma StuckIsFree(c: Control)
    requires LockInv(c) && LastWakeGiven(c) && Stuck(c)
    ensures c.loop == Left && c.lock == Free
  {
    assert !Enabled(c, UnlockAfterWake);
    if c.lock.ByCall? {
      HolderCanStep(c, c.lock.h);
    }
  }

  // When nobody can step any more, the late calls wait and all others have returned.
  lemma StuckAfterQuit(c: Control, h: nat)
    requires LockInv(c) && PostersOnly(c) && LastWakeGiven(c) && Stuck(c) && h < |c.calls|
    ensures c.loop == Left && c.calls[h].pc == if Late(c.calls[h]) then Waiting else Done
  {
    StuckIsFree(c);
    assert !Enabled(c, Lock(h)) && !Enabled(c, Relock(h)) && !Enabled(c, Report(h));
  }

  // The main thread is about to release the mutex after the wakeup for a stop.  However it
  // goes on, new calls included, once nobody can step a call waits for ever if and only if
  // it is a posting call that had not got the mutex by then; every other call has returned.
  lemma {:induction false} QuitStrandsExactly(c: Control, ts: seq<Turn>, h: nat)
    requires Inv(c) && WakeReachedAll(c) && c.loop.Awake? && c.loop.e.code == STOP
    requires IsRun(c, ts) && Stuck(After(c, ts)) && h < |After(c, ts).calls|
    ensures var d := After(c, ts);
            d.calls[h].pc ==
            if Posts(d.calls[h].code) && (h < |c.calls| ==> c.calls[h].pc == WantLock) then Waiting else Done
  {
    NoWakeupIsLost(c, ts);
    RunKeepsLate(c, ts, h);
    StuckAfterQuit(After(c, ts), h);
    if h < |c.calls| && Late(c.calls[h]) {
      assert !Holds(c.calls[h].pc);
    }
  }

  // The same for every run from the start of the event loop, cut at that moment.
  lemma QuitStrandsExactlyFromStart(before: seq<Turn>, ts: seq<Turn>, h: nat)
    requires IsRun(QUIET, before)
    requires var c := After(QUIET, before);
             && c.loop.Awake? && c.loop.e.code == STOP
             && IsRun(c, ts) && Stuck(After(c, ts)) && h < |After(c, ts).calls|
    ensures var c := After(QUIET, before); var d := After(c, ts);
            d.calls[h].pc ==
            if Posts(d.calls[h].code) && (h < |c.calls| ==> c.calls[h].pc == WantLock) then Waiting else Done
  {
    RunKeepsWakeReachedAll(QUIET, before);
    QuitStrandsExactly(After(QUIET, before), ts, h);
  }
}
