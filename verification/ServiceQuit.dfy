/** What becomes of the calls of handler() in the whole service once it is stopped. */
module ServiceQuit {
  import opened Startup
  import opened Service
  import opened ServiceReach
  import H = Handshake
  import R = HandshakeRuns
  import Q = HandshakeQuit

  /* ---- the handshake inside the service ---- */

  function TurnOf(a: Act): seq<R.Turn> {
    match a
    case Boots(b) => if b == EnterHandler then [R.Calls(H.STARTUP)] else []
    case Steps(h) => [R.Do(h)]
    case Control(code) => [R.Calls(code)]
  }

  function TurnsOf(acts: seq<Act>): seq<R.Turn> {
    if acts == [] then [] else TurnOf(acts[0]) + TurnsOf(acts[1..])
  }

  lemma TurnFirst(s: Service, a: Act, ts: seq<R.Turn>)
    requires Can(s, a) && R.IsRun(Next(s, a).control, ts)
    ensures R.IsRun(s.control, TurnOf(a) + ts)
    ensures R.After(s.control, TurnOf(a) + ts) == R.After(Next(s, a).control, ts)
  {
    match a
    case Steps(h) => R.RunCons(s.control, R.Do(h), ts);
    case Control(code) => R.RunCons(s.control, R.Calls(code), ts);
    case Boots(b) =>
      if b == EnterHandler {
        R.RunCons(s.control, R.Calls(H.STARTUP), ts);
      } else {
        assert TurnOf(a) + ts == ts;
      }
  }

  // The handshake inside the service runs as a handshake.
  lemma {:induction false} ServiceRunsTheHandshake(s: Service, acts: seq<Act>)
    requires IsRun(s, acts)
    ensures R.IsRun(s.control, TurnsOf(acts)) && R.After(s.control, TurnsOf(acts)) == After(s, acts).control
    decreases |acts|
  {
    if acts != [] {
      ServiceRunsTheHandshake(Next(s, acts[0]), acts[1..]);
      TurnFirst(s, acts[0], TurnsOf(acts[1..]));
    }
  }

  // No handshake step is possible.
  ghost predicate NoStep(s: Service) {
    forall a: H.Action :: !Can(s, Steps(a))
  }

  lemma NoStepIsStuck(s: Service)
    requires NoStep(s) && s.boot.main == InLoop
    ensures Q.Stuck(s.control)
  {
    forall a: H.Action ensures !H.Enabled(s.control, a) {
      assert !Can(s, Steps(a));
    }
  }

  // From the wakeup for a stop on, whatever the service manager sends: once no handshake
  // step is possible, a call waits for ever if and only if it is a posting call that had not
  // got the mutex by then; every other call has returned.
  lemma {:induction false} QuitStrandsExactly(s: Service, acts: seq<Act>, h: nat)
    requires Inv(s) && Q.WakeReachedAll(s.control) && s.control.loop.Awake? && s.control.loop.e.code == H.STOP
    requires IsRun(s, acts) && NoStep(After(s, acts)) && After(s, acts).boot.main == InLoop
    requires h < |After(s, acts).control.calls|
    ensures var c, d := s.control, After(s, acts).control;
            d.calls[h].pc ==
            if H.Posts(d.calls[h].code) && (h < |c.calls| ==> c.calls[h].pc == H.WantLock) then H.Waiting else H.Done
  {
    ServiceRunsTheHandshake(s, acts);
    NoStepIsStuck(After(s, acts));
    Q.QuitStrandsExactly(s.control, TurnsOf(acts), h);
  }

  /* ---- nothing posting after a stop ---- */

  predicate Stops(code: nat) {
    H.EventCode(code) == H.STOP
  }

  predicate StopSent(c: H.Control) {
    exists g: nat :: g < |c.calls| && Stops(c.calls[g].code)
  }

  // The service manager sends no posting control after a stop or a shutdown.
  predicate Prudent(s: Service, a: Act) {
    a.Control? && H.Posts(a.code) ==> !StopSent(s.control)
  }

  predicate IsPrudentRun(s: Service, acts: seq<Act>)
    decreases |acts|
  {
    acts == [] || (Can(s, acts[0]) && Prudent(s, acts[0]) && IsPrudentRun(Next(s, acts[0]), acts[1..]))
  }

  // A polite run keeps this.
  ghost predicate Orderly(s: Service) {
    Inv(s) && Honest(s.control) && PostersAfterStartup(s) && Q.WakeReachedAll(s.control) && StopEndsLoop(s.control)
  }

  predicate IsRunStop(c: H.Control, g: nat) {
    g in c.ran && g < |c.calls| && Stops(c.calls[g].code)
  }

  // A stop whose callback has returned is being finished, or the loop has left after one.
  ghost predicate StopEndsLoop(c: H.Control) {
    && (forall g: nat | IsRunStop(c, g) ::
          c.loop == H.Left || ((c.loop.Called? || c.loop.WakeLocked? || c.loop.Awake?) && c.loop.e.owner == g))
    && (c.loop == H.Left ==> exists g: nat :: IsRunStop(c, g))
  }

  lemma StepKeepsStopEndsLoop(c: H.Control, a: H.Action)
    requires H.Enabled(c, a) && H.EventInv(c) && StopEndsLoop(c)
    ensures StopEndsLoop(H.Step(c, a))
  {
    var d := H.Step(c, a);
    H.StepKeepsCodes(c, a);
    if c.loop == H.Left {
      var g: nat :| IsRunStop(c, g);
      assert IsRunStop(d, g);
    } else if d.loop == H.Left {
      assert IsRunStop(d, c.loop.e.owner);
    }
    assert forall g: nat :: IsRunStop(d, g) ==> IsRunStop(c, g) || (a == H.RunCallback && g == c.loop.e.owner);
  }

  lemma ArriveKeepsStopEndsLoop(c: H.Control, code: nat)
    requires H.EventInv(c) && StopEndsLoop(c)
    ensures StopEndsLoop(H.Arrive(c, code))
  {
    var d := H.Arrive(c, code);
    if c.loop == H.Left {
      var g: nat :| IsRunStop(c, g);
      assert IsRunStop(d, g);
    }
    assert forall g: nat :: IsRunStop(d, g) ==> IsRunStop(c, g);
  }

  lemma {:induction false} NextKeepsOrderly(s: Service, a: Act)
    requires Can(s, a) && Polite(s, a) && Orderly(s)
    ensures Orderly(Next(s, a))
  {
    NextKeepsInv(s, a);
    NextKeepsHonest(s, a);
    NextKeepsPostersAfterStartup(s, a);
    match a
    case Steps(h) =>
      Q.TurnKeepsWakeReachedAll(s.control, R.Do(h));
      StepKeepsStopEndsLoop(s.control, h);
    case Control(code) =>
      Q.TurnKeepsWakeReachedAll(s.control, R.Calls(code));
      ArriveKeepsStopEndsLoop(s.control, code);
    case Boots(b) =>
      Q.TurnKeepsWakeReachedAll(s.control, R.Calls(H.STARTUP));
      ArriveKeepsStopEndsLoop(s.control, H.STARTUP);
  }

  /* ---- a prudent manager strands no call ---- */

  // Every other posting call was through when the stop was sent.
  predicate StopIsLast(c: H.Control) {
    forall g: nat, h: nat | g < |c.calls| && h < |c.calls| && g != h && Stops(c.calls[g].code) ::
      !R.Active(c.calls[h])
  }

  predicate NobodyLate(c: H.Control) {
    Q.LastWakeGiven(c) ==> forall h: nat | h < |c.calls| :: !Q.Late(c.calls[h])
  }

  lemma StepKeepsStopIsLast(c: H.Control, a: H.Action)
    requires H.Enabled(c, a) && H.PostersOnly(c) && StopIsLast(c)
    ensures StopIsLast(H.Step(c, a))
  {
    var d := H.Step(c, a);
    H.StepKeepsCodes(c, a);
    assert forall h: nat | h < |d.calls| :: R.Active(d.calls[h]) ==> R.Active(c.calls[h]);
  }

  lemma StepKeepsNobodyLate(c: H.Control, a: H.Action)
    requires H.Enabled(c, a) && H.Inv(c) && R.Alone(c) && R.Punctual(c) && StopIsLast(c) && NobodyLate(c)
    ensures NobodyLate(H.Step(c, a))
  {
    var d := H.Step(c, a);
    H.StepKeepsCodes(c, a);
    if Q.LastWakeGiven(c) {
      forall h: nat | h < |d.calls| ensures !Q.Late(d.calls[h]) {
        Q.StepKeepsLate(c, a, h);
      }
    } else if a == H.WakeAll && c.loop.e.code == H.STOP {
      StopWakesTheLast(c);
    }
  }

  lemma StopWakesTheLast(c: H.Control)
    requires H.Enabled(c, H.WakeAll) && c.loop.e.code == H.STOP
    requires H.Inv(c) && R.Alone(c) && R.Punctual(c) && StopIsLast(c)
    ensures var d := H.Step(c, H.WakeAll); forall h: nat | h < |d.calls| :: !Q.Late(d.calls[h])
  {
    R.HandledAlone(c);
    var g := c.loop.e.owner;
    assert Stops(c.calls[g].code);
    assert forall h: nat | h < |c.calls| && h != g :: !R.Active(c.calls[h]);
  }

  lemma LastWakeMeansStopSent(c: H.Control)
    requires H.EventInv(c) && StopEndsLoop(c) && Q.LastWakeGiven(c)
    ensures StopSent(c)
  {
    if c.loop.Awake? {
      assert Stops(c.calls[c.loop.e.owner].code);
    } else {
      var g: nat :| IsRunStop(c, g);
    }
  }

  lemma ArriveKeepsPrudence(c: H.Control, code: nat)
    requires H.EventInv(c) && StopEndsLoop(c) && StopIsLast(c) && NobodyLate(c)
    requires H.Posts(code) ==> !StopSent(c) && forall h: nat | h < |c.calls| :: !R.Active(c.calls[h])
    ensures StopIsLast(H.Arrive(c, code)) && NobodyLate(H.Arrive(c, code))
  {
    if Q.LastWakeGiven(c) {
      LastWakeMeansStopSent(c);
    }
  }

  lemma {:induction false} NextKeepsPrudence(s: Service, a: Act)
    requires Can(s, a) && Polite(s, a) && Prudent(s, a) && Orderly(s)
    requires StopIsLast(s.control) && NobodyLate(s.control)
    ensures StopIsLast(Next(s, a).control) && NobodyLate(Next(s, a).control)
  {
    match a
    case Steps(h) =>
      StepKeepsStopIsLast(s.control, h);
      StepKeepsNobodyLate(s.control, h);
    case Control(code) =>
      if H.Posts(code) {
        StartupFinishedMeans(s.control);
      }
      ArriveKeepsPrudence(s.control, code);
    case Boots(b) =>
      if b == EnterHandler {
        NoPosterBeforeStartup(s);
        ArriveKeepsPrudence(s.control, H.STARTUP);
      }
  }

  lemma {:induction false} PrudentRunStrandsNobody(s: Service, acts: seq<Act>)
    requires IsRun(s, acts) && IsPoliteRun(s, acts) && IsPrudentRun(s, acts) && Orderly(s)
    requires StopIsLast(s.control) && NobodyLate(s.control)
    ensures Inv(After(s, acts)) && NobodyLate(After(s, acts).control)
    decreases |acts|
  {
    if acts != [] {
      NextKeepsOrderly(s, acts[0]);
      NextKeepsPrudence(s, acts[0]);
      PrudentRunStrandsNobody(Next(s, acts[0]), acts[1..]);
    }
  }

  /* ---- any other does ---- */

  // When a posting control is sent politely after a stop, the last wakeup has been given.
  lemma StopIsOver(s: Service)
    requires Orderly(s) && DispatcherFree(s.control) && StopSent(s.control)
    ensures Q.LastWakeGiven(s.control)
  {
    StopIsHandled(s.control);
  }

  lemma StopIsHandled(c: H.Control)
    requires H.EventInv(c) && R.Punctual(c) && StopEndsLoop(c) && DispatcherFree(c) && StopSent(c)
    ensures Q.LastWakeGiven(c)
  {
    var g: nat :| g < |c.calls| && Stops(c.calls[g].code);
    assert c.calls[g].pc == H.Done && H.HasPosted(c.calls[g]) && IsRunStop(c, g);
    assert !H.Pending(c, g);
    assert c.loop.Awake? ==> H.EventOf(c, c.loop.e);
  }

  lemma {:induction false} ImprudentRunStrands(s: Service, acts: seq<Act>)
    requires IsRun(s, acts) && IsPoliteRun(s, acts) && Orderly(s) && !IsPrudentRun(s, acts)
    ensures var c := After(s, acts).control;
            Inv(After(s, acts)) && Q.LastWakeGiven(c) && exists h: nat :: h < |c.calls| && Q.Late(c.calls[h])
    decreases |acts|
  {
    NextKeepsOrderly(s, acts[0]);
    var next := Next(s, acts[0]);
    if Prudent(s, acts[0]) {
      ImprudentRunStrands(next, acts[1..]);
    } else {
      StopIsOver(s);
      var h := |s.control.calls|;
      assert Q.Late(next.control.calls[h]);
      RunKeepsInv(next, acts[1..]);
      ServiceRunsTheHandshake(next, acts[1..]);
      LateStays(next.control, TurnsOf(acts[1..]), h);
    }
  }

  lemma LateStays(c: H.Control, ts: seq<R.Turn>, h: nat)
    requires R.IsRun(c, ts) && H.Inv(c) && Q.LastWakeGiven(c) && h < |c.calls| && Q.Late(c.calls[h])
    ensures var d := R.After(c, ts); Q.LastWakeGiven(d) && h < |d.calls| && Q.Late(d.calls[h])
  {
    R.CallsStay(c, ts);
    Q.RunKeepsLate(c, ts, h);
  }

  // With a manager that waits for the startup, once no handshake step is possible every
  // call has returned if and only if no posting control was sent after a stop or shutdown.
  lemma {:induction false} EveryCallReturnsExactly(args: seq<string>, acts: seq<Act>)
    requires IsRun(Initial(args), acts) && IsPoliteRun(Initial(args), acts)
    requires NoStep(After(Initial(args), acts)) && After(Initial(args), acts).boot.main == InLoop
    ensures var c := After(Initial(args), acts).control;
            (forall h: nat | h < |c.calls| :: c.calls[h].pc == H.Done) <==> IsPrudentRun(Initial(args), acts)
  {
    var s := Initial(args);
    var d := After(s, acts);
    InitialInv(args);
    NoStepIsStuck(d);
    if IsPrudentRun(s, acts) {
      PrudentRunStrandsNobody(s, acts);
      forall h: nat | h < |d.control.calls| ensures d.control.calls[h].pc == H.Done {
        if d.control.loop == H.Left {
          Q.StuckAfterQuit(d.control, h);
        } else {
          R.EveryCallReturns(d.control, h);
        }
      }
    } else {
      ImprudentRunStrands(s, acts);
      var h: nat :| h < |d.control.calls| && Q.Late(d.control.calls[h]);
      Q.StuckAfterQuit(d.control, h);
    }
  }

  /* ---- a run for each case ---- */

  lemma {:induction false} PoliteRunKeepsOrderly(s: Service, acts: seq<Act>)
    requires IsRun(s, acts) && IsPoliteRun(s, acts) && Orderly(s)
    ensures Orderly(After(s, acts))
    decreases |acts|
  {
    if acts != [] {
      NextKeepsOrderly(s, acts[0]);
      PoliteRunKeepsOrderly(Next(s, acts[0]), acts[1..]);
    }
  }

  lemma PolitelyReachedOrderly(args: seq<string>, s: Service)
    requires PolitelyReached(args, s)
    ensures Orderly(s)
  {
    var acts: seq<Act> :| ReachedBy(args, s, acts) && IsPoliteRun(Initial(args), acts);
    InitialInv(args);
    PoliteRunKeepsOrderly(Initial(args), acts);
  }

  // The calls of d are those of c, further on.
  predicate Later(c: H.Control, d: H.Control) {
    && |c.calls| == |d.calls|
    && (forall h: nat | h < |c.calls| :: d.calls[h].code == c.calls[h].code)
    && (forall h: nat | h < |c.calls| && c.calls[h].pc == H.Done :: d.calls[h].pc == H.Done)
    && (Q.LastWakeGiven(c) ==>
          Q.LastWakeGiven(d) && forall h: nat | h < |c.calls| && Q.Late(c.calls[h]) :: Q.Late(d.calls[h]))
  }

  lemma StepIsLater(c: H.Control, a: H.Action)
    requires H.Enabled(c, a) && H.PostersOnly(c)
    ensures Later(c, H.Step(c, a))
  {
    H.StepKeepsCodes(c, a);
    if Q.LastWakeGiven(c) {
      forall h: nat | h < |c.calls| ensures Q.Late(H.Step(c, a).calls[h]) <==> Q.Late(c.calls[h]) {
        Q.StepKeepsLate(c, a, h);
      }
    }
  }

  // Left alone, the handshake comes to a state in which no step is possible.
  lemma {:induction false} RunsOut(args: seq<string>, s: Service) returns (d: Service)
    requires PolitelyReached(args, s) && s.boot.main == InLoop
    ensures PolitelyReached(args, d) && NoStep(d) && d.boot == s.boot && Later(s.control, d.control)
    decreases R.Work(s.control)
  {
    if NoStep(s) {
      d := s;
    } else {
      var a: H.Action :| Can(s, Steps(a));
      R.StepWorks(s.control, a);
      PolitelyReachedOrderly(args, s);
      StepIsLater(s.control, a);
      PolitelyReachedNext(args, s, Steps(a));
      d := RunsOut(args, Next(s, Steps(a)));
    }
  }

  lemma UnstoppedRunsThrough(args: seq<string>, s: Service)
    requires PolitelyReached(args, s) && NoStep(s) && s.boot.main == InLoop && !StopSent(s.control)
    ensures forall h: nat | h < |s.control.calls| :: s.control.calls[h].pc == H.Done
  {
    PolitelyReachedOrderly(args, s);
    NoStepIsStuck(s);
    forall h: nat | h < |s.control.calls| ensures s.control.calls[h].pc == H.Done {
      R.EveryCallReturns(s.control, h);
    }
  }

  // The service is up, all calls have returned, and no stop has been sent.
  predicate IsUp(s: Service) {
    && s.boot.main == InLoop && HandlerRegistered(s.boot)
    && DispatcherFree(s.control) && StartupFinished(s.control) && !StopSent(s.control)
    && forall h: nat | h < |s.control.calls| :: s.control.calls[h].pc == H.Done
  }

  lemma ServiceComesUp(args: seq<string>) returns (s: Service)
    ensures PolitelyReached(args, s) && IsUp(s)
  {
    StartupIsCalled(args);
    s := RunsOut(args, StartupCalled(args));
    UnstoppedRunsThrough(args, s);
    assert s.control.calls[0].code == H.STARTUP;
  }

  // The stop itself returns.
  lemma StopReturns(args: seq<string>, s: Service, stop: nat) returns (d: Service)
    requires PolitelyReached(args, s) && IsUp(s) && Stops(stop)
    ensures PolitelyReached(args, d) && d.boot == s.boot && StopSent(d.control) && StartupFinished(d.control)
    ensures forall h: nat | h < |d.control.calls| :: d.control.calls[h].pc == H.Done
  {
    var sent := Next(s, Control(stop));
    PolitelyReachedNext(args, s, Control(stop));
    d := RunsOut(args, sent);
    PolitelyReachedOrderly(args, d);
    NoStepIsStuck(d);
    var g := |s.control.calls|;
    assert Stops(d.control.calls[g].code);
    LastCallIsDone(d, g);
    var h: nat :| h < g && s.control.calls[h].code == H.STARTUP;
    assert d.control.calls[h].pc == H.Done && d.control.calls[h].code == H.STARTUP;
  }

  lemma LastCallIsDone(d: Service, g: nat)
    requires Orderly(d) && Q.Stuck(d.control) && g < |d.control.calls|
    requires forall h: nat | h < |d.control.calls| && Stops(d.control.calls[h].code) :: h == g
    ensures d.control.calls[g].pc == H.Done
  {
    var c := d.control;
    if c.loop == H.Left {
      var h: nat :| IsRunStop(c, h);
      Q.StuckAfterQuit(c, g);
      assert !H.Pending(c, g);
    } else {
      R.EveryCallReturns(c, g);
    }
  }

  // From process start, for any arguments: the startup, then a stop, each returning before
  // the next call is made; a posting control sent after that waits for ever.
  lemma ControlAfterStop(args: seq<string>, stop: nat, code: nat)
    requires Stops(stop) && H.Posts(code) && code < H.STARTUP
    ensures exists s: Service, h: nat ::
              PolitelyReached(args, s) && s.control.loop == H.Left &&
              H.At(s.control, h, H.Waiting) && s.control.calls[h].code == code
  {
    var up := ServiceComesUp(args);
    var s := StopReturns(args, up, stop);
    ControlStrands(args, s, code);
  }

  lemma ControlStrands(args: seq<string>, s: Service, code: nat)
    requires PolitelyReached(args, s) && s.boot.main == InLoop && HandlerRegistered(s.boot)
    requires DispatcherFree(s.control) && StartupFinished(s.control) && StopSent(s.control)
    requires H.Posts(code) && code < H.STARTUP
    ensures exists s: Service, h: nat ::
              PolitelyReached(args, s) && s.control.loop == H.Left &&
              H.At(s.control, h, H.Waiting) && s.control.calls[h].code == code
  {
    PolitelyReachedOrderly(args, s);
    StopIsOver(s);
    var sent := Next(s, Control(code));
    PolitelyReachedNext(args, s, Control(code));
    var h := |s.control.calls|;
    assert Q.Late(sent.control.calls[h]);
    var d := LateEndsWaiting(args, sent, h);
  }

  lemma LateEndsWaiting(args: seq<string>, s: Service, h: nat) returns (d: Service)
    requires PolitelyReached(args, s) && s.boot.main == InLoop
    requires Q.LastWakeGiven(s.control) && h < |s.control.calls| && Q.Late(s.control.calls[h])
    ensures PolitelyReached(args, d) && d.control.loop == H.Left && H.At(d.control, h, H.Waiting)
    ensures d.control.calls[h].code == s.control.calls[h].code
  {
    d := RunsOut(args, s);
    PolitelyReachedOrderly(args, d);
    NoStepIsStuck(d);
    Q.StuckAfterQuit(d.control, h);
  }
}
