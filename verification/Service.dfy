/** The whole Windows service: startup and handshake together. */
module Service {
  import opened Startup
  import H = Handshake
  import R = HandshakeRuns

  datatype Service = Service(boot: Boot, control: H.Control)

  datatype Act =
    | Boots(b: BootStep)
    | Steps(a: H.Action)
    | Control(code: nat)   // the service manager calls handler() on the dispatcher thread

  // handler() is called from serviceMain, for the startup, and from the dispatcher thread,
  // which makes one call after another.
  predicate DispatcherFree(c: H.Control) {
    forall h: nat | h < |c.calls| && c.calls[h].code != H.STARTUP :: c.calls[h].pc == H.Done
  }

  // Controls reach a handler only once it is registered; the manager's codes are below 256.
  predicate Can(s: Service, a: Act) {
    match a
    case Boots(b) => CanBoot(s.boot, b)
    case Steps(h) => H.Enabled(s.control, h) && (R.IsLoopStep(h) ==> s.boot.main == InLoop)
    case Control(code) => HandlerRegistered(s.boot) && DispatcherFree(s.control) && code < H.STARTUP
  }

  function Next(s: Service, a: Act): Service
    requires Can(s, a)
  {
    match a
    case Boots(b) =>
      Service(Booted(s.boot, b), if b == EnterHandler then H.Arrive(s.control, H.STARTUP) else s.control)
    case Steps(h) => s.(control := H.Step(s.control, h))
    case Control(code) => s.(control := H.Arrive(s.control, code))
  }

  predicate IsRun(s: Service, acts: seq<Act>)
    decreases |acts|
  {
    acts == [] || (Can(s, acts[0]) && IsRun(Next(s, acts[0]), acts[1..]))
  }

  function After(s: Service, acts: seq<Act>): Service
    requires IsRun(s, acts)
    decreases |acts|
  {
    if acts == [] then s else After(Next(s, acts[0]), acts[1..])
  }

  function Initial(args: seq<string>): Service {
    Service(Off(args), H.QUIET)
  }

  predicate StartupCalledFrom(s: Service) {
    (exists h: nat :: h < |s.control.calls| && s.control.calls[h].code == H.STARTUP) ==> s.boot.service == InHandler
  }

  predicate Inv(s: Service) {
    && BootInv(s.boot)
    && H.Inv(s.control)
    && R.StartsOnce(s.control)
    && StartupCalledFrom(s)
    && (s.control.calls != [] ==> HandlerRegistered(s.boot))
  }

  lemma InitialInv(args: seq<string>)
    ensures Inv(Initial(args))
  {
  }

  lemma {:induction false} BootsKeepsInv(s: Service, b: BootStep)
    requires CanBoot(s.boot, b) && Inv(s)
    ensures Inv(Next(s, Boots(b)))
  {
    BootKeepsThreads(s.boot, b);
    BootKeepsFirst(s.boot, b);
    BootKeepsSecond(s.boot, b);
    if b == EnterHandler {
      H.ArriveKeepsInv(s.control, H.STARTUP);
      R.ArriveKeepsStartsOnce(s.control, H.STARTUP);
    }
  }

  lemma {:induction false} NextKeepsInv(s: Service, a: Act)
    requires Can(s, a) && Inv(s)
    ensures Inv(Next(s, a))
  {
    match a
    case Boots(b) => BootsKeepsInv(s, b);
    case Steps(h) =>
      H.StepKeepsInv(s.control, h);
      R.StepKeepsStartsOnce(s.control, h);
      H.StepKeepsCodes(s.control, h);
    case Control(code) =>
      H.ArriveKeepsInv(s.control, code);
      R.ArriveKeepsStartsOnce(s.control, code);
      var d := H.Arrive(s.control, code);
      assert forall h: nat | h < |d.calls| && d.calls[h].code == H.STARTUP :: s.control.calls[h].code == H.STARTUP;
  }

  lemma {:induction false} RunKeepsInv(s: Service, acts: seq<Act>)
    requires IsRun(s, acts) && Inv(s)
    ensures Inv(After(s, acts))
    decreases |acts|
  {
    if acts != [] {
      NextKeepsInv(s, acts[0]);
      RunKeepsInv(Next(s, acts[0]), acts[1..]);
    }
  }

  // In every interleaving: the main thread copies the arguments only after all of them
  // have been appended, and has them all when it creates the application; events are
  // posted only once the application and the handler object exist; start() is called at
  // most once.
  lemma StartupOrder(args: seq<string>, acts: seq<Act>)
    requires IsRun(Initial(args), acts)
    ensures var s := After(Initial(args), acts);
            && (s.boot.main == CountArgs || s.boot.main == ReadArgs ==> s.boot.serviceArgs == args)
            && (s.boot.main == CreateApp ==> s.boot.seen == args)
            && (s.boot.main == CheckStarted && !s.boot.success ==> s.boot.dispatcher == Ended)
            && (s.control.calls != [] ==> s.boot.app && s.boot.handler)
            && s.control.starts <= 1
  {
    InitialInv(args);
    RunKeepsInv(Initial(args), acts);
    ArgsStay(Initial(args), acts);
  }

  lemma {:induction false} ArgsStay(s: Service, acts: seq<Act>)
    requires IsRun(s, acts)
    ensures After(s, acts).boot.windowsArgs == s.boot.windowsArgs
    decreases |acts|
  {
    if acts != [] {
      ArgsStay(Next(s, acts[0]), acts[1..]);
    }
  }

  /* ---- every call gets through ---- */

  // While the loop runs, a service that can make no handshake step has no call in flight.
  lemma EveryCallReturns(s: Service, h: nat)
    requires Inv(s) && s.boot.main == InLoop && s.control.loop != H.Left && h < |s.control.calls|
    requires forall a: H.Action :: !Can(s, Steps(a))
    ensures s.control.calls[h].pc == H.Done && s.control.queue == []
  {
    forall a: H.Action ensures !H.Enabled(s.control, a) {
      assert !Can(s, Steps(a));
    }
    R.EveryCallReturns(s.control, h);
  }

  predicate Arrives(a: Act) {
    a.Control? || a == Boots(EnterHandler)
  }

  function StepsIn(acts: seq<Act>): nat {
    if acts == [] then 0 else (if acts[0].Steps? then 1 else 0) + StepsIn(acts[1..])
  }

  function ArrivalsIn(acts: seq<Act>): nat {
    if acts == [] then 0 else (if Arrives(acts[0]) then 1 else 0) + ArrivalsIn(acts[1..])
  }

  lemma {:induction false} ArriveWork(calls: seq<H.Call>, code: nat)
    ensures R.CallsWork(calls + [H.Call(code, H.WantLock)]) == R.CallsWork(calls) + 15
  {
    if calls == [] {
      assert calls + [H.Call(code, H.WantLock)] == [H.Call(code, H.WantLock)];
    } else {
      ArriveWork(calls[1..], code);
      assert (calls + [H.Call(code, H.WantLock)])[1..] == calls[1..] + [H.Call(code, H.WantLock)];
    }
  }

  lemma NextWork(s: Service, a: Act)
    requires Can(s, a)
    ensures R.Work(Next(s, a).control) + (if a.Steps? then 1 else 0) <=
            R.Work(s.control) + if Arrives(a) then 15 else 0
  {
    match a
    case Steps(h) => R.StepWorks(s.control, h);
    case Control(code) => ArriveWork(s.control.calls, code);
    case Boots(b) => ArriveWork(s.control.calls, H.STARTUP);
  }

  // Each call of handler() costs at most fifteen handshake steps, its event's included.
  lemma {:induction false} StepsAreBounded(s: Service, acts: seq<Act>)
    requires IsRun(s, acts)
    ensures StepsIn(acts) <= R.Work(s.control) + 15 * ArrivalsIn(acts)
    decreases |acts|
  {
    if acts != [] {
      NextWork(s, acts[0]);
      StepsAreBounded(Next(s, acts[0]), acts[1..]);
    }
  }

  /* ---- the reported status ---- */

  // The startup call has come through.
  predicate StartupFinished(c: H.Control) {
    exists h: nat :: h < |c.calls| && c.calls[h].code == H.STARTUP && c.calls[h].pc in {H.Unlocked, H.Done}
  }

  // The service manager sends no posting control during start-pending.
  predicate Polite(s: Service, a: Act) {
    a.Control? && H.Posts(a.code) ==> StartupFinished(s.control)
  }

  predicate IsPoliteRun(s: Service, acts: seq<Act>)
    decreases |acts|
  {
    acts == [] || (Can(s, acts[0]) && Polite(s, acts[0]) && IsPoliteRun(Next(s, acts[0]), acts[1..]))
  }

  predicate PostersAfterStartup(s: Service) {
    (exists h: nat :: h < |s.control.calls| && H.Posts(s.control.calls[h].code)) ==> s.boot.service == InHandler
  }

  predicate Honest(c: H.Control) {
    R.Alone(c) && R.Punctual(c) && R.HonestStatus(c) && R.HonestCalls(c) && R.StartIsUp(c)
  }

  lemma StepKeepsHonest(c: H.Control, a: H.Action)
    requires H.Enabled(c, a) && H.Inv(c) && Honest(c)
    ensures Honest(H.Step(c, a))
  {
    R.StepKeepsAlone(c, a);
    R.StepKeepsPunctual(c, a);
    R.StepKeepsHonesty(c, a);
    R.StepKeepsStartIsUp(c, a);
  }

  lemma ArriveKeepsHonest(c: H.Control, code: nat)
    requires H.Inv(c) && Honest(c)
    requires R.SoloTurn(c, R.Calls(code)) && R.StartedTurn(c, R.Calls(code))
    ensures Honest(H.Arrive(c, code))
  {
    R.TurnKeepsSolo(c, R.Calls(code));
    R.TurnKeepsHonesty(c, R.Calls(code));
  }

  lemma StartupFinishedMeans(c: H.Control)
    requires H.Inv(c) && Honest(c) && R.StartsOnce(c) && DispatcherFree(c) && StartupFinished(c)
    ensures c.mode != H.NotStarted
    ensures forall h: nat | h < |c.calls| :: !R.Active(c.calls[h])
  {
    var h: nat :| h < |c.calls| && c.calls[h].code == H.STARTUP && c.calls[h].pc in {H.Unlocked, H.Done};
    assert H.HasPosted(c.calls[h]);
    assert h in c.ran && c.ran[h] == H.Start;
  }

  lemma NoPosterBeforeStartup(s: Service)
    requires PostersAfterStartup(s) && s.boot.service != InHandler
    ensures forall h: nat | h < |s.control.calls| :: !R.Active(s.control.calls[h])
  {
  }

  lemma NextKeepsHonest(s: Service, a: Act)
    requires Can(s, a) && Polite(s, a) && Inv(s) && Honest(s.control) && PostersAfterStartup(s)
    ensures Honest(Next(s, a).control)
  {
    match a
    case Steps(h) => StepKeepsHonest(s.control, h);
    case Boots(b) =>
      if b == EnterHandler {
        NoPosterBeforeStartup(s);
        ArriveKeepsHonest(s.control, H.STARTUP);
      }
    case Control(code) =>
      if H.Posts(code) {
        StartupFinishedMeans(s.control);
      }
      ArriveKeepsHonest(s.control, code);
  }

  lemma NextKeepsPostersAfterStartup(s: Service, a: Act)
    requires Can(s, a) && Polite(s, a) && Inv(s) && PostersAfterStartup(s)
    ensures PostersAfterStartup(Next(s, a))
  {
    match a
    case Steps(h) => H.StepKeepsCodes(s.control, h);
    case Boots(b) =>
    case Control(code) => ControlAfterStartup(s, code);
  }

  lemma ControlAfterStartup(s: Service, code: nat)
    requires Polite(s, Control(code)) && StartupCalledFrom(s) && PostersAfterStartup(s)
    ensures PostersAfterStartup(s.(control := H.Arrive(s.control, code)))
  {
    var d := H.Arrive(s.control, code);
    forall h: nat | h < |d.calls| && H.Posts(d.calls[h].code) ensures s.boot.service == InHandler {
      if h < |s.control.calls| {
        assert d.calls[h] == s.control.calls[h];
      }
    }
  }

  lemma {:induction false} PoliteRunKeepsHonest(s: Service, acts: seq<Act>)
    requires IsPoliteRun(s, acts) && Inv(s) && Honest(s.control) && PostersAfterStartup(s)
    ensures IsRun(s, acts) && Honest(After(s, acts).control)
    decreases |acts|
  {
    if acts != [] {
      NextKeepsInv(s, acts[0]);
      NextKeepsHonest(s, acts[0]);
      NextKeepsPostersAfterStartup(s, acts[0]);
      PoliteRunKeepsHonest(Next(s, acts[0]), acts[1..]);
    }
  }

  // With a manager that waits for the startup, RUNNING is reported only after start() and
  // of a service that is not paused, PAUSED only of a paused one, and no call goes on after
  // its wait before its own callback has returned.
  lemma StatusIsHonest(args: seq<string>, acts: seq<Act>, h: nat)
    requires IsPoliteRun(Initial(args), acts)
    ensures IsRun(Initial(args), acts)
    ensures var c := After(Initial(args), acts).control;
            R.HonestStatus(c) && (h < |c.calls| ==> !R.IsEarly(c, h))
  {
    InitialInv(args);
    PoliteRunKeepsHonest(Initial(args), acts);
  }
}
