/** What each control code does: the callback it gets and the status it shows. */
module HandshakeAnswers {
  import opened Handshake
  import opened HandshakeRuns
  import opened HandshakeQuit

  /* ---- no posted event is lost ---- */

  predicate Queued(c: Control, h: nat) {
    exists k :: 0 <= k < |c.queue| && c.queue[k].owner == h
  }

  predicate EventsKept(c: Control) {
    && (forall h: nat | h < |c.calls| && HasPosted(c.calls[h]) :: h in c.taken || Queued(c, h))
    && (forall h | h in c.taken :: h in c.ran || (c.loop.Calling? && c.loop.e.owner == h))
  }

  lemma QueuedStays(c: Control, a: Action, h: nat)
    requires Enabled(c, a) && Queued(c, h)
    ensures Queued(Step(c, a), h) || h in Step(c, a).taken
  {
    var k :| 0 <= k < |c.queue| && c.queue[k].owner == h;
    var d := Step(c, a);
    if a == TakeEvent {
      assert k > 0 ==> d.queue[k - 1].owner == h;
    } else {
      assert d.queue[k].owner == h;
    }
  }

  lemma PostedComesFrom(c: Control, a: Action, h: nat)
    requires Enabled(c, a) && PostersOnly(c) && h < |c.calls| && HasPosted(Step(c, a).calls[h])
    ensures HasPosted(c.calls[h]) || a == Post(h)
  {
  }

  lemma StepKeepsTaken(c: Control, a: Action)
    requires Enabled(c, a) && EventsKept(c)
    ensures var d := Step(c, a);
            forall h | h in d.taken :: h in d.ran || (d.loop.Calling? && d.loop.e.owner == h)
  {
  }

  lemma StepKeepsEvents(c: Control, a: Action)
    requires Enabled(c, a) && PostersOnly(c) && EventsKept(c)
    ensures EventsKept(Step(c, a))
  {
    var d := Step(c, a);
    StepKeepsCodes(c, a);
    StepKeepsTaken(c, a);
    forall h: nat | h < |d.calls| && HasPosted(d.calls[h]) ensures h in d.taken || Queued(d, h) {
      PostedComesFrom(c, a, h);
      if a == Post(h) {
        assert d.queue[|c.queue|].owner == h;
      } else if h !in c.taken {
        QueuedStays(c, a, h);
      }
    }
  }

  lemma TurnKeepsEvents(c: Control, t: Turn)
    requires CanTurn(c, t) && PostersOnly(c) && EventsKept(c)
    ensures EventsKept(Turned(c, t))
  {
    match t
    case Do(a) => StepKeepsEvents(c, a);
    case Calls(code) =>
      var d := Arrive(c, code);
      assert forall h: nat :: Queued(c, h) ==> Queued(d, h);
  }

  lemma {:induction false} RunKeepsEvents(c: Control, ts: seq<Turn>)
    requires IsRun(c, ts) && Inv(c) && EventsKept(c)
    ensures Inv(After(c, ts)) && EventsKept(After(c, ts))
    decreases |ts|
  {
    if ts != [] {
      TurnKeepsInv(c, ts[0]);
      TurnKeepsEvents(c, ts[0]);
      RunKeepsEvents(Turned(c, ts[0]), ts[1..]);
    }
  }

  lemma RestingHasRun(c: Control, h: nat)
    requires Inv(c) && EventsKept(c) && Stuck(c) && c.loop != Left && h < |c.calls|
    ensures h in c.ran <==> Posts(c.calls[h].code)
  {
    EveryCallReturns(c, h);
    assert h in c.ran ==> h in c.taken;
  }

  // In every run from the start of the event loop, once nobody can step and the loop still
  // runs: start() has been called for a startup (256), stop() for a stop (1) or shutdown (5),
  // pause() for a pause (2), resume() for a continue (3), processCommand(code - 128) for a
  // user control (128 to 255), and nothing for any other code.
  lemma CallbacksRun(ts: seq<Turn>, h: nat)
    requires IsRun(QUIET, ts) && Stuck(After(QUIET, ts)) && After(QUIET, ts).loop != Left
    requires h < |After(QUIET, ts).calls|
    ensures var d := After(QUIET, ts);
            var code := d.calls[h].code;
            && (h in d.ran <==>
                  code == 256 || code == 1 || code == 2 || code == 3 || code == 5 || 128 <= code <= 255)
            && (code == 256 ==> d.ran[h] == Start)
            && (code == 1 || code == 5 ==> d.ran[h] == StopAndQuit)
            && (code == 2 ==> d.ran[h] == PauseService)
            && (code == 3 ==> d.ran[h] == ResumeService)
            && (128 <= code <= 255 ==> d.ran[h] == Command(code - 128))
  {
    RunKeepsEvents(QUIET, ts);
    RestingHasRun(After(QUIET, ts), h);
  }

  /* ---- the status that is shown ---- */

  // Between its pending status and its wait, and from its final status to the unlocking, a
  // call shows the status of its code.
  predicate ShowsStatus(c: Control) {
    forall h: nat | h < |c.calls| ::
      var code, pc := c.calls[h].code, c.calls[h].pc;
      && (pc == Pended || pc == Posted ==>
            && (code == 256 ==> c.status == StartPending)
            && (code == 1 ==> c.status == StopPending)
            && (code == 2 ==> c.status == PausePending)
            && (code == 3 ==> c.status == ContinuePending))
      && (pc == Restated ==>
            && (code == 256 || code == 3 ==> c.status == Running)
            && (code == 2 ==> c.status == Paused))
  }

  lemma StepKeepsShown(c: Control, a: Action)
    requires Enabled(c, a) && LockInv(c) && ShowsStatus(c)
    ensures ShowsStatus(Step(c, a))
  {
  }

  lemma {:induction false} StatusIsShown(c: Control, ts: seq<Turn>)
    requires IsRun(c, ts) && Inv(c) && ShowsStatus(c)
    ensures ShowsStatus(After(c, ts))
    decreases |ts|
  {
    if ts != [] {
      TurnKeepsInv(c, ts[0]);
      if ts[0].Do? {
        StepKeepsShown(c, ts[0].a);
      }
      StatusIsShown(Turned(c, ts[0]), ts[1..]);
    }
  }

  // No other code changes the status, and only the mutex's holder does.
  lemma OthersKeepStatus(c: Control, a: Action)
    requires Enabled(c, a) && LockInv(c) && Step(c, a).status != c.status
    ensures (a.SetPending? || a.SetFinal?) && c.lock == ByCall(a.h)
    ensures c.calls[a.h].code == 256 || 1 <= c.calls[a.h].code <= 3
    ensures a.SetFinal? ==> c.calls[a.h].code != 1
  {
  }
}
