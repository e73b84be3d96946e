/** The one overlap the service can have: a control that arrives while the startup call is
    still waiting.  Here is a whole run, from the start of the process, in which it makes
    the service report too early. */
module ServiceOverlap {
  import opened Startup
  import opened Service
  import opened ServiceReach
  import H = Handshake
  import R = HandshakeRuns

  lemma {:induction false} ReachedSteps(args: seq<string>, s: Service, ts: seq<R.Turn>)
    requires Reached(args, s) && s.boot.main == InLoop && R.IsRun(s.control, ts) && R.OnlySteps(ts)
    ensures Reached(args, s.(control := R.After(s.control, ts)))
    decreases |ts|
  {
    if ts != [] {
      ReachedNext(args, s, Steps(ts[0].a));
      assert forall k | 0 <= k < |ts[1..]| :: ts[1..][k] == ts[k + 1];
      ReachedSteps(args, Next(s, Steps(ts[0].a)), ts[1..]);
    }
  }

  // For any arguments: with calls made one at a time by the dispatcher thread, a control
  // that arrives while the startup call is under way can come ahead of its own callback.
  lemma ControlDuringStartup(args: seq<string>, code: nat)
    requires H.Posts(code) && code < H.STARTUP
    ensures exists s: Service ::
              && Reached(args, s) && H.At(s.control, 1, H.Restated) && s.control.calls[1].code == code
              && R.IsEarly(s.control, 1) && s.control.mode == H.Up
              && (code == H.PAUSE ==> s.control.status == H.Paused)
  {
    StartupIsCalled(args);
    var s := Next(StartupCalled(args), Control(code));
    ReachedNext(args, StartupCalled(args), Control(code));
    ReachedInv(args, s);
    R.OverlapReportsEarly(s.control, 0, 1);
    R.OverlapOnlySteps(0, 1);
    var ts := R.Overlap(0, 1) + R.WakeAndSet(1);
    ReachedSteps(args, s, ts);
    var d := s.(control := R.After(s.control, ts));
    assert Reached(args, d) && H.At(d.control, 1, H.Restated);
  }

  // A stop handled while the startup call has not posted yet leaves that call waiting with
  // the loop gone.
  lemma StopDuringStartup(args: seq<string>)
    ensures exists s: Service ::
              Reached(args, s) && s.control.loop == H.Left && H.At(s.control, 0, H.Waiting)
  {
    StartupIsCalled(args);
    var s := Next(StartupCalled(args), Control(H.STOP));
    ReachedNext(args, StartupCalled(args), Control(H.STOP));
    R.QuitStrandsLateCall(s.control, 1, 0);
    var ts := R.PostAndWait(1) + (R.HANDLE + (R.WAKE_AND_LEAVE + R.PostAndWait(0)));
    R.QuitOnlySteps(1, 0);
    ReachedSteps(args, s, ts);
    var d := s.(control := R.After(s.control, ts));
    assert Reached(args, d) && H.At(d.control, 0, H.Waiting);
  }
}
