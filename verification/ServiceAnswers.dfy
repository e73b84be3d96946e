/** What the service does for each control, and what it takes for one to get there. */
module ServiceAnswers {
  import opened Startup
  import opened Service
  import opened ServiceQuit
  import H = Handshake
  import HandshakeAnswers

  // In every run of the service, once no handshake step is possible and the loop still runs,
  // each call has had the callback of its code, and calls with other codes none.
  lemma CallbacksRun(args: seq<string>, acts: seq<Act>, h: nat)
    requires IsRun(Initial(args), acts) && NoStep(After(Initial(args), acts))
    requires var s := After(Initial(args), acts);
             s.boot.main == InLoop && s.control.loop != H.Left && h < |s.control.calls|
    ensures var d := After(Initial(args), acts).control;
            var code := d.calls[h].code;
            && (h in d.ran <==>
                  code == 256 || code == 1 || code == 2 || code == 3 || code == 5 || 128 <= code <= 255)
            && (code == 256 ==> d.ran[h] == H.Start)
            && (code == 1 || code == 5 ==> d.ran[h] == H.StopAndQuit)
            && (code == 2 ==> d.ran[h] == H.PauseService)
            && (code == 3 ==> d.ran[h] == H.ResumeService)
            && (128 <= code <= 255 ==> d.ran[h] == H.Command(code - 128))
  {
    ServiceRunsTheHandshake(Initial(args), acts);
    NoStepIsStuck(After(Initial(args), acts));
    HandshakeAnswers.CallbacksRun(TurnsOf(acts), h);
  }
}
