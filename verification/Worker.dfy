/** The worker object: its methods and callbacks, each one event of the state machine. */
module Worker {
  import opened Common
  import opened WorkerSpec
  import Spec = WorkerSpec
  import Proofs = WorkerProofs

  class NoEffectClientWorker {
    var state: WorkerState
    var timer: Option<Handle>
    var inFlight: Option<PassId>
    // what the runtime around the object still has to run
    var executing: set<PassId>
    var settled: set<PassId>
    var scheduled: set<Handle>
    var waiting: seq<Option<PassId>>
    var launched: nat
    var timersMade: nat

    constructor ()
      ensures View() == NEW_WORKER && Proofs.Alone(View())
    {
      state, timer, inFlight := Stopped, None, None;
      executing, settled, scheduled, waiting, launched, timersMade := {}, {}, {}, [], 0, 0;
    }

    function View(): Spec.Worker
      reads this
    {
      Spec.Worker(state, timer, inFlight, executing, settled, scheduled, waiting, launched, timersMade)
    }

    /** Throws when the worker is not stopped. */
    method Start(clockOk: bool) returns (thrown: bool)
      requires Proofs.PassInv(View())
      modifies this
      ensures View() == Next(old(View()), Spec.Start(clockOk)) && Proofs.PassInv(View())
      ensures thrown <==> old(state) != Stopped
      ensures !thrown && old(inFlight) == None ==> inFlight == Some(old(launched))
    {
      hide Proofs.PassInv;
      ghost var before := View();
      Proofs.StepKeepsPassInv(before, Spec.Start(clockOk));
      if state != Stopped { return true; }
      state := Running;
      LaunchPass(clockOk);
      thrown := false;
    }

    method LaunchPass(clockOk: bool)
      modifies this
      ensures View() == Launch(old(View()), clockOk)
    {
      if (state != Running && state != Degraded) || inFlight.Some? { return; }
      var pass := launched;
      launched := launched + 1;
      if clockOk {
        executing := executing + {pass};
      } else {
        state := Degraded;
        settled := settled + {pass};
      }
      inFlight := Some(pass);
    }

    /** The end of a pass: it gives a receipt, or throws. */
    method EndPass(pass: PassId, ok: bool)
      requires pass in executing && Proofs.PassInv(View())
      modifies this
      ensures View() == Next(old(View()), PassEnds(pass, ok)) && Proofs.PassInv(View())
    {
      hide Proofs.PassInv;
      Proofs.StepKeepsPassInv(View(), PassEnds(pass, ok));
      executing, settled := executing - {pass}, settled + {pass};
      if ok {
        if state == Degraded { state := Running; }
      } else {
        if state != Stopping { state := Degraded; }
      }
    }

    method FinishPass(pass: PassId)
      requires pass in settled && Proofs.PassInv(View())
      modifies this
      ensures View() == Next(old(View()), Spec.Finally(pass)) && Proofs.PassInv(View())
    {
      hide Proofs.PassInv;
      Proofs.StepKeepsPassInv(View(), Spec.Finally(pass));
      settled := settled - {pass};
      inFlight := None;
      if state != Running && state != Degraded { return; }
      scheduled := scheduled + {timersMade};
      timer := Some(timersMade);
      timersMade := timersMade + 1;
    }

    method FireTimer(handle: Handle, clockOk: bool)
      requires handle in scheduled && Proofs.PassInv(View())
      modifies this
      ensures View() == Next(old(View()), Fire(handle, clockOk)) && Proofs.PassInv(View())
    {
      hide Proofs.PassInv;
      Proofs.StepKeepsPassInv(View(), Fire(handle, clockOk));
      scheduled := scheduled - {handle};
      timer := None;
      LaunchPass(clockOk);
    }

    /** The part of `stop` before it waits. */
    method Stop()
      requires Proofs.PassInv(View())
      modifies this
      ensures View() == Next(old(View()), Spec.Stop) && Proofs.PassInv(View())
    {
      hide Proofs.PassInv;
      Proofs.StepKeepsPassInv(View(), Spec.Stop);
      if state == Stopped { return; }
      state := Stopping;
      if timer.Some? {
        scheduled := scheduled - {timer.value};
        timer := None;
      }
      waiting := waiting + [inFlight];
    }

    /** The part of `stop` after it has waited. */
    method FinishStop(which: nat)
      requires Enabled(View(), StopResumes(which)) && Proofs.PassInv(View())
      modifies this
      ensures View() == Next(old(View()), StopResumes(which)) && Proofs.PassInv(View())
      ensures old(Proofs.Alone(View())) ==> state == Stopped && timer == None && inFlight == None && executing == {}
    {
      hide Proofs.PassInv, Proofs.TimerInv;
      Proofs.StepKeepsPassInv(View(), StopResumes(which));
      if Proofs.Alone(View()) {
        Proofs.StepKeepsAlone(View(), StopResumes(which));
        Proofs.PassParts(Next(View(), StopResumes(which)));
      }
      state := Stopped;
      waiting := Remove(waiting, which);
    }
  }
}
