/** The polling worker as a state machine over its calls and callbacks: start, stop, a timer firing, a pass
    ending, the pass's `finally` step, and a stop going on after its wait. */
module WorkerSpec {
  import opened Common

  type PassId = nat
  type Handle = nat

  datatype WorkerState = Stopped | Running | Degraded | Stopping

  /** `inFlight` and `timer` are the worker's fields. `executing` and `settled` are the passes whose body
      still runs, and those that have ended but whose `finally` step is still to come; `scheduled` the timers
      that can still fire; `waiting` the stops under way, each with the pass it waits for, if any. */
  datatype Worker = Worker(
    state: WorkerState, timer: Option<Handle>, inFlight: Option<PassId>,
    executing: set<PassId>, settled: set<PassId>, scheduled: set<Handle>, waiting: seq<Option<PassId>>,
    launched: nat, timersMade: nat)

  const NEW_WORKER := Worker(Stopped, None, None, {}, {}, {}, [], 0, 0)

  /** `clockOk`: the clock gives a date; if not, a pass launched by the event ends at once. */
  datatype Event =
    | Start(clockOk: bool)
    | Fire(handle: Handle, clockOk: bool)
    | PassEnds(pass: PassId, ok: bool)
    | Finally(pass: PassId)
    | Stop
    | StopResumes(which: nat)

  predicate Active(w: Worker) {
    w.state == Running || w.state == Degraded
  }

  function Launch(w: Worker, clockOk: bool): Worker {
    if !Active(w) || w.inFlight.Some? then w
    else if clockOk then
      w.(inFlight := Some(w.launched), executing := w.executing + {w.launched}, launched := w.launched + 1)
    else
      w.(state := Degraded, inFlight := Some(w.launched), settled := w.settled + {w.launched}, launched := w.launched + 1)
  }

  /** What can happen next. A start of a worker that is not stopped throws and changes nothing; a stop waits
      until the `finally` step of the pass it saw is over. */
  predicate Enabled(w: Worker, e: Event) {
    match e
    case Start(_) => true
    case Fire(h, _) => h in w.scheduled
    case PassEnds(p, _) => p in w.executing
    case Finally(p) => p in w.settled
    case Stop => true
    case StopResumes(i) => i < |w.waiting| && (w.waiting[i].Some? ==> w.waiting[i].value !in w.executing + w.settled)
  }

  function Remove<T>(s: seq<T>, i: nat): seq<T>
    requires i < |s|
  {
    s[..i] + s[i + 1..]
  }

  function Next(w: Worker, e: Event): Worker
    requires Enabled(w, e)
  {
    match e
    case Start(clockOk) => if w.state != Stopped then w else Launch(w.(state := Running), clockOk)
    case Fire(h, clockOk) => Launch(w.(scheduled := w.scheduled - {h}, timer := None), clockOk)
    case PassEnds(p, ok) =>
      var state := if ok then (if w.state == Degraded then Running else w.state)
                   else if w.state == Stopping then Stopping else Degraded;
      w.(state := state, executing := w.executing - {p}, settled := w.settled + {p})
    case Finally(p) =>
      var v := w.(inFlight := None, settled := w.settled - {p});
      if !Active(v) then v
      else v.(timer := Some(v.timersMade), scheduled := v.scheduled + {v.timersMade}, timersMade := v.timersMade + 1)
    case Stop =>
      if w.state == Stopped then w
      else
        w.(state := Stopping, timer := None,
           scheduled := if w.timer.Some? then w.scheduled - {w.timer.value} else w.scheduled,
           waiting := w.waiting + [w.inFlight])
    case StopResumes(i) => w.(state := Stopped, waiting := Remove(w.waiting, i))
  }

  /** A run: each event can happen where it happens. */
  predicate IsRun(w: Worker, events: seq<Event>)
    decreases |events|
  {
    events == [] || (Enabled(w, events[0]) && IsRun(Next(w, events[0]), events[1..]))
  }

  function After(w: Worker, events: seq<Event>): Worker
    requires IsRun(w, events)
    decreases |events|
  {
    if events == [] then w else After(Next(w, events[0]), events[1..])
  }

  predicate TakesEffect(w: Worker, e: Event) {
    e.Start? && w.state == Stopped
  }

  /** No start takes effect while a stop is still under way. */
  predicate StartsApart(w: Worker, events: seq<Event>)
    requires IsRun(w, events)
    decreases |events|
  {
    events == [] || ((TakesEffect(w, events[0]) ==> w.waiting == []) && StartsApart(Next(w, events[0]), events[1..]))
  }
}
