/** What holds of the worker after every sequence of calls and callbacks. */
module WorkerProofs {
  import opened Common
  import opened WorkerSpec

  // ---- Passes never overlap ----

  /** The passes that have not had their `finally` step are just the one in the field; ids are used once. */
  ghost predicate PassInv(w: Worker) {
    && w.executing !! w.settled
    && w.executing + w.settled == (if w.inFlight.Some? then {w.inFlight.value} else {})
    && (w.inFlight.Some? ==> w.inFlight.value < w.launched)
  }

  lemma StepKeepsPassInv(w: Worker, e: Event)
    requires PassInv(w) && Enabled(w, e)
    ensures PassInv(Next(w, e))
    ensures w.launched <= Next(w, e).launched
    ensures Next(w, e).launched > w.launched ==> w.executing == {} && w.settled == {}
  {
    if w.inFlight == None {
      assert w.executing == {} && w.settled == {};
    } else {
      var p := w.inFlight.value;
      assert p in w.executing + w.settled;
      forall q | q in w.executing || q in w.settled ensures q == p { assert q in w.executing + w.settled; }
    }
  }

  /** Whatever is called and whatever fires, stops overlapping or not: two passes never run at once. */
  lemma {:induction false} PassesNeverOverlap(w: Worker, events: seq<Event>)
    requires PassInv(w) && IsRun(w, events)
    ensures PassInv(After(w, events)) && |After(w, events).executing| <= 1
    decreases |events|
  {
    hide PassInv;
    if events == [] {
      AtMostOne(w);
    } else {
      StepKeepsPassInv(w, events[0]);
      PassesNeverOverlap(Next(w, events[0]), events[1..]);
    }
  }

  lemma AtMostOne(w: Worker)
    requires PassInv(w)
    ensures |w.executing| <= 1
  {
    var all := w.executing + w.settled;
    assert |all| <= 1;
    assert all == w.executing + (all - w.executing);
  }

  // ---- When no start takes effect during a stop ----

  /** The timer field names the one timer that can fire. */
  ghost predicate TimerInv(w: Worker) {
    && w.scheduled == (if w.timer.Some? then {w.timer.value} else {})
    && (w.timer.Some? ==> w.timer.value < w.timersMade)
  }

  /** A running worker has exactly one of a pending timer and a pass in flight, a stopped one has neither. */
  predicate Healthy(w: Worker) {
    && (Active(w) ==> (w.timer.Some? <==> w.inFlight == None))
    && (w.state == Stopped ==> w.timer == None && w.inFlight == None)
  }

  /** Stops are under way only of a worker that is stopping or stopped, and wait for its pass if it has one. */
  ghost predicate Alone(w: Worker) {
    && PassInv(w) && TimerInv(w) && Healthy(w)
    && (Active(w) ==> w.waiting == [])
    && (w.state == Stopping ==> w.timer == None && w.waiting != [])
    && (w.inFlight.Some? ==> forall i :: 0 <= i < |w.waiting| ==> w.waiting[i] == w.inFlight)
    && (forall i :: 0 <= i < |w.waiting| && w.waiting[i].Some? ==> w.waiting[i].value < w.launched)
  }

  lemma StepKeepsAlone(w: Worker, e: Event)
    requires Alone(w) && Enabled(w, e) && (TakesEffect(w, e) ==> w.waiting == [])
    ensures Alone(Next(w, e))
    ensures w.state == Stopped && !e.Start? ==> Next(w, e).(waiting := w.waiting) == w
  {
    hide Alone, PassInv, TimerInv;
    AloneParts(w);
    StepKeepsPassInv(w, e);
    PassParts(w);
    match e
    case Start(clockOk) => StartAlone(w, clockOk);
    case Fire(h, clockOk) => FireAlone(w, h, clockOk);
    case PassEnds(p, ok) => EndAlone(w, p, ok);
    case Finally(p) => FinallyAlone(w, p);
    case Stop => StopAlone(w);
    case StopResumes(i) => ResumeAlone(w, i);
  }

  lemma AloneParts(w: Worker)
    requires Alone(w)
    ensures PassInv(w) && TimerInv(w) && Healthy(w)
  {
  }

  lemma PassParts(w: Worker)
    requires PassInv(w)
    ensures w.inFlight == None ==> w.executing == {} && w.settled == {}
    ensures forall p :: p in w.executing || p in w.settled ==> w.inFlight == Some(p)
    ensures w.inFlight.Some? ==> w.inFlight.value in w.executing + w.settled && w.inFlight.value < w.launched
  {
    forall p | p in w.executing || p in w.settled ensures w.inFlight == Some(p) {
      assert p in w.executing + w.settled;
    }
  }

  lemma StartAlone(w: Worker, clockOk: bool)
    requires Alone(w) && PassInv(Next(w, Start(clockOk))) && (w.state == Stopped ==> w.waiting == [])
    ensures Alone(Next(w, Start(clockOk)))
  {
    hide PassInv;
  }

  lemma FireAlone(w: Worker, h: Handle, clockOk: bool)
    requires Alone(w) && Enabled(w, Fire(h, clockOk)) && PassInv(Next(w, Fire(h, clockOk)))
    ensures Alone(Next(w, Fire(h, clockOk))) && w.state != Stopped
  {
    hide PassInv;
    assert w.timer == Some(h);
    assert w.scheduled - {h} == {};
  }

  lemma EndAlone(w: Worker, p: PassId, ok: bool)
    requires Alone(w) && Enabled(w, PassEnds(p, ok)) && PassInv(Next(w, PassEnds(p, ok)))
    ensures Alone(Next(w, PassEnds(p, ok))) && w.state != Stopped
  {
    hide PassInv;
    PassParts(w);
  }

  lemma FinallyAlone(w: Worker, p: PassId)
    requires Alone(w) && Enabled(w, Finally(p)) && PassInv(Next(w, Finally(p)))
    ensures Alone(Next(w, Finally(p))) && w.state != Stopped
  {
    hide PassInv;
    PassParts(w);
    assert w.timer == None;
  }

  lemma StopAlone(w: Worker)
    requires Alone(w) && PassInv(Next(w, Stop))
    ensures Alone(Next(w, Stop))
  {
    hide PassInv;
    PassParts(w);
    if w.timer.Some? { assert w.scheduled - {w.timer.value} == {}; }
  }

  lemma ResumeAlone(w: Worker, i: nat)
    requires Alone(w) && Enabled(w, StopResumes(i)) && PassInv(Next(w, StopResumes(i)))
    ensures Alone(Next(w, StopResumes(i)))
    ensures w.state == Stopped ==> Next(w, StopResumes(i)).(waiting := w.waiting) == w
  {
    hide PassInv;
    PassParts(w);
    assert w.inFlight == None && w.timer == None;
    var left := Remove(w.waiting, i);
    assert forall k :: 0 <= k < |left| ==> left[k] == w.waiting[if k < i then k else k + 1];
  }

  /** When no start takes effect during a stop, a running worker always has exactly one of a pending timer and
      a pass in flight, and a stopped one has neither; stops may overlap. */
  lemma {:induction false} RunStaysAlone(w: Worker, events: seq<Event>)
    requires Alone(w) && IsRun(w, events) && StartsApart(w, events)
    ensures Alone(After(w, events)) && Healthy(After(w, events))
    decreases |events|
  {
    hide Alone, Healthy;
    if events == [] {
      AloneParts(w);
    } else {
      StepKeepsAlone(w, events[0]);
      RunStaysAlone(Next(w, events[0]), events[1..]);
    }
  }

  predicate NoStarts(events: seq<Event>) {
    forall e :: e in events ==> !e.Start?
  }

  lemma {:induction false} WithoutStarts(w: Worker, events: seq<Event>)
    requires IsRun(w, events) && NoStarts(events)
    ensures StartsApart(w, events)
    decreases |events|
  {
    if events != [] {
      assert events[0] in events && NoStarts(events[1..]);
      WithoutStarts(Next(w, events[0]), events[1..]);
    }
  }

  /** After a finished stop nothing happens until the next start: no pass begins and no timer is set; further
      stops may end. */
  lemma {:induction false} NothingAfterStop(w: Worker, events: seq<Event>)
    requires Alone(w) && w.state == Stopped && IsRun(w, events) && NoStarts(events)
    ensures After(w, events).(waiting := w.waiting) == w
    decreases |events|
  {
    hide Alone, Enabled, Next;
    if events != [] {
      assert events[0] in events && NoStarts(events[1..]);
      StepKeepsAlone(w, events[0]);
      NothingAfterStop(Next(w, events[0]), events[1..]);
    }
  }

  lemma NewWorkerAlone()
    ensures Alone(NEW_WORKER)
  {
  }

  // ---- What degraded means ----

  /** Whether the last pass that has ended since the last start failed, one event later; a pass whose clock gives no date
      ends at once. */
  function FailedAfter(w: Worker, e: Event, failed: bool): bool {
    match e
    case PassEnds(_, ok) => !ok
    case Start(clockOk) => if w.state == Stopped then w.inFlight == None && !clockOk else failed
    case Fire(_, clockOk) => if Active(w) && w.inFlight == None && !clockOk then true else failed
    case _ => failed
  }

  function LastFailed(w: Worker, events: seq<Event>, failed: bool): bool
    requires IsRun(w, events)
    decreases |events|
  {
    if events == [] then failed else LastFailed(Next(w, events[0]), events[1..], FailedAfter(w, events[0], failed))
  }

  /** Through every sequence of events an active worker is degraded if and only if the last pass to end since its start
      failed. */
  lemma {:induction false} DegradedMeansLastPassFailed(w: Worker, events: seq<Event>, failed: bool)
    requires IsRun(w, events) && (Active(w) ==> (w.state == Degraded <==> failed))
    ensures Active(After(w, events)) ==> (After(w, events).state == Degraded <==> LastFailed(w, events, failed))
    decreases |events|
  {
    if events != [] {
      DegradedMeansLastPassFailed(Next(w, events[0]), events[1..], FailedAfter(w, events[0], failed));
    }
  }

  // ---- The exact condition ----

  /** However far the run has come, and whatever goes on from there without a further start, the worker is
      healthy. */
  ghost predicate HealthyThroughout(w: Worker, events: seq<Event>) {
    forall k, more :: 0 <= k <= |events| && IsRun(w, events[..k]) && IsRun(After(w, events[..k]), more) && NoStarts(more) ==>
      Healthy(After(After(w, events[..k]), more))
  }

  lemma {:induction false} PrefixOfRun(w: Worker, events: seq<Event>, k: nat)
    requires IsRun(w, events) && StartsApart(w, events) && k <= |events|
    ensures IsRun(w, events[..k]) && StartsApart(w, events[..k])
    decreases k
  {
    hide Enabled, Next;
    if k > 0 {
      assert events[..k][1..] == events[1..][..k - 1];
      PrefixOfRun(Next(w, events[0]), events[1..], k - 1);
    }
  }

  /** A start that takes effect during a stop: the stop can end at once, and leaves a stopped worker with a
      pass in flight. */
  lemma StartDuringStop(w: Worker, e: Event)
    requires Alone(w) && TakesEffect(w, e) && w.waiting != []
    ensures var v := Next(w, e);
            Enabled(v, StopResumes(0)) && Next(v, StopResumes(0)).state == Stopped && Next(v, StopResumes(0)).inFlight.Some?
  {
    hide TimerInv, PassInv;
    PassParts(w);
    var v := Next(w, e);
    assert v.executing + v.settled == {w.launched};
  }

  lemma RestHealthy(w: Worker, events: seq<Event>)
    requires events != [] && Enabled(w, events[0]) && HealthyThroughout(w, events)
    ensures HealthyThroughout(Next(w, events[0]), events[1..])
  {
    hide Enabled, Next, Healthy;
    var v, rest := Next(w, events[0]), events[1..];
    forall k, more | 0 <= k <= |rest| && IsRun(v, rest[..k]) && IsRun(After(v, rest[..k]), more) && NoStarts(more)
      ensures Healthy(After(After(v, rest[..k]), more))
    {
      assert events[..k + 1][1..] == rest[..k] && events[..k + 1][0] == events[0];
      assert IsRun(w, events[..k + 1]) && After(w, events[..k + 1]) == After(v, rest[..k]);
    }
  }

  /** A worker stays healthy, through every continuation without a further start, if and only if no start
      has taken effect while a stop was under way. */
  lemma {:induction false} HealthyIffStartsApart(w: Worker, events: seq<Event>)
    requires Alone(w) && IsRun(w, events)
    ensures HealthyThroughout(w, events) <==> StartsApart(w, events)
    decreases |events|
  {
    hide Alone, Enabled, Next, Healthy;
    if StartsApart(w, events) {
      forall k, more | 0 <= k <= |events| && IsRun(w, events[..k]) && IsRun(After(w, events[..k]), more) && NoStarts(more)
        ensures Healthy(After(After(w, events[..k]), more))
      {
        PrefixOfRun(w, events, k);
        RunStaysAlone(w, events[..k]);
        WithoutStarts(After(w, events[..k]), more);
        RunStaysAlone(After(w, events[..k]), more);
      }
    }
    if HealthyThroughout(w, events) && events != [] {
      if TakesEffect(w, events[0]) && w.waiting != [] {
        UnhealthyAfterStart(w, events);
      } else {
        StepKeepsAlone(w, events[0]);
        RestHealthy(w, events);
        HealthyIffStartsApart(Next(w, events[0]), events[1..]);
      }
    }
  }

  lemma UnhealthyAfterStart(w: Worker, events: seq<Event>)
    requires Alone(w) && events != [] && TakesEffect(w, events[0]) && w.waiting != []
    ensures !HealthyThroughout(w, events)
  {
    hide Alone, Next;
    StartDuringStop(w, events[0]);
    var more := [StopResumes(0)];
    One(w, events[0]);
    One(Next(w, events[0]), StopResumes(0));
    assert events[..1] == [events[0]];
    assert IsRun(After(w, events[..1]), more) && NoStarts(more);
  }

  lemma One(w: Worker, e: Event)
    requires Enabled(w, e)
    ensures IsRun(w, [e]) && After(w, [e]) == Next(w, e)
  {
    hide Enabled, Next;
    assert [e][1..] == [];
  }

  // ---- A run in which it goes wrong ----

  lemma {:induction false} RunsJoin(w: Worker, a: seq<Event>, b: seq<Event>)
    requires IsRun(w, a) && IsRun(After(w, a), b)
    ensures IsRun(w, a + b) && After(w, a + b) == After(After(w, a), b)
    decreases |a|
  {
    hide Enabled, Next;
    if a == [] {
      assert a + b == b;
    } else {
      assert (a + b)[1..] == a[1..] + b;
      RunsJoin(Next(w, a[0]), a[1..], b);
    }
  }

  const FIRST_PASS := [Start(true), PassEnds(0, true), Finally(0)]
  const TWO_STOPS := [Stop, Stop, StopResumes(0)]
  const RESTARTED := [Start(true), StopResumes(0)]
  const REVIVED := [PassEnds(1, false), Finally(1)]

  /** A pass, two overlapping stops, a start between their ends: both stops have finished. */
  lemma StoppedTwice()
    ensures IsRun(NEW_WORKER, FIRST_PASS + TWO_STOPS + RESTARTED)
    ensures After(NEW_WORKER, FIRST_PASS + TWO_STOPS + RESTARTED) == Worker(Stopped, None, Some(1), {1}, {}, {}, [], 2, 1)
  {
    var paused := Worker(Running, Some(0), None, {}, {}, {0}, [], 1, 1);
    var once := Worker(Stopped, None, None, {}, {}, {}, [None], 1, 1);
    PassAndTimer(paused);
    OneStopFinishes(paused, once);
    var running := Worker(Running, None, Some(1), {1}, {}, {}, [None], 2, 1);
    assert Next(once, Start(true)) == running;
    assert Next(running, StopResumes(0)) == Worker(Stopped, None, Some(1), {1}, {}, {}, [], 2, 1);
    Two(once, Start(true), StopResumes(0));
    RunsJoin(NEW_WORKER, FIRST_PASS, TWO_STOPS);
    RunsJoin(NEW_WORKER, FIRST_PASS + TWO_STOPS, RESTARTED);
  }

  lemma PassAndTimer(paused: Worker)
    requires paused == Worker(Running, Some(0), None, {}, {}, {0}, [], 1, 1)
    ensures IsRun(NEW_WORKER, FIRST_PASS) && After(NEW_WORKER, FIRST_PASS) == paused
  {
    var a := Worker(Running, None, Some(0), {0}, {}, {}, [], 1, 0);
    var b := Worker(Running, None, Some(0), {}, {0}, {}, [], 1, 0);
    assert Next(NEW_WORKER, Start(true)) == a && Next(a, PassEnds(0, true)) == b && Next(b, Finally(0)) == paused;
    Three(NEW_WORKER, Start(true), PassEnds(0, true), Finally(0));
  }

  lemma OneStopFinishes(paused: Worker, once: Worker)
    requires paused == Worker(Running, Some(0), None, {}, {}, {0}, [], 1, 1)
    requires once == Worker(Stopped, None, None, {}, {}, {}, [None], 1, 1)
    ensures IsRun(paused, TWO_STOPS) && After(paused, TWO_STOPS) == once
  {
    var a := Worker(Stopping, None, None, {}, {}, {}, [None], 1, 1);
    var b := Worker(Stopping, None, None, {}, {}, {}, [None, None], 1, 1);
    assert Next(paused, Stop) == a && Next(a, Stop) == b && Next(b, StopResumes(0)) == once;
    Three(paused, Stop, Stop, StopResumes(0));
  }

  /** One run of a new worker: a pass, two overlapping stops, a start between their ends, a failing pass. Both
      stops have finished when the pass fails, nobody calls start after that, and the worker is active again
      with a timer. */
  lemma StartBetweenStopsRevivesWorker()
    ensures var run := FIRST_PASS + TWO_STOPS + RESTARTED + REVIVED;
            && IsRun(NEW_WORKER, run) && NoStarts(REVIVED) && !StartsApart(NEW_WORKER, run)
            && IsRun(NEW_WORKER, FIRST_PASS + TWO_STOPS + RESTARTED)
            && After(NEW_WORKER, FIRST_PASS + TWO_STOPS + RESTARTED).state == Stopped
            && After(NEW_WORKER, FIRST_PASS + TWO_STOPS + RESTARTED).waiting == []
            && Active(After(NEW_WORKER, run)) && After(NEW_WORKER, run).timer.Some?
  {
    hide StartsApart, Alone, IsRun, After;
    StoppedTwice();
    var stopped := Worker(Stopped, None, Some(1), {1}, {}, {}, [], 2, 1);
    var failed := Worker(Degraded, None, Some(1), {}, {1}, {}, [], 2, 1);
    assert Next(stopped, PassEnds(1, false)) == failed;
    Two(stopped, PassEnds(1, false), Finally(1));
    var before := FIRST_PASS + TWO_STOPS + RESTARTED;
    RunsJoin(NEW_WORKER, before, REVIVED);
    NewWorkerAlone();
    if StartsApart(NEW_WORKER, before + REVIVED) {
      PrefixOfRun(NEW_WORKER, before + REVIVED, |before|);
      assert (before + REVIVED)[..|before|] == before;
      RunStaysAlone(NEW_WORKER, before);
    }
  }

  lemma Two(w: Worker, d: Event, e: Event)
    requires Enabled(w, d) && Enabled(Next(w, d), e)
    ensures IsRun(w, [d, e]) && After(w, [d, e]) == Next(Next(w, d), e)
  {
    hide Enabled, Next;
    assert [d, e][1..] == [e] && [e][1..] == [];
    assert IsRun(Next(w, d), [e]) && After(Next(w, d), [e]) == Next(Next(w, d), e);
  }

  lemma Three(w: Worker, c: Event, d: Event, e: Event)
    requires Enabled(w, c) && Enabled(Next(w, c), d) && Enabled(Next(Next(w, c), d), e)
    ensures IsRun(w, [c, d, e]) && After(w, [c, d, e]) == Next(Next(Next(w, c), d), e)
  {
    hide Enabled, Next;
    assert [c, d, e][1..] == [d, e];
    Two(Next(w, c), d, e);
  }
}
