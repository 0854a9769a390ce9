/** One process in front of several apps: which are routed to, and what brings the whole down. */
module Gateway {
  import opened Results

  datatype App = Web | Realops | Signaldesk | Vitrinee | Mcp

  const APPS := {Web, Realops, Signaldesk, Vitrinee, Mcp}

  predicate Critical(app: App) {
    app == Web || app == Realops || app == Signaldesk
  }

  function RequiredEnv(app: App): seq<string> {
    match app
    case Vitrinee =>
      ["VITRINEE_ADAPTER", "VITRINEE_MERCHANT_STELLAR_ACCOUNT", "VITRINEE_MERCHANT_SIGNING_SECRET",
       "VITRINEE_FACILITATOR_API_KEY", "VITRINEE_JUMPSELLER_LOGIN", "VITRINEE_JUMPSELLER_AUTHTOKEN"]
    case Mcp =>
      ["MCP_PUBLIC_URL", "MCP_AGENT_SECRET_KEY", "MCP_POLICY_RAIL_CONTRACT_ID", "MCP_CREDENTIAL_JWS", "MCP_MANDATE_JWS",
       "MCP_ALLOWED_WALLET", "MCP_OAUTH_SECRET", "AGENT_REGISTRY_CONTRACT_ID"]
    case _ => []
  }

  predicate IsSet(env: map<string, string>, key: string) {
    key in env && env[key] != ""
  }

  function Missing(keys: seq<string>, env: map<string, string>): seq<string> {
    if keys == [] then []
    else (if IsSet(env, keys[0]) then [] else [keys[0]]) + Missing(keys[1..], env)
  }

  function MissingEnv(app: App, env: map<string, string>): seq<string> {
    Missing(RequiredEnv(app), env)
  }

  function ToStart(env: map<string, string>): set<App> {
    set app | app in APPS && MissingEnv(app, env) == []
  }

  /** What can happen to the gateway; `up` is what the late wait found. */
  datatype Event =
    | Ready(app: App) | TimedOut(app: App) | LateDone(app: App, up: bool) | Exited(app: App) | ChildFailed(app: App)
    | Signal | Listen | ListenFailed

  /** `settled` holds the apps whose startup wait is over. */
  datatype State = State(
    started: set<App>, running: set<App>, exited: set<App>, lateWaiting: set<App>, settled: set<App>,
    shuttingDown: bool, listening: bool, exitCode: int)

  function Init(started: set<App>): State {
    State(started, {}, {}, {}, {}, false, false, 0)
  }

  predicate Enabled(s: State, e: Event) {
    match e
    case Ready(app) => app in s.started - s.settled
    case TimedOut(app) => app in s.started - s.settled
    case LateDone(app, _) => app in s.lateWaiting
    case Exited(app) => app in s.started - s.exited
    case ChildFailed(app) => app in s.started
    case Signal => true
    case Listen => s.settled == s.started && !s.listening
    case ListenFailed => s.settled == s.started
  }

  function ShutDown(s: State, exitCode: int): State {
    s.(shuttingDown := true, exitCode := exitCode)
  }

  /** What the handlers make of an event. A gateway shutting down only learns of exits. */
  function Step(s: State, e: Event): State {
    if s.shuttingDown then (if e.Exited? then s.(exited := s.exited + {e.app}) else s)
    else
      match e
      case Ready(app) =>
        s.(settled := s.settled + {app}, running := if app in s.exited then s.running else s.running + {app})
      case TimedOut(app) =>
        var waited := s.(settled := s.settled + {app});
        if Critical(app) then ShutDown(waited, 1) else waited.(lateWaiting := s.lateWaiting + {app})
      case LateDone(app, up) =>
        s.(lateWaiting := s.lateWaiting - {app},
           running := if up && app !in s.exited then s.running + {app} else s.running)
      case Exited(app) =>
        var gone := s.(exited := s.exited + {app});
        if Critical(app) then ShutDown(gone, 1) else gone.(running := s.running - {app})
      case ChildFailed(_) => ShutDown(s, 1)
      case Signal => ShutDown(s, s.exitCode)
      case Listen => s.(listening := true)
      case ListenFailed => ShutDown(s, 1)
  }

  datatype Answer = NotFound | Unavailable(retryAfter: nat) | Proxied(app: App)

  /** A request for the app its host names, if any. */
  function Route(s: State, target: Option<App>): Answer {
    match target
    case None => NotFound
    case Some(app) =>
      if app !in s.running then Unavailable(if app in s.lateWaiting then 10 else 300) else Proxied(app)
  }

  /** The gateway's module state, and its handlers. */
  class Supervisor {
    const started: set<App>
    var running: set<App>
    var exited: set<App>
    var lateWaiting: set<App>
    var settled: set<App>
    var shuttingDown: bool
    var listening: bool
    var exitCode: int

    function Now(): State
      reads this
    {
      State(started, running, exited, lateWaiting, settled, shuttingDown, listening, exitCode)
    }

    constructor (env: map<string, string>)
      ensures Now() == Init(ToStart(env))
    {
      started := ToStart(env);
      running, exited, lateWaiting, settled := {}, {}, {}, {};
      shuttingDown, listening, exitCode := false, false, 0;
    }

    method Shutdown()
      modifies this`shuttingDown
      ensures shuttingDown
    {
      if shuttingDown {
        return;
      }
      shuttingDown := true;
    }

    method OnExit(app: App)
      modifies this
      ensures Now() == Step(old(Now()), Exited(app))
    {
      exited := exited + {app};
      if shuttingDown {
        return;
      }
      if !Critical(app) {
        running := running - {app};
        return;
      }
      exitCode := 1;
      Shutdown();
    }

    /** The startup wait of one app is over: its port answered, or its window passed. */
    method OnStartupWait(app: App, answered: bool)
      requires !shuttingDown
      modifies this
      ensures Now() == Step(old(Now()), if answered then Ready(app) else TimedOut(app))
    {
      settled := settled + {app};
      if answered {
        if app !in exited {
          running := running + {app};
        }
      } else if Critical(app) {
        exitCode := 1;
        Shutdown();
      } else {
        lateWaiting := lateWaiting + {app};
      }
    }

    method OnLateWait(app: App, up: bool)
      requires !shuttingDown
      modifies this
      ensures Now() == Step(old(Now()), LateDone(app, up))
    {
      if up && app !in exited && !shuttingDown {
        running := running + {app};
      }
      lateWaiting := lateWaiting - {app};
    }

    /** A child's own error, as one that cannot be spawned: no handler takes it, so it ends the process. */
    method OnChildFailed(app: App)
      requires !shuttingDown
      modifies this
      ensures Now() == Step(old(Now()), ChildFailed(app))
    {
      exitCode := 1;
      shuttingDown := true;
    }

    method OnSignal()
      modifies this
      ensures Now() == Step(old(Now()), Signal)
    {
      Shutdown();
    }

    method OnListen(failed: bool)
      requires !shuttingDown
      modifies this
      ensures Now() == Step(old(Now()), if failed then ListenFailed else Listen)
    {
      if failed {
        exitCode := 1;
        Shutdown();
      } else {
        listening := true;
      }
    }

    method OnRequest(target: Option<App>) returns (answer: Answer)
      ensures answer == Route(Now(), target)
    {
      if target.None? {
        return NotFound;
      }
      if target.value !in running {
        return Unavailable(if target.value in lateWaiting then 10 else 300);
      }
      return Proxied(target.value);
    }
  }

  // ---------------------------------------------------------------- the waits

  /** Polls a port until it answers or the window passes. A try takes up to `tryMs`, a timer comes up to `lateMs` late. */
  method WaitForPort(start: nat, timeoutMs: nat, tryMs: nat, lateMs: nat) returns (answered: bool, end: nat, tries: nat)
    ensures answered || end >= start + timeoutMs
    ensures end <= start + timeoutMs + 200 + lateMs + tryMs
    ensures 200 * tries <= end - start + 200 && tries > 0
  {
    var deadline, now := start + timeoutMs, start;
    tries := 0;
    while true
      invariant start <= now <= deadline + 200 + lateMs && now - start >= 200 * tries
      decreases deadline - now
    {
      var took: nat :| took <= tryMs;
      var up: bool := *;
      now, tries := now + took, tries + 1;
      if up {
        return true, now, tries;
      }
      if now >= deadline {
        return false, now, tries;
      }
      var late: nat :| late <= lateMs;
      now := now + 200 + late;
    }
  }

  /** The same for an app that missed the window, while it lives. It ends after its window, or sooner if the app is gone. */
  method WaitForLateApp(start: nat, timeoutMs: nat, intervalMs: nat, tryMs: nat, lateMs: nat)
      returns (up: bool, end: nat, alive: bool)
    requires intervalMs > 0
    ensures up ==> alive
    ensures !up && alive ==> end >= start + timeoutMs
    ensures end <= start + timeoutMs + intervalMs + lateMs + tryMs
  {
    var deadline, now := start + timeoutMs, start;
    alive := *;
    while alive
      invariant start <= now <= deadline + intervalMs + lateMs
      decreases deadline - now, alive
    {
      var took: nat :| took <= tryMs;
      var answered: bool, dies: bool := *, *;
      now := now + took;
      if answered {
        alive := alive && !dies;
        return alive, now, alive;
      }
      if now >= deadline {
        return false, now, alive;
      }
      var late: nat :| late <= lateMs;
      now := now + intervalMs + late;
      alive := alive && !dies;
    }
    return false, now, alive;
  }

  // ---------------------------------------------------------------- every interleaving

  predicate Coherent(s: State) {
    && s.running <= s.started && s.settled <= s.started && s.lateWaiting <= s.settled && s.exited <= s.started
    && (s.listening ==> s.settled == s.started)
    && (forall app | app in s.lateWaiting :: !Critical(app))
    && (!s.shuttingDown ==>
          && s.running !! s.exited && s.running !! s.lateWaiting
          && s.running <= s.settled
          && s.exitCode == 0
          && (forall app | app in s.exited :: !Critical(app))
          && (forall app | app in s.settled && Critical(app) :: app in s.running))
  }

  lemma {:induction false} StepKeeps(s: State, e: Event)
    requires Coherent(s) && Enabled(s, e)
    ensures Coherent(Step(s, e))
  {
  }

  /** The states a run of events goes through. */
  predicate IsRun(env: map<string, string>, states: seq<State>, events: seq<Event>) {
    && |states| == |events| + 1 && states[0] == Init(ToStart(env))
    && forall i | 0 <= i < |events| :: Enabled(states[i], events[i]) && states[i + 1] == Step(states[i], events[i])
  }

  lemma {:induction false} RunKeeps(env: map<string, string>, states: seq<State>, events: seq<Event>, n: nat)
    requires IsRun(env, states, events) && n < |states|
    ensures Coherent(states[n]) && states[n].started == ToStart(env)
  {
    if n > 0 {
      RunKeeps(env, states, events, n - 1);
      StepKeeps(states[n - 1], events[n - 1]);
    }
  }

  lemma {:induction false} CriticalAreStarted(env: map<string, string>, app: App)
    requires Critical(app)
    ensures app in ToStart(env)
  {
    assert MissingEnv(app, env) == [];
  }

  lemma {:induction false} NoneMissing(keys: seq<string>, env: map<string, string>)
    ensures Missing(keys, env) == [] <==> forall key | key in keys :: IsSet(env, key)
  {
    if keys != [] {
      NoneMissing(keys[1..], env);
      assert keys == [keys[0]] + keys[1..];
    }
  }

  lemma {:induction false} StartedWhenSet(app: App, env: map<string, string>)
    ensures app in ToStart(env) <==> forall key | key in RequiredEnv(app) :: key in env && |env[key]| > 0
  {
    NoneMissing(RequiredEnv(app), env);
    assert forall key :: IsSet(env, key) <==> key in env && |env[key]| > 0;
    assert app in APPS;
  }

  /** An app the pilot can run without is started exactly when every secret it needs is set to something; the others
      always are. */
  lemma {:induction false} StartedExactlyWhen(env: map<string, string>)
    ensures {Web, Realops, Signaldesk} <= ToStart(env)
    ensures Vitrinee in ToStart(env)
      <==> forall key | key in ["VITRINEE_ADAPTER", "VITRINEE_MERCHANT_STELLAR_ACCOUNT", "VITRINEE_MERCHANT_SIGNING_SECRET",
                                "VITRINEE_FACILITATOR_API_KEY", "VITRINEE_JUMPSELLER_LOGIN", "VITRINEE_JUMPSELLER_AUTHTOKEN"] ::
             key in env && |env[key]| > 0
    ensures Mcp in ToStart(env)
      <==> forall key | key in ["MCP_PUBLIC_URL", "MCP_AGENT_SECRET_KEY", "MCP_POLICY_RAIL_CONTRACT_ID", "MCP_CREDENTIAL_JWS",
                                "MCP_MANDATE_JWS", "MCP_ALLOWED_WALLET", "MCP_OAUTH_SECRET", "AGENT_REGISTRY_CONTRACT_ID"] ::
             key in env && |env[key]| > 0
  {
    hide ToStart;
    CriticalAreStarted(env, Web);
    CriticalAreStarted(env, Realops);
    CriticalAreStarted(env, Signaldesk);
    StartedWhenSet(Vitrinee, env);
    StartedWhenSet(Mcp, env);
  }

  /** Whatever the order of events and whatever secrets are set: a gateway that serves runs every critical app, and never
      routes to one that exited or was not started. */
  lemma {:induction false} ServingIsSafe(env: map<string, string>, states: seq<State>, events: seq<Event>, n: nat, app: App)
    requires IsRun(env, states, events) && n < |states| && !states[n].shuttingDown
    ensures states[n].listening && Critical(app) ==> Route(states[n], Some(app)) == Proxied(app)
    ensures app in states[n].exited || app !in ToStart(env) ==> Route(states[n], Some(app)).Unavailable?
    ensures Route(states[n], Some(app)) == Unavailable(10) <==> app in states[n].lateWaiting
  {
    RunKeeps(env, states, events, n);
    if Critical(app) {
      CriticalAreStarted(env, app);
    }
  }

  /** What no event undoes. */
  predicate Follows(s: State, t: State) {
    && s.exited <= t.exited && s.settled <= t.settled
    && (s.listening ==> t.listening && t.lateWaiting <= s.lateWaiting)
    && (s.shuttingDown ==> t.shuttingDown && t.exitCode == s.exitCode)
  }

  lemma {:induction false} StepFollows(s: State, e: Event)
    requires Coherent(s) && Enabled(s, e)
    ensures Follows(s, Step(s, e))
  {
  }

  lemma {:induction false} Later(env: map<string, string>, states: seq<State>, events: seq<Event>, i: nat, j: nat)
    requires IsRun(env, states, events) && i <= j < |states|
    ensures Follows(states[i], states[j])
    decreases j
  {
    if i < j {
      Later(env, states, events, i, j - 1);
      RunKeeps(env, states, events, j - 1);
      StepFollows(states[j - 1], events[j - 1]);
    }
  }

  /** Once an app has exited no later request reaches it. */
  lemma {:induction false} ExitedIsNeverRoutedTo(env: map<string, string>, states: seq<State>, events: seq<Event>, i: nat, j: nat, app: App)
    requires IsRun(env, states, events) && i <= j < |states| && app in states[i].exited && !states[j].shuttingDown
    ensures Route(states[j], Some(app)).Unavailable?
  {
    Later(env, states, events, i, j);
    RunKeeps(env, states, events, j);
  }

  predicate Answers(e: Event, app: App) {
    e == Ready(app) || e == LateDone(app, true)
  }

  predicate EndsWait(e: Event, app: App) {
    e.LateDone? && e.app == app
  }

  /** The sets say what has happened: an app that exited, is waited for, or is up. */
  predicate Tells(s: State, events: seq<Event>, app: App) {
    && (app in s.exited <==> Exited(app) in events)
    && (app in s.settled <==> Ready(app) in events || TimedOut(app) in events)
    && (app in s.lateWaiting <==> TimedOut(app) in events && !exists i | 0 <= i < |events| :: EndsWait(events[i], app))
    && (app in s.running <==> Exited(app) !in events && exists i | 0 <= i < |events| :: Answers(events[i], app))
  }

  /** A late wait ends only for an app that missed its window. */
  predicate EndsAfterMiss(events: seq<Event>, app: App) {
    forall i | 0 <= i < |events| :: EndsWait(events[i], app) ==> TimedOut(app) in events
  }

  lemma {:induction false} StepTells(s: State, events: seq<Event>, e: Event, app: App)
    requires Coherent(s) && Enabled(s, e) && !s.shuttingDown && !Step(s, e).shuttingDown && Tells(s, events, app)
    requires EndsAfterMiss(events, app)
    ensures Tells(Step(s, e), events + [e], app) && EndsAfterMiss(events + [e], app)
  {
    var after := events + [e];
    assert after[|events|] == e;
    assert forall i | 0 <= i < |events| :: after[i] == events[i];
    assert forall x :: x in after <==> x in events || x == e;
    assert (exists i | 0 <= i < |after| :: EndsWait(after[i], app))
      <==> EndsWait(e, app) || exists i | 0 <= i < |events| :: EndsWait(events[i], app);
    assert (exists i | 0 <= i < |after| :: Answers(after[i], app))
      <==> Answers(e, app) || exists i | 0 <= i < |events| :: Answers(events[i], app);
  }

  /** The last step of a run that has not been brought down. */
  lemma {:induction false} LastStep(env: map<string, string>, states: seq<State>, events: seq<Event>, n: nat)
    requires IsRun(env, states, events) && n < |states| - 1 && !states[n + 1].shuttingDown
    ensures Coherent(states[n]) && Enabled(states[n], events[n]) && states[n + 1] == Step(states[n], events[n])
    ensures !states[n].shuttingDown && events[..n + 1] == events[..n] + [events[n]]
  {
    Later(env, states, events, n, n + 1);
    RunKeeps(env, states, events, n);
  }

  lemma {:induction false} NothingTells(env: map<string, string>, app: App)
    ensures Tells(Init(ToStart(env)), [], app) && EndsAfterMiss([], app)
  {
  }

  lemma {:induction false} RunTells(env: map<string, string>, states: seq<State>, events: seq<Event>, n: nat, app: App)
    requires IsRun(env, states, events) && n < |states| && !states[n].shuttingDown
    ensures Tells(states[n], events[..n], app) && EndsAfterMiss(events[..n], app)
  {
    hide Tells, EndsAfterMiss, Step;
    if n == 0 {
      NothingTells(env, app);
      assert events[..0] == [];
    } else {
      LastStep(env, states, events, n - 1);
      RunTells(env, states, events, n - 1, app);
      StepTells(states[n - 1], events[..n - 1], events[n - 1], app);
    }
  }

  /** What a request is answered is told by what has happened so far: it reaches its app exactly when the app's port has
      answered and the app has never exited; it is asked back soon exactly while the app's late wait has not ended, and
      later otherwise. Only a host that names no app is not found. */
  lemma {:induction false} RoutedExactlyWhen(env: map<string, string>, states: seq<State>, events: seq<Event>, n: nat, app: App)
    requires IsRun(env, states, events) && n < |states| && !states[n].shuttingDown
    ensures Route(states[n], Some(app)) == Proxied(app)
      <==> Exited(app) !in events[..n] && exists i | 0 <= i < n :: Answers(events[i], app)
    ensures Route(states[n], Some(app)) == Unavailable(10)
      <==> TimedOut(app) in events[..n] && !exists i | 0 <= i < n :: EndsWait(events[i], app)
    ensures Route(states[n], Some(app)) in {Proxied(app), Unavailable(10), Unavailable(300)}
    ensures Route(states[n], None) == NotFound
  {
    RunKeeps(env, states, events, n);
    RunTells(env, states, events, n, app);
    assert forall i | 0 <= i < n :: events[..n][i] == events[i];
  }

  /** The apps waited for are those that missed their window and whose late wait has not ended; so when every late wait
      has ended no app is waited for, and while the gateway serves an app taken out never returns. */
  lemma {:induction false} LateWaitsEnd(env: map<string, string>, states: seq<State>, events: seq<Event>, n: nat)
    requires IsRun(env, states, events) && n < |states| && !states[n].shuttingDown
    ensures states[n].lateWaiting == {}
      <==> forall app | TimedOut(app) in events[..n] :: exists i | 0 <= i < n :: EndsWait(events[i], app)
    ensures forall i, j | 0 <= i < j <= n && states[i].listening && events[i].LateDone? ::
              events[i].app in states[i].lateWaiting && events[i].app !in states[j].lateWaiting
  {
    forall app: App
      ensures app in states[n].lateWaiting
        <==> TimedOut(app) in events[..n] && !exists i | 0 <= i < n :: EndsWait(events[i], app)
    {
      RunTells(env, states, events, n, app);
      assert forall i | 0 <= i < n :: events[..n][i] == events[i];
    }
    forall i, j | 0 <= i < j <= n && states[i].listening && events[i].LateDone?
      ensures events[i].app in states[i].lateWaiting && events[i].app !in states[j].lateWaiting
    {
      Later(env, states, events, i, n);
      Later(env, states, events, i + 1, j);
    }
  }

  /** Until it is brought down, the gateway serves from the moment it listens. */
  lemma {:induction false} ServesOnceListening(env: map<string, string>, states: seq<State>, events: seq<Event>, n: nat)
    requires IsRun(env, states, events) && n < |states| && !states[n].shuttingDown
    ensures states[n].listening <==> Listen in events[..n]
  {
    if n > 0 {
      LastStep(env, states, events, n - 1);
      ServesOnceListening(env, states, events, n - 1);
    }
  }

  predicate IsFailure(e: Event) {
    (e.Exited? && Critical(e.app)) || (e.TimedOut? && Critical(e.app)) || e.ChildFailed? || e.ListenFailed?
  }

  predicate Stops(e: Event) {
    e == Signal || IsFailure(e)
  }

  lemma {:induction false} StepStops(s: State, e: Event)
    requires Coherent(s) && Enabled(s, e)
    ensures Step(s, e).shuttingDown <==> s.shuttingDown || Stops(e)
    ensures Step(s, e).exitCode == if !s.shuttingDown && IsFailure(e) then 1 else s.exitCode
  {
  }

  /** Only a signal, a critical app, a child's unhandled error or the gateway's own listener brings it down, and the exit
      code says which: never the exit, the timeout or the late failure of an app the pilot can run without. */
  lemma {:induction false} WhatBringsItDown(env: map<string, string>, states: seq<State>, events: seq<Event>, n: nat)
    requires IsRun(env, states, events) && n < |states|
    ensures states[n].shuttingDown <==> exists i | 0 <= i < n :: Stops(events[i])
    ensures states[n].exitCode == if exists i | 0 <= i < n :: IsFailure(events[i]) && !states[i].shuttingDown then 1 else 0
  {
    hide Step, Stops, IsFailure, Coherent;
    if n > 0 {
      WhatBringsItDown(env, states, events, n - 1);
      RunKeeps(env, states, events, n - 1);
      StepStops(states[n - 1], events[n - 1]);
    }
  }

  /** An app the pilot can run without brings the gateway down when its process cannot be spawned. */
  lemma {:induction false} SpawnErrorIsFatal(env: map<string, string>, app: App)
    requires app in ToStart(env) && !Critical(app)
    ensures var s := Init(ToStart(env));
            && Enabled(s, ChildFailed(app)) && Step(s, ChildFailed(app)).shuttingDown
            && Step(s, ChildFailed(app)).exitCode == 1
    ensures forall s, e | Enabled(s, e) && !s.shuttingDown && Step(s, e).shuttingDown
                          && (e.Exited? || e.TimedOut? || e.Ready? || e.LateDone?) :: e.app != app
  {
  }

  /** A started app that has neither exited nor missed its waits is routed to: it joins when its port answers, early or
      late. */
  lemma {:induction false} AnsweringAppJoins(s: State, e: Event)
    requires Coherent(s) && Enabled(s, e) && !s.shuttingDown && (e.Ready? || (e.LateDone? && e.up)) && e.app !in s.exited
    ensures Route(Step(s, e), Some(e.app)) == Proxied(e.app)
  {
  }
}
