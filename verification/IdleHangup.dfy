/** The engagement loop of a call: optional speech during gaps, and hanging up on an absent caller.
    Code between two awaits is one step; anything may happen at an await. */
module IdleHangup {

  import opened Wrappers

  datatype Quiet = Open | UntilUser | UntilResult
  datatype Phase =
    | Idle | Playing | Releasing | Speaking | Speculating | AwaitingFinal | RecoveringStt | Generating | Other
  datatype Reason = ToolStarted | ToolWait | ToolCompleted | CallerIdle
  datatype Attempt = Attempt(id: nat, authorized: bool, cancelled: bool)

  /** What the engagement reads of the pipeline, which may change at any time. */
  datatype Pipe = Pipe(phase: Phase, attempt: Option<Attempt>, candidate: bool, lockHeld: bool, callEnding: bool,
                       awaitingConfirmation: bool, remembers: bool, toolsInFlight: bool)

  datatype Operation = Operation(attempt: nat, running: bool, hasResult: bool, delivered: bool, considered: Option<nat>)

  datatype CloserAt = CloserCreated | GoodbyeSynthesis | GoodbyePlayback | SendingHangup
  datatype DeciderAt = DeciderCreated | Thinking | Synthesis | Playback | FallbackSynthesis | FallbackPlayback

  /** The one decision task; a cancelled one has still to run its `finally` block. */
  datatype Task =
    | NoTask
    | Closer(closer: CloserAt, revision: nat)
    | Decider(decider: DeciderAt, revision: nat, reason: Reason, attempt: Option<nat>)
    | Cancelled(cleanup: Option<Reason>)

  datatype Config = Config(pilot: bool, closeSeconds: real, idleSeconds: real, toolSeconds: real, ackSeconds: real,
                           maxIdleUpdates: int, maxToolUpdates: int)

  datatype Event = CallerEvent(at: real) | IdleDecision(at: real) | Armed(at: real) | HungUp(at: real)

  datatype Engagement = Engagement(now: real, closed: bool, revision: nat, quiet: Quiet, operation: Option<Operation>,
                                   task: Task, emitting: bool, audioUntil: real, nextCheck: real, toolChecks: nat,
                                   idleChecks: nat, idleCloseAt: Option<real>, pipe: Pipe, log: seq<Event>)
  {
    function Logged(event: Event): Engagement {
      this.(log := log + [event])
    }

    function Rest(c: Config, reason: Reason): real {
      if reason.CallerIdle? then c.idleSeconds else c.toolSeconds
    }

    predicate ToolRunning() {
      operation.Some? && operation.value.running
    }

    /** A new revision; a task under way is cancelled. */
    function Invalidate(): Engagement {
      var left :=
        match task
        case NoTask => NoTask
        case Closer(_, _) => Cancelled(None)
        case Decider(at, _, reason, _) => Cancelled(if at.DeciderCreated? then None else Some(reason))
        case Cancelled(_) => task;
      this.(revision := revision + 1, task := left)
    }

    function CallerHeard(c: Config): Engagement {
      var e := Invalidate();
      e.(idleCloseAt := None, idleChecks := 0, nextCheck := now + c.idleSeconds).Logged(CallerEvent(now))
    }

    function SetSpeech(enabled: bool): Engagement {
      this.(quiet := if enabled then Open else UntilUser).Invalidate()
    }

    predicate SpeechEnabled() {
      quiet != UntilUser
    }

    /** May speech that was decided at a revision, for an attempt, still be played? */
    predicate Safe(decided: nat, attempt: Option<nat>, reason: Reason) {
      && !closed && revision == decided && SpeechEnabled()
      && (quiet != UntilResult || reason.ToolCompleted?)
      && SameAttempt(attempt) && !pipe.candidate
      && (attempt.Some? ==> pipe.attempt.value.authorized && !pipe.attempt.value.cancelled)
      && (pipe.phase.Idle? || pipe.phase.Playing? || pipe.phase.Releasing?)
      && (emitting || (now >= audioUntil && (reason.ToolStarted? || reason.ToolWait? ==> ToolRunning())))
    }

    predicate SameAttempt(attempt: Option<nat>) {
      if attempt.None? then pipe.attempt.None? else pipe.attempt.Some? && pipe.attempt.value.id == attempt.value
    }

    predicate CanCloseIdle(c: Config, decided: nat) {
      && c.pilot && revision == decided && !closed && quiet == Open && !pipe.callEnding
      && pipe.phase.Idle? && pipe.attempt.None? && !pipe.candidate && !pipe.toolsInFlight
      && !ToolRunning() && !pipe.lockHeld
    }

    function Opportunity(c: Config): Option<(Reason, Option<nat>)> {
      if closed || pipe.candidate || pipe.lockHeld || now < audioUntil
         || pipe.phase in {Speaking, Speculating, AwaitingFinal, RecoveringStt, Generating} then None
      else if quiet == UntilUser then None
      else if ToolRunning() then
        if toolChecks >= c.maxToolUpdates then None
        else if pipe.attempt.Some? && (pipe.attempt.value.id != operation.value.attempt || pipe.attempt.value.cancelled
                                       || !pipe.attempt.value.authorized) then None
        else Some((if toolChecks == 0 then ToolStarted else ToolWait,
                   if pipe.attempt.Some? then Some(pipe.attempt.value.id) else None))
      else if pipe.attempt.Some? || !pipe.phase.Idle? || (pipe.awaitingConfirmation && !c.pilot) then None
      else if operation.Some? && operation.value.hasResult && !operation.value.delivered
              && operation.value.considered != Some(revision) then Some((ToolCompleted, None))
      else if !pipe.remembers || idleChecks >= c.maxIdleUpdates then None
      else Some((CallerIdle, None))
    }

    /** One turn of the polling loop. */
    function Poll(c: Config): Engagement {
      if closed then this
      else if idleCloseAt.Some? && now >= idleCloseAt.value && task.NoTask? then
        this.(task := Closer(CloserCreated, 0))
      else if now < nextCheck || !task.NoTask? then this
      else
        match Opportunity(c)
        case None => this
        case Some((reason, attempt)) => this.(task := Decider(DeciderCreated, 0, reason, attempt))
    }

    // ---------- the closing task ----------

    function Done(): Engagement {
      this.(task := NoTask)
    }

    function HangUp(c: Config, decided: nat): Engagement {
      if !CanCloseIdle(c, decided) then Done()
      else
        this.(idleCloseAt := None, pipe := pipe.(callEnding := true), task := Closer(SendingHangup, decided))
            .Logged(HungUp(now))
    }

    function RunCloser(c: Config, at: CloserAt, decided: nat, o: Outcome): Engagement {
      match at
      case CloserCreated =>
        if idleCloseAt.None? || now < idleCloseAt.value then Done()
        else if !CanCloseIdle(c, revision) then this.(idleCloseAt := Some(now + 1.0)).Done()
        else if o.phrase then this.(task := Closer(GoodbyeSynthesis, revision))
        else HangUp(c, revision)
      case GoodbyeSynthesis =>
        if !o.ok then HangUp(c, decided)
        else if !CanCloseIdle(c, decided) then Done()
        else if o.positive then this.(task := Closer(GoodbyePlayback, decided))
        else HangUp(c, decided)
      case GoodbyePlayback =>
        if o.ok && !o.positive then Done() else HangUp(c, decided)
      case SendingHangup =>
        if o.ok then Done()
        else this.(pipe := pipe.(callEnding := false), idleCloseAt := Some(now + 5.0)).Done()
    }

    // ---------- the deciding task ----------

    /** The `finally` block of a decision. */
    function Cleanup(c: Config, reason: Reason): Engagement {
      var later := audioUntil + Rest(c, reason);
      this.(emitting := false, nextCheck := if nextCheck < later then later else nextCheck, task := NoTask)
    }

    /** The caller was addressed, or could not be: arm the idle close, if nothing changed. */
    function Arm(c: Config, decided: nat, reason: Reason): Engagement {
      if reason.CallerIdle? && c.pilot && Safe(decided, None, reason)
      then this.(idleCloseAt := Some(now + c.closeSeconds)).Logged(Armed(now))
      else this
    }

    function Fallback(c: Config, decided: nat, reason: Reason, attempt: Option<nat>, o: Outcome): Engagement {
      if reason.CallerIdle? && c.pilot && Safe(decided, None, reason) && o.phrase
      then this.(task := Decider(FallbackSynthesis, decided, reason, attempt))
      else Arm(c, decided, reason).Cleanup(c, reason)
    }

    function RunDecider(c: Config, at: DeciderAt, decided: nat, reason: Reason, attempt: Option<nat>, o: Outcome)
      : Engagement
    {
      match at
      case DeciderCreated =>
        var e := this.(nextCheck := now + Rest(c, reason), task := Decider(Thinking, revision, reason, attempt),
                       operation := if reason.ToolCompleted? && operation.Some?
                                    then Some(operation.value.(considered := Some(revision))) else operation);
        if reason.CallerIdle? then e.(idleChecks := idleChecks + 1).Logged(IdleDecision(now))
        else e.(toolChecks := toolChecks + 1)
      case Thinking =>
        if !o.ok then Fallback(c, decided, reason, attempt, o)
        else if revision != decided || closed then Cleanup(c, reason)
        else
          var speaks := o.positive || (c.pilot && reason.CallerIdle? && quiet == Open && o.phrase);
          if !speaks || quiet == UntilUser || (quiet == UntilResult && !reason.ToolCompleted?)
          then Arm(c, decided, reason).Cleanup(c, reason)
          else this.(task := Decider(Synthesis, decided, reason, attempt))
      case Synthesis =>
        if !o.ok then Fallback(c, decided, reason, attempt, o)
        else if !o.positive || !Safe(decided, attempt, reason) then Cleanup(c, reason)
        else this.(task := Decider(Playback, decided, reason, attempt))
      case Playback =>
        if !o.ok then Fallback(c, decided, reason, attempt, o)
        else if !o.positive then Cleanup(c, reason)
        else
          var e := Arm(c, decided, reason);
          e.(operation := if reason.ToolCompleted? && operation.Some?
                          then Some(operation.value.(delivered := true)) else operation).Cleanup(c, reason)
      case FallbackSynthesis =>
        if o.ok && o.positive && Safe(decided, None, reason)
        then this.(task := Decider(FallbackPlayback, decided, reason, attempt))
        else Arm(c, decided, reason).Cleanup(c, reason)
      case FallbackPlayback =>
        if o.ok && !o.positive then Cleanup(c, reason)
        else Arm(c, decided, reason).Cleanup(c, reason)
    }

    /** The next stretch of the task, up to its next await, given how the last await ended. */
    function RunTask(c: Config, o: Outcome): Engagement {
      match task
      case NoTask => this
      case Closer(at, decided) => RunCloser(c, at, decided, o)
      case Decider(at, decided, reason, attempt) => RunDecider(c, at, decided, reason, attempt, o)
      case Cancelled(cleanup) => if cleanup.Some? then Cleanup(c, cleanup.value) else Done()
    }
  }

  /** How an await ended: normally or with an exception; with something to say, audio, or a
      completed playback; and whether a stock phrase exists in the caller's language. */
  datatype Outcome = Outcome(ok: bool, positive: bool, phrase: bool)

  datatype Input =
    | Wait(seconds: real)
    | PipelineChanges(pipe: Pipe)
    | CallerSpeaks
    | SpeechGate(enabled: bool)
    | AudioSent(seconds: real)
    | PlaybackBegins
    | PlaybackStops
    | ToolRuns(attempt: nat)
    | ToolReturns
    | ToolRegistered(attempt: nat)
    | RegisteredTaskEnds
    | ToolFinished
    | LoopPolls
    | TaskResumes(outcome: Outcome)
    | SessionCloses

  function Step(c: Config, e: Engagement, input: Input): Engagement {
    match input
    case Wait(seconds) => if seconds > 0.0 then e.(now := e.now + seconds) else e
    case PipelineChanges(pipe) => e.(pipe := pipe)
    case CallerSpeaks => e.CallerHeard(c)
    case SpeechGate(enabled) => e.SetSpeech(enabled)
    case AudioSent(seconds) => e.(audioUntil := (if e.now > e.audioUntil then e.now else e.audioUntil) + seconds)
    case PlaybackBegins => e.(emitting := true)
    case PlaybackStops =>
      e.(audioUntil := e.now, nextCheck := e.now + if e.ToolRunning() then c.toolSeconds else c.idleSeconds)
    case ToolRuns(attempt) =>
      e.(operation := Some(Operation(attempt, true, false, false, None)), toolChecks := 0,
         nextCheck := e.now + c.ackSeconds)
    case ToolReturns =>
      if !e.ToolRunning() then e
      else
        var done := e.(operation := Some(e.operation.value.(running := false, hasResult := true)));
        (if e.emitting then done else done.Invalidate()).(nextCheck := e.now + c.ackSeconds)
    case ToolRegistered(attempt) =>
      e.(operation := Some(Operation(attempt, true, false, false, None)), idleCloseAt := None, toolChecks := 0,
         nextCheck := e.now + c.ackSeconds)
    case RegisteredTaskEnds =>
      if e.ToolRunning() then e.(operation := Some(e.operation.value.(running := false))) else e
    case ToolFinished => e.(operation := None).Invalidate().(nextCheck := e.now + c.idleSeconds)
    case LoopPolls => e.Poll(c)
    case TaskResumes(outcome) => e.RunTask(c, outcome)
    case SessionCloses => e.(closed := true).Invalidate()
  }

  function Run(c: Config, e: Engagement, inputs: seq<Input>): Engagement
    decreases |inputs|
  {
    if inputs == [] then e else Run(c, Step(c, e, inputs[0]), inputs[1..])
  }

  function Start(c: Config, now: real, pipe: Pipe): Engagement {
    Engagement(now, false, 0, Open, None, NoTask, false, now, now + c.idleSeconds, 0, 0, None, pipe, [])
  }

  // ---------- reading the log ----------

  /** When the latest idle decision armed the close, if no caller event came after it. */
  function LatestArm(log: seq<Event>): Option<real> {
    if log == [] then None
    else
      match log[|log| - 1]
      case CallerEvent(_) => None
      case Armed(at) => Some(at)
      case _ => LatestArm(log[..|log| - 1])
  }

  /** Idle decisions since the last caller event. */
  function IdleDecisions(log: seq<Event>): nat {
    if log == [] then 0
    else
      match log[|log| - 1]
      case CallerEvent(_) => 0
      case IdleDecision(_) => IdleDecisions(log[..|log| - 1]) + 1
      case _ => IdleDecisions(log[..|log| - 1])
  }

  /** A moment late enough after the latest arming, with no caller event since. */
  ghost predicate Due(c: Config, log: seq<Event>, at: real) {
    LatestArm(log).Some? && at >= LatestArm(log).value + c.closeSeconds
  }

  ghost predicate HangupsDue(c: Config, log: seq<Event>) {
    forall i :: 0 <= i < |log| && log[i].HungUp? ==> Due(c, log[..i], log[i].at)
  }

  function MaxIdle(c: Config): nat {
    if c.maxIdleUpdates < 0 then 0 else c.maxIdleUpdates
  }

  ghost predicate IdleBounded(c: Config, log: seq<Event>) {
    forall i :: 0 <= i <= |log| ==> IdleDecisions(log[..i]) <= MaxIdle(c)
  }

  // ---------- the invariant ----------

  ghost predicate Inv(c: Config, e: Engagement) {
    && (e.idleCloseAt.Some? ==> Due(c, e.log, e.idleCloseAt.value))
    && (e.task.Closer? && !e.task.closer.CloserCreated? ==> e.task.revision == e.revision && Due(c, e.log, e.now))
    && (e.task.Decider? && e.task.decider.DeciderCreated? && e.task.reason.CallerIdle? ==>
          e.idleChecks < c.maxIdleUpdates)
    && e.idleChecks == IdleDecisions(e.log) <= MaxIdle(c)
    && HangupsDue(c, e.log)
    && IdleBounded(c, e.log)
  }

  lemma LogGrows(c: Config, log: seq<Event>, event: Event)
    requires HangupsDue(c, log) && IdleBounded(c, log)
    requires event.HungUp? ==> Due(c, log, event.at)
    requires event.IdleDecision? ==> IdleDecisions(log) < MaxIdle(c)
    ensures HangupsDue(c, log + [event]) && IdleBounded(c, log + [event])
    ensures LatestArm(log + [event]) == if event.CallerEvent? then None
                                        else if event.Armed? then Some(event.at) else LatestArm(log)
    ensures IdleDecisions(log + [event]) == if event.CallerEvent? then 0
                                            else IdleDecisions(log) + if event.IdleDecision? then 1 else 0
  {
    var longer := log + [event];
    assert longer[..|log|] == log && log[..|log|] == log;
    forall i | 0 <= i < |longer| && longer[i].HungUp? ensures Due(c, longer[..i], longer[i].at) {
      assert longer[..i] == log[..i];
    }
    forall i | 0 <= i <= |longer| ensures IdleDecisions(longer[..i]) <= MaxIdle(c) {
      if i <= |log| { assert longer[..i] == log[..i]; } else { assert longer[..i] == longer; }
    }
  }

  lemma HangUpKeeps(c: Config, e: Engagement, decided: nat)
    requires Inv(c, e) && Due(c, e.log, e.now)
    ensures Inv(c, e.HangUp(c, decided))
  {
    hide HangupsDue, IdleBounded, LatestArm, IdleDecisions;
    LogGrows(c, e.log, HungUp(e.now));
  }

  lemma CloserKeeps(c: Config, e: Engagement, o: Outcome)
    requires Inv(c, e) && e.task.Closer?
    ensures Inv(c, e.RunTask(c, o))
  {
    hide HangupsDue, IdleBounded, LatestArm, IdleDecisions, Engagement.CanCloseIdle, Engagement.HangUp;
    if !e.task.closer.CloserCreated? || (e.idleCloseAt.Some? && e.now >= e.idleCloseAt.value) {
      HangUpKeeps(c, e, e.task.revision);
      HangUpKeeps(c, e, e.revision);
    }
  }

  lemma ArmKeeps(c: Config, e: Engagement, decided: nat, reason: Reason)
    requires Inv(c, e) && !e.task.Closer?
    ensures Inv(c, e.Arm(c, decided, reason)) && e.Arm(c, decided, reason).task == e.task
  {
    hide HangupsDue, IdleBounded, LatestArm, IdleDecisions;
    LogGrows(c, e.log, Armed(e.now));
  }

  lemma CleanupKeeps(c: Config, e: Engagement, reason: Reason)
    requires Inv(c, e)
    ensures Inv(c, e.Cleanup(c, reason))
  {
    hide HangupsDue, IdleBounded, LatestArm, IdleDecisions;
  }

  lemma DecisionStarts(c: Config, e: Engagement, o: Outcome)
    requires Inv(c, e) && e.task.Decider? && e.task.decider.DeciderCreated?
    ensures Inv(c, e.RunTask(c, o))
  {
    hide HangupsDue, IdleBounded, LatestArm, IdleDecisions;
    if e.task.reason.CallerIdle? { LogGrows(c, e.log, IdleDecision(e.now)); }
  }

  lemma DeciderKeeps(c: Config, e: Engagement, o: Outcome)
    requires Inv(c, e) && e.task.Decider? && !e.task.decider.DeciderCreated?
    ensures Inv(c, e.RunTask(c, o))
  {
    hide Inv, Engagement.Safe, Engagement.Arm, Engagement.Cleanup;
    var decided, reason, attempt := e.task.revision, e.task.reason, e.task.attempt;
    var armed := e.Arm(c, decided, reason);
    var told := armed.(operation := if reason.ToolCompleted? && armed.operation.Some?
                                    then Some(armed.operation.value.(delivered := true)) else armed.operation);
    ArmKeeps(c, e, decided, reason);
    TaskMoves(c, e, Synthesis);
    TaskMoves(c, e, Playback);
    TaskMoves(c, e, FallbackSynthesis);
    TaskMoves(c, e, FallbackPlayback);
    OperationChanges(c, armed, told.operation);
    CleanupKeeps(c, e, reason);
    CleanupKeeps(c, armed, reason);
    CleanupKeeps(c, told, reason);
    PlaybackOperation(c, e, decided, reason);
  }

  lemma TaskMoves(c: Config, e: Engagement, at: DeciderAt)
    requires Inv(c, e) && e.task.Decider? && !at.DeciderCreated?
    ensures Inv(c, e.(task := Decider(at, e.task.revision, e.task.reason, e.task.attempt)))
  {
    hide HangupsDue, IdleBounded, LatestArm, IdleDecisions;
  }

  lemma OperationChanges(c: Config, e: Engagement, operation: Option<Operation>)
    requires Inv(c, e)
    ensures Inv(c, e.(operation := operation))
  {
    hide HangupsDue, IdleBounded, LatestArm, IdleDecisions;
  }

  lemma PlaybackOperation(c: Config, e: Engagement, decided: nat, reason: Reason)
    ensures e.Arm(c, decided, reason).operation == e.operation
  {
  }

  lemma InvalidateKeeps(c: Config, e: Engagement)
    requires Inv(c, e)
    ensures Inv(c, e.Invalidate())
  {
    hide HangupsDue, IdleBounded, LatestArm, IdleDecisions;
  }

  lemma CallerHeardKeeps(c: Config, e: Engagement)
    requires Inv(c, e)
    ensures Inv(c, e.CallerHeard(c))
  {
    hide HangupsDue, IdleBounded, LatestArm, IdleDecisions;
    LogGrows(c, e.log, CallerEvent(e.now));
  }

  lemma PollKeeps(c: Config, e: Engagement)
    requires Inv(c, e)
    ensures Inv(c, e.Poll(c))
  {
    hide HangupsDue, IdleBounded, LatestArm, IdleDecisions;
  }

  lemma StepKeeps(c: Config, e: Engagement, input: Input)
    requires Inv(c, e)
    ensures Inv(c, Step(c, e, input))
  {
    hide HangupsDue, IdleBounded, LatestArm, IdleDecisions, Engagement.RunCloser, Engagement.RunDecider,
         Engagement.Poll;
    match input
    case CallerSpeaks => CallerHeardKeeps(c, e);
    case SpeechGate(enabled) => InvalidateKeeps(c, e.(quiet := if enabled then Open else UntilUser));
    case ToolReturns =>
      if e.ToolRunning() {
        InvalidateKeeps(c, e.(operation := Some(e.operation.value.(running := false, hasResult := true))));
      }
    case ToolFinished => InvalidateKeeps(c, e.(operation := None));
    case SessionCloses => InvalidateKeeps(c, e.(closed := true));
    case LoopPolls => PollKeeps(c, e);
    case TaskResumes(outcome) =>
      match e.task {
        case NoTask =>
        case Closer(_, _) => CloserKeeps(c, e, outcome);
        case Decider(at, _, _, _) =>
          if at.DeciderCreated? { DecisionStarts(c, e, outcome); } else { DeciderKeeps(c, e, outcome); }
        case Cancelled(cleanup) => if cleanup.Some? { CleanupKeeps(c, e, cleanup.value); }
      }
    case _ =>
  }

  lemma {:induction false} RunKeeps(c: Config, e: Engagement, inputs: seq<Input>)
    requires Inv(c, e)
    ensures Inv(c, Run(c, e, inputs))
    decreases |inputs|
  {
    if inputs != [] {
      StepKeeps(c, e, inputs[0]);
      RunKeeps(c, Step(c, e, inputs[0]), inputs[1..]);
    }
  }

  /** In every run, whatever the interleaving, a hang-up is sent only when the closing time has
      passed since the latest idle decision that armed it and no caller event came in between. */
  lemma HangupOnlyOnAbsentCaller(c: Config, now: real, pipe: Pipe, inputs: seq<Input>)
    ensures HangupsDue(c, Run(c, Start(c, now, pipe), inputs).log)
  {
    RunKeeps(c, Start(c, now, pipe), inputs);
  }

  /** In every run the idle decisions between two caller events stay within the configured number. */
  lemma IdleDecisionsAreBounded(c: Config, now: real, pipe: Pipe, inputs: seq<Input>)
    ensures IdleBounded(c, Run(c, Start(c, now, pipe), inputs).log)
  {
    RunKeeps(c, Start(c, now, pipe), inputs);
  }

  // ---------- what each event does ----------

  /** A task under way is cancelled; a decision that has begun still has to end its turn. */
  ghost predicate Drops(task: Task, left: Task) {
    match task
    case NoTask => left.NoTask?
    case Cancelled(_) => left == task
    case Closer(_, _) => left == Cancelled(None)
    case Decider(at, _, reason, _) => left == Cancelled(if at == DeciderCreated then None else Some(reason))
  }

  /** What was decided before is void. */
  ghost predicate Voids(e: Engagement, f: Engagement) {
    f.revision == e.revision + 1 && Drops(e.task, f.task)
  }

  /** A caller event voids what was decided, forgets the armed close, and starts the idle time anew. */
  lemma CallerEventExactly(c: Config, e: Engagement)
    ensures var f := Step(c, e, CallerSpeaks);
            && Voids(e, f)
            && f == e.(revision := f.revision, task := f.task, idleCloseAt := None, idleChecks := 0,
                       nextCheck := e.now + c.idleSeconds, log := e.log + [CallerEvent(e.now)])
  {
  }

  /** So does the switch of the caller's wish for silence, and the close of the session. */
  lemma GateExactly(c: Config, e: Engagement, enabled: bool)
    ensures var f := Step(c, e, SpeechGate(enabled));
            && Voids(e, f)
            && f == e.(revision := f.revision, task := f.task, quiet := if enabled then Open else UntilUser)
    ensures var f := Step(c, e, SessionCloses);
            Voids(e, f) && f == e.(revision := f.revision, task := f.task, closed := true)
  {
  }

  /** At the start nothing is armed or under way, no audio is heard, and the first check is the idle time
      away. */
  lemma StartExactly(c: Config, now: real, pipe: Pipe)
    ensures var e := Start(c, now, pipe);
            && e.now == now && !e.closed && e.quiet.Open? && e.operation.None? && e.task.NoTask? && !e.emitting
            && e.audioUntil == now && e.nextCheck == now + c.idleSeconds && e.toolChecks == 0 == e.idleChecks
            && e.idleCloseAt.None? && e.pipe == pipe && e.log == []
  {
  }

  /** A cancelled task says nothing, arms nothing and hangs up on nobody. */
  lemma CancelledIsSilent(c: Config, e: Engagement, o: Outcome)
    requires e.task.Cancelled?
    ensures var f := e.RunTask(c, o);
            && f.task.NoTask? && f.log == e.log && f.idleCloseAt == e.idleCloseAt
            && (e.task.cleanup.None? ==> f == e.(task := NoTask))
            && (e.task.cleanup.Some? ==> EndsTurn(c, e, f, e.task.cleanup.value))
  {
  }

  /** A decision ends: its audio counts as over, and the next one waits until some time after what is
      still being heard. */
  ghost predicate EndsTurn(c: Config, e: Engagement, f: Engagement, reason: Reason) {
    var rest := if reason == CallerIdle then c.idleSeconds else c.toolSeconds;
    && f.task.NoTask? && !f.emitting
    && f.nextCheck >= e.nextCheck && f.nextCheck >= e.audioUntil + rest
    && (f.nextCheck == e.nextCheck || f.nextCheck == e.audioUntil + rest)
  }

  /** A decision begins: it is counted, the next check waits, and a finished tool counts as considered. */
  lemma DecisionBegins(c: Config, e: Engagement, o: Outcome)
    requires e.task.Decider? && e.task.decider.DeciderCreated?
    ensures var f, reason := e.RunTask(c, o), e.task.reason;
            && f.task == Decider(Thinking, e.revision, reason, e.task.attempt)
            && f.nextCheck == e.now + (if reason == CallerIdle then c.idleSeconds else c.toolSeconds)
            && f.idleChecks == e.idleChecks + (if reason == CallerIdle then 1 else 0)
            && f.toolChecks == e.toolChecks + (if reason == CallerIdle then 0 else 1)
            && f.log == e.log + (if reason == CallerIdle then [IdleDecision(e.now)] else [])
            && f.operation == (if reason == ToolCompleted && e.operation.Some?
                               then Some(e.operation.value.(considered := Some(e.revision))) else e.operation)
  {
    assert e.log + [] == e.log;
  }

  /** A decision that says something goes on to its audio and its playback; whenever it stops, it ends its
      turn. Its words count as a delivered result only when they were played to the end. */
  lemma DecisionGoesOn(c: Config, e: Engagement, o: Outcome)
    requires e.task.Decider? && !e.task.decider.DeciderCreated?
    ensures var f := e.RunTask(c, o);
            && (f.task.Decider? ==> f.task.revision == e.task.revision && f.task.reason == e.task.reason
                                    && f.task.attempt == e.task.attempt && f == e.(task := f.task))
            && (!f.task.Decider? ==> EndsTurn(c, e, f, e.task.reason))
            && f.operation == (if e.task.decider.Playback? && o.ok && o.positive && e.task.reason.ToolCompleted?
                                  && e.operation.Some?
                               then Some(e.operation.value.(delivered := true)) else e.operation)
            && (f.task.Decider? && f.task.decider.Synthesis?
                <==> && e.task.decider.Thinking? && o.ok && e.revision == e.task.revision && !e.closed
                     && (o.positive || (c.pilot && e.task.reason.CallerIdle? && e.quiet.Open? && o.phrase))
                     && (e.quiet.Open? || (e.quiet.UntilResult? && e.task.reason.ToolCompleted?)))
            && (f.task.Decider? && f.task.decider.FallbackSynthesis?
                <==> && (e.task.decider.Thinking? || e.task.decider.Synthesis? || e.task.decider.Playback?)
                     && !o.ok && o.phrase && e.task.reason.CallerIdle? && c.pilot
                     && e.Safe(e.task.revision, None, CallerIdle))
  {
    hide Engagement.Safe;
  }

  /** The tools of the engagement and of the pipeline. */
  lemma ToolEventsExactly(c: Config, e: Engagement, attempt: nat)
    ensures var op := Some(Operation(attempt, true, false, false, None));
            var soon := e.now + c.ackSeconds;
            && Step(c, e, ToolRuns(attempt)) == e.(operation := op, toolChecks := 0, nextCheck := soon)
            && Step(c, e, ToolRegistered(attempt))
               == e.(operation := op, toolChecks := 0, nextCheck := soon, idleCloseAt := None)
    ensures var f := Step(c, e, ToolReturns);
            if !Working(e) then f == e
            else
              && (if e.emitting then f.revision == e.revision && f.task == e.task else Voids(e, f))
              && f == e.(revision := f.revision, task := f.task, nextCheck := e.now + c.ackSeconds,
                         operation := Some(e.operation.value.(running := false, hasResult := true)))
    ensures Step(c, e, RegisteredTaskEnds)
            == if Working(e) then e.(operation := Some(e.operation.value.(running := false))) else e
    ensures var f := Step(c, e, ToolFinished);
            && Voids(e, f)
            && f == e.(revision := f.revision, task := f.task, operation := None, nextCheck := e.now + c.idleSeconds)
  {
  }

  /** Time, the pipeline, and the audio: what is sent is heard after what is still being heard. */
  lemma AudioEventsExactly(c: Config, e: Engagement, seconds: real, pipe: Pipe)
    ensures Step(c, e, Wait(seconds)) == if seconds <= 0.0 then e else e.(now := e.now + seconds)
    ensures Step(c, e, PipelineChanges(pipe)) == e.(pipe := pipe)
    ensures var f := Step(c, e, AudioSent(seconds));
            && f == e.(audioUntil := f.audioUntil)
            && f.audioUntil >= e.audioUntil + seconds && f.audioUntil >= e.now + seconds
            && (f.audioUntil == e.audioUntil + seconds || f.audioUntil == e.now + seconds)
    ensures Step(c, e, PlaybackBegins) == e.(emitting := true)
    ensures Step(c, e, PlaybackStops)
            == e.(audioUntil := e.now, nextCheck := e.now + if Working(e) then c.toolSeconds else c.idleSeconds)
  {
  }

  /** The closing task: the goodbye is synthesized and played, then the hang-up is sent; if sending fails
      the close is tried again five seconds later. */
  lemma ClosingGoesOn(c: Config, e: Engagement, o: Outcome)
    requires e.task.Closer?
    ensures var f, at := e.RunTask(c, o), e.task.closer;
            && (HungUpSince(f.log, |e.log|) ==>
                  && f == e.(idleCloseAt := None, pipe := e.pipe.(callEnding := true), log := e.log + [HungUp(e.now)],
                             task := f.task)
                  && f.task.Closer? && f.task.closer == SendingHangup)
            && (at.SendingHangup? ==>
                  f == if o.ok then e.(task := NoTask)
                       else e.(task := NoTask, pipe := e.pipe.(callEnding := false), idleCloseAt := Some(e.now + 5.0)))
            && (at.CloserCreated? ==>
                  if e.idleCloseAt.None? || e.now < e.idleCloseAt.value then f == e.(task := NoTask)
                  else NobodyThere(c, e) && o.phrase ==> f == e.(task := Closer(GoodbyeSynthesis, e.revision)))
            && (at.GoodbyePlayback? && o.ok && !o.positive ==> f == e.(task := NoTask))
  {
  }

  // ---------- when a call is hung up on ----------

  /** Nobody speaks or begins to, and nothing is under way. */
  ghost predicate NobodyThere(c: Config, e: Engagement) {
    && c.pilot && !e.closed && e.quiet == Open
    && e.pipe.phase.Idle? && e.pipe.attempt.None? && !e.pipe.candidate && !e.pipe.lockHeld
    && !e.pipe.callEnding && !e.pipe.toolsInFlight
    && (e.operation.Some? ==> !e.operation.value.running)
  }

  /** The closing task is at a point where it hangs up, if it may: at once without a goodbye, or after
      the goodbye or a failure of it, if no caller event came in between. */
  predicate ClosingEnds(e: Engagement, o: Outcome)
    requires e.task.Closer?
  {
    match e.task.closer
    case CloserCreated => e.idleCloseAt.Some? && e.now >= e.idleCloseAt.value && !o.phrase
    case GoodbyeSynthesis => e.task.revision == e.revision && !(o.ok && o.positive)
    case GoodbyePlayback => e.task.revision == e.revision && (o.ok ==> o.positive)
    case SendingHangup => false
  }

  /** A step hangs up exactly when the closing task gets there and nobody is there. */
  lemma HangsUpExactly(c: Config, e: Engagement, input: Input)
    ensures HungUpSince(Step(c, e, input).log, |e.log|)
            <==> input.TaskResumes? && e.task.Closer? && ClosingEnds(e, input.outcome) && NobodyThere(c, e)
  {
    hide Engagement.Opportunity, NobodyThere, ClosingEnds;
    if input.TaskResumes? && e.task.Decider? {
      NoHangup(c, e, input.outcome);
    } else if input.TaskResumes? && e.task.Closer? {
      ClosingTaskHangsUp(c, e, input.outcome);
    }
  }

  lemma ClosingTaskHangsUp(c: Config, e: Engagement, o: Outcome)
    requires e.task.Closer?
    ensures HungUpSince(e.RunTask(c, o).log, |e.log|) <==> ClosingEnds(e, o) && NobodyThere(c, e)
    ensures ClosingEnds(e, o) && NobodyThere(c, e) ==> e.RunTask(c, o).log == e.log + [HungUp(e.now)]
  {
    assert (e.log + [HungUp(e.now)])[|e.log|].HungUp?;
  }

  lemma NoHangup(c: Config, e: Engagement, o: Outcome)
    requires e.task.Decider?
    ensures !HungUpSince(e.RunTask(c, o).log, |e.log|)
  {
    hide Engagement.Safe;
  }

  /** A starting close that finds somebody there sends nothing and tries again a second later; one that
      has begun is given up without a trace. */
  lemma RefusedCloseSendsNothing(c: Config, e: Engagement, o: Outcome)
    requires e.task.Closer? && !e.task.closer.SendingHangup? && !NobodyThere(c, e)
    requires e.task.closer.CloserCreated? ==> e.idleCloseAt.Some? && e.now >= e.idleCloseAt.value
    ensures e.RunTask(c, o)
            == if e.task.closer.CloserCreated? then e.(task := NoTask, idleCloseAt := Some(e.now + 1.0))
               else e.(task := NoTask)
  {
  }

  /** The step of a run that logged an event. */
  lemma {:induction false} StepOf(c: Config, e: Engagement, inputs: seq<Input>, i: nat) returns (k: nat)
    requires |e.log| <= i < |Run(c, e, inputs).log|
    ensures k < |inputs|
    ensures var s := Run(c, e, inputs[..k]);
            var t := Step(c, s, inputs[k]);
            |s.log| <= i < |t.log| && t.log[i] == Run(c, e, inputs).log[i]
    decreases |inputs|
  {
    hide Step;
    var f := Step(c, e, inputs[0]);
    if i < |f.log| {
      k := 0;
      RunLogGrows(c, f, inputs[1..]);
    } else {
      var j := StepOf(c, f, inputs[1..], i);
      k := j + 1;
      assert inputs[..k][1..] == inputs[1..][..j] && inputs[..k][0] == inputs[0];
    }
  }

  /** In every run each hang-up is sent at a moment when nobody is there. */
  lemma HangupsFindNobody(c: Config, e: Engagement, inputs: seq<Input>, i: nat)
    requires |e.log| <= i < |Run(c, e, inputs).log| && Run(c, e, inputs).log[i].HungUp?
    ensures exists k :: 0 <= k < |inputs| && inputs[k].TaskResumes? && NobodyThere(c, Run(c, e, inputs[..k]))
                        && HungUpSince(Step(c, Run(c, e, inputs[..k]), inputs[k]).log, |Run(c, e, inputs[..k]).log|)
  {
    hide Run, Step, NobodyThere;
    var k := StepOf(c, e, inputs, i);
    HangsUpExactly(c, Run(c, e, inputs[..k]), inputs[k]);
  }

  // ---------- when the closing time is armed, and when something is said ----------

  /** The caller may be addressed on behalf of an attempt, or of none: no caller event since the
      decision, nobody speaks or begins to, and no audio of before is still being heard. */
  ghost predicate MaySpeak(e: Engagement, decided: nat, reason: Reason, attempt: Option<nat>) {
    && !e.closed && e.revision == decided && (e.quiet.Open? || (e.quiet.UntilResult? && reason.ToolCompleted?))
    && !e.pipe.candidate && (e.pipe.phase.Idle? || e.pipe.phase.Playing? || e.pipe.phase.Releasing?)
    && (match attempt
        case None => e.pipe.attempt.None?
        case Some(id) =>
          e.pipe.attempt.Some? && e.pipe.attempt.value.id == id && e.pipe.attempt.value.authorized
          && !e.pipe.attempt.value.cancelled)
    && (!e.emitting ==> e.now >= e.audioUntil
                        && (reason.ToolStarted? || reason.ToolWait? ==>
                              e.operation.Some? && e.operation.value.running))
  }

  /** The decision comes to its end: with nothing to say, or having said it, or after failing to. */
  predicate DecisionEnds(at: DeciderAt, o: Outcome) {
    match at
    case DeciderCreated => false
    case Thinking => !o.phrase && (o.ok ==> !o.positive)
    case Synthesis => !o.ok && !o.phrase
    case Playback => if o.ok then o.positive else !o.phrase
    case FallbackSynthesis => o.ok ==> !o.positive
    case FallbackPlayback => o.ok ==> o.positive
  }

  /** A step arms the closing time exactly when an idle decision comes to its end and the caller may
      still be addressed. */
  lemma ArmsExactly(c: Config, e: Engagement, input: Input)
    ensures ArmedSince(Step(c, e, input).log, |e.log|)
            <==> && input.TaskResumes? && e.task.Decider? && e.task.reason.CallerIdle?
                 && DecisionEnds(e.task.decider, input.outcome)
                 && c.pilot && e.quiet.Open? && MaySpeak(e, e.task.revision, CallerIdle, None)
    ensures ArmedSince(Step(c, e, input).log, |e.log|) ==>
              Step(c, e, input).idleCloseAt == Some(e.now + c.closeSeconds)
  {
    hide Engagement.Opportunity, MaySpeak;
    if input.TaskResumes? && e.task.Decider? {
      DecisionArmsExactly(c, e, input.outcome);
    } else if input.TaskResumes? {
      ClosingArmsNothing(c, e, input.outcome);
    }
  }

  lemma ClosingArmsNothing(c: Config, e: Engagement, o: Outcome)
    requires !e.task.Decider?
    ensures !ArmedSince(e.RunTask(c, o).log, |e.log|)
  {
    hide Engagement.CanCloseIdle;
  }

  lemma SafeExactly(e: Engagement, decided: nat, reason: Reason, attempt: Option<nat>)
    ensures e.Safe(decided, attempt, reason) <==> MaySpeak(e, decided, reason, attempt)
  {
  }

  lemma DecisionArmsExactly(c: Config, e: Engagement, o: Outcome)
    requires e.task.Decider?
    ensures ArmedSince(e.RunTask(c, o).log, |e.log|)
            <==> && e.task.reason.CallerIdle? && DecisionEnds(e.task.decider, o)
                 && c.pilot && e.quiet.Open? && MaySpeak(e, e.task.revision, CallerIdle, None)
    ensures ArmedSince(e.RunTask(c, o).log, |e.log|) ==> e.RunTask(c, o).idleCloseAt == Some(e.now + c.closeSeconds)
  {
    var decided := e.task.revision;
    SafeExactly(e, decided, e.task.reason, None);
    SafeExactly(e, decided, e.task.reason, e.task.attempt);
    hide Engagement.Safe;
    assert (e.log + [Armed(e.now)])[|e.log|].Armed?;
    assert MaySpeak(e, decided, CallerIdle, None) ==> e.revision == decided && !e.closed;
  }

  /** Something begins to be played exactly when its audio is there and it may be said: an update when
      the caller may be addressed, a stock phrase when the caller may be addressed on behalf of no
      attempt, and a goodbye when nobody is there. */
  lemma PlaysExactly(c: Config, e: Engagement, o: Outcome)
    requires !AtPlayback(e.task)
    ensures AtPlayback(e.RunTask(c, o).task)
            <==> o.ok && o.positive
                 && match e.task
                    case Decider(at, decided, reason, attempt) =>
                      || (at.Synthesis? && MaySpeak(e, decided, reason, attempt))
                      || (at.FallbackSynthesis? && MaySpeak(e, decided, reason, None))
                    case Closer(at, decided) => at.GoodbyeSynthesis? && decided == e.revision && NobodyThere(c, e)
                    case _ => false
  {
    if e.task.Decider? {
      SafeExactly(e, e.task.revision, e.task.reason, e.task.attempt);
      SafeExactly(e, e.task.revision, e.task.reason, None);
      hide Engagement.Safe;
    }
  }

  // ---------- when a decision starts ----------

  /** Nobody speaks or begins to, nothing is being heard, and the caller did not ask for silence. */
  ghost predicate Gap(e: Engagement) {
    && !e.closed && !e.quiet.UntilUser? && !e.pipe.candidate && !e.pipe.lockHeld && e.now >= e.audioUntil
    && (e.pipe.phase.Idle? || e.pipe.phase.Playing? || e.pipe.phase.Releasing? || e.pipe.phase.Other?)
  }

  ghost predicate Working(e: Engagement) {
    e.operation.Some? && e.operation.value.running
  }

  /** Nothing is under way, and no confirmation is awaited unless the pilot is on. */
  ghost predicate AtRest(c: Config, e: Engagement) {
    !Working(e) && e.pipe.attempt.None? && e.pipe.phase.Idle? && (e.pipe.awaitingConfirmation ==> c.pilot)
  }

  /** A result that was neither delivered nor considered since the last caller event. */
  ghost predicate HasNews(e: Engagement) {
    && e.operation.Some? && e.operation.value.hasResult && !e.operation.value.delivered
    && e.operation.value.considered != Some(e.revision)
  }

  ghost predicate StartsFor(c: Config, e: Engagement, reason: Reason) {
    match reason
    case ToolStarted => Working(e) && e.toolChecks == 0 < c.maxToolUpdates && OwnAttempt(e)
    case ToolWait => Working(e) && 0 < e.toolChecks < c.maxToolUpdates && OwnAttempt(e)
    case ToolCompleted => AtRest(c, e) && HasNews(e)
    case CallerIdle => AtRest(c, e) && !HasNews(e) && e.pipe.remembers && e.idleChecks < c.maxIdleUpdates
  }

  /** An attempt under way is the one that the running tool belongs to, and may go on. */
  ghost predicate OwnAttempt(e: Engagement) {
    e.operation.Some? && e.pipe.attempt.Some? ==>
      && e.pipe.attempt.value.id == e.operation.value.attempt
      && e.pipe.attempt.value.authorized && !e.pipe.attempt.value.cancelled
  }

  /** A poll starts the close when its time has come, and otherwise, once the time of the next check has
      come, a decision for exactly the reason there is; and it changes nothing else. */
  lemma PollStartsExactly(c: Config, e: Engagement, reason: Reason)
    requires e.task.NoTask? && !e.closed
    ensures var f := e.Poll(c);
            && f == e.(task := f.task)
            && (f.task.Closer? <==> e.idleCloseAt.Some? && e.now >= e.idleCloseAt.value)
            && (f.task.Closer? ==> f.task.closer.CloserCreated?)
            && (f.task.Decider? ==> f.task.decider.DeciderCreated?)
            && (f.task.Decider? && f.task.reason == reason
                <==> !f.task.Closer? && e.now >= e.nextCheck && Gap(e) && StartsFor(c, e, reason))
            && (f.task.Decider? && f.task.attempt.Some? ==>
                  e.pipe.attempt.Some? && f.task.attempt == Some(e.pipe.attempt.value.id))
            && (f.task.Decider? && f.task.attempt.None? ==> e.pipe.attempt.None?)
  {
  }

  /** While a task is under way, or after the close of the session, a poll does nothing. */
  lemma PollRests(c: Config, e: Engagement)
    requires !e.task.NoTask? || e.closed
    ensures e.Poll(c) == e
  {
  }

  // ---------- a silent call ----------

  /** The await brought nothing to say, and no stock phrase is at hand. */
  const SILENT := Outcome(true, false, false)

  /** Something is being played: the pipeline plays it as a turn of its own. */
  predicate AtPlayback(task: Task) {
    match task
    case Closer(at, _) => at.GoodbyePlayback?
    case Decider(at, _, _, _) => at.Playback? || at.FallbackPlayback?
    case _ => false
  }

  /** Nothing goes on in the pipeline, and there is something to remember. */
  predicate IdlePipe(pipe: Pipe) {
    && pipe.phase.Idle? && pipe.attempt.None? && !pipe.candidate && !pipe.lockHeld && !pipe.callEnding
    && !pipe.toolsInFlight && pipe.remembers
  }

  /** No audio came of a phrase, or it was not played to its end. */
  predicate Refused(task: Task, o: Outcome) {
    && o.ok && !o.positive
    && match task
       case Closer(at, _) => at.GoodbyePlayback?
       case Decider(at, _, _, _) => at.Synthesis? || at.Playback? || at.FallbackPlayback?
       case _ => false
  }

  /** The caller is silent and what is to be played is. The pipeline may do what it likes while
      something is played, and is idle again when that await resumes. */
  predicate SmoothStep(e: Engagement, input: Input) {
    match input
    case Wait(_) => true
    case LoopPolls => true
    case PlaybackBegins => true
    case PlaybackStops => true
    case AudioSent(_) => e.emitting
    case PipelineChanges(pipe) => AtPlayback(e.task) || IdlePipe(pipe)
    case TaskResumes(o) => !Refused(e.task, o) && (AtPlayback(e.task) ==> IdlePipe(e.pipe))
    case _ => false
  }

  ghost predicate Smooth(c: Config, e: Engagement, inputs: seq<Input>)
    decreases |inputs|
  {
    inputs != [] ==> SmoothStep(e, inputs[0]) && Smooth(c, Step(c, e, inputs[0]), inputs[1..])
  }

  /** No tool is running, and none has a result that is still to be told. */
  predicate NoNews(e: Engagement) {
    !e.ToolRunning()
    && (e.operation.Some? && e.operation.value.hasResult ==>
          e.operation.value.delivered || e.operation.value.considered == Some(e.revision))
  }

  /** What the one task may be in a silent call. */
  predicate SilentTask(e: Engagement) {
    match e.task
    case NoTask => true
    case Closer(at, decided) =>
      && !at.SendingHangup? && (at.CloserCreated? || decided == e.revision)
      && e.idleCloseAt.Some? && e.now >= e.idleCloseAt.value
    case Decider(at, decided, reason, attempt) =>
      && reason.CallerIdle? && attempt.None? && (at.DeciderCreated? || decided == e.revision)
      && (e.emitting || e.now >= e.audioUntil)
    case Cancelled(_) => false
  }

  /** A call in which the caller is silent: idle but for what the engagement itself does. */
  predicate Silent(c: Config, e: Engagement) {
    && c.pilot && !e.closed && e.quiet == Open && NoNews(e) && (AtPlayback(e.task) || IdlePipe(e.pipe))
    && SilentTask(e)
  }

  /** The turns the task has left at most, unless it is refused. */
  function TurnsLeft(task: Task): nat {
    match task
    case Closer(at, _) => if at.CloserCreated? then 3 else if at.GoodbyeSynthesis? then 2 else 1
    case Decider(at, _, _, _) =>
      if at.DeciderCreated? then 6 else if at.Thinking? then 5 else if at.Synthesis? then 4
      else if at.Playback? then 3 else if at.FallbackSynthesis? then 2 else 1
    case _ => 0
  }

  /** The event came after the first `from` events. */
  ghost predicate HungUpSince(log: seq<Event>, from: nat) {
    exists i :: from <= i < |log| && log[i].HungUp?
  }

  ghost predicate ArmedSince(log: seq<Event>, from: nat) {
    exists i :: from <= i < |log| && log[i].Armed?
  }

  lemma LogOnlyGrows(c: Config, e: Engagement, input: Input)
    ensures e.log <= Step(c, e, input).log
  {
    hide Engagement.RunTask, Engagement.Opportunity;
    if input.TaskResumes? { TaskLogGrows(c, e, input.outcome); }
  }

  lemma TaskLogGrows(c: Config, e: Engagement, o: Outcome)
    ensures e.log <= e.RunTask(c, o).log
  {
    hide Engagement.Safe, Engagement.CanCloseIdle, Engagement.RunDecider;
    if e.task.Decider? { DeciderLogGrows(c, e, o); }
  }

  lemma DeciderLogGrows(c: Config, e: Engagement, o: Outcome)
    requires e.task.Decider?
    ensures e.log <= e.RunDecider(c, e.task.decider, e.task.revision, e.task.reason, e.task.attempt, o).log
  {
    hide Engagement.Safe;
  }

  lemma {:induction false} RunLogGrows(c: Config, e: Engagement, inputs: seq<Input>)
    ensures e.log <= Run(c, e, inputs).log
    decreases |inputs|
  {
    hide Step;
    if inputs != [] {
      LogOnlyGrows(c, e, inputs[0]);
      RunLogGrows(c, Step(c, e, inputs[0]), inputs[1..]);
    }
  }

  lemma StillHungUp(log: seq<Event>, longer: seq<Event>, from: nat)
    requires HungUpSince(log, from) && log <= longer
    ensures HungUpSince(longer, from)
  {
    var i :| from <= i < |log| && log[i].HungUp?;
    assert longer[i].HungUp?;
  }

  lemma StillArmed(log: seq<Event>, longer: seq<Event>, from: nat)
    requires ArmedSince(log, from) && log <= longer
    ensures ArmedSince(longer, from)
  {
    var i :| from <= i < |log| && log[i].Armed?;
    assert longer[i].Armed?;
  }

  // ---------- one step of it ----------

  /** An idle decision is under way in a call in which it may be heard. */
  predicate Deciding(c: Config, e: Engagement) {
    && c.pilot && !e.closed && e.quiet == Open && e.task.Decider? && SilentTask(e)
    && (AtPlayback(e.task) || Addressable(e.pipe))
  }

  predicate Addressable(pipe: Pipe) {
    pipe.phase.Idle? && pipe.attempt.None? && !pipe.candidate
  }

  /** What a turn of the deciding task leaves as it was. */
  predicate SameCall(e: Engagement, f: Engagement) {
    && f.now == e.now && f.closed == e.closed && f.revision == e.revision && f.quiet == e.quiet
    && f.operation == e.operation && f.pipe == e.pipe
  }

  /** The decision goes on, with fewer turns left, or arms the closing time and ends. */
  predicate DecisionMoves(e: Engagement, f: Engagement)
    requires e.task.Decider?
  {
    && SameCall(e, f) && f.idleChecks == e.idleChecks + (if e.task.decider.DeciderCreated? then 1 else 0)
    && (if f.task.Decider? then
          SilentTask(f) && TurnsLeft(f.task) < TurnsLeft(e.task) && f.idleCloseAt == e.idleCloseAt
          && !f.task.decider.DeciderCreated?
        else
          f.task.NoTask? && f.idleCloseAt.Some?)
  }

  lemma DecidingTurn(c: Config, e: Engagement, o: Outcome)
    requires Deciding(c, e) && SmoothStep(e, TaskResumes(o))
    ensures var f := e.RunTask(c, o);
            DecisionMoves(e, f) && (f.task.NoTask? ==> ArmedSince(f.log, |e.log|))
  {
    hide Engagement.Arm, Engagement.Safe, Engagement.Fallback;
    var task := e.task;
    if !task.decider.DeciderCreated? {
      Arms(c, e, task.revision);
      FallsBack(c, e, o);
    }
  }

  /** Arming succeeds in such a call, and speaking is safe. */
  lemma Arms(c: Config, e: Engagement, decided: nat)
    requires Deciding(c, e) && Addressable(e.pipe) && decided == e.revision
    ensures var f := e.Arm(c, decided, CallerIdle);
            f == e.(idleCloseAt := Some(e.now + c.closeSeconds), log := e.log + [Armed(e.now)])
            && ArmedSince(f.log, |e.log|)
    ensures e.Safe(decided, None, CallerIdle)
  {
    assert (e.log + [Armed(e.now)])[|e.log|].Armed?;
  }

  /** After a failure the stock phrase is tried, or the closing time is armed at once. */
  lemma FallsBack(c: Config, e: Engagement, o: Outcome)
    requires Deciding(c, e) && Addressable(e.pipe) && e.task.revision == e.revision
    ensures var f := e.Fallback(c, e.task.revision, CallerIdle, None, o);
            if o.phrase then f == e.(task := Decider(FallbackSynthesis, e.task.revision, CallerIdle, None))
            else f == e.Arm(c, e.task.revision, CallerIdle).Cleanup(c, CallerIdle)
  {
    hide Engagement.Arm;
    Arms(c, e, e.task.revision);
  }

  lemma ClosingTurn(c: Config, e: Engagement, o: Outcome)
    requires Silent(c, e) && e.task.Closer? && SmoothStep(e, TaskResumes(o))
    ensures var f := e.RunTask(c, o);
            || HungUpSince(f.log, |e.log|)
            || (Silent(c, f) && f.task.Closer? && TurnsLeft(f.task) < TurnsLeft(e.task)
                && f.idleChecks == e.idleChecks && f.idleCloseAt == e.idleCloseAt && f.now == e.now)
  {
    var f := e.RunTask(c, o);
    if |f.log| > |e.log| { assert f.log[|e.log|].HungUp?; }
  }

  /** A poll may start something: the close when it is armed, and otherwise a decision. */
  predicate Ripe(e: Engagement) {
    if e.idleCloseAt.Some? then e.now >= e.idleCloseAt.value else e.now >= e.nextCheck && e.now >= e.audioUntil
  }

  /** Steps other than polls and turns leave the task and the closing time alone. */
  lemma OtherStep(c: Config, e: Engagement, input: Input)
    requires Silent(c, e) && SmoothStep(e, input) && !input.TaskResumes? && !input.LoopPolls?
    ensures var f := Step(c, e, input);
            Silent(c, f) && f.task == e.task && f.idleChecks == e.idleChecks && f.idleCloseAt == e.idleCloseAt
            && f.now >= e.now
  {
  }

  lemma PollStep(c: Config, e: Engagement)
    requires Silent(c, e)
    ensures var f := Step(c, e, LoopPolls);
            && Silent(c, f) && f.idleChecks == e.idleChecks && f.idleCloseAt == e.idleCloseAt && f.log == e.log
            && f.now == e.now && (!e.task.NoTask? ==> f == e)
            && (e.task.NoTask? && !f.task.NoTask? && !f.task.Closer? ==>
                  f.task.Decider? && f.task.decider.DeciderCreated? && e.idleChecks < c.maxIdleUpdates)
            && (e.task.NoTask? && e.idleCloseAt.Some? && e.now >= e.idleCloseAt.value ==> f.task.Closer?)
            && (e.task.NoTask? && e.idleCloseAt.None? && Ripe(e) && e.idleChecks < c.maxIdleUpdates ==> f.task.Decider?)
  {
  }

  // ---------- the closing time is armed, and kept ----------

  function Turns(inputs: seq<Input>): nat {
    if inputs == [] then 0 else (if inputs[0].TaskResumes? then 1 else 0) + Turns(inputs[1..])
  }

  lemma DecidingStep(c: Config, e: Engagement, input: Input)
    requires Deciding(c, e) && SmoothStep(e, input)
    ensures var f := Step(c, e, input);
            ArmedSince(f.log, |e.log|)
            || (Deciding(c, f) && TurnsLeft(f.task) <= TurnsLeft(e.task)
                && (input.TaskResumes? ==> TurnsLeft(f.task) < TurnsLeft(e.task)))
  {
    hide Engagement.RunTask, Engagement.Opportunity;
    if input.TaskResumes? { DecidingTurn(c, e, input.outcome); }
  }

  lemma {:induction false} DecidingRun(c: Config, e: Engagement, inputs: seq<Input>)
    requires Deciding(c, e) && Smooth(c, e, inputs)
    ensures var f := Run(c, e, inputs);
            ArmedSince(f.log, |e.log|) || (Deciding(c, f) && TurnsLeft(f.task) + Turns(inputs) <= TurnsLeft(e.task))
    decreases |inputs|
  {
    hide Deciding, SmoothStep, Step, TurnsLeft;
    if inputs != [] {
      var f := Step(c, e, inputs[0]);
      var log := Run(c, f, inputs[1..]).log;
      DecidingStep(c, e, inputs[0]);
      LogOnlyGrows(c, e, inputs[0]);
      RunLogGrows(c, f, inputs[1..]);
      if ArmedSince(f.log, |e.log|) {
        StillArmed(f.log, log, |e.log|);
      } else {
        DecidingRun(c, f, inputs[1..]);
        if ArmedSince(log, |f.log|) {
          var i :| |f.log| <= i < |log| && log[i].Armed?;
        }
      }
    }
  }

  /** When the loop finds the caller idle, every schedule in which the caller stays silent arms the
      closing time, as soon as the decision has had six turns, whatever it decides and whatever fails,
      unless what it says is not played. */
  lemma IdleDecisionArms(c: Config, e: Engagement, after: seq<Input>)
    requires c.pilot && e.quiet == Open && e.task.NoTask? && e.now >= e.nextCheck
    requires e.Opportunity(c) == Some((CallerIdle, None)) && !(e.idleCloseAt.Some? && e.now >= e.idleCloseAt.value)
    requires Smooth(c, Step(c, e, LoopPolls), after) && Turns(after) >= 6
    ensures ArmedSince(Run(c, e, [LoopPolls] + after).log, |e.log|)
  {
    hide Smooth, SmoothStep, TurnsLeft;
    assert ([LoopPolls] + after)[1..] == after;
    var f := Step(c, e, LoopPolls);
    assert Deciding(c, f) && f.log == e.log;
    DecidingRun(c, f, after);
    SomeTurns(f.task);
    SomeTurns(Run(c, f, after).task);
  }

  lemma SomeTurns(task: Task)
    ensures TurnsLeft(task) <= 6
    ensures task.Decider? || task.Closer? ==> TurnsLeft(task) > 0
    ensures task.Closer? ==> TurnsLeft(task) <= 3
  {
  }

  // ---------- the closing time is over ----------

  /** The closing time has passed in a silent call, and at most the closing task is under way. */
  predicate Ending(c: Config, e: Engagement) {
    Silent(c, e) && !e.task.Decider? && e.idleCloseAt.Some? && e.now >= e.idleCloseAt.value
  }

  lemma EndingStep(c: Config, e: Engagement, input: Input)
    requires Ending(c, e) && SmoothStep(e, input)
    ensures var f := Step(c, e, input);
            HungUpSince(f.log, |e.log|)
            || (Ending(c, f) && (e.task.Closer? || input.LoopPolls? ==> f.task.Closer?)
                && (e.task.Closer? ==> TurnsLeft(f.task) + Turns([input]) <= TurnsLeft(e.task)))
  {
    hide Engagement.RunTask, Engagement.Opportunity, Engagement.Poll, Silent, TurnsLeft;
    assert [input][1..] == [];
    if input.TaskResumes? {
      if e.task.Closer? { ClosingTurn(c, e, input.outcome); } else { NoTurn(c, e, input.outcome); }
    } else if input.LoopPolls? {
      PollStep(c, e);
      if !e.task.Closer? { NoTurn(c, e, SILENT); }
    } else {
      OtherStep(c, e, input);
    }
  }

  lemma NoTurn(c: Config, e: Engagement, o: Outcome)
    requires Silent(c, e) && !e.task.Decider? && !e.task.Closer?
    ensures e.task.NoTask? && e.RunTask(c, o) == e
  {
  }

  lemma {:induction false} EndingRun(c: Config, e: Engagement, inputs: seq<Input>)
    requires Ending(c, e) && Smooth(c, e, inputs)
    ensures var f := Run(c, e, inputs);
            HungUpSince(f.log, |e.log|)
            || (Ending(c, f) && (e.task.Closer? ==>
                  f.task.Closer? && TurnsLeft(f.task) + Turns(inputs) <= TurnsLeft(e.task)))
    decreases |inputs|
  {
    hide Ending, SmoothStep, Step, TurnsLeft;
    if inputs != [] {
      var f := Step(c, e, inputs[0]);
      var log := Run(c, f, inputs[1..]).log;
      EndingStep(c, e, inputs[0]);
      LogOnlyGrows(c, e, inputs[0]);
      RunLogGrows(c, f, inputs[1..]);
      assert Turns(inputs) == Turns([inputs[0]]) + Turns(inputs[1..]) by { assert [inputs[0]][1..] == []; }
      if HungUpSince(f.log, |e.log|) {
        StillHungUp(f.log, log, |e.log|);
      } else {
        EndingRun(c, f, inputs[1..]);
        Later(log, |e.log|, |f.log|);
      }
    }
  }

  lemma Later(log: seq<Event>, from: nat, to: nat)
    requires from <= to
    ensures HungUpSince(log, to) ==> HungUpSince(log, from)
  {
    if HungUpSince(log, to) {
      var i :| to <= i < |log| && log[i].HungUp?;
    }
  }

  lemma {:induction false} SmoothConcat(c: Config, e: Engagement, first: seq<Input>, second: seq<Input>)
    requires Smooth(c, e, first + second)
    ensures Smooth(c, e, first) && Smooth(c, Run(c, e, first), second)
    ensures Run(c, e, first + second) == Run(c, Run(c, e, first), second)
    decreases |first|
  {
    hide Step, SmoothStep;
    if first == [] {
      assert first + second == second;
    } else {
      assert (first + second)[1..] == first[1..] + second;
      SmoothConcat(c, Step(c, e, first[0]), first[1..], second);
    }
  }

  /** Once the closing time has passed in an idle call, every schedule in which the caller stays silent
      ends in a hang-up, as soon as the loop has polled once and the closing task has had three turns,
      unless the goodbye is not played. */
  lemma ArmedCallEnds(c: Config, e: Engagement, before: seq<Input>, after: seq<Input>)
    requires Ending(c, e) && Smooth(c, e, before + ([LoopPolls] + after)) && Turns(after) >= 3
    ensures HungUpSince(Run(c, e, before + ([LoopPolls] + after)).log, |e.log|)
  {
    hide Run, Smooth, Ending, SmoothStep, Step, TurnsLeft;
    var rest := [LoopPolls] + after;
    SmoothConcat(c, e, before, rest);
    var f := Run(c, e, before);
    RunLogGrows(c, e, before);
    RunLogGrows(c, f, rest);
    EndingRun(c, e, before);
    if HungUpSince(f.log, |e.log|) {
      StillHungUp(f.log, Run(c, f, rest).log, |e.log|);
    } else {
      PolledCallEnds(c, f, after);
      Later(Run(c, f, rest).log, |e.log|, |f.log|);
    }
  }

  lemma PolledCallEnds(c: Config, e: Engagement, after: seq<Input>)
    requires Ending(c, e) && Smooth(c, e, [LoopPolls] + after) && Turns(after) >= 3
    ensures HungUpSince(Run(c, e, [LoopPolls] + after).log, |e.log|)
  {
    hide Ending, SmoothStep, Step, TurnsLeft;
    assert ([LoopPolls] + after)[1..] == after;
    var f := Step(c, e, LoopPolls);
    EndingStep(c, e, LoopPolls);
    LogOnlyGrows(c, e, LoopPolls);
    var g := Run(c, f, after);
    RunLogGrows(c, f, after);
    if HungUpSince(f.log, |e.log|) {
      StillHungUp(f.log, g.log, |e.log|);
    } else {
      EndingRun(c, f, after);
      SomeTurns(f.task);
      SomeTurns(g.task);
      Later(g.log, |e.log|, |f.log|);
    }
  }

  // ---------- from the decision to the hang-up ----------

  /** A started decision that counts as made. */
  function Made(task: Task): nat {
    if task.Decider? && !task.decider.DeciderCreated? then 1 else 0
  }

  /** Idle decisions that may still be started. */
  function DecisionsLeft(c: Config, e: Engagement): nat {
    if e.idleChecks < c.maxIdleUpdates then c.maxIdleUpdates - e.idleChecks else 0
  }

  /** The close is armed, or a decision that will arm it is under way or may be started. */
  predicate Hopeful(c: Config, e: Engagement) {
    && (e.idleCloseAt.Some? || DecisionsLeft(c, e) > 0 || Made(e.task) > 0)
    && (e.task.Decider? && e.task.decider.DeciderCreated? ==> DecisionsLeft(c, e) > 0)
  }

  /** Rounds of the loop that are needed at most: one for each decision, and one for the close. */
  function RoundsNeeded(c: Config, e: Engagement): nat {
    DecisionsLeft(c, e) + Made(e.task) + 1
  }

  /** A round is a poll when something may be started, and six turns of the task after it. */
  function Owed(e: Engagement, input: Input, owed: nat): nat {
    if input.LoopPolls? && owed == 0 && Ripe(e) then 6
    else if input.TaskResumes? && owed > 0 then owed - 1 else owed
  }

  function Completes(input: Input, owed: nat): nat {
    if input.TaskResumes? && owed == 1 then 1 else 0
  }

  ghost function Rounds(c: Config, e: Engagement, inputs: seq<Input>, owed: nat): nat
    decreases |inputs|
  {
    if inputs == [] then 0
    else Completes(inputs[0], owed) + Rounds(c, Step(c, e, inputs[0]), inputs[1..], Owed(e, inputs[0], owed))
  }

  /** Rounds to come, the one under way included unless it can end what is under way. */
  function RoundsToCome(c: Config, e: Engagement, owed: nat): nat {
    RoundsNeeded(c, e) + if owed > 0 && !(0 < TurnsLeft(e.task) <= owed) then 1 else 0
  }

  lemma RoundStep(c: Config, e: Engagement, input: Input, owed: nat)
    requires Silent(c, e) && Hopeful(c, e) && SmoothStep(e, input) && owed <= 6
    ensures var f := Step(c, e, input);
            HungUpSince(f.log, |e.log|)
            || (Silent(c, f) && Hopeful(c, f) && Owed(e, input, owed) <= 6
                && RoundsToCome(c, f, Owed(e, input, owed)) + Completes(input, owed) <= RoundsToCome(c, e, owed))
  {
    hide Engagement.RunTask, Engagement.Opportunity, Engagement.Poll, Silent, TurnsLeft, Ripe;
    SomeTurns(e.task);
    SomeTurns(Step(c, e, input).task);
    if input.TaskResumes? {
      RoundTurn(c, e, input.outcome, owed);
    } else if input.LoopPolls? {
      RoundPoll(c, e, owed);
    } else {
      OtherStep(c, e, input);
    }
  }

  lemma RoundPoll(c: Config, e: Engagement, owed: nat)
    requires Silent(c, e) && Hopeful(c, e) && owed <= 6
    ensures var f := e.Poll(c);
            Silent(c, f) && Hopeful(c, f)
            && RoundsToCome(c, f, Owed(e, LoopPolls, owed)) <= RoundsToCome(c, e, owed)
  {
    hide Engagement.Opportunity, Engagement.Poll, Silent;
    PollStep(c, e);
    TaskKinds(c, e);
    TaskKinds(c, e.Poll(c));
  }

  lemma TaskKinds(c: Config, e: Engagement)
    requires Silent(c, e)
    ensures !e.task.Cancelled? && (e.task.Closer? ==> e.idleCloseAt.Some?)
  {
  }

  lemma RoundTurn(c: Config, e: Engagement, o: Outcome, owed: nat)
    requires Silent(c, e) && Hopeful(c, e) && SmoothStep(e, TaskResumes(o)) && owed <= 6
    ensures var f, left := e.RunTask(c, o), Owed(e, TaskResumes(o), owed);
            HungUpSince(f.log, |e.log|)
            || (Silent(c, f) && Hopeful(c, f)
                && RoundsToCome(c, f, left) + Completes(TaskResumes(o), owed) <= RoundsToCome(c, e, owed))
  {
    hide Engagement.RunTask, Silent, SmoothStep;
    TaskKinds(c, e);
    if e.task.Decider? {
      StaysSilent(c, e, o);
    } else if e.task.Closer? {
      ClosingTurn(c, e, o);
    } else {
      NoTurn(c, e, o);
    }
  }

  lemma StaysSilent(c: Config, e: Engagement, o: Outcome)
    requires Silent(c, e) && e.task.Decider? && SmoothStep(e, TaskResumes(o))
    ensures Silent(c, e.RunTask(c, o)) && DecisionMoves(e, e.RunTask(c, o))
  {
    hide Engagement.RunTask;
    DecidingTurn(c, e, o);
  }

  lemma {:induction false} RoundsRun(c: Config, e: Engagement, inputs: seq<Input>, owed: nat)
    requires Silent(c, e) && Hopeful(c, e) && Smooth(c, e, inputs) && owed <= 6
    ensures HungUpSince(Run(c, e, inputs).log, |e.log|) || Rounds(c, e, inputs, owed) < RoundsToCome(c, e, owed)
    decreases |inputs|
  {
    hide Silent, Hopeful, SmoothStep, Step, RoundsNeeded, TurnsLeft, Owed, Completes;
    if inputs != [] {
      var f := Step(c, e, inputs[0]);
      var log := Run(c, f, inputs[1..]).log;
      RoundStep(c, e, inputs[0], owed);
      LogOnlyGrows(c, e, inputs[0]);
      RunLogGrows(c, f, inputs[1..]);
      if HungUpSince(f.log, |e.log|) {
        StillHungUp(f.log, log, |e.log|);
      } else {
        RoundsRun(c, f, inputs[1..], Owed(e, inputs[0], owed));
        Later(log, |e.log|, |f.log|);
      }
    } else {
      SomeRound(c, e);
    }
  }

  lemma SomeRound(c: Config, e: Engagement)
    ensures RoundsNeeded(c, e) > 0
  {
  }

  /** A caller who stays silent is hung up on under every schedule, after one round of the loop for each
      idle decision that may still be made or is being made and one for the close, unless something
      is not played. */
  lemma SilentCallEnds(c: Config, e: Engagement, inputs: seq<Input>)
    requires Silent(c, e) && Hopeful(c, e) && Smooth(c, e, inputs)
    requires Rounds(c, e, inputs, 0) >= RoundsNeeded(c, e)
    ensures HungUpSince(Run(c, e, inputs).log, |e.log|)
  {
    hide Silent, Hopeful, Smooth, Run, Rounds, RoundsNeeded;
    RoundsRun(c, e, inputs, 0);
  }

  // ---------- a check-in that is still playing ----------

  /** A check-in that was heard arms the closing time if and only if the pipeline is done with it when
      the await for its playback returns, which it is not where sending does not wait for the playback. */
  lemma HeardCheckInArmsExactly(c: Config, e: Engagement, o: Outcome)
    requires Deciding(c, e) && AtPlayback(e.task) && o.ok && o.positive
    ensures e.RunTask(c, o).log
            == if e.pipe.attempt.None? && !e.pipe.candidate && e.pipe.phase in {Idle, Playing, Releasing}
               then e.log + [Armed(e.now)] else e.log
  {
  }

  const HEARD := Outcome(true, true, true)

  /** Three turns from the decision to the playback. */
  const SPEAKS: seq<Input> := [TaskResumes(HEARD), TaskResumes(HEARD), TaskResumes(HEARD)]

  /** What is said is played: its turn of the pipeline begins and ends, and then the await returns. */
  function PlayedTurn(idle: Pipe, playing: Pipe): seq<Input> {
    [PipelineChanges(playing), PlaybackBegins, AudioSent(1.0), PlaybackStops, PipelineChanges(idle), TaskResumes(HEARD)]
  }

  /** A check-in that is played makes a schedule of the kind above, whatever the pipeline goes through,
      and arms the closing time. */
  lemma PlayedCheckInArms(c: Config, e: Engagement, playing: Pipe)
    requires Silent(c, e) && e.task.Decider? && e.task.decider.DeciderCreated?
    ensures Smooth(c, e, SPEAKS + PlayedTurn(e.pipe, playing))
    ensures Run(c, e, SPEAKS + PlayedTurn(e.pipe, playing)).idleCloseAt == Some(e.now + c.closeSeconds)
  {
    hide Silent, Smooth, Run, Deciding;
    CheckInSpeaks(c, e);
    PlayedTurnArms(c, Run(c, e, SPEAKS), playing);
    SmoothJoin(c, e, SPEAKS, PlayedTurn(e.pipe, playing));
  }

  lemma CheckInSpeaks(c: Config, e: Engagement)
    requires Silent(c, e) && e.task.Decider? && e.task.decider.DeciderCreated?
    ensures var f := Run(c, e, SPEAKS);
            Smooth(c, e, SPEAKS) && Deciding(c, f) && f.task.decider.Playback? && f.pipe == e.pipe && f.now == e.now
            && IdlePipe(f.pipe)
  {
    hide Engagement.Arm, Engagement.Safe, Engagement.Fallback, Engagement.Cleanup, Smooth, Run;
    var s1 := Step(c, e, SPEAKS[0]);
    var s2 := Step(c, s1, SPEAKS[1]);
    assert s2.Safe(s2.task.revision, None, CallerIdle) by { Arms(c, s2, s2.task.revision); }
    var states := [e, s1, s2, Step(c, s2, SPEAKS[2])];
    RunThrough(c, states, SPEAKS);
    SmoothThrough(c, states, SPEAKS);
  }

  lemma PlayedTurnArms(c: Config, e: Engagement, playing: Pipe)
    requires Deciding(c, e) && e.task.decider.Playback? && IdlePipe(e.pipe)
    ensures Smooth(c, e, PlayedTurn(e.pipe, playing))
    ensures Run(c, e, PlayedTurn(e.pipe, playing)).idleCloseAt == Some(e.now + c.closeSeconds)
  {
    hide Engagement.Arm, Smooth, Run;
    var inputs := PlayedTurn(e.pipe, playing);
    var s1 := Step(c, e, inputs[0]);
    var s2 := Step(c, s1, inputs[1]);
    var s3 := Step(c, s2, inputs[2]);
    var s4 := Step(c, s3, inputs[3]);
    var s5 := Step(c, s4, inputs[4]);
    Arms(c, s5, s5.task.revision);
    var states := [e, s1, s2, s3, s4, s5, Step(c, s5, inputs[5])];
    RunThrough(c, states, inputs);
    SmoothThrough(c, states, inputs);
  }

  /** Smooth steps retold state by state. */
  lemma {:induction false} SmoothThrough(c: Config, states: seq<Engagement>, inputs: seq<Input>)
    requires |states| == |inputs| + 1
    requires forall i :: 0 <= i < |inputs| ==>
               SmoothStep(states[i], inputs[i]) && Step(c, states[i], inputs[i]) == states[i + 1]
    ensures Smooth(c, states[0], inputs)
    decreases |inputs|
  {
    hide Step, SmoothStep;
    if inputs != [] {
      SmoothThrough(c, states[1..], inputs[1..]);
    }
  }

  lemma {:induction false} SmoothJoin(c: Config, e: Engagement, first: seq<Input>, second: seq<Input>)
    requires Smooth(c, e, first) && Smooth(c, Run(c, e, first), second)
    ensures Smooth(c, e, first + second) && Run(c, e, first + second) == Run(c, Run(c, e, first), second)
    decreases |first|
  {
    hide Step, SmoothStep;
    if first == [] {
      assert first + second == second;
    } else {
      assert (first + second)[1..] == first[1..] + second;
      SmoothJoin(c, Step(c, e, first[0]), first[1..], second);
    }
  }

  // ---------- two schedules ----------

  /** A silent decision arms the closing time. */
  lemma SilentDecisionArms(c: Config, e: Engagement)
    requires c.pilot && e.quiet == Open && e.task.NoTask? && e.now >= e.nextCheck
    requires e.Opportunity(c) == Some((CallerIdle, None)) && !(e.idleCloseAt.Some? && e.now >= e.idleCloseAt.value)
    ensures var armed := Step(c, Step(c, Step(c, e, LoopPolls), TaskResumes(SILENT)), TaskResumes(SILENT));
            && armed.idleCloseAt == Some(e.now + c.closeSeconds) && armed.task.NoTask?
            && armed == e.(idleCloseAt := armed.idleCloseAt, nextCheck := armed.nextCheck, emitting := false,
                           idleChecks := armed.idleChecks, log := e.log + [IdleDecision(e.now)] + [Armed(e.now)])
  {
    hide Engagement.Opportunity;
    assert Addressable(e.pipe) && !e.closed && e.now >= e.audioUntil by { Opportune(c, e); }
  }

  /** What an idle opportunity says of the call. */
  lemma Opportune(c: Config, e: Engagement)
    requires e.Opportunity(c) == Some((CallerIdle, None))
    ensures Addressable(e.pipe) && !e.pipe.lockHeld && e.pipe.remembers && !e.closed && e.now >= e.audioUntil
    ensures NoNews(e) && e.idleChecks < c.maxIdleUpdates
  {
  }

  /** When the closing time has passed and nothing changed, the call is hung up. */
  lemma ArmedCloseHangsUp(c: Config, e: Engagement)
    requires c.pilot && e.task.NoTask? && !e.closed && e.idleCloseAt.Some? && e.now >= e.idleCloseAt.value
    requires e.CanCloseIdle(c, e.revision)
    ensures Step(c, Step(c, e, LoopPolls), TaskResumes(SILENT)).log == e.log + [HungUp(e.now)]
  {
  }

  /** An idle caller who stays silent for the closing time is hung up on, at once when it is over. */
  lemma SilenceEndsTheCall(c: Config, e: Engagement)
    requires Silent(c, e) && e.task.NoTask? && e.idleCloseAt.None? && e.now >= e.nextCheck && c.closeSeconds > 0.0
    requires e.Opportunity(c) == Some((CallerIdle, None))
    ensures var inputs := [LoopPolls, TaskResumes(SILENT), TaskResumes(SILENT), Wait(c.closeSeconds), LoopPolls,
                           TaskResumes(SILENT)];
            Run(c, e, inputs).log ==
            e.log + [IdleDecision(e.now)] + [Armed(e.now)] + [HungUp(e.now + c.closeSeconds)]
  {
    hide Step, Engagement.CanCloseIdle, Engagement.Opportunity;
    var s1 := Step(c, e, LoopPolls);
    var s2 := Step(c, s1, TaskResumes(SILENT));
    var armed := Step(c, s2, TaskResumes(SILENT));
    SilentDecisionArms(c, e);
    var late := Step(c, armed, Wait(c.closeSeconds));
    WaitOnly(c, armed, c.closeSeconds);
    assert late.CanCloseIdle(c, late.revision) by { MayClose(c, late); }
    ArmedCloseHangsUp(c, late);
    var s5 := Step(c, late, LoopPolls);
    RunThrough(c, [e, s1, s2, armed, late, s5, Step(c, s5, TaskResumes(SILENT))],
               [LoopPolls, TaskResumes(SILENT), TaskResumes(SILENT), Wait(c.closeSeconds), LoopPolls,
                TaskResumes(SILENT)]);
  }

  lemma WaitOnly(c: Config, e: Engagement, seconds: real)
    requires seconds > 0.0
    ensures Step(c, e, Wait(seconds)) == e.(now := e.now + seconds)
  {
  }

  lemma MayClose(c: Config, e: Engagement)
    requires c.pilot && !e.closed && e.quiet == Open && NoNews(e) && IdlePipe(e.pipe)
    ensures e.CanCloseIdle(c, e.revision)
  {
  }

  /** A run retold state by state. */
  lemma {:induction false} RunThrough(c: Config, states: seq<Engagement>, inputs: seq<Input>)
    requires |states| == |inputs| + 1
    requires forall i :: 0 <= i < |inputs| ==> Step(c, states[i], inputs[i]) == states[i + 1]
    ensures Run(c, states[0], inputs) == states[|inputs|]
    decreases |inputs|
  {
    hide Step;
    if inputs != [] {
      RunThrough(c, states[1..], inputs[1..]);
    }
  }
}
