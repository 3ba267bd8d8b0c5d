/** Banking calls dispatched one at a time: prepare a preview, have it confirmed, execute it once.
    Code between two awaits is one step; anything may happen at an await. */
module BankDispatch {

  import opened Runs
  import opened Wrappers

  datatype Tool = Prepare(kind: string) | ExecutePrepared | Query(kind: string)
  datatype Call = Call(tool: Tool, operationId: string, arguments: string)

  /** How a call ended, as far as the dispatcher distinguishes. */
  datatype Result = Unknown | Interrupted | Known

  datatype FlightAt = Queued | Announcing | Authorizing | Posting | Reporting(pending: Result) | Ended(result: Result)

  /** One invocation of a banking call, with the operation the caller confirmed, and how long the log
      was when the call passed its checks. */
  datatype Flight = Flight(call: Call, confirmed: string, at: FlightAt, checked: nat)
  {
    predicate Running() {
      !at.Ended?
    }

    /** An execution that passed its checks and is about to post. */
    predicate Executing() {
      at.Authorizing? && call.tool.ExecutePrepared?
    }
  }

  datatype Event =
    | Started(call: Call)
    | PreviewAccepted(operationId: string)
    | ExecutePosted(operationId: string, confirmed: string, checked: nat)
    | OutcomeUnknown
  {
    /** A preview is replaced by a newer one, or used up. */
    predicate Supersedes() {
      PreviewAccepted? || ExecutePosted?
    }
  }

  /** All invocations so far, the operation the engagement remembers, and the preview held. */
  datatype Bank = Bank(flights: seq<Flight>, slot: Option<nat>, prepared: Option<string>, log: seq<Event>)
  {
    function Logged(event: Event): Bank {
      this.(log := log + [event])
    }

    function Move(i: nat, at: FlightAt): Bank
      requires i < |flights|
    {
      this.(flights := flights[i := flights[i].(at := at)])
    }

    function End(i: nat, result: Result): Bank
      requires i < |flights|
    {
      var b := Move(i, Ended(result));
      if result.Unknown? then b.Logged(OutcomeUnknown) else b
    }

    function Launch(call: Call, confirmed: string): Bank {
      this.(flights := flights + [Flight(call, confirmed, Queued, 0)])
    }

    /** `run_tool`: never a second operation while one is unresolved, none after an unknown outcome. */
    function Dispatch(call: Call, confirmed: string): Bank {
      if slot.Some? && slot.value < |flights|
         && (flights[slot.value].at == Ended(Unknown) || flights[slot.value].Running())
      then this
      else Launch(call, confirmed).(slot := Some(|flights|))
    }

    function Pass(i: nat): Bank
      requires i < |flights|
    {
      this.(flights := flights[i := flights[i].(at := Authorizing, checked := |log|)])
    }

    /** The first part of a call, up to its authorization. */
    function Check(i: nat, o: Outcome): Bank
      requires i < |flights| && o.Returned?
    {
      var flight := flights[i];
      if !o.enabled then Move(i, Reporting(Known))
      else
        var b := if flight.call.tool.Prepare? then this.(prepared := None) else this;
        if !o.validArguments then b.Move(i, Reporting(Known))
        else if flight.call.tool.ExecutePrepared?
                && (prepared != Some(flight.call.operationId) || flight.confirmed != flight.call.operationId)
        then b.Move(i, Reporting(Known))
        else b.Pass(i)
    }

    /** The request itself: executing gives up the preview in the step that posts. */
    function Post(i: nat): Bank
      requires i < |flights|
    {
      var flight := flights[i];
      if flight.call.tool.ExecutePrepared?
      then this.(prepared := None).Move(i, Posting)
               .Logged(ExecutePosted(flight.call.operationId, flight.confirmed, flight.checked))
      else Move(i, Posting)
    }

    function Answer(i: nat, o: Outcome): Bank
      requires i < |flights| && o.Returned?
    {
      var b := Move(i, Reporting(o.body));
      if flights[i].call.tool.Prepare? && o.preview.Some?
      then b.(prepared := Some(o.preview.value)).Logged(PreviewAccepted(o.preview.value))
      else b
    }

    /** The next stretch of an invocation, up to its next await. */
    function Resume(i: nat, o: Outcome): Bank
      requires i < |flights|
    {
      match flights[i].at
      case Queued => Move(i, Announcing).Logged(Started(flights[i].call))
      case Announcing => if o.Raised? then End(i, Unknown) else Check(i, o)
      case Authorizing =>
        if o.Raised? then (if o.expected then Move(i, Reporting(Known)) else End(i, Unknown))
        else if !o.authorized then Move(i, Reporting(Known))
        else Post(i)
      case Posting =>
        if o.Raised? then (if o.expected then Move(i, Reporting(Known)) else End(i, Unknown)) else Answer(i, o)
      case Reporting(pending) => if o.Raised? then End(i, Unknown) else End(i, pending)
      case Ended(_) => this
    }
  }

  /** How an await ended. `expected` exceptions are reported as failures, others leave the outcome
      unknown; `preview` is the operation id of a well-formed prepared preview. */
  datatype Outcome =
    | Raised(expected: bool)
    | Returned(enabled: bool, validArguments: bool, authorized: bool, body: Result, preview: Option<string>)

  datatype Input =
    | ToolCalled(call: Call, confirmed: string)
    | FlightResumes(flight: nat, outcome: Outcome)
    | FlightCancelled(flight: nat)
    | PreviewDropped
    | CalledDirectly(call: Call, confirmed: string)

  function Step(b: Bank, input: Input): Bank {
    match input
    case ToolCalled(call, confirmed) => b.Dispatch(call, confirmed)
    case FlightResumes(i, o) => if i < |b.flights| then b.Resume(i, o) else b
    case FlightCancelled(i) => if i < |b.flights| && b.flights[i].Running() then b.End(i, Interrupted) else b
    case PreviewDropped => b.(prepared := None)
    case CalledDirectly(call, confirmed) => b.Launch(call, confirmed)
  }

  function Run(b: Bank, inputs: seq<Input>): Bank
    decreases |inputs|
  {
    if inputs == [] then b else Run(Step(b, inputs[0]), inputs[1..])
  }

  const START := Bank([], None, None, [])

  // ---------- reading the log ----------

  /** The latest accepted preview, if no execution was posted after it. */
  function FreshPreview(log: seq<Event>): Option<string> {
    if log == [] then None
    else
      match log[|log| - 1]
      case PreviewAccepted(id) => Some(id)
      case ExecutePosted(_, _, _) => None
      case _ => FreshPreview(log[..|log| - 1])
  }

  /** Each execution posts the confirmed id of the latest preview, accepted after the previous post. */
  ghost predicate PostsFresh(log: seq<Event>) {
    forall i :: 0 <= i < |log| && log[i].ExecutePosted? ==>
      log[i].confirmed == log[i].operationId && FreshPreview(log[..i]) == Some(log[i].operationId)
  }

  ghost predicate NoStartAfterUnknown(log: seq<Event>) {
    forall i, j :: 0 <= i < j < |log| && log[i].OutcomeUnknown? ==> !log[j].Started?
  }

  ghost predicate SingleFlight(b: Bank) {
    forall i, j :: 0 <= i < j < |b.flights| ==> !(b.flights[i].Running() && b.flights[j].Running())
  }

  ghost predicate HasUnknown(log: seq<Event>) {
    exists i :: 0 <= i < |log| && log[i].OutcomeUnknown?
  }

  // ---------- the invariant ----------

  ghost predicate Inv(b: Bank) {
    var n := |b.flights|;
    && b.slot == (if n == 0 then None else Some(n - 1))
    && (forall i :: 0 <= i < n - 1 ==> !b.flights[i].Running())
    && (b.prepared.Some? ==> FreshPreview(b.log) == b.prepared)
    && (n > 0 && b.flights[n - 1].at.Authorizing? && b.flights[n - 1].call.tool.ExecutePrepared? ==>
          b.flights[n - 1].confirmed == b.flights[n - 1].call.operationId
          && FreshPreview(b.log) == Some(b.flights[n - 1].call.operationId))
    && (HasUnknown(b.log) ==> n > 0 && b.flights[n - 1].at == Ended(Unknown))
    && PostsFresh(b.log)
    && NoStartAfterUnknown(b.log)
  }

  lemma LogGrows(log: seq<Event>, event: Event)
    requires PostsFresh(log) && NoStartAfterUnknown(log)
    requires event.Started? ==> !HasUnknown(log)
    requires event.ExecutePosted? ==>
               event.confirmed == event.operationId && FreshPreview(log) == Some(event.operationId)
    ensures PostsFresh(log + [event]) && NoStartAfterUnknown(log + [event])
    ensures HasUnknown(log + [event]) <==> HasUnknown(log) || event.OutcomeUnknown?
    ensures FreshPreview(log + [event]) == if event.PreviewAccepted? then Some(event.operationId)
                                           else if event.ExecutePosted? then None else FreshPreview(log)
  {
    var longer := log + [event];
    assert longer[..|log|] == log;
    forall i | 0 <= i < |longer| && longer[i].ExecutePosted?
      ensures longer[i].confirmed == longer[i].operationId && FreshPreview(longer[..i]) == Some(longer[i].operationId)
    {
      assert longer[..i] == log[..i];
    }
    if HasUnknown(log) {
      var i :| 0 <= i < |log| && log[i].OutcomeUnknown?;
      assert longer[i].OutcomeUnknown?;
    }
    if event.OutcomeUnknown? { assert longer[|log|].OutcomeUnknown?; }
  }

  lemma EndKeeps(b: Bank, i: nat, result: Result)
    requires Inv(b) && i < |b.flights| && b.flights[i].Running()
    ensures Inv(b.End(i, result))
  {
    hide PostsFresh, NoStartAfterUnknown, HasUnknown, FreshPreview;
    LogGrows(b.log, OutcomeUnknown);
  }

  lemma ResumeKeeps(b: Bank, i: nat, o: Outcome)
    requires Inv(b) && i < |b.flights| && b.flights[i].Running()
    ensures Inv(b.Resume(i, o))
  {
    hide PostsFresh, NoStartAfterUnknown, HasUnknown, FreshPreview, Bank.End;
    var flight := b.flights[i];
    EndKeeps(b, i, Unknown);
    match flight.at
    case Queued => LogGrows(b.log, Started(flight.call));
    case Announcing =>
    case Authorizing =>
      if flight.call.tool.ExecutePrepared? {
        LogGrows(b.log, ExecutePosted(flight.call.operationId, flight.confirmed, flight.checked));
      }
    case Posting =>
      if o.Returned? && o.preview.Some? { LogGrows(b.log, PreviewAccepted(o.preview.value)); }
    case Reporting(pending) => EndKeeps(b, i, pending);
  }

  lemma StepKeeps(b: Bank, input: Input)
    requires Inv(b) && !input.CalledDirectly?
    ensures Inv(Step(b, input))
  {
    hide PostsFresh, NoStartAfterUnknown, HasUnknown, FreshPreview, Bank.Resume, Bank.End;
    match input
    case FlightResumes(i, o) =>
      if i < |b.flights| {
        if b.flights[i].Running() { ResumeKeeps(b, i, o); } else { EndedStays(b, i, o); }
      }
    case FlightCancelled(i) => if i < |b.flights| && b.flights[i].Running() { EndKeeps(b, i, Interrupted); }
    case _ =>
  }

  lemma EndedStays(b: Bank, i: nat, o: Outcome)
    requires i < |b.flights| && !b.flights[i].Running()
    ensures b.Resume(i, o) == b
  {
  }

  lemma {:induction false} RunKeeps(b: Bank, inputs: seq<Input>)
    requires Inv(b) && forall i :: 0 <= i < |inputs| ==> !inputs[i].CalledDirectly?
    ensures Inv(Run(b, inputs))
    decreases |inputs|
  {
    hide Inv;
    if inputs != [] {
      StepKeeps(b, inputs[0]);
      RunKeeps(Step(b, inputs[0]), inputs[1..]);
    }
  }

  /** When every call is dispatched through the engagement: at most one is in flight, none starts
      after an unknown outcome, and every execution posts the confirmed id of the latest preview,
      which was accepted after the execution before it. */
  lemma DispatchIsSafe(inputs: seq<Input>)
    requires forall i :: 0 <= i < |inputs| ==> !inputs[i].CalledDirectly?
    ensures var b := Run(START, inputs);
            SingleFlight(b) && NoStartAfterUnknown(b.log) && PostsFresh(b.log)
  {
    RunKeeps(START, inputs);
  }

  // ---------- calls outside the dispatcher ----------

  /** Between the checks of this execution and its post another one posted or a preview was accepted. */
  ghost predicate Overtaken(log: seq<Event>, j: nat)
    requires j < |log| && log[j].ExecutePosted?
  {
    exists i :: log[j].checked <= i < j && log[i].Supersedes()
  }

  ghost predicate NoneOvertaken(log: seq<Event>) {
    forall j :: 0 <= j < |log| && log[j].ExecutePosted? ==> !Overtaken(log, j)
  }

  /** The bank never gives two previews the same id. */
  ghost predicate DistinctPreviews(log: seq<Event>) {
    forall i, j :: 0 <= i < j < |log| && log[i].PreviewAccepted? && log[j].PreviewAccepted? ==>
      log[i].operationId != log[j].operationId
  }

  /** When an execution passed its checks it was confirmed and its preview fresh. */
  ghost predicate PassedFresh(log: seq<Event>, checked: nat, operationId: string, confirmed: string) {
    checked <= |log| && confirmed == operationId && FreshPreview(log[..checked]) == Some(operationId)
  }

  ghost predicate FlightPassed(log: seq<Event>, flight: Flight) {
    flight.Executing() ==> PassedFresh(log, flight.checked, flight.call.operationId, flight.confirmed)
  }

  ghost predicate PostPassed(log: seq<Event>, j: nat)
    requires j < |log|
  {
    log[j].ExecutePosted? ==> PassedFresh(log[..j], log[j].checked, log[j].operationId, log[j].confirmed)
  }

  /** Of all runs, with calls dispatched or made directly. */
  ghost predicate AnyInv(b: Bank) {
    && (b.prepared.Some? ==> FreshPreview(b.log) == b.prepared)
    && (forall i :: 0 <= i < |b.flights| ==> FlightPassed(b.log, b.flights[i]))
    && (forall j :: 0 <= j < |b.log| ==> PostPassed(b.log, j))
  }

  lemma PassedStays(log: seq<Event>, more: seq<Event>, checked: nat, operationId: string, confirmed: string)
    requires PassedFresh(log, checked, operationId, confirmed)
    ensures PassedFresh(log + more, checked, operationId, confirmed)
  {
    assert (log + more)[..checked] == log[..checked];
  }

  /** A step only appends to the log and moves one flight. */
  lemma AnyLogged(b: Bank, c: Bank, event: Event)
    requires AnyInv(b) && c.log == b.log + [event]
    requires forall i :: 0 <= i < |c.flights| ==> FlightPassed(b.log, c.flights[i])
    requires c.prepared.Some? ==> FreshPreview(c.log) == c.prepared
    requires event.ExecutePosted? ==> PassedFresh(b.log, event.checked, event.operationId, event.confirmed)
    ensures AnyInv(c)
  {
    hide PassedFresh, FreshPreview;
    forall i | 0 <= i < |c.flights| ensures FlightPassed(c.log, c.flights[i]) {
      var f := c.flights[i];
      if f.Executing() { PassedStays(b.log, [event], f.checked, f.call.operationId, f.confirmed); }
    }
    forall j | 0 <= j < |c.log| ensures PostPassed(c.log, j) {
      assert c.log[..j] == if j < |b.log| then b.log[..j] else b.log;
      if j < |b.log| { assert PostPassed(b.log, j); }
    }
  }

  lemma FreshAfter(log: seq<Event>, event: Event)
    ensures FreshPreview(log + [event]) == if event.PreviewAccepted? then Some(event.operationId)
                                           else if event.ExecutePosted? then None else FreshPreview(log)
  {
    assert (log + [event])[..|log|] == log;
  }

  lemma EndAny(b: Bank, i: nat, result: Result)
    requires AnyInv(b) && i < |b.flights|
    ensures AnyInv(b.End(i, result))
  {
    hide FreshPreview, PassedFresh, PostPassed;
    FreshAfter(b.log, OutcomeUnknown);
    if result.Unknown? { AnyLogged(b, b.End(i, result), OutcomeUnknown); }
  }

  lemma CheckAny(b: Bank, i: nat, o: Outcome)
    requires AnyInv(b) && i < |b.flights| && o.Returned?
    ensures AnyInv(b.Check(i, o))
  {
    hide FreshPreview, PostPassed;
    assert b.log[..|b.log|] == b.log;
  }

  lemma PostAny(b: Bank, i: nat)
    requires AnyInv(b) && i < |b.flights| && b.flights[i].at.Authorizing?
    ensures AnyInv(b.Post(i))
  {
    hide FreshPreview, PassedFresh, PostPassed;
    var flight := b.flights[i];
    var event := ExecutePosted(flight.call.operationId, flight.confirmed, flight.checked);
    FreshAfter(b.log, event);
    if flight.call.tool.ExecutePrepared? {
      assert FlightPassed(b.log, flight);
      AnyLogged(b, b.Post(i), event);
    }
  }

  lemma AnswerAny(b: Bank, i: nat, o: Outcome)
    requires AnyInv(b) && i < |b.flights| && o.Returned?
    ensures AnyInv(b.Answer(i, o))
  {
    hide FreshPreview, PassedFresh, PostPassed;
    if b.flights[i].call.tool.Prepare? && o.preview.Some? {
      FreshAfter(b.log, PreviewAccepted(o.preview.value));
      AnyLogged(b, b.Answer(i, o), PreviewAccepted(o.preview.value));
    }
  }

  lemma StepAny(b: Bank, input: Input)
    requires AnyInv(b)
    ensures AnyInv(Step(b, input))
  {
    hide FreshPreview, PassedFresh, PostPassed, Bank.End, Bank.Check, Bank.Post, Bank.Answer;
    match input
    case FlightResumes(i, o) =>
      if i < |b.flights| {
        EndAny(b, i, Unknown);
        match b.flights[i].at {
          case Queued =>
            FreshAfter(b.log, Started(b.flights[i].call));
            AnyLogged(b, Step(b, input), Started(b.flights[i].call));
          case Announcing => if o.Returned? { CheckAny(b, i, o); }
          case Authorizing => PostAny(b, i);
          case Posting => if o.Returned? { AnswerAny(b, i, o); }
          case Reporting(pending) => EndAny(b, i, pending);
          case Ended(_) =>
        }
      }
    case FlightCancelled(i) => if i < |b.flights| { EndAny(b, i, Interrupted); }
    case _ =>
  }

  lemma {:induction false} RunAny(b: Bank, inputs: seq<Input>)
    requires AnyInv(b)
    ensures AnyInv(Run(b, inputs))
    decreases |inputs|
  {
    hide AnyInv, Step;
    if inputs != [] {
      StepAny(b, inputs[0]);
      RunAny(Step(b, inputs[0]), inputs[1..]);
    }
  }

  /** Nothing superseded the preview between two lengths of the log. */
  lemma {:induction false} StaysFresh(log: seq<Event>, checked: nat, j: nat)
    requires checked <= j <= |log| && forall i :: checked <= i < j ==> !log[i].Supersedes()
    ensures FreshPreview(log[..j]) == FreshPreview(log[..checked])
    decreases j
  {
    if checked < j {
      StaysFresh(log, checked, j - 1);
      assert log[..j][..j - 1] == log[..j - 1];
    }
  }

  /** The preview that is fresh was accepted once, and not superseded since. */
  lemma {:induction false} FreshWitness(log: seq<Event>) returns (p: nat)
    requires FreshPreview(log).Some?
    ensures p < |log| && log[p] == PreviewAccepted(FreshPreview(log).value)
    ensures forall i :: p < i < |log| ==> !log[i].Supersedes()
    decreases |log|
  {
    var last := |log| - 1;
    if log[last].PreviewAccepted? { p := last; } else { p := FreshWitness(log[..last]); }
  }

  lemma FreshExactly(log: seq<Event>, j: nat)
    requires j < |log| && log[j].ExecutePosted? && PostPassed(log, j)
    ensures log[j].confirmed == log[j].operationId
    ensures !Overtaken(log, j) ==> FreshPreview(log[..j]) == Some(log[j].operationId)
    ensures DistinctPreviews(log) && FreshPreview(log[..j]) == Some(log[j].operationId) ==> !Overtaken(log, j)
  {
    var checked := log[j].checked;
    assert log[..j][..checked] == log[..checked];
    if !Overtaken(log, j) { StaysFresh(log, checked, j); }
    if DistinctPreviews(log) && FreshPreview(log[..j]) == Some(log[j].operationId) {
      var p := FreshWitness(log[..j]);
      var q := FreshWitness(log[..checked]);
      assert log[p] == log[q] == PreviewAccepted(log[j].operationId);
      assert p == q;
      forall i | checked <= i < j ensures !log[i].Supersedes() { assert log[..j][i] == log[i]; }
    }
  }

  /** In every run, with calls dispatched or made directly: executions that were not overtaken post
      the confirmed id of a fresh preview; and when the bank gives each preview its own id, all do
      exactly when none was overtaken. */
  lemma PostsFreshExactly(inputs: seq<Input>)
    ensures var log := Run(START, inputs).log;
            && (NoneOvertaken(log) ==> PostsFresh(log))
            && (DistinctPreviews(log) ==> (PostsFresh(log) <==> NoneOvertaken(log)))
  {
    hide Run, FreshPreview, Overtaken, DistinctPreviews;
    RunAny(START, inputs);
    var log := Run(START, inputs).log;
    forall j | 0 <= j < |log| && log[j].ExecutePosted?
      ensures log[j].confirmed == log[j].operationId
      ensures !Overtaken(log, j) ==> FreshPreview(log[..j]) == Some(log[j].operationId)
      ensures DistinctPreviews(log) && FreshPreview(log[..j]) == Some(log[j].operationId) ==> !Overtaken(log, j)
    {
      FreshExactly(log, j);
    }
  }

  // ---------- when direct calls are safe ----------

  /** Another execution is about to post. */
  ghost predicate Crowded(b: Bank, i: nat) {
    exists k :: 0 <= k < |b.flights| && k != i && b.flights[k].Executing()
  }

  /** This step posts an execution or accepts a preview. */
  predicate Supersedes(b: Bank, input: Input) {
    input.FlightResumes? && var log := Step(b, input).log; |log| > |b.log| && log[|log| - 1].Supersedes()
  }

  /** Nobody posts an execution or accepts a preview while another execution is about to post. */
  ghost predicate Careful(b: Bank, inputs: seq<Input>)
    decreases |inputs|
  {
    inputs != [] ==>
      && (Supersedes(b, inputs[0]) ==> !Crowded(b, inputs[0].flight))
      && Careful(Step(b, inputs[0]), inputs[1..])
  }

  /** Since its checks nothing overtook an execution about to post. */
  ghost predicate Ahead(log: seq<Event>, flight: Flight) {
    flight.Executing() ==> forall i :: 0 <= flight.checked <= i < |log| ==> !log[i].Supersedes()
  }

  ghost predicate AllAhead(b: Bank) {
    && (forall k :: 0 <= k < |b.flights| ==> Ahead(b.log, b.flights[k]))
    && NoneOvertaken(b.log)
  }

  lemma AheadLogged(b: Bank, c: Bank, event: Event)
    requires AllAhead(b) && c.log == b.log + [event]
    requires forall k :: 0 <= k < |c.flights| ==>
               Ahead(b.log, c.flights[k]) && (event.Supersedes() ==> !c.flights[k].Executing())
    requires event.ExecutePosted? ==> forall i :: 0 <= event.checked <= i < |b.log| ==> !b.log[i].Supersedes()
    ensures AllAhead(c)
  {
    forall j | 0 <= j < |c.log| && c.log[j].ExecutePosted? ensures !Overtaken(c.log, j) {
      if j < |b.log| { assert !Overtaken(b.log, j); }
    }
  }

  lemma StepAhead(b: Bank, input: Input)
    requires AllAhead(b) && (Supersedes(b, input) ==> !Crowded(b, input.flight))
    ensures AllAhead(Step(b, input))
  {
    hide NoneOvertaken;
    var c := Step(b, input);
    if |c.log| > |b.log| {
      var event := c.log[|b.log|];
      assert c.log == b.log + [event];
      AheadLogged(b, c, event);
    }
  }

  /** As long as nobody posts an execution or accepts a preview while another execution is about to
      post, every execution posts the confirmed id of a fresh preview, dispatched or not. */
  lemma CarefulCallsAreSafe(inputs: seq<Input>)
    requires Careful(START, inputs)
    ensures PostsFresh(Run(START, inputs).log)
  {
    hide Run, Careful;
    RunAhead(START, inputs);
    PostsFreshExactly(inputs);
  }

  lemma {:induction false} RunAhead(b: Bank, inputs: seq<Input>)
    requires AllAhead(b) && Careful(b, inputs)
    ensures AllAhead(Run(b, inputs))
    decreases |inputs|
  {
    hide AllAhead, Step, Supersedes, Crowded;
    if inputs != [] {
      StepAhead(b, inputs[0]);
      RunAhead(Step(b, inputs[0]), inputs[1..]);
    }
  }

  // ---------- what a call has to pass before it posts ----------

  /** The bank's answer to the check lets a call through: its tool is enabled, its arguments are valid,
      and an execution is of the preview held, as the caller confirmed it. */
  ghost predicate Passes(b: Bank, i: nat, o: Outcome) {
    && i < |b.flights| && b.flights[i].at.Announcing? && o.Returned? && o.enabled && o.validArguments
    && (b.flights[i].call.tool.ExecutePrepared? ==>
          b.prepared == Some(b.flights[i].call.operationId) == Some(b.flights[i].confirmed))
  }

  /** The authorization of a call was granted. */
  ghost predicate Granted(b: Bank, i: nat, o: Outcome) {
    i < |b.flights| && b.flights[i].at.Authorizing? && o.Returned? && o.authorized
  }

  ghost predicate Becomes(b: Bank, c: Bank, i: nat, at: FlightAt) {
    i < |c.flights| && c.flights[i].at == at && !(i < |b.flights| && b.flights[i].at == at)
  }

  /** A call asks for authorization exactly when the check lets it through, and posts exactly when the
      authorization is granted; an execution is logged exactly then. */
  lemma PostsExactly(b: Bank, input: Input, i: nat)
    ensures var c := Step(b, input);
            var resumes := input.FlightResumes? && input.flight == i;
            && (Becomes(b, c, i, Authorizing) <==> resumes && Passes(b, i, input.outcome))
            && (Becomes(b, c, i, Posting) <==> resumes && Granted(b, i, input.outcome))
    ensures var c := Step(b, input);
            input.FlightResumes? && Granted(b, input.flight, input.outcome)
            && b.flights[input.flight].call.tool.ExecutePrepared?
            <==> exists j :: |b.log| <= j < |c.log| && c.log[j].ExecutePosted?
  {
    if input.FlightResumes? && input.flight < |b.flights| {
      MovesExactly(b, input.flight, input.outcome);
      LogsExactly(b, input.flight, input.outcome);
    }
  }

  lemma MovesExactly(b: Bank, i: nat, o: Outcome)
    requires i < |b.flights|
    ensures var c := b.Resume(i, o);
            && |c.flights| == |b.flights|
            && (forall k :: 0 <= k < |b.flights| && k != i ==> c.flights[k] == b.flights[k])
            && (Becomes(b, c, i, Authorizing) <==> Passes(b, i, o))
            && (Becomes(b, c, i, Posting) <==> Granted(b, i, o))
  {
  }

  lemma LogsExactly(b: Bank, i: nat, o: Outcome)
    requires i < |b.flights|
    ensures var c := b.Resume(i, o);
            Granted(b, i, o) && b.flights[i].call.tool.ExecutePrepared?
            <==> exists j :: |b.log| <= j < |c.log| && c.log[j].ExecutePosted?
  {
    var c := b.Resume(i, o);
    if Granted(b, i, o) && b.flights[i].call.tool.ExecutePrepared? { assert c.log[|b.log|].ExecutePosted?; }
  }

  /** A call that does not pass posts nothing and ends in a known failure; only a preparation that was
      enabled gives up the preview. */
  lemma RefusedCallPostsNothing(b: Bank, i: nat, o: Outcome)
    requires i < |b.flights| && o.Returned?
    requires (b.flights[i].at.Announcing? && !Passes(b, i, o)) || (b.flights[i].at.Authorizing? && !o.authorized)
    ensures b.Resume(i, o)
            == b.(flights := b.flights[i := b.flights[i].(at := Reporting(Known))],
                  prepared := if b.flights[i].at.Announcing? && o.enabled && b.flights[i].call.tool.Prepare?
                              then None else b.prepared)
  {
  }

  lemma RunSnoc(b: Bank, inputs: seq<Input>, input: Input)
    ensures Run(b, inputs + [input]) == Step(Run(b, inputs), input)
  {
    hide Step, Run, IsRun;
    RunUnfolds();
    Concat(Step, Run, b, inputs, [input]);
    OneStep(Run(b, inputs), input);
  }

  lemma OneStep(b: Bank, input: Input)
    ensures Run(b, [input]) == Step(b, input)
  {
    hide Step;
    assert [input][1..] == [];
  }

  lemma RunUnfolds()
    ensures IsRun(Step, Run)
  {
    hide Step;
  }

  /** The step of a run after which a call asked for its authorization. */
  lemma {:induction false} PassedBefore(inputs: seq<Input>, i: nat) returns (m: nat)
    requires i < |Run(START, inputs).flights| && Run(START, inputs).flights[i].at.Authorizing?
    ensures m < |inputs| && inputs[m].FlightResumes? && inputs[m].flight == i
    ensures Passes(Run(START, inputs[..m]), i, inputs[m].outcome)
    decreases |inputs|
  {
    hide Run, Step, Passes;
    var n := StepsBack(inputs);
    var b := Run(START, inputs[..n]);
    PostsExactly(b, inputs[n], i);
    m := n;
    if i < |b.flights| && b.flights[i].at.Authorizing? {
      m := PassedBefore(inputs[..n], i);
      assert inputs[..n][..m] == inputs[..m];
    }
  }

  /** The step of a run in which a call was granted its authorization. */
  lemma {:induction false} GrantedBefore(inputs: seq<Input>, i: nat) returns (k: nat)
    requires i < |Run(START, inputs).flights| && Run(START, inputs).flights[i].at.Posting?
    ensures k < |inputs| && inputs[k].FlightResumes? && inputs[k].flight == i
    ensures Granted(Run(START, inputs[..k]), i, inputs[k].outcome)
    decreases |inputs|
  {
    hide Run, Step, Passes, Granted;
    var n := StepsBack(inputs);
    var b := Run(START, inputs[..n]);
    PostsExactly(b, inputs[n], i);
    k := n;
    if i < |b.flights| && b.flights[i].at.Posting? {
      k := GrantedBefore(inputs[..n], i);
      assert inputs[..n][..k] == inputs[..k];
    }
  }

  lemma StepsBack(inputs: seq<Input>) returns (n: nat)
    requires Run(START, inputs) != START
    ensures n + 1 == |inputs| && Run(START, inputs) == Step(Run(START, inputs[..n]), inputs[n])
  {
    hide Step;
    n := |inputs| - 1;
    assert inputs == inputs[..n] + [inputs[n]];
    RunSnoc(START, inputs[..n], inputs[n]);
  }

  /** In every run, dispatched or not, each execution that was posted had been let through by its check
      and was granted its authorization after that. */
  lemma {:induction false} ExecutionsWereGranted(inputs: seq<Input>, j: nat) returns (i: nat, m: nat, k: nat)
    requires j < |Run(START, inputs).log| && Run(START, inputs).log[j].ExecutePosted?
    ensures m < k < |inputs| && inputs[m].FlightResumes? && inputs[m].flight == i
    ensures inputs[k].FlightResumes? && inputs[k].flight == i
    ensures Passes(Run(START, inputs[..m]), i, inputs[m].outcome)
    ensures Granted(Run(START, inputs[..k]), i, inputs[k].outcome)
    decreases |inputs|
  {
    hide Run, Step, Passes, Granted;
    var n := StepsBack(inputs);
    var b := Run(START, inputs[..n]);
    if j < |b.log| {
      LogKept(b, inputs[n]);
      i, m, k := ExecutionsWereGranted(inputs[..n], j);
      assert inputs[..n][..m] == inputs[..m] && inputs[..n][..k] == inputs[..k];
    } else {
      i, k := 0, n;
      PostsExactly(b, inputs[n], i);
      i := inputs[n].flight;
      AtAuthorizing(b, i, inputs[n].outcome);
      m := PassedBefore(inputs[..n], i);
      assert inputs[..n][..m] == inputs[..m];
    }
  }

  lemma AtAuthorizing(b: Bank, i: nat, o: Outcome)
    requires Granted(b, i, o)
    ensures i < |b.flights| && b.flights[i].at.Authorizing?
  {
  }

  lemma LogKept(b: Bank, input: Input)
    ensures b.log <= Step(b, input).log
  {
  }

  // ---------- when a call starts, and how it ends ----------

  /** What becomes of the preview held: a prepared one is kept until it is dropped, posted, or given up
      for another preparation. */
  lemma PreviewExactly(b: Bank, input: Input)
    ensures Step(b, input).prepared
            == match input
               case PreviewDropped => None
               case FlightResumes(i, o) =>
                 if i >= |b.flights| || o.Raised? then b.prepared
                 else (
                   var (at, tool) := (b.flights[i].at, b.flights[i].call.tool);
                   if at.Posting? && tool.Prepare? && o.preview.Some? then o.preview
                   else if at.Announcing? && tool.Prepare? && o.enabled then None
                   else if at.Authorizing? && tool.ExecutePrepared? && o.authorized then None
                   else b.prepared)
               case _ => b.prepared
  {
  }

  /** How a call ends: interrupted when it is cancelled; unknown when an exception leaves it open or its
      answer was lost; and otherwise as its answer says. An unknown end is logged. */
  lemma EndsExactly(b: Bank, input: Input, i: nat)
    requires i < |b.flights| && b.flights[i].Running()
    ensures var c := Step(b, input);
            var at := b.flights[i].at;
            && (c.flights[i].at == Ended(Interrupted)
                <==> || input == FlightCancelled(i)
                     || (input.FlightResumes? && input.flight == i && input.outcome.Returned?
                         && at == Reporting(Interrupted)))
            && (c.flights[i].at == Ended(Unknown)
                <==> input.FlightResumes? && input.flight == i
                     && if input.outcome.Returned? then at == Reporting(Unknown)
                        else at.Announcing? || at.Reporting? || (!at.Queued? && !input.outcome.expected))
            && (c.flights[i].at == Ended(Known)
                <==> input.FlightResumes? && input.flight == i && input.outcome.Returned? && at == Reporting(Known))
            && (c.flights[i].at == Ended(Unknown) ==> c.log == b.log + [OutcomeUnknown])
  {
  }

  /** An answer is reported as it came, and a failure that was expected as known. */
  lemma AnswersExactly(b: Bank, i: nat, o: Outcome)
    requires i < |b.flights| && b.flights[i].at.Posting? && (o.Raised? ==> o.expected)
    ensures var end := if o.Raised? then Known else o.body;
            b.Resume(i, o).flights == b.flights[i := b.flights[i].(at := Reporting(end))]
    ensures b.Resume(i, o).log
            == if o.Returned? && b.flights[i].call.tool.Prepare? && o.preview.Some?
               then b.log + [PreviewAccepted(o.preview.value)] else b.log
  {
  }

  ghost predicate UnknownsLogged(b: Bank) {
    forall i :: 0 <= i < |b.flights| && b.flights[i].at == Ended(Unknown) ==> HasUnknown(b.log)
  }

  lemma StepLogsUnknowns(b: Bank, input: Input)
    requires UnknownsLogged(b)
    ensures UnknownsLogged(Step(b, input))
  {
    hide HasUnknown, Step;
    var c := Step(b, input);
    LogKept(b, input);
    UnknownStays(b.log, c.log);
    forall i | 0 <= i < |c.flights| && c.flights[i].at == Ended(Unknown) ensures HasUnknown(c.log) {
      if i < |b.flights| && b.flights[i].Running() {
        EndsExactly(b, input, i);
        UnknownIsLogged(b.log);
      } else {
        EndedBefore(b, input, i);
      }
    }
  }

  lemma EndedBefore(b: Bank, input: Input, i: nat)
    requires i < |Step(b, input).flights| && !(i < |b.flights| && b.flights[i].Running())
    ensures if i < |b.flights| then Step(b, input).flights[i] == b.flights[i] else Step(b, input).flights[i].at.Queued?
  {
  }

  lemma UnknownStays(log: seq<Event>, longer: seq<Event>)
    requires log <= longer
    ensures HasUnknown(log) ==> HasUnknown(longer)
  {
    if i :| 0 <= i < |log| && log[i].OutcomeUnknown? { assert longer[i].OutcomeUnknown?; }
  }

  lemma UnknownIsLogged(log: seq<Event>)
    ensures HasUnknown(log + [OutcomeUnknown])
  {
    assert (log + [OutcomeUnknown])[|log|].OutcomeUnknown?;
  }

  lemma {:induction false} RunLogsUnknowns(b: Bank, inputs: seq<Input>)
    requires UnknownsLogged(b)
    ensures UnknownsLogged(Run(b, inputs))
    decreases |inputs|
  {
    hide UnknownsLogged, Step;
    if inputs != [] {
      StepLogsUnknowns(b, inputs[0]);
      RunLogsUnknowns(Step(b, inputs[0]), inputs[1..]);
    }
  }

  /** When every call is dispatched through the engagement, one starts exactly when none is in flight and
      no outcome is unknown, and is refused without a trace otherwise. */
  lemma DispatchStartsExactly(inputs: seq<Input>, call: Call, confirmed: string)
    requires forall i :: 0 <= i < |inputs| ==> !inputs[i].CalledDirectly?
    ensures var b := Run(START, inputs);
            Step(b, ToolCalled(call, confirmed))
            == if (exists i :: 0 <= i < |b.flights| && b.flights[i].Running()) || HasUnknown(b.log) then b
               else b.(flights := b.flights + [Flight(call, confirmed, Queued, 0)], slot := Some(|b.flights|))
  {
    hide Run;
    RunKeeps(START, inputs);
    RunLogsUnknowns(START, inputs);
  }

  // ---------- a preview executed twice ----------

  const PREPARE := Call(Prepare("transfer"), "", "")
  const GO := Returned(true, true, true, Known, None)

  function Preparing(id: string): seq<Input> {
    [CalledDirectly(PREPARE, ""), FlightResumes(0, GO), FlightResumes(0, GO), FlightResumes(0, GO),
     FlightResumes(0, Returned(true, true, true, Known, Some(id))), FlightResumes(0, GO)]
  }

  function Prepared(id: string): Bank {
    Bank([Flight(PREPARE, "", Ended(Known), 1)], None, Some(id), [Started(PREPARE), PreviewAccepted(id)])
  }

  lemma PreparingRuns(id: string)
    ensures Run(START, Preparing(id)) == Prepared(id)
  {
    hide Run, IsRun;
    var started := [Started(PREPARE)];
    var queued := Flight(PREPARE, "", Queued, 0);
    var states := [START, Bank([queued], None, None, []),
                   Bank([queued.(at := Announcing)], None, None, started),
                   Bank([Flight(PREPARE, "", Authorizing, 1)], None, None, started),
                   Bank([Flight(PREPARE, "", Posting, 1)], None, None, started),
                   Prepared(id).(flights := [Flight(PREPARE, "", Reporting(Known), 1)]), Prepared(id)];
    var inputs := Preparing(id);
    assert forall i :: 0 <= i < |inputs| ==> Step(states[i], inputs[i]) == states[i + 1];
    RunUnfolds();
    Through(Step, Run, states, inputs);
  }

  function Overlapping(id: string): seq<Input> {
    var call := Call(ExecutePrepared, id, "");
    [CalledDirectly(call, id), CalledDirectly(call, id), FlightResumes(1, GO), FlightResumes(2, GO),
     FlightResumes(1, GO), FlightResumes(2, GO), FlightResumes(1, GO), FlightResumes(2, GO)]
  }

  lemma OverlappingRuns(id: string)
    ensures var call, post := Call(ExecutePrepared, id, ""), ExecutePosted(id, id, 4);
            Run(Prepared(id), Overlapping(id)).log
            == Prepared(id).log + [Started(call)] + [Started(call)] + [post] + [post]
  {
    hide Run, IsRun;
    var call := Call(ExecutePrepared, id, "");
    var b0 := Prepared(id);
    var done, first := b0.flights[0], b0.log;
    var queued, waiting := Flight(call, id, Queued, 0), Flight(call, id, Announcing, 0);
    var passed, posted := Flight(call, id, Authorizing, 4), Flight(call, id, Posting, 4);
    var post := ExecutePosted(id, id, 4);
    var started := first + [Started(call)] + [Started(call)];
    var states := [b0, b0.(flights := [done, queued]), b0.(flights := [done, queued, queued]),
                   b0.(flights := [done, waiting, queued], log := first + [Started(call)]),
                   b0.(flights := [done, waiting, waiting], log := started),
                   b0.(flights := [done, passed, waiting], log := started),
                   b0.(flights := [done, passed, passed], log := started),
                   Bank([done, posted, passed], None, None, started + [post]),
                   Bank([done, posted, posted], None, None, started + [post] + [post])];
    var inputs := Overlapping(id);
    assert forall i :: 0 <= i < |inputs| ==> Step(states[i], inputs[i]) == states[i + 1];
    RunUnfolds();
    Through(Step, Run, states, inputs);
  }

  /** Without the dispatcher the preview check is not enough: of two overlapping executions both pass
      it before either posts, and one preview is executed twice. */
  lemma DirectCallsPostTwice(id: string)
    ensures var call := Call(ExecutePrepared, id, "");
            var log := Run(START, Preparing(id) + Overlapping(id)).log;
            && log == [Started(PREPARE), PreviewAccepted(id), Started(call), Started(call),
                       ExecutePosted(id, id, 4), ExecutePosted(id, id, 4)]
            && !PostsFresh(log)
  {
    hide Run, Step, FreshPreview, IsRun;
    var call, post := Call(ExecutePrepared, id, ""), ExecutePosted(id, id, 4);
    RunUnfolds();
    Concat(Step, Run, START, Preparing(id), Overlapping(id));
    PreparingRuns(id);
    OverlappingRuns(id);
    var started := Prepared(id).log + [Started(call)] + [Started(call)];
    var log := started + [post] + [post];
    assert log[..5] == started + [post];
    FreshAfter(started, post);
    assert log[5] == post;
  }
}
