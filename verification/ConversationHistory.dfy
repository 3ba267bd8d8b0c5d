/** Saving a call's history: a bounded queue with one worker, a session opened once, and messages
    posted once. Tasks interleave at their awaits. */
module ConversationHistory {

  import opened Runs
  import opened Wrappers

  datatype Role = User | Assistant

  const MOST_PENDING: nat := 256

  /** What a task is asked to do: open the session, or save a message. The text is stripped, and a
      turn id is never empty. */
  datatype Job = Open | Say(role: Role, text: string, turn: Option<string>)

  /** Where a task is: each await is a place. */
  datatype At =
    | Created
    | WantsToWrite
    | WantsToStart
    | Resolving
    | Opening
    | Announcing
    | Posting
    | Done

  datatype Task = Task(job: Job, at: At)

  datatype Post = Post(role: Role, text: string, turn: Option<string>, sequence: nat)

  /** The worker, if any, and the task it runs. */
  datatype Worker = NoWorker | Between | Runs(id: nat)

  /** The queue, with what was ever put in it and what was taken out. */
  datatype Queue = Queue(pending: seq<nat>, worker: Worker, accepted: seq<nat>, taken: seq<nat>)

  datatype Locks = Locks(write: Option<nat>, start: Option<nat>)

  datatype Session = Session(enabled: bool, attempted: bool, open: bool, resolves: nat)

  datatype Ledger = Ledger(posts: seq<Post>, keys: set<(Role, string)>, last: Option<(Role, string)>, sequence: nat)

  datatype Closing = Running | Draining | Closed

  datatype Store = Store(tasks: seq<Task>, queue: Queue, locks: Locks, session: Session, ledger: Ledger,
                         closing: Closing)
  {
    predicate Has(id: nat) {
      id < |tasks|
    }

    function Moved(id: nat, at: At): Store
      requires Has(id)
    {
      this.(tasks := tasks[id := tasks[id].(at := at)])
    }

    // ---------- the queue ----------

    function Spawned(job: Job): Store {
      if closing != Running || |queue.pending| >= MOST_PENDING then this
      else
        this.(tasks := tasks + [Task(job, Created)],
              queue := queue.(pending := queue.pending + [|tasks|], accepted := queue.accepted + [|tasks|],
                              worker := if queue.worker.NoWorker? then Between else queue.worker))
    }

    function WorkerLoops(): Store {
      match queue.worker
      case NoWorker => this
      case Runs(id) => if Has(id) && tasks[id].at.Done? then this.(queue := queue.(worker := Between)) else this
      case Between =>
        if queue.pending == [] then this.(queue := queue.(worker := NoWorker))
        else
          this.(queue := queue.(pending := queue.pending[1..], taken := queue.taken + [queue.pending[0]],
                                worker := Runs(queue.pending[0])))
    }

    // ---------- one task ----------

    function Released(id: nat): Store {
      this.(locks := Locks(if locks.write == Some(id) then None else locks.write,
                           if locks.start == Some(id) then None else locks.start))
    }

    function Finished(id: nat): Store
      requires Has(id)
    {
      Released(id).Moved(id, Done)
    }

    predicate Duplicate(job: Job)
      requires job.Say?
    {
      if job.turn.Some? then (job.role, job.turn.value) in ledger.keys else ledger.last == Some((job.role, job.text))
    }

    function Noted(job: Job): Store
      requires job.Say?
    {
      var sequence := ledger.sequence + 1;
      this.(ledger := Ledger(ledger.posts + [Post(job.role, job.text, job.turn, sequence)],
                             if job.turn.Some? then ledger.keys + {(job.role, job.turn.value)} else ledger.keys,
                             Some((job.role, job.text)), sequence))
    }

    /** The session is open, or will not be; the start lock is given back. */
    function Started(id: nat): Store
      requires Has(id)
    {
      var s := this.(locks := locks.(start := if locks.start == Some(id) then None else locks.start));
      var job := tasks[id].job;
      if job.Open? || !session.open || Duplicate(job) then s.Finished(id)
      else s.Noted(job).Moved(id, Posting)
    }

    function EntersStart(id: nat): Store
      requires Has(id)
    {
      if session.attempted || closing.Closed? then Started(id)
      else
        var s := this.(session := session.(attempted := true));
        if !session.enabled then s.Started(id)
        else
          s.(locks := locks.(start := Some(id)), session := s.session.(resolves := session.resolves + 1))
           .Moved(id, Resolving)
    }

    /** Runs a task to its next await; ok tells how the request it waited for went. */
    function TaskRuns(id: nat, ok: bool): Store
      requires Has(id)
    {
      var job := tasks[id].job;
      match tasks[id].at
      case Created =>
        if job.Open? then Moved(id, WantsToStart)
        else if job.text == "" || closing.Closed? then Finished(id)
        else Moved(id, WantsToWrite)
      case WantsToWrite =>
        if locks.write.None? then this.(locks := locks.(write := Some(id))).Moved(id, WantsToStart) else this
      case WantsToStart => if locks.start.None? then EntersStart(id) else this
      case Resolving => if ok then Moved(id, Opening) else Started(id)
      case Opening => if ok then this.(session := session.(open := true)).Moved(id, Announcing) else Started(id)
      case Announcing => Started(id)
      case Posting => Finished(id)
      case Done => this
    }
  }

  datatype Input =
    | Spawn(job: Job)
    | CallDirectly(job: Job)
    | WorkerTurn
    | TaskTurn(id: nat, ok: bool)
    | TimesOut(id: nat)
    | CloseBegins
    | DrainGivesUp
    | CloseEnds

  /** A task still in the queue has not been started. */
  predicate Runnable(s: Store, id: nat) {
    s.Has(id) && id !in s.queue.pending
  }

  function Step(s: Store, input: Input): Store {
    match input
    case Spawn(job) => s.Spawned(job)
    case CallDirectly(job) => s.(tasks := s.tasks + [Task(job, Created)])
    case WorkerTurn => s.WorkerLoops()
    case TaskTurn(id, ok) => if Runnable(s, id) then s.TaskRuns(id, ok) else s
    case TimesOut(id) => if Runnable(s, id) then s.Finished(id) else s
    case CloseBegins => if s.closing.Running? then s.(closing := Draining) else s
    case DrainGivesUp => if s.closing.Draining? then s.(queue := s.queue.(worker := NoWorker)) else s
    case CloseEnds =>
      if s.closing.Draining? then s.(closing := Closed, queue := s.queue.(pending := [], worker := NoWorker)) else s
  }

  function Run(s: Store, inputs: seq<Input>): Store
    decreases |inputs|
  {
    if inputs == [] then s else Run(Step(s, inputs[0]), inputs[1..])
  }

  function NewStore(enabled: bool): Store {
    Store([], Queue([], NoWorker, [], []), Locks(None, None), Session(enabled, false, false, 0),
          Ledger([], {}, None, 0), Running)
  }

  // ---------- the queue: no lost wake-up, first in first out ----------

  predicate QueueInv(s: Store) {
    && |s.queue.pending| <= MOST_PENDING
    && (s.closing.Running? && s.queue.pending != [] ==> !s.queue.worker.NoWorker?)
    && (if s.closing.Closed? then s.queue.pending == [] && s.queue.taken <= s.queue.accepted
        else s.queue.accepted == s.queue.taken + s.queue.pending)
  }

  lemma QueueStep(s: Store, input: Input)
    requires QueueInv(s)
    ensures QueueInv(Step(s, input))
  {
    match input
    case TaskTurn(id, ok) => if Runnable(s, id) { TaskKeepsQueue(s, id, ok); }
    case WorkerTurn =>
      if s.queue.worker.Between? && s.queue.pending != [] {
        assert s.queue.taken + s.queue.pending == (s.queue.taken + [s.queue.pending[0]]) + s.queue.pending[1..];
      }
    case _ =>
  }

  lemma TaskKeepsQueue(s: Store, id: nat, ok: bool)
    requires s.Has(id)
    ensures s.TaskRuns(id, ok).queue == s.queue && s.TaskRuns(id, ok).closing == s.closing
  {
  }

  lemma {:induction false} QueueRun(s: Store, inputs: seq<Input>)
    requires QueueInv(s)
    ensures QueueInv(Run(s, inputs))
    decreases |inputs|
  {
    hide Step, QueueInv;
    if inputs != [] {
      QueueStep(s, inputs[0]);
      QueueRun(Step(s, inputs[0]), inputs[1..]);
    }
  }

  /** Until the store closes, a job that waits has a live worker, jobs are taken up in the order
      they came, and at most 256 wait. */
  lemma NoLostWakeUp(enabled: bool, inputs: seq<Input>)
    ensures QueueInv(Run(NewStore(enabled), inputs))
  {
    QueueRun(NewStore(enabled), inputs);
  }

  // ---------- the session: opened at most once ----------

  predicate StartHeld(at: At) {
    at.Resolving? || at.Opening? || at.Announcing?
  }

  predicate Writes(task: Task) {
    task.job.Say? && (task.at.WantsToStart? || StartHeld(task.at) || task.at.Posting?)
  }

  /** A task that opens the session holds the start lock; one that saves a message, the write lock. */
  predicate Holds(task: Task, id: nat, locks: Locks, attempted: bool) {
    && (StartHeld(task.at) ==> locks.start == Some(id) && attempted)
    && (Writes(task) ==> locks.write == Some(id))
  }

  ghost predicate Orderly(s: Store) {
    forall id :: 0 <= id < |s.tasks| ==> Holds(s.tasks[id], id, s.locks, s.session.attempted)
  }

  predicate OpenedOnce(s: Store) {
    && s.session.resolves <= (if s.session.attempted && s.session.enabled then 1 else 0)
    && (s.session.open ==> s.session.attempted)
  }

  /** A task that moves on, while the others keep what they hold. */
  lemma OneMoves(s: Store, t: Store, id: nat)
    requires Orderly(s) && s.Has(id) && |t.tasks| == |s.tasks| && t.tasks == s.tasks[id := t.tasks[id]]
    requires Holds(t.tasks[id], id, t.locks, t.session.attempted)
    requires s.session.attempted ==> t.session.attempted
    requires t.locks.start == s.locks.start || s.locks.start == None || s.locks.start == Some(id)
    requires t.locks.write == s.locks.write || s.locks.write == None || s.locks.write == Some(id)
    ensures Orderly(t)
  {
  }

  lemma StartedMoves(s: Store, id: nat)
    requires s.Has(id) && (s.tasks[id].job.Say? ==> s.locks.write == Some(id))
    ensures var t := s.Started(id);
            && |t.tasks| == |s.tasks| && t.tasks == s.tasks[id := t.tasks[id]] && t.session == s.session
            && Holds(t.tasks[id], id, t.locks, t.session.attempted)
            && (t.locks.start == s.locks.start || s.locks.start == Some(id))
            && (t.locks.write == s.locks.write || s.locks.write == Some(id))
  {
    hide Store.Duplicate;
  }

  lemma TaskMoves(s: Store, id: nat, ok: bool)
    requires Orderly(s) && s.Has(id)
    ensures var t := s.TaskRuns(id, ok);
            Orderly(t) && (OpenedOnce(s) ==> OpenedOnce(t))
  {
    hide Store.Started, Orderly;
    var t := s.TaskRuns(id, ok);
    assert Holds(s.tasks[id], id, s.locks, s.session.attempted) by { OneTask(s, id); }
    match s.tasks[id].at
    case WantsToStart =>
      if s.locks.start.None? {
        StartedMoves(s.(session := s.session.(attempted := true)), id);
        StartedMoves(s, id);
      }
      OneMoves(s, t, id);
    case Resolving => if !ok { StartedMoves(s, id); } OneMoves(s, t, id);
    case Opening => if !ok { StartedMoves(s, id); } OneMoves(s, t, id);
    case Announcing => StartedMoves(s, id); OneMoves(s, t, id);
    case _ => OneMoves(s, t, id);
  }

  lemma OneTask(s: Store, id: nat)
    requires Orderly(s) && s.Has(id)
    ensures Holds(s.tasks[id], id, s.locks, s.session.attempted)
  {
  }

  lemma HolderStep(s: Store, input: Input)
    requires Orderly(s) && OpenedOnce(s)
    ensures Orderly(Step(s, input)) && OpenedOnce(Step(s, input))
  {
    hide Store.TaskRuns;
    match input
    case TaskTurn(id, ok) => if Runnable(s, id) { TaskMoves(s, id, ok); }
    case TimesOut(id) => if Runnable(s, id) { OneMoves(s, s.Finished(id), id); }
    case _ =>
  }

  // ---------- the ledger ----------

  predicate SameTurn(a: Post, b: Post) {
    a.turn.Some? && a.turn == b.turn && a.role == b.role
  }

  predicate SameWords(a: Post, b: Post) {
    a.role == b.role && a.text == b.text
  }

  /** Messages are numbered one by one, none is saved twice for a turn, and one without a turn does
      not repeat the message before it. */
  ghost predicate Faithful(posts: seq<Post>) {
    && (forall i :: 0 <= i < |posts| ==> posts[i].sequence == i + 1)
    && (forall i, j :: 0 <= i < j < |posts| ==> !SameTurn(posts[i], posts[j]))
    && (forall i :: 0 < i < |posts| && posts[i].turn.None? ==> !SameWords(posts[i - 1], posts[i]))
  }

  ghost predicate KeysOf(posts: seq<Post>, keys: set<(Role, string)>) {
    && (forall i :: 0 <= i < |posts| && posts[i].turn.Some? ==> (posts[i].role, posts[i].turn.value) in keys)
    && (forall key :: key in keys ==> PostedFor(posts, key))
  }

  function LastOf(posts: seq<Post>): Option<(Role, string)> {
    if posts == [] then None else Some((posts[|posts| - 1].role, posts[|posts| - 1].text))
  }

  ghost predicate LedgerInv(ledger: Ledger) {
    && ledger.sequence == |ledger.posts| && Faithful(ledger.posts)
    && KeysOf(ledger.posts, ledger.keys) && ledger.last == LastOf(ledger.posts)
  }

  ghost predicate PostedFor(posts: seq<Post>, key: (Role, string)) {
    exists i :: 0 <= i < |posts| && posts[i].role == key.0 && posts[i].turn == Some(key.1)
  }

  lemma FaithfulNext(posts: seq<Post>, post: Post)
    requires Faithful(posts) && post.sequence == |posts| + 1
    requires forall i :: 0 <= i < |posts| ==> !SameTurn(posts[i], post)
    requires posts != [] && post.turn.None? ==> !SameWords(posts[|posts| - 1], post)
    ensures Faithful(posts + [post])
  {
    hide SameTurn, SameWords;
  }

  lemma KeysNext(posts: seq<Post>, keys: set<(Role, string)>, post: Post)
    requires KeysOf(posts, keys)
    ensures KeysOf(posts + [post], if post.turn.Some? then keys + {(post.role, post.turn.value)} else keys)
  {
    var now := if post.turn.Some? then keys + {(post.role, post.turn.value)} else keys;
    forall key | key in now ensures PostedFor(posts + [post], key) {
      if key in keys {
        var i :| 0 <= i < |posts| && posts[i].role == key.0 && posts[i].turn == Some(key.1);
        assert (posts + [post])[i] == posts[i];
      } else {
        assert (posts + [post])[|posts|] == post;
      }
    }
  }

  lemma NotedKeeps(s: Store, job: Job)
    requires LedgerInv(s.ledger) && job.Say? && !s.Duplicate(job)
    ensures LedgerInv(s.Noted(job).ledger)
  {
    hide Faithful, KeysOf;
    var posts, keys := s.ledger.posts, s.ledger.keys;
    var post := Post(job.role, job.text, job.turn, s.ledger.sequence + 1);
    forall i | 0 <= i < |posts| ensures !SameTurn(posts[i], post) {
      if SameTurn(posts[i], post) { KeyOf(posts, keys, i); }
    }
    FaithfulNext(posts, post);
    KeysNext(posts, keys, post);
  }

  lemma KeyOf(posts: seq<Post>, keys: set<(Role, string)>, i: nat)
    requires KeysOf(posts, keys) && i < |posts| && posts[i].turn.Some?
    ensures (posts[i].role, posts[i].turn.value) in keys
  {
  }

  lemma LedgerStep(s: Store, input: Input)
    requires LedgerInv(s.ledger)
    ensures LedgerInv(Step(s, input).ledger)
  {
    hide LedgerInv, Store.TaskRuns;
    if input.TaskTurn? && Runnable(s, input.id) {
      TaskLedger(s, input.id, input.ok);
      var job := s.tasks[input.id].job;
      if job.Say? && !s.Duplicate(job) { NotedKeeps(s, job); }
    }
  }

  /** A task's turn changes the ledger only by noting its message, if that is no duplicate. */
  lemma TaskLedger(s: Store, id: nat, ok: bool)
    requires s.Has(id)
    ensures var t, job := s.TaskRuns(id, ok), s.tasks[id].job;
            || t.ledger == s.ledger
            || (job.Say? && !s.Duplicate(job) && s.session.open && t.ledger == s.Noted(job).ledger
                && t.tasks == s.tasks[id := s.tasks[id].(at := Posting)])
  {
  }

  // ---------- runs ----------

  ghost predicate Inv(s: Store) {
    Orderly(s) && OpenedOnce(s) && LedgerInv(s.ledger)
  }

  lemma {:induction false} RunKeeps(s: Store, inputs: seq<Input>)
    requires Inv(s)
    ensures Inv(Run(s, inputs)) && Run(s, inputs).session.enabled == s.session.enabled
    decreases |inputs|
  {
    hide Step, Orderly, OpenedOnce, LedgerInv;
    if inputs != [] {
      HolderStep(s, inputs[0]);
      LedgerStep(s, inputs[0]);
      assert Step(s, inputs[0]).session.enabled == s.session.enabled by { EnabledStays(s, inputs[0]); }
      RunKeeps(Step(s, inputs[0]), inputs[1..]);
    }
  }

  lemma EnabledStays(s: Store, input: Input)
    ensures Step(s, input).session.enabled == s.session.enabled
  {
    hide Store.Duplicate;
  }

  /** However tasks, timeouts and the close interleave: the session is resolved at most once; saved
      messages are numbered without gaps, at most one for each role and turn; and at most one is on
      its way at a time, in its turn. */
  lemma SavedOnceInOrder(enabled: bool, inputs: seq<Input>)
    ensures var s := Run(NewStore(enabled), inputs);
            && s.session.resolves <= 1
            && Faithful(s.ledger.posts) && s.ledger.sequence == |s.ledger.posts|
            && (forall id, other ::
                  0 <= id < |s.tasks| && 0 <= other < |s.tasks| && Writes(s.tasks[id]) && Writes(s.tasks[other])
                  ==> id == other)
  {
    hide Run;
    assert LedgerInv(NewStore(enabled).ledger);
    RunKeeps(NewStore(enabled), inputs);
    var s := Run(NewStore(enabled), inputs);
    forall id, other | 0 <= id < |s.tasks| && 0 <= other < |s.tasks| && Writes(s.tasks[id]) && Writes(s.tasks[other])
      ensures id == other
    {
      OneTask(s, id);
      OneTask(s, other);
    }
  }

  /** A message not saved when its turn comes was empty, came after the close, was saved before, or
      has no session to go to: and then the start is over, whether it failed or was cut short. */
  lemma GivenUpOnlyAfterStart(s: Store, id: nat, ok: bool)
    requires Inv(s) && Runnable(s, id) && s.tasks[id].job.Say? && !s.tasks[id].at.Done? && !s.tasks[id].at.Posting?
    requires !s.closing.Closed? && s.tasks[id].job.text != ""
    ensures var t := s.TaskRuns(id, ok);
            t.tasks[id].at.Done? ==>
              && t.session.attempted
              && (s.Duplicate(s.tasks[id].job) || (!t.session.open && t.locks.start.None?
                   && forall other :: 0 <= other < |t.tasks| ==> !StartHeld(t.tasks[other].at)))
  {
    hide Store.Duplicate, LedgerInv;
    TaskMoves(s, id, ok);
    OneTask(s, id);
  }

  // ---------- what becomes of a task ----------

  /** The message was saved before: for the same turn, or, without a turn, as the last one. */
  ghost predicate Repeats(posts: seq<Post>, job: Job)
    requires job.Say?
  {
    if job.turn.Some? then exists post <- posts :: post.role == job.role && post.turn == job.turn
    else posts != [] && posts[|posts| - 1].role == job.role && posts[|posts| - 1].text == job.text
  }

  /** The session is to be resolved now. */
  predicate ResolvesNow(s: Store) {
    !s.session.attempted && s.session.enabled && !s.closing.Closed?
  }

  /** Where a task goes when the start is over: its message is posted if the session is open and it is
      not a repeated one. */
  ghost function OverTo(s: Store, job: Job): At {
    if job.Say? && s.session.open && !Repeats(s.ledger.posts, job) then Posting else Done
  }

  ghost function NextPlace(s: Store, task: Task, ok: bool): At {
    match task.at
    case Created =>
      if task.job.Open? then WantsToStart
      else if task.job.text == "" || s.closing.Closed? then Done else WantsToWrite
    case WantsToWrite => if s.locks.write.Some? then WantsToWrite else WantsToStart
    case WantsToStart =>
      if s.locks.start.Some? then WantsToStart else if ResolvesNow(s) then Resolving else OverTo(s, task.job)
    case Resolving => if ok then Opening else OverTo(s, task.job)
    case Opening => if ok then Announcing else OverTo(s, task.job)
    case Announcing => OverTo(s, task.job)
    case Posting => Done
    case Done => Done
  }

  lemma RepeatsExactly(s: Store, job: Job)
    requires LedgerInv(s.ledger) && job.Say?
    ensures s.Duplicate(job) <==> Repeats(s.ledger.posts, job)
  {
    var posts := s.ledger.posts;
    if job.turn.Some? && (job.role, job.turn.value) in s.ledger.keys {
      assert PostedFor(posts, (job.role, job.turn.value));
    }
    if job.turn.Some? && Repeats(posts, job) {
      var post :| post in posts && post.role == job.role && post.turn == job.turn;
      var i :| 0 <= i < |posts| && posts[i] == post;
      KeyOf(posts, s.ledger.keys, i);
    }
  }

  lemma StartedExactly(s: Store, id: nat)
    requires LedgerInv(s.ledger) && s.Has(id)
    ensures var t, job := s.Started(id), s.tasks[id].job;
            && t.tasks == s.tasks[id := Task(job, OverTo(s, job))] && t.session == s.session
            && t.ledger.posts == (if OverTo(s, job).Posting?
                                  then s.ledger.posts + [Post(job.role, job.text, job.turn, |s.ledger.posts| + 1)]
                                  else s.ledger.posts)
  {
    hide LedgerInv, Store.Duplicate, Repeats;
    Numbered(s.ledger);
    if s.tasks[id].job.Say? { RepeatsExactly(s, s.tasks[id].job); }
  }

  /** A task's turn takes it where it has to go and leaves the other tasks alone; a message is saved
      under the next number when it is posted, and the session is tried once, resolved if it may be,
      and open once its opening succeeded. */
  lemma TaskExactly(s: Store, id: nat, ok: bool)
    requires LedgerInv(s.ledger) && s.Has(id)
    ensures var t, task := s.TaskRuns(id, ok), s.tasks[id];
            var starts := task.at.WantsToStart? && s.locks.start.None?;
            && t.tasks == s.tasks[id := Task(task.job, NextPlace(s, task, ok))]
            && t.ledger.posts == (if NextPlace(s, task, ok).Posting? && !task.at.Posting?
                                  then s.ledger.posts + [Post(task.job.role, task.job.text, task.job.turn,
                                                              |s.ledger.posts| + 1)]
                                  else s.ledger.posts)
            && t.session.attempted == (s.session.attempted || (starts && !s.closing.Closed?))
            && t.session.resolves == s.session.resolves + (if starts && ResolvesNow(s) then 1 else 0)
            && t.session.open == (s.session.open || (task.at.Opening? && ok))
  {
    hide LedgerInv, Store.Started, Repeats;
    StartedExactly(s, id);
    StartedExactly(s.(session := s.session.(attempted := true)), id);
  }

  lemma Numbered(ledger: Ledger)
    requires LedgerInv(ledger)
    ensures ledger.sequence == |ledger.posts|
  {
  }

  // ---------- no lock is lost ----------

  predicate KeepsOwn(task: Task, id: nat, locks: Locks) {
    && (locks.write == Some(id) ==> Writes(task))
    && (locks.start == Some(id) ==> StartHeld(task.at))
    && (task.at.WantsToWrite? || task.at.Posting? ==> task.job.Say?)
  }

  /** Whoever holds a lock is still on its way to giving it back. */
  ghost predicate LocksInUse(s: Store) {
    && (s.locks.write.Some? ==> s.Has(s.locks.write.value))
    && (s.locks.start.Some? ==> s.Has(s.locks.start.value))
    && (forall id :: 0 <= id < |s.tasks| ==> KeepsOwn(s.tasks[id], id, s.locks))
  }

  lemma TaskKeepsOwn(s: Store, id: nat, ok: bool)
    requires s.Has(id) && KeepsOwn(s.tasks[id], id, s.locks)
    ensures var t := s.TaskRuns(id, ok);
            && |t.tasks| == |s.tasks| && t.tasks == s.tasks[id := t.tasks[id]]
            && KeepsOwn(t.tasks[id], id, t.locks)
            && (t.locks.write == s.locks.write || t.locks.write == None || t.locks.write == Some(id))
            && (t.locks.start == s.locks.start || t.locks.start == None || t.locks.start == Some(id))
  {
    hide Store.Started, Holds;
    StartedKeepsOwn(s, id);
    StartedKeepsOwn(s.(session := s.session.(attempted := true)), id);
  }

  lemma StartedKeepsOwn(s: Store, id: nat)
    requires s.Has(id)
    ensures var t := s.Started(id);
            && |t.tasks| == |s.tasks| && t.tasks == s.tasks[id := t.tasks[id]]
            && (s.tasks[id].job.Say? || s.locks.write != Some(id) ==> KeepsOwn(t.tasks[id], id, t.locks))
            && (t.locks.write == s.locks.write || t.locks.write == None)
            && (t.locks.start == s.locks.start || t.locks.start == None)
  {
    hide Store.Duplicate;
  }

  lemma LocksStep(s: Store, input: Input)
    requires LocksInUse(s)
    ensures LocksInUse(Step(s, input))
  {
    hide Store.TaskRuns;
    if input.TaskTurn? && Runnable(s, input.id) { TaskKeepsOwn(s, input.id, input.ok); }
  }

  lemma {:induction false} LocksRun(s: Store, inputs: seq<Input>)
    requires LocksInUse(s)
    ensures LocksInUse(Run(s, inputs))
    decreases |inputs|
  {
    hide Step, LocksInUse;
    if inputs != [] {
      LocksStep(s, inputs[0]);
      LocksRun(Step(s, inputs[0]), inputs[1..]);
    }
  }

  /** In every run, timeouts at any place included, a lock is only ever held by a task that has not come
      to its end. */
  lemma NoLockIsLost(enabled: bool, inputs: seq<Input>)
    ensures LocksInUse(Run(NewStore(enabled), inputs))
  {
    LocksRun(NewStore(enabled), inputs);
  }

  // ---------- one job at a time ----------

  /** Of the jobs taken from the queue only the one that the worker runs has not come to its end. */
  ghost predicate OneAtATime(s: Store) {
    && (forall i :: 0 <= i < |s.queue.pending| ==> s.Has(s.queue.pending[i]))
    && (forall id <- s.queue.taken :: s.Has(id) && (s.closing.Running? && !s.tasks[id].at.Done? ==>
                                                      s.queue.worker == Runs(id)))
  }

  lemma OneAtATimeStep(s: Store, input: Input)
    requires OneAtATime(s)
    ensures OneAtATime(Step(s, input))
  {
    hide Store.Duplicate;
    match input
    case TaskTurn(id, ok) => if Runnable(s, id) { TasksStay(s, id, ok); }
    case _ =>
  }

  lemma TasksStay(s: Store, id: nat, ok: bool)
    requires s.Has(id)
    ensures var t := s.TaskRuns(id, ok);
            && |t.tasks| == |s.tasks| && t.queue == s.queue && t.closing == s.closing
            && forall other :: 0 <= other < |s.tasks| && s.tasks[other].at.Done? ==> t.tasks[other].at.Done?
  {
    hide Store.Duplicate;
  }

  lemma {:induction false} OneAtATimeRun(s: Store, inputs: seq<Input>)
    requires OneAtATime(s)
    ensures OneAtATime(Run(s, inputs))
    decreases |inputs|
  {
    hide Step, OneAtATime;
    if inputs != [] {
      OneAtATimeStep(s, inputs[0]);
      OneAtATimeRun(Step(s, inputs[0]), inputs[1..]);
    }
  }

  /** In every run the jobs of the queue are done one after the other. */
  lemma JobsRunOneAtATime(enabled: bool, inputs: seq<Input>)
    ensures OneAtATime(Run(NewStore(enabled), inputs))
  {
    OneAtATimeRun(NewStore(enabled), inputs);
  }

  /** A worker that is free takes the job that has waited longest, leaves when none waits, and is free
      again once its job is done. */
  lemma WorkerExactly(s: Store)
    ensures var q := s.queue;
            s.WorkerLoops() == s.(queue :=
              match q.worker {
                case NoWorker => q
                case Runs(id) => if s.Has(id) && s.tasks[id].at == Done then q.(worker := Between) else q
                case Between =>
                  if q.pending == [] then q.(worker := NoWorker)
                  else Queue(q.pending[1..], Runs(q.pending[0]), q.accepted, q.taken + [q.pending[0]])
              })
  {
  }

  // ---------- everything else that happens ----------

  /** A job is taken in while the store runs and fewer than 256 wait: it waits behind the others, and a
      worker is there for it. Otherwise it is dropped without a trace. */
  lemma SpawnExactly(s: Store, job: Job)
    ensures var t, id := Step(s, Spawn(job)), |s.tasks|;
            if s.closing.Running? && |s.queue.pending| < 256 then
              && t == s.(tasks := t.tasks, queue := t.queue) && t.tasks == s.tasks + [Task(job, Created)]
              && t.queue.pending == s.queue.pending + [id] && t.queue.accepted == s.queue.accepted + [id]
              && t.queue.taken == s.queue.taken
              && t.queue.worker == (if s.queue.worker == NoWorker then Between else s.queue.worker)
            else t == s
  {
  }

  /** A task that waits in the queue does nothing and cannot time out. Any other one runs; when its time
      is over it ends and gives back what it holds, and nothing else changes. */
  lemma TurnsExactly(s: Store, id: nat, ok: bool)
    ensures if !s.Has(id) || id in s.queue.pending then Step(s, TaskTurn(id, ok)) == s == Step(s, TimesOut(id))
            else
              && Step(s, TaskTurn(id, ok)) == s.TaskRuns(id, ok)
              && Step(s, TimesOut(id))
                 == s.(tasks := s.tasks[id := Task(s.tasks[id].job, Done)],
                       locks := Locks(if s.locks.write == Some(id) then None else s.locks.write,
                                      if s.locks.start == Some(id) then None else s.locks.start))
  {
  }

  /** The close: from then on nothing is taken in; the worker goes on, unless that takes too long; and
      in the end what still waits is dropped. A direct call is a task of its own at any time. */
  lemma CloseExactly(s: Store, job: Job)
    ensures Step(s, CloseBegins) == if s.closing == Running then s.(closing := Draining) else s
    ensures Step(s, DrainGivesUp)
            == if s.closing == Draining then s.(queue := s.queue.(worker := NoWorker)) else s
    ensures Step(s, CloseEnds)
            == if s.closing == Draining then s.(closing := Closed, queue := s.queue.(pending := [], worker := NoWorker))
               else s
    ensures Step(s, CallDirectly(job)) == s.(tasks := s.tasks + [Task(job, Created)])
  {
  }

  // ---------- idempotency keys ----------

  function Digit(n: nat): char
    requires n < 10
  {
    '0' + n as char
  }

  function Decimal(n: nat): (digits: string)
    ensures digits != ""
  {
    if n < 10 then [Digit(n)] else Decimal(n / 10) + [Digit(n % 10)]
  }

  lemma {:induction false} DecimalIsInjective(m: nat, n: nat)
    requires Decimal(m) == Decimal(n)
    ensures m == n
  {
    var a, b := Decimal(m), Decimal(n);
    assert a[|a| - 1] == Digit(m % 10) && b[|b| - 1] == Digit(n % 10);
    if m >= 10 && n >= 10 {
      assert a[..|a| - 1] == Decimal(m / 10) && b[..|b| - 1] == Decimal(n / 10);
      DecimalIsInjective(m / 10, n / 10);
    }
  }

  /** What a message's idempotency key is the hash of, apart from the session. */
  function Identity(post: Post): (Role, string) {
    (post.role, if post.turn.Some? then post.turn.value else Decimal(post.sequence))
  }

  predicate NamesSequence(a: Post, b: Post) {
    a.role == b.role && a.turn.Some? && b.turn.None? && a.turn.value == Decimal(b.sequence)
  }

  /** Two saved messages share a key exactly when the turn id of one spells the number of the other,
      which has none. */
  lemma KeysClashExactly(posts: seq<Post>, i: nat, j: nat)
    requires Faithful(posts) && i < j < |posts|
    ensures Identity(posts[i]) == Identity(posts[j]) <==>
            NamesSequence(posts[i], posts[j]) || NamesSequence(posts[j], posts[i])
  {
    hide Decimal;
    var a, b := posts[i], posts[j];
    if a.turn.None? && b.turn.None? && Decimal(a.sequence) == Decimal(b.sequence) {
      DecimalIsInjective(a.sequence, b.sequence);
    }
    assert !SameTurn(a, b);
  }

  lemma RunUnfolds()
    ensures IsRun(Step, Run)
  {
    hide Step;
  }

  function Turns(id: nat, n: nat): seq<Input> {
    seq(n, i => TaskTurn(id, true))
  }

  /** The store after its first message, saved over a session that opens. */
  function SavedFirst(job: Job): Store
    requires job.Say?
  {
    Store([Task(job, Done)], Queue([], Between, [0], [0]), Locks(None, None), Session(true, true, true, 1),
          Ledger([Post(job.role, job.text, job.turn, 1)], if job.turn.Some? then {(job.role, job.turn.value)} else {},
                 Some((job.role, job.text)), 1), Running)
  }

  const START_RUN: seq<Input> := [WorkerTurn] + Turns(0, 3)
  const FIRST_RUN: seq<Input> := START_RUN + (Turns(0, 4) + [WorkerTurn])

  function StartingFirst(job: Job): Store {
    Store([Task(job, Resolving)], Queue([], Runs(0), [0], [0]), Locks(Some(0), Some(0)), Session(true, true, false, 1),
          Ledger([], {}, None, 0), Running)
  }

  lemma FirstStarts(job: Job)
    requires job.Say? && job.text != ""
    ensures Run(NewStore(true), [Spawn(job)] + START_RUN) == StartingFirst(job)
  {
    hide Run, IsRun, Store.Duplicate;
    var s0 := NewStore(true);
    var s1 := s0.(tasks := [Task(job, Created)], queue := Queue([0], Between, [0], []));
    var s2 := s1.(queue := Queue([], Runs(0), [0], [0]));
    var s3 := s2.(tasks := [Task(job, WantsToWrite)]);
    var s4 := s3.(tasks := [Task(job, WantsToStart)], locks := Locks(Some(0), None));
    var states := [s0, s1, s2, s3, s4, StartingFirst(job)];
    var inputs := [Spawn(job)] + START_RUN;
    assert forall i :: 0 <= i < |inputs| ==> Step(states[i], inputs[i]) == states[i + 1];
    RunUnfolds();
    Through(Step, Run, states, inputs);
  }

  lemma FirstIsSaved(job: Job)
    requires job.Say? && job.text != ""
    ensures Run(NewStore(true), [Spawn(job)] + FIRST_RUN) == SavedFirst(job)
  {
    hide Run, IsRun;
    FirstStarts(job);
    assert [Spawn(job)] + FIRST_RUN == ([Spawn(job)] + START_RUN) + (Turns(0, 4) + [WorkerTurn]);
    RunUnfolds();
    Concat(Step, Run, NewStore(true), [Spawn(job)] + START_RUN, Turns(0, 4) + [WorkerTurn]);
    FirstEnds(job);
  }

  lemma FirstEnds(job: Job)
    requires job.Say? && job.text != ""
    ensures Run(StartingFirst(job), Turns(0, 4) + [WorkerTurn]) == SavedFirst(job)
  {
    hide Run, IsRun;
    var s0, held := StartingFirst(job), Locks(Some(0), None);
    var s1 := s0.(tasks := [Task(job, Opening)]);
    var s2 := s1.(tasks := [Task(job, Announcing)], session := Session(true, true, true, 1));
    var s3 := s2.(tasks := [Task(job, Posting)], locks := held, ledger := SavedFirst(job).ledger);
    var s4 := s3.(tasks := [Task(job, Done)], locks := Locks(None, None));
    var states := [s0, s1, s2, s3, s4, SavedFirst(job)];
    var inputs := Turns(0, 4) + [WorkerTurn];
    assert forall i :: 0 <= i < |inputs| ==> Step(states[i], inputs[i]) == states[i + 1];
    RunUnfolds();
    Through(Step, Run, states, inputs);
  }

  const SECOND_RUN: seq<Input> := [WorkerTurn] + Turns(1, 3)

  lemma SecondIsSaved(first: Job, second: Job)
    requires first.Say? && second.Say? && second.text != "" && second.turn.None?
    requires (first.role, first.text) != (second.role, second.text)
    ensures Run(SavedFirst(first), [Spawn(second)] + SECOND_RUN).ledger.posts
            == [Post(first.role, first.text, first.turn, 1), Post(second.role, second.text, None, 2)]
  {
    hide Run, IsRun;
    var s0, done := SavedFirst(first), Task(first, Done);
    var s1 := s0.(tasks := [done, Task(second, Created)], queue := Queue([1], Between, [0, 1], [0]));
    var s2 := s1.(queue := Queue([], Runs(1), [0, 1], [0, 1]));
    var s3 := s2.(tasks := [done, Task(second, WantsToWrite)]);
    var s4 := s3.(tasks := [done, Task(second, WantsToStart)], locks := Locks(Some(1), None));
    var states := [s0, s1, s2, s3, s4, Step(s4, TaskTurn(1, true))];
    var inputs := [Spawn(second)] + SECOND_RUN;
    assert forall i :: 0 <= i < |inputs| ==> Step(states[i], inputs[i]) == states[i + 1];
    RunUnfolds();
    Through(Step, Run, states, inputs);
  }

  /** Such a clash can happen: a first message for a turn called 2 and a second one for no turn. */
  lemma KeysClashInARun()
    ensures var first, second := Say(User, "a", Some("2")), Say(User, "b", None);
            var posts := Run(NewStore(true), [Spawn(first)] + FIRST_RUN + ([Spawn(second)] + SECOND_RUN)).ledger.posts;
            |posts| == 2 && posts[0].text != posts[1].text && Identity(posts[0]) == Identity(posts[1])
  {
    hide Run, IsRun, SavedFirst;
    var first, second := Say(User, "a", Some("2")), Say(User, "b", None);
    RunUnfolds();
    Concat(Step, Run, NewStore(true), [Spawn(first)] + FIRST_RUN, [Spawn(second)] + SECOND_RUN);
    FirstIsSaved(first);
    assert "a"[0] != "b"[0];
    SecondIsSaved(first, second);
    assert Decimal(2) == [Digit(2)] == "2";
  }
}
