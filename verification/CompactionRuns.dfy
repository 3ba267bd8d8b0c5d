/** Runs of the conversation memory: any interleaving of writes, clears and completions
    between a compaction's snapshot and its own completion. */
module CompactionRuns {
  import opened Exchanges
  import opened PromptContext
  import opened Compaction
  import opened Runs
  import opened Wrappers

  /** The memory with its history since the last clear: the ids of the turns in creation order,
      and the turns that completed compactions replaced. */
  datatype Store = Store(turns: seq<Turn>, summary: Summary, epoch: nat, created: seq<string>, removed: seq<Turn>)

  datatype Op =
    | Written(id: string, write: Write)
    | Cleared
    | Completed(ticket: Ticket, reply: Option<Summary>)
  {
    /** Snapshots are never empty. */
    predicate Proper() {
      Completed? ==> ticket.ids != []
    }

    /** A tool write brings a request and the reply to one of its calls. */
    predicate Pairs() {
      Written? ==> write.Proper()
    }
  }

  /** A reply is `None` when the request failed, was cancelled or brought no summary at all. */
  predicate Accepts(s: Store, ticket: Ticket, reply: Option<Summary>) {
    Checked(reply).Some? && Unchanged(s.turns, s.epoch, ticket)
  }

  function Step(s: Store, op: Op): Store {
    match op
    case Written(id, write) =>
      var turns := Put(s.turns, id, write);
      s.(turns := turns, created := s.created + Ids(turns[|s.turns|..]))
    case Cleared => Store([], NO_SUMMARY, s.epoch + 1, [], [])
    case Completed(ticket, reply) =>
      if Accepts(s, ticket, reply) then
        var n := |ticket.ids|;
        s.(turns := s.turns[n..], summary := reply.value, removed := s.removed + s.turns[..n])
      else s
  }

  function Run(s: Store, ops: seq<Op>): Store
    decreases |ops|
  {
    if ops == [] then s else Run(Step(s, ops[0]), ops[1..])
  }

  const EMPTY := Store([], NO_SUMMARY, 0, [], [])

  ghost predicate Inv(s: Store) {
    && s.created == Ids(s.removed) + Ids(s.turns)
    && Distinct(Ids(s.turns))
  }

  ghost predicate AllProper(ops: seq<Op>) {
    forall i :: 0 <= i < |ops| ==> ops[i].Proper()
  }

  ghost predicate AllPairs(ops: seq<Op>) {
    forall i :: 0 <= i < |ops| ==> ops[i].Pairs()
  }

  // ---------- what every step keeps ----------

  lemma PutShape(turns: seq<Turn>, id: string, write: Write)
    requires Distinct(Ids(turns))
    ensures var after := Put(turns, id, write);
            && |turns| <= |after|
            && Ids(turns) <= Ids(after) && Distinct(Ids(after))
            && forall i :: 0 <= i < |turns| ==> |turns[i].messages| <= |after[i].messages|
  {
    var after := Put(turns, id, write);
    forall i, j | 0 <= i < j < |Ids(after)| ensures Ids(after)[i] != Ids(after)[j] {
      if j < |turns| { assert Ids(turns)[i] != Ids(turns)[j]; }
    }
  }

  lemma ApplyPaired(turn: Turn, write: Write)
    requires Paired(turn.messages) && write.Proper()
    ensures Paired(Apply(turn, write).messages)
  {
    match write
    case AddUser(text, _) => PairedConcat([User(text)], turn.messages);
    case AddTool(request, reply) => PairedConcat(turn.messages, [request, reply]);
    case AddAnswer(text, reasoning) => PairedConcat(turn.messages, [Assistant(text, reasoning)]);
    case Finish(_) =>
    case MarkListening(_) =>
  }

  lemma WriteKeepsInv(s: Store, id: string, write: Write)
    requires Inv(s)
    ensures Inv(Step(s, Written(id, write)))
  {
    hide Put;
    PutShape(s.turns, id, write);
    var after := Put(s.turns, id, write);
    IdsSplit(after, |s.turns|);
    assert Ids(after)[..|s.turns|] == Ids(s.turns);
  }

  lemma PutPaired(turns: seq<Turn>, id: string, write: Write)
    requires AllPaired(turns) && write.Proper()
    ensures AllPaired(Put(turns, id, write))
  {
    var p := Position(turns, id);
    ApplyPaired(if p >= 0 then turns[p] else Fresh(id), write);
  }

  lemma IdsSplit(turns: seq<Turn>, n: nat)
    requires n <= |turns|
    ensures Ids(turns) == Ids(turns[..n]) + Ids(turns[n..])
    ensures Ids(turns)[..n] == Ids(turns[..n])
    ensures Ids(turns)[n..] == Ids(turns[n..])
  {
  }

  lemma CompletionKeepsInv(s: Store, ticket: Ticket, reply: Option<Summary>)
    requires Inv(s) && Accepts(s, ticket, reply)
    ensures |ticket.ids| <= |s.turns|
    ensures Inv(Step(s, Completed(ticket, reply)))
  {
    hide ValidSummary;
    var n := |ticket.ids|;
    assert |Leading(s.turns, n)| == n;
    IdsSplit(s.turns, n);
    IdsSplit(s.removed + s.turns[..n], |s.removed|);
    assert (s.removed + s.turns[..n])[..|s.removed|] == s.removed;
    assert (s.removed + s.turns[..n])[|s.removed|..] == s.turns[..n];
    assert Ids(s.removed) + (Ids(s.turns[..n]) + Ids(s.turns[n..]))
        == Ids(s.removed + s.turns[..n]) + Ids(s.turns[n..]);
    assert Distinct(Ids(s.turns)[n..]);
  }

  lemma StepKeepsInv(s: Store, op: Op)
    requires Inv(s) && op.Proper()
    ensures Inv(Step(s, op))
  {
    match op
    case Written(id, write) => WriteKeepsInv(s, id, write);
    case Cleared =>
    case Completed(ticket, reply) =>
      if Accepts(s, ticket, reply) { CompletionKeepsInv(s, ticket, reply); }
  }

  lemma {:induction false} RunKeepsInv(s: Store, ops: seq<Op>)
    requires Inv(s) && AllProper(ops)
    ensures Inv(Run(s, ops))
    decreases |ops|
  {
    if ops != [] {
      StepKeepsInv(s, ops[0]);
      RunKeepsInv(Step(s, ops[0]), ops[1..]);
    }
  }

  lemma {:induction false} RunPairs(s: Store, ops: seq<Op>)
    requires AllPaired(s.turns) && AllPairs(ops)
    ensures AllPaired(Run(s, ops).turns)
    decreases |ops|
  {
    hide Put, Checked;
    if ops != [] {
      if ops[0].Written? { PutPaired(s.turns, ops[0].id, ops[0].write); }
      RunPairs(Step(s, ops[0]), ops[1..]);
    }
  }

  /** Since the last clear the turns ever created are, in order, those that compactions
      replaced followed by those still held; the ids held are distinct; tool replies stay
      with their requests when they were written with them. */
  lemma NothingIsLost(ops: seq<Op>)
    requires AllProper(ops)
    ensures var s := Run(EMPTY, ops);
            && s.created == Ids(s.removed) + Ids(s.turns)
            && Distinct(Ids(s.turns))
            && (AllPairs(ops) ==> AllPaired(s.turns))
  {
    RunKeepsInv(EMPTY, ops);
    if AllPairs(ops) { RunPairs(EMPTY, ops); }
  }

  /** In every run the summary is empty or keeps to the bounds of a summariser's reply. */
  lemma SummaryKeepsToBounds(ops: seq<Op>)
    ensures Run(EMPTY, ops).summary == NO_SUMMARY || WithinBounds(Run(EMPTY, ops).summary)
  {
    RunKeepsBounds(EMPTY, ops);
  }

  lemma {:induction false} RunKeepsBounds(s: Store, ops: seq<Op>)
    requires s.summary == NO_SUMMARY || WithinBounds(s.summary)
    ensures Run(s, ops).summary == NO_SUMMARY || WithinBounds(Run(s, ops).summary)
    decreases |ops|
  {
    hide WithinBounds, ValidSummary, Unchanged, Put;
    if ops != [] {
      if ops[0].Completed? { CheckedExactly(ops[0].reply); }
      RunKeepsBounds(Step(s, ops[0]), ops[1..]);
    }
  }

  // ---------- what a turn looks like ----------

  /** The caller's text comes first and once. */
  ghost predicate TextFirst(m: seq<Message>) {
    forall i :: 0 <= i < |m| && m[i].User? ==> i == 0
  }

  /** Each tool call is replied to once. */
  ghost predicate RepliedOnce(m: seq<Message>) {
    forall i, j :: 0 <= i < j < |m| && m[i].Reply? && m[j].Reply? ==> m[i].callId != m[j].callId
  }

  /** There is one answer if the turn was answered, and otherwise none. */
  ghost predicate AnsweredOnce(m: seq<Message>, answered: bool) {
    && (forall i, j :: 0 <= i < j < |m| ==> !(m[i].Assistant? && m[j].Assistant?))
    && (answered <==> exists i :: 0 <= i < |m| && m[i].Assistant?)
  }

  ghost predicate WellFormed(turn: Turn) {
    TextFirst(turn.messages) && RepliedOnce(turn.messages) && AnsweredOnce(turn.messages, turn.answered)
  }

  lemma PrependText(m: seq<Message>, text: string, answered: bool)
    requires RepliedOnce(m) && AnsweredOnce(m, answered) && forall i :: 0 <= i < |m| ==> !m[i].User?
    ensures var n := [User(text)] + m;
            TextFirst(n) && RepliedOnce(n) && AnsweredOnce(n, answered) && n[0].User?
  {
    var n := [User(text)] + m;
    assert forall i :: 0 <= i < |m| ==> n[i + 1] == m[i];
  }

  lemma AppendTool(m: seq<Message>, request: Message, reply: Message, answered: bool)
    requires TextFirst(m) && RepliedOnce(m) && AnsweredOnce(m, answered) && request.Request? && reply.Reply?
    requires forall i :: 0 <= i < |m| && m[i].Reply? ==> m[i].callId != reply.callId
    ensures var n := m + [request, reply];
            TextFirst(n) && RepliedOnce(n) && AnsweredOnce(n, answered) && n[|m| + 1] == reply
  {
    var n := m + [request, reply];
    assert forall i :: 0 <= i < |m| ==> n[i] == m[i];
  }

  lemma AppendAnswer(m: seq<Message>, text: string, reasoning: string)
    requires TextFirst(m) && RepliedOnce(m) && AnsweredOnce(m, false)
    ensures var n := m + [Assistant(text, reasoning)];
            TextFirst(n) && RepliedOnce(n) && AnsweredOnce(n, true)
  {
    var n := m + [Assistant(text, reasoning)];
    assert n[|m|].Assistant?;
  }

  lemma InterruptionKeepsForm(m: seq<Message>, answered: bool)
    requires TextFirst(m) && RepliedOnce(m) && AnsweredOnce(m, answered)
    ensures var n := NoteInterruption(m);
            TextFirst(n) && RepliedOnce(n) && AnsweredOnce(n, answered)
  {
    var n := NoteInterruption(m);
    assert forall i :: 0 <= i < |m| ==>
      && n[i].Assistant? == m[i].Assistant? && n[i].User? == m[i].User?
      && (m[i].Reply? ==> n[i].Reply? && n[i].callId == m[i].callId);
  }

  /** Each write keeps a turn well formed and has its effect, whether or not it came before. */
  lemma ApplyWellFormed(turn: Turn, write: Write)
    requires WellFormed(turn) && write.Proper()
    ensures WellFormed(Apply(turn, write))
    ensures write.AddUser? ==> HasUser(Apply(turn, write))
    ensures write.AddTool? ==> HasReply(Apply(turn, write), write.reply.callId)
    ensures write.AddAnswer? ==> Apply(turn, write).answered
    ensures write.Finish? ==> Apply(turn, write).closed
  {
    hide TextFirst, RepliedOnce, AnsweredOnce, NoteInterruption;
    var m, answered := turn.messages, turn.answered;
    match write
    case AddUser(text, _) => if !HasUser(turn) { PrependText(m, text, answered); }
    case AddTool(request, reply) => if !HasReply(turn, reply.callId) { AppendTool(m, request, reply, answered); }
    case AddAnswer(text, reasoning) => if !answered { AppendAnswer(m, text, reasoning); }
    case Finish(_) => InterruptionKeepsForm(m, answered);
    case MarkListening(_) =>
  }

  ghost predicate AllWellFormed(turns: seq<Turn>) {
    forall i :: 0 <= i < |turns| ==> WellFormed(turns[i])
  }

  lemma StepWellFormed(s: Store, op: Op)
    requires AllWellFormed(s.turns) && op.Pairs()
    ensures AllWellFormed(Step(s, op).turns)
  {
    hide WellFormed, Apply;
    if op.Written? {
      FreshWellFormed(op.id);
      var p := Position(s.turns, op.id);
      ApplyWellFormed(if p >= 0 then s.turns[p] else Fresh(op.id), op.write);
    }
  }

  lemma FreshWellFormed(id: string)
    ensures WellFormed(Fresh(id))
  {
  }

  lemma {:induction false} RunWellFormed(s: Store, ops: seq<Op>)
    requires AllWellFormed(s.turns) && AllPairs(ops)
    ensures AllWellFormed(Run(s, ops).turns)
    decreases |ops|
  {
    hide AllWellFormed, Step;
    if ops != [] {
      StepWellFormed(s, ops[0]);
      RunWellFormed(Step(s, ops[0]), ops[1..]);
    }
  }

  /** In every run each turn holds the caller's text at most once and first, one reply for each tool
      call, and one answer if it was answered and none otherwise. */
  lemma TurnsAreWellFormed(ops: seq<Op>)
    requires AllPairs(ops)
    ensures AllWellFormed(Run(EMPTY, ops).turns)
  {
    RunWellFormed(EMPTY, ops);
  }

  // ---------- what a run may change ----------

  /** How a later store of the same epoch relates to an earlier one. */
  ghost predicate Later(s: Store, t: Store) {
    && s.epoch <= t.epoch
    && (s.epoch == t.epoch ==> s.created <= t.created && s.removed <= t.removed)
    && (s.epoch == t.epoch && |s.removed| == |t.removed| ==> s.summary == t.summary && Grown(s.turns, t.turns))
  }

  ghost predicate Grown(a: seq<Turn>, b: seq<Turn>) {
    && |a| <= |b|
    && forall i :: 0 <= i < |a| ==> a[i].id == b[i].id && |a[i].messages| <= |b[i].messages|
  }

  lemma StepIsLater(s: Store, op: Op)
    requires Inv(s) && op.Proper()
    ensures Later(s, Step(s, op))
  {
    match op
    case Written(id, write) =>
      PutShape(s.turns, id, write);
      forall i | 0 <= i < |s.turns| ensures s.turns[i].id == Step(s, op).turns[i].id {
        assert Ids(s.turns)[i] == Ids(Step(s, op).turns)[i];
      }
    case Cleared =>
    case Completed(ticket, reply) =>
      if Accepts(s, ticket, reply) { assert |Leading(s.turns, |ticket.ids|)| == |ticket.ids|; }
  }

  lemma LaterTransitive(s: Store, t: Store, u: Store)
    requires Later(s, t) && Later(t, u)
    ensures Later(s, u)
  {
  }

  lemma {:induction false} RunIsLater(s: Store, ops: seq<Op>)
    requires Inv(s) && AllProper(ops)
    ensures Later(s, Run(s, ops))
    decreases |ops|
  {
    if ops != [] {
      StepKeepsInv(s, ops[0]);
      StepIsLater(s, ops[0]);
      RunIsLater(Step(s, ops[0]), ops[1..]);
      LaterTransitive(s, Step(s, ops[0]), Run(s, ops));
    }
  }

  // ---------- the completion of a snapshot ----------

  /** The ticket was issued for the leading turns of `s`. */
  ghost predicate IssuedAt(s: Store, ticket: Ticket) {
    var n := |ticket.ids|;
    && 1 <= n <= |s.turns|
    && ticket == Ticket(Ids(s.turns[..n]), s.epoch, Messages(s.turns[..n], false), s.summary)
  }

  lemma SnapshotIsIssued(s: Store, limit: int, recentExchanges: int)
    requires Snapshot(s.turns, s.summary, s.epoch, limit, recentExchanges).Some?
    ensures IssuedAt(s, Snapshot(s.turns, s.summary, s.epoch, limit, recentExchanges).value)
  {
    SelectsWholeExchanges(Weigh, s.turns, limit, recentExchanges);
    var prefix := Selected(Weigh, Groups(s.turns), limit, recentExchanges);
    assert s.turns[..|prefix|] == prefix;
  }

  /** A completion that succeeds replaces exactly the messages the summariser was sent, takes
      them from the front and leaves every later turn in place. */
  lemma CompletionIsExact(s: Store, ops: seq<Op>, ticket: Ticket, reply: Option<Summary>)
    requires Inv(s) && AllProper(ops) && IssuedAt(s, ticket)
    requires Accepts(Run(s, ops), ticket, reply)
    ensures var before := Run(s, ops);
            var after := Step(before, Completed(ticket, reply));
            var n := |ticket.ids|;
            && n <= |before.turns|
            && after.removed == before.removed + before.turns[..n]
            && before.turns == before.turns[..n] + after.turns
            && Messages(before.turns[..n], false) == ticket.snapshot == Messages(s.turns[..n], false)
            && after.created == before.created && s.created <= after.created
            && reply == Some(after.summary)
  {
    hide Run, Messages, Inv, ValidSummary;
    RunIsLater(s, ops);
    var before := Run(s, ops);
    assert |Leading(before.turns, |ticket.ids|)| == |ticket.ids|;
  }

  /** The first turn of the snapshot was created once more after it. */
  ghost predicate Recreated(s: Store, t: Store, ticket: Ticket) {
    ticket.ids != [] && |s.created| <= |t.created| && ticket.ids[0] in t.created[|s.created|..]
  }

  /** A snapshot found unchanged means that no other compaction completed in between, exactly
      unless its first turn was created once more. */
  lemma NoOtherCompaction(s: Store, ops: seq<Op>, ticket: Ticket)
    requires Inv(s) && AllProper(ops) && IssuedAt(s, ticket)
    requires var t := Run(s, ops); Unchanged(t.turns, t.epoch, ticket)
    ensures var t := Run(s, ops);
            t.removed == s.removed <==> !Recreated(s, t, ticket)
  {
    hide Run, Unchanged;
    var t := Run(s, ops);
    RunKeepsInv(s, ops);
    RunIsLater(s, ops);
    FirstIds(s, t, ticket);
    if t.removed == s.removed {
      forall k | |s.created| <= k < |t.created| ensures t.created[k] != ticket.ids[0] {
        assert t.created[k] == Ids(t.turns)[k - |t.removed|];
        assert t.created[|t.removed|] == Ids(t.turns)[0];
      }
    } else if |t.removed| >= |s.created| {
      assert t.created[|s.created|..][|t.removed| - |s.created|] == ticket.ids[0];
    }
  }

  /** Where the first turn of the snapshot stands in either history. */
  lemma FirstIds(s: Store, t: Store, ticket: Ticket)
    requires Inv(s) && Inv(t) && Later(s, t) && IssuedAt(s, ticket) && Unchanged(t.turns, t.epoch, ticket)
    ensures t.epoch == s.epoch && s.removed <= t.removed && s.created <= t.created
    ensures |s.removed| < |s.created| && |t.removed| < |t.created|
    ensures s.created[|s.removed|] == ticket.ids[0] == t.created[|t.removed|]
  {
    var n := |ticket.ids|;
    assert |Leading(t.turns, n)| == n;
    assert Ids(s.turns)[..n] == Ids(s.turns[..n]);
    assert Ids(t.turns)[..n] == Ids(t.turns[..n]);
    assert Ids(s.turns)[0] == ticket.ids[0] == Ids(t.turns)[0];
  }

  /** Equal flattened messages of turns that only grew are equal turn by turn. */
  lemma {:induction false} EqualTurnByTurn(a: seq<Turn>, b: seq<Turn>)
    requires |a| == |b| && Grown(a, b) && Messages(a, false) == Messages(b, false)
    ensures forall i :: 0 <= i < |a| ==> a[i].ShownAll(false) == b[i].ShownAll(false)
  {
    if a != [] {
      var n := |a| - 1;
      var a', b' := a[..n], b[..n];
      MessagesGrow(a', b');
      var la, lb := a[n].ShownAll(false), b[n].ShownAll(false);
      assert Messages(a', false) + la == Messages(b', false) + lb;
      assert |la| == |lb|;
      assert Messages(a', false) == (Messages(a', false) + la)[..|Messages(a', false)|];
      assert la == (Messages(a', false) + la)[|Messages(a', false)|..];
      EqualTurnByTurn(a', b');
      forall i | 0 <= i < |a| ensures a[i].ShownAll(false) == b[i].ShownAll(false) {
        if i < n { assert a'[i].ShownAll(false) == b'[i].ShownAll(false); }
      }
    }
  }

  lemma {:induction false} MessagesGrow(a: seq<Turn>, b: seq<Turn>)
    requires |a| == |b| && Grown(a, b)
    ensures |Messages(a, false)| <= |Messages(b, false)|
  {
    if a != [] { MessagesGrow(a[..|a| - 1], b[..|b| - 1]); }
  }

  /** A completion with a valid summary succeeds, without its first turn having been created once
      more, exactly when nothing was cleared, no other compaction completed, and no write changed
      what the model would be shown of any selected turn; the summary it replaces is then the one
      that was merged into it. Ids that are never reused are enough. */
  lemma CompletionSucceedsExactly(s: Store, ops: seq<Op>, ticket: Ticket, reply: Option<Summary>)
    requires Inv(s) && AllProper(ops) && IssuedAt(s, ticket) && reply.Some? && WithinBounds(reply.value)
    ensures var t := Run(s, ops);
            var n := |ticket.ids|;
            && (Accepts(t, ticket, reply) && !Recreated(s, t, ticket) <==>
                  && t.epoch == s.epoch
                  && t.removed == s.removed
                  && |t.turns| >= n
                  && forall i :: 0 <= i < n ==> t.turns[i].ShownAll(false) == s.turns[i].ShownAll(false))
            && (Accepts(t, ticket, reply) && !Recreated(s, t, ticket) ==> t.summary == s.summary == ticket.previous)
            && (Accepts(t, ticket, reply) && Distinct(t.created) ==> !Recreated(s, t, ticket))
  {
    hide Run, Unchanged, WithinBounds;
    var t := Run(s, ops);
    var n := |ticket.ids|;
    CheckedExactly(reply);
    RunKeepsInv(s, ops);
    RunIsLater(s, ops);
    if Accepts(t, ticket, reply) {
      NoOtherCompaction(s, ops, ticket);
      FirstIds(s, t, ticket);
      if !Recreated(s, t, ticket) { SameTurns(s, t, ticket); }
    }
    if t.epoch == s.epoch && t.removed == s.removed && |t.turns| >= n
       && forall i :: 0 <= i < n ==> t.turns[i].ShownAll(false) == s.turns[i].ShownAll(false) {
      UntouchedIsUnchanged(s, t, ticket);
      NoOtherCompaction(s, ops, ticket);
    }
  }

  lemma SameTurns(s: Store, t: Store, ticket: Ticket)
    requires IssuedAt(s, ticket) && Later(s, t) && t.removed == s.removed && Unchanged(t.turns, t.epoch, ticket)
    ensures |t.turns| >= |ticket.ids| && t.summary == s.summary
    ensures forall i :: 0 <= i < |ticket.ids| ==> t.turns[i].ShownAll(false) == s.turns[i].ShownAll(false)
  {
    var n := |ticket.ids|;
    assert |Leading(t.turns, n)| == n;
    EqualTurnByTurn(s.turns[..n], t.turns[..n]);
    forall i | 0 <= i < n ensures t.turns[i].ShownAll(false) == s.turns[i].ShownAll(false) {
      assert s.turns[..n][i] == s.turns[i] && t.turns[..n][i] == t.turns[i];
    }
  }

  lemma UntouchedIsUnchanged(s: Store, t: Store, ticket: Ticket)
    requires IssuedAt(s, ticket) && Later(s, t) && t.epoch == s.epoch && t.removed == s.removed
    requires |t.turns| >= |ticket.ids|
    requires forall i :: 0 <= i < |ticket.ids| ==> t.turns[i].ShownAll(false) == s.turns[i].ShownAll(false)
    ensures Unchanged(t.turns, t.epoch, ticket)
  {
    var n := |ticket.ids|;
    SameShown(s.turns[..n], t.turns[..n]);
    assert Ids(t.turns[..n]) == Ids(s.turns[..n]);
  }

  lemma {:induction false} SameShown(a: seq<Turn>, b: seq<Turn>)
    requires |a| == |b| && forall i :: 0 <= i < |a| ==> a[i].ShownAll(false) == b[i].ShownAll(false)
    ensures Messages(a, false) == Messages(b, false)
  {
    if a != [] { SameShown(a[..|a| - 1], b[..|b| - 1]); }
  }

  // ---------- a reused id ----------

  /** A turn that was only listened to, and is finished: an exchange of its own. */
  function Heard(id: string): Turn {
    Turn(id, [User("x")], true, false, false, true)
  }

  function Hear(id: string): seq<Op> {
    [Written(id, AddUser("x", true)), Written(id, Finish(false))]
  }

  lemma RunUnfolds()
    ensures IsRun(Step, Run)
  {
    hide Step;
  }

  lemma HearRuns(s: Store, id: string)
    requires Position(s.turns, id) < 0
    ensures Run(s, Hear(id)) == s.(turns := s.turns + [Heard(id)], created := s.created + [id])
  {
    hide Position, Run;
    var begun := Apply(Fresh(id), AddUser("x", true));
    var s1 := Step(s, Hear(id)[0]);
    assert begun == Heard(id).(closed := false);
    assert s1.turns == s.turns + [begun];
    assert s1.turns[|s.turns|..] == [begun] && Ids([begun]) == [id];
    LastPosition(s.turns, begun);
    var s2 := Step(s1, Hear(id)[1]);
    assert s2.turns == s.turns + [Heard(id)];
    assert s2.turns[|s1.turns|..] == [] && s1.created + Ids([]) == s1.created;
    RunPair(s, Hear(id));
  }

  lemma LastPosition(turns: seq<Turn>, turn: Turn)
    ensures Position(turns + [turn], turn.id) == |turns|
  {
  }

  lemma RunPair(s: Store, ops: seq<Op>)
    requires |ops| == 2
    ensures Run(s, ops) == Step(Step(s, ops[0]), ops[1])
  {
    hide Step;
    assert ops[1..][1..] == [];
    assert Run(Step(s, ops[0]), ops[1..]) == Step(Step(s, ops[0]), ops[1]);
  }

  /** Of three such exchanges a compaction takes the first. */
  lemma FirstOfThree(a: string, b: string, c: string, summary: Summary, epoch: nat, limit: int)
    requires Weigh([Heard(a)]) <= limit
    ensures Snapshot([Heard(a), Heard(b), Heard(c)], summary, epoch, limit, 2)
            == Some(Ticket([a], epoch, Messages([Heard(a)], false), summary))
  {
    hide Weigh;
    var groups := [[Heard(a)], [Heard(b)], [Heard(c)]];
    var turns := [Heard(a), Heard(b), Heard(c)];
    assert Flatten(groups) == turns by { FlattenThree(groups); }
    GroupsCharacterised(groups, turns);
    assert groups[..1] == [[Heard(a)]];
    FlattenOne([Heard(a)]);
    GroupsCharacterised([[Heard(a)]], [Heard(a)]);
    assert [[Heard(a)]][..1] == [[Heard(a)]];
    assert Affordable(Weigh, [[Heard(a)]], limit, 0) == 1;
    assert Ids([Heard(a)]) == [a];
  }

  lemma FlattenOne(group: seq<Turn>)
    ensures Flatten([group]) == group
  {
    assert [group][1..] == [] && group + [] == group;
  }

  lemma FlattenThree(groups: seq<seq<Turn>>)
    requires |groups| == 3
    ensures Flatten(groups) == groups[0] + groups[1] + groups[2]
  {
    assert groups[1..][1..] == [groups[2]];
    FlattenOne(groups[2]);
    assert Flatten(groups[1..]) == groups[1] + groups[2];
  }

  const SAID := [User(LISTENING_PREFIX + "x")]

  lemma HeardMessages(id: string)
    ensures Messages([Heard(id)], false) == SAID
  {
    assert [Heard(id)][..0] == [];
    assert Heard(id).ShownAll(false) == SAID;
  }

  /** A snapshot of three such exchanges, and its completion at once. */
  lemma CompactFirst(s: Store, a: string, b: string, c: string, reply: Summary, limit: int)
    requires s.turns == [Heard(a), Heard(b), Heard(c)] && Tokens(SAID) <= limit && ValidSummary(reply)
    ensures var ticket := Ticket([a], s.epoch, SAID, s.summary);
            && Snapshot(s.turns, s.summary, s.epoch, limit, 2) == Some(ticket)
            && Step(s, Completed(ticket, Some(reply)))
               == s.(turns := [Heard(b), Heard(c)], summary := reply, removed := s.removed + [Heard(a)])
  {
    hide Snapshot, Messages, Tokens, ValidSummary;
    HeardMessages(a);
    FirstOfThree(a, b, c, s.summary, s.epoch, limit);
    assert s.turns[..1] == [Heard(a)] && s.turns[1..] == [Heard(b), Heard(c)];
    assert Ids([Heard(a)]) == [a];
  }

  lemma CompactThenHear(s: Store, a: string, b: string, c: string, d: string, reply: Summary, limit: int)
    requires s.turns == [Heard(a), Heard(b), Heard(c)] && Tokens(SAID) <= limit && ValidSummary(reply)
    requires d != b && d != c
    ensures var ticket := Ticket([a], s.epoch, SAID, s.summary);
            && Snapshot(s.turns, s.summary, s.epoch, limit, 2) == Some(ticket)
            && Run(s, [Completed(ticket, Some(reply))] + Hear(d))
               == s.(turns := [Heard(b), Heard(c), Heard(d)], summary := reply, created := s.created + [d],
                     removed := s.removed + [Heard(a)])
  {
    hide Snapshot, Step, Tokens, ValidSummary;
    CompactFirst(s, a, b, c, reply, limit);
    var op := Completed(Ticket([a], s.epoch, SAID, s.summary), Some(reply));
    var t := Step(s, op);
    assert ([op] + Hear(d))[1..] == Hear(d);
    assert [Heard(b), Heard(c)][..1] == [Heard(b)] && [Heard(b)][..0] == [];
    HearRuns(t, d);
    assert [Heard(b), Heard(c)] + [Heard(d)] == [Heard(b), Heard(c), Heard(d)];
  }

  lemma ThreeHeard()
    ensures Run(EMPTY, Hear("1") + Hear("2") + Hear("3"))
            == Store([Heard("1"), Heard("2"), Heard("3")], NO_SUMMARY, 0, ["1", "2", "3"], [])
  {
    hide Run, Hear, Heard, Position;
    RunUnfolds();
    Concat(Step, Run, EMPTY, Hear("1") + Hear("2"), Hear("3"));
    Concat(Step, Run, EMPTY, Hear("1"), Hear("2"));
    HearRuns(EMPTY, "1");
    var s1 := Store([Heard("1")], NO_SUMMARY, 0, ["1"], []);
    assert [] + [Heard("1")] == [Heard("1")] && [] + ["1"] == ["1"];
    NotYetHeard(["1"], "2");
    HearRuns(s1, "2");
    var s2 := Store([Heard("1"), Heard("2")], NO_SUMMARY, 0, ["1", "2"], []);
    assert s1.turns + [Heard("2")] == s2.turns && s1.created + ["2"] == s2.created;
    NotYetHeard(["1", "2"], "3");
    HearRuns(s2, "3");
    assert s2.turns + [Heard("3")] == [Heard("1"), Heard("2"), Heard("3")];
    assert s2.created + ["3"] == ["1", "2", "3"];
  }

  lemma NotYetHeard(ids: seq<string>, id: string)
    requires |ids| <= 2 && forall i :: 0 <= i < |ids| ==> ids[i] != id
    ensures |ids| == 1 ==> Position([Heard(ids[0])], id) < 0
    ensures |ids| == 2 ==> Position([Heard(ids[0]), Heard(ids[1])], id) < 0
  {
    hide Position;
  }

  /** The compactions of the run below: each removes the first of three exchanges. */
  function Removal(id: string, previous: Summary, reply: Summary): Op {
    Completed(Ticket([id], 0, SAID, previous), Some(reply))
  }

  function ReusingRun(later: Summary): seq<Op> {
    [Removal("1", NO_SUMMARY, later)] + Hear("1") + ([Removal("2", later, later)] + Hear("4"))
    + [Removal("3", later, later)]
  }

  /** Why an id must not be reused: a snapshot is taken twice, one of the two completes, the turn it
      replaced is written again word for word, and later compactions, each of them completing a
      snapshot of its moment, bring that turn to the front. The other completion then succeeds and
      puts its reply, made without the other summary, in place of it. */
  lemma ReusedIdLosesASummary(limit: int, later: Summary, reply: Summary)
    requires Tokens(SAID) <= limit && ValidSummary(later) && ValidSummary(reply) && reply != later
    ensures var s := Run(EMPTY, Hear("1") + Hear("2") + Hear("3"));
            var a := Run(s, [Removal("1", NO_SUMMARY, later)] + Hear("1"));
            var b := Run(a, [Removal("2", later, later)] + Hear("4"));
            var t := Run(s, ReusingRun(later));
            && Some(Removal("1", NO_SUMMARY, later).ticket) == Snapshot(s.turns, s.summary, s.epoch, limit, 2)
            && Some(Removal("2", later, later).ticket) == Snapshot(a.turns, a.summary, a.epoch, limit, 2)
            && Some(Removal("3", later, later).ticket) == Snapshot(b.turns, b.summary, b.epoch, limit, 2)
            && t == Step(b, Removal("3", later, later))
            && t.summary == later && t.turns == [Heard("1"), Heard("4")] && t.removed != s.removed
            && Step(t, Removal("1", NO_SUMMARY, reply))
               == t.(turns := [Heard("4")], summary := reply, removed := t.removed + [Heard("1")])
  {
    hide Run, Step, Hear, Snapshot, Tokens, ValidSummary;
    ThreeHeard();
    var s := Store([Heard("1"), Heard("2"), Heard("3")], NO_SUMMARY, 0, ["1", "2", "3"], []);
    CompactThenHear(s, "1", "2", "3", "1", later, limit);
    var a := Run(s, [Removal("1", NO_SUMMARY, later)] + Hear("1"));
    CompactThenHear(a, "2", "3", "1", "4", later, limit);
    var b := Run(a, [Removal("2", later, later)] + Hear("4"));
    CompactFirst(b, "3", "1", "4", later, limit);
    var t := Step(b, Removal("3", later, later));
    var first, second := [Removal("1", NO_SUMMARY, later)] + Hear("1"), [Removal("2", later, later)] + Hear("4");
    RunUnfolds();
    Concat(Step, Run, s, first + second, [Removal("3", later, later)]);
    Concat(Step, Run, s, first, second);
    RunOne(b, Removal("3", later, later));
    assert t.turns == [Heard("1"), Heard("4")];
    AcceptsFirst(t, "1", "4", reply);
  }

  lemma AcceptsFirst(s: Store, a: string, b: string, reply: Summary)
    requires s.turns == [Heard(a), Heard(b)] && s.epoch == 0 && ValidSummary(reply)
    ensures Step(s, Removal(a, NO_SUMMARY, reply))
            == s.(turns := [Heard(b)], summary := reply, removed := s.removed + [Heard(a)])
  {
    hide Messages, Put, ValidSummary;
    HeardMessages(a);
    assert s.turns[..1] == [Heard(a)] && s.turns[1..] == [Heard(b)];
    assert Ids([Heard(a)]) == [a];
  }

  lemma RunOne(s: Store, op: Op)
    ensures Run(s, [op]) == Step(s, op)
  {
    hide Step;
    assert [op][1..] == [];
  }
}
