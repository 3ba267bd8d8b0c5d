/** Writes to the conversation memory, and summaries that replace its oldest exchanges
    while other writes keep arriving. */
module Compaction {
  import opened JsonText
  import opened Exchanges
  import opened PromptContext
  import opened Wrappers

  function Ids(turns: seq<Turn>): (ids: seq<string>)
    ensures |ids| == |turns|
  {
    seq(|turns|, i requires 0 <= i < |turns| => turns[i].id)
  }

  ghost predicate Distinct(ids: seq<string>) {
    forall i, j :: 0 <= i < j < |ids| ==> ids[i] != ids[j]
  }

  // ---------- writes to one turn ----------

  datatype Write =
    | AddUser(text: string, listening: bool)
    | AddTool(request: Message, reply: Message)
    | AddAnswer(text: string, reasoning: string)
    | Finish(interrupted: bool)
    | MarkListening(listening: bool)
  {
    /** Tool messages come as a request and the reply that answers one of its calls. */
    predicate Proper() {
      AddTool? ==> reply.Reply? && request.Asks(reply.callId)
    }
  }

  const INTERRUPTION := "\n[Response interrupted; the caller may not have heard it in full.]"

  function Fresh(id: string): Turn {
    Turn(id, [], false, false, false, false)
  }

  predicate HasUser(turn: Turn) {
    exists i :: 0 <= i < |turn.messages| && turn.messages[i].User?
  }

  predicate HasReply(turn: Turn, callId: string) {
    exists i :: 0 <= i < |turn.messages| && turn.messages[i].Reply? && turn.messages[i].callId == callId
  }

  function Apply(turn: Turn, write: Write): (t: Turn)
    ensures t.id == turn.id && |t.messages| >= |turn.messages|
  {
    match write
    case AddUser(text, listening) =>
      if HasUser(turn) then turn
      else turn.(messages := [User(text)] + turn.messages, listeningOnly := listening)
    case AddTool(request, reply) =>
      if !reply.Reply? || HasReply(turn, reply.callId) then turn
      else turn.(messages := turn.messages + [request, reply])
    case AddAnswer(text, reasoning) =>
      if turn.answered then turn
      else turn.(messages := turn.messages + [Assistant(text, reasoning)], answered := true)
    case Finish(interrupted) =>
      if interrupted && !turn.interrupted then
        turn.(closed := true, interrupted := true,
              messages := if turn.answered then NoteInterruption(turn.messages) else turn.messages)
      else turn.(closed := true)
    case MarkListening(listening) => turn.(listeningOnly := listening)
  }

  function NoteInterruption(messages: seq<Message>): (r: seq<Message>)
    ensures |r| == |messages|
  {
    if messages == [] then []
    else
      var last := messages[|messages| - 1];
      messages[|messages| - 1 := last.(content := last.content + INTERRUPTION)]
  }

  /** Position of the turn with an id, or -1. */
  function Position(turns: seq<Turn>, id: string): (p: int)
    ensures -1 <= p < |turns|
    ensures p >= 0 ==> turns[p].id == id
    ensures p < 0 ==> forall i :: 0 <= i < |turns| ==> turns[i].id != id
  {
    if turns == [] then -1
    else if turns[|turns| - 1].id == id then |turns| - 1
    else Position(turns[..|turns| - 1], id)
  }

  /** A write reaches the turn with its id; every write but `Finish` creates a missing turn. */
  function Put(turns: seq<Turn>, id: string, write: Write): seq<Turn> {
    var p := Position(turns, id);
    if p >= 0 then turns[p := Apply(turns[p], write)]
    else if write.Finish? then turns
    else turns + [Apply(Fresh(id), write)]
  }

  // ---------- a compaction: snapshot, then completion ----------

  datatype Ticket = Ticket(ids: seq<string>, epoch: nat, snapshot: seq<Message>, previous: Summary)

  function Keep(recentExchanges: int): nat {
    if recentExchanges < 2 then 2 else recentExchanges
  }

  /** Size of the request that would carry some turns. */
  function Weigh(turns: seq<Turn>): nat {
    Tokens(Messages(turns, false))
  }

  /** Leading exchanges that together stay within the request limit. */
  function Affordable(weigh: seq<Turn> -> nat, groups: seq<seq<Turn>>, limit: int, k: nat): (n: nat)
    requires k <= |groups|
    ensures k <= n <= |groups|
    decreases |groups| - k
  {
    if k < |groups| && weigh(Flatten(groups[..k + 1])) <= limit
    then Affordable(weigh, groups, limit, k + 1) else k
  }

  predicate AllClosed(turns: seq<Turn>) {
    forall i :: 0 <= i < |turns| ==> turns[i].closed
  }

  /** The turns one compaction would replace; none when there is nothing to compact. */
  function Selected(weigh: seq<Turn> -> nat, groups: seq<seq<Turn>>, limit: int, recentExchanges: int): seq<Turn> {
    var keep := Keep(recentExchanges);
    if |groups| <= keep then []
    else
      var eligible := Flatten(groups[..|groups| - keep]);
      if eligible == [] || !AllClosed(eligible) then []
      else
        var again := Groups(eligible);
        Flatten(again[..Affordable(weigh, again, limit, 0)])
  }

  function Snapshot(turns: seq<Turn>, summary: Summary, epoch: nat, limit: int, recentExchanges: int): Option<Ticket>
  {
    var prefix := Selected(Weigh, Groups(turns), limit, recentExchanges);
    if prefix == [] then None else Some(Ticket(Ids(prefix), epoch, Messages(prefix, false), summary))
  }

  predicate ShortItems(items: seq<string>) {
    |items| <= 12 && forall i :: 0 <= i < |items| ==> |items[i]| <= 600
  }

  predicate ValidSummary(summary: Summary) {
    && !summary.Empty()
    && ShortItems(summary.topics) && ShortItems(summary.facts)
    && ShortItems(summary.corrections) && ShortItems(summary.openQuestions)
    && EstimatedTokens(summary.Dump()) <= 1200
  }

  /** A summariser reply counts only when it is a valid summary. */
  function Checked(reply: Option<Summary>): Option<Summary> {
    if reply.Some? && ValidSummary(reply.value) then reply else None
  }

  /** What a reply must keep to: something in it, at most 12 items of 600 characters in each list,
      and at most 3600 bytes in all. */
  ghost predicate WithinBounds(summary: Summary) {
    && (summary.topics != [] || summary.facts != [] || summary.corrections != [] || summary.openQuestions != [])
    && |summary.topics| <= 12 && |summary.facts| <= 12
    && |summary.corrections| <= 12 && |summary.openQuestions| <= 12
    && (forall item <- summary.topics :: |item| <= 600) && (forall item <- summary.facts :: |item| <= 600)
    && (forall item <- summary.corrections :: |item| <= 600) && (forall item <- summary.openQuestions :: |item| <= 600)
    && Utf8Length(summary.Dump()) <= 3600
  }

  lemma CheckedExactly(reply: Option<Summary>)
    ensures Checked(reply) == if reply.Some? && WithinBounds(reply.value) then reply else None
  {
    hide Summary.Dump, Utf8Length;
    if reply.Some? && WithinBounds(reply.value) { assert ValidSummary(reply.value); }
  }

  function Leading(turns: seq<Turn>, n: nat): seq<Turn> {
    if n <= |turns| then turns[..n] else turns
  }

  /** The snapshot is still what the memory starts with. */
  predicate Unchanged(turns: seq<Turn>, epoch: nat, ticket: Ticket) {
    var current := Leading(turns, |ticket.ids|);
    epoch == ticket.epoch && Ids(current) == ticket.ids && Messages(current, false) == ticket.snapshot
  }

  /** The memory starts with turns of the ticket's ids that show its messages. */
  ghost predicate StillLeads(turns: seq<Turn>, epoch: nat, ticket: Ticket) {
    var n := |ticket.ids|;
    && epoch == ticket.epoch && n <= |turns|
    && (forall i :: 0 <= i < n ==> turns[i].id == ticket.ids[i])
    && Messages(turns[..n], false) == ticket.snapshot
  }

  lemma UnchangedExactly(turns: seq<Turn>, epoch: nat, ticket: Ticket)
    ensures Unchanged(turns, epoch, ticket) <==> StillLeads(turns, epoch, ticket)
  {
    var n := |ticket.ids|;
    assert Unchanged(turns, epoch, ticket) ==> |Leading(turns, n)| == n;
    if n <= |turns| && forall i :: 0 <= i < n ==> turns[i].id == ticket.ids[i] {
      assert Ids(turns[..n]) == ticket.ids;
    }
    if Unchanged(turns, epoch, ticket) {
      assert forall i :: 0 <= i < n ==> Ids(turns[..n])[i] == turns[i].id;
    }
  }

  // ---------- what a snapshot selects ----------

  lemma {:induction false} AffordableFits(weigh: seq<Turn> -> nat, groups: seq<seq<Turn>>, limit: int, k: nat)
    requires k <= |groups| && (k == 0 || weigh(Flatten(groups[..k])) <= limit)
    ensures var n := Affordable(weigh, groups, limit, k);
            && (n == 0 || weigh(Flatten(groups[..n])) <= limit)
            && (n == |groups| || weigh(Flatten(groups[..n + 1])) > limit)
    decreases |groups| - k
  {
    if k < |groups| && weigh(Flatten(groups[..k + 1])) <= limit {
      AffordableFits(weigh, groups, limit, k + 1);
    }
  }

  /** Leading exchanges of a history, fully closed, as many as one request may carry,
      with at least the configured number of recent exchanges left over. */
  ghost predicate WholeExchanges(weigh: seq<Turn> -> nat, groups: seq<seq<Turn>>, limit: int, recentExchanges: int,
                                 prefix: seq<Turn>, k: nat)
  {
    && 1 <= k && k + Keep(recentExchanges) <= |groups|
    && prefix == Flatten(groups[..k]) && AllClosed(prefix)
    && weigh(prefix) <= limit
    && (k + Keep(recentExchanges) == |groups| || weigh(Flatten(groups[..k + 1])) > limit)
  }

  lemma SelectsFrom(weigh: seq<Turn> -> nat, groups: seq<seq<Turn>>, limit: int, recentExchanges: int)
    requires Selected(weigh, groups, limit, recentExchanges) != []
    requires Groups(Flatten(groups[..|groups| - Keep(recentExchanges)])) == groups[..|groups| - Keep(recentExchanges)]
    ensures var m := |groups| - Keep(recentExchanges);
            WholeExchanges(weigh, groups, limit, recentExchanges, Selected(weigh, groups, limit, recentExchanges),
                           Affordable(weigh, groups[..m], limit, 0))
  {
    var m := |groups| - Keep(recentExchanges);
    var k := Affordable(weigh, groups[..m], limit, 0);
    AffordableExchanges(weigh, groups, m, limit);
    var prefix := Flatten(groups[..k]);
    assert Selected(weigh, groups, limit, recentExchanges) == prefix;
    assert AllClosed(prefix) by {
      assert AllClosed(Flatten(groups[..m]));
      assert forall i :: 0 <= i < |prefix| ==> prefix[i] == Flatten(groups[..m])[i];
    }
  }

  /** A compaction takes whole, fully closed exchanges from the front of the history. */
  lemma SelectsWholeExchanges(weigh: seq<Turn> -> nat, turns: seq<Turn>, limit: int, recentExchanges: int)
    requires Selected(weigh, Groups(turns), limit, recentExchanges) != []
    ensures var prefix := Selected(weigh, Groups(turns), limit, recentExchanges);
            prefix <= turns && exists k: nat :: WholeExchanges(weigh, Groups(turns), limit, recentExchanges, prefix, k)
  {
    var m := |Groups(turns)| - Keep(recentExchanges);
    PrefixRegroups(turns, m);
    SelectsFrom(weigh, Groups(turns), limit, recentExchanges);
    PrefixRegroups(turns, Affordable(weigh, Groups(turns)[..m], limit, 0));
  }

  lemma AffordableExchanges(weigh: seq<Turn> -> nat, groups: seq<seq<Turn>>, m: nat, limit: int)
    requires m <= |groups|
    ensures var k := Affordable(weigh, groups[..m], limit, 0);
            && groups[..m][..k] == groups[..k]
            && Flatten(groups[..k]) <= Flatten(groups[..m])
            && (k == 0 ==> Flatten(groups[..k]) == [])
            && (k > 0 ==> weigh(Flatten(groups[..k])) <= limit)
            && (k < m ==> weigh(Flatten(groups[..k + 1])) > limit)
  {
    var again := groups[..m];
    AffordableFits(weigh, again, limit, 0);
    var k := Affordable(weigh, again, limit, 0);
    assert again[..k] == groups[..k];
    assert k < m ==> again[..k + 1] == groups[..k + 1];
    PrefixOfFlatten(again, k);
  }

  lemma PrefixOfFlatten(groups: seq<seq<Turn>>, k: nat)
    requires k <= |groups|
    ensures Flatten(groups[..k]) <= Flatten(groups)
  {
    assert groups == groups[..k] + groups[k..];
    FlattenConcat(groups[..k], groups[k..]);
  }

  // ---------- what a write does ----------

  /** A turn with other messages, and otherwise as it was. */
  ghost predicate OnlyMessages(before: Turn, after: Turn, messages: seq<Message>) {
    after == Turn(before.id, messages, before.closed, before.answered, before.interrupted, before.listeningOnly)
  }

  /** The effect of each write on a turn: the first text of the caller goes in front and says whether it
      was only listened to; the first reply to a call is appended with its request; the first answer
      is appended; what comes again changes nothing. */
  lemma WriteExactly(turn: Turn, write: Write)
    requires write.AddTool? ==> write.reply.Reply?
    ensures var t := Apply(turn, write);
            match write {
              case AddUser(text, listening) =>
                if exists m <- turn.messages :: m.User? then t == turn
                else OnlyMessages(turn.(listeningOnly := listening), t, [User(text)] + turn.messages)
              case AddTool(request, reply) =>
                if exists m <- turn.messages :: m.Reply? && m.callId == reply.callId then t == turn
                else OnlyMessages(turn, t, turn.messages + [request, reply])
              case AddAnswer(text, reasoning) =>
                if turn.answered then t == turn
                else OnlyMessages(turn.(answered := true), t, turn.messages + [Assistant(text, reasoning)])
              case Finish(_) => t.closed
              case MarkListening(listening) => OnlyMessages(turn.(listeningOnly := listening), t, turn.messages)
            }
  {
    if write.AddUser? && exists m <- turn.messages :: m.User? {
      var m :| m in turn.messages && m.User?;
      assert HasUser(turn);
    }
    if write.AddTool? && exists m <- turn.messages :: m.Reply? && m.callId == write.reply.callId {
      var m :| m in turn.messages && m.Reply? && m.callId == write.reply.callId;
      assert HasReply(turn, write.reply.callId);
    }
  }

  /** Finishing a turn closes it. The first time it is interrupted its last message is marked, if it was
      answered; nothing else of it ever changes. */
  lemma FinishExactly(turn: Turn, interrupted: bool)
    ensures var t := Apply(turn, Finish(interrupted));
            var first := interrupted && !turn.interrupted;
            && t.id == turn.id && t.closed && t.answered == turn.answered && t.listeningOnly == turn.listeningOnly
            && t.interrupted == (turn.interrupted || interrupted)
            && |t.messages| == |turn.messages|
            && forall i :: 0 <= i < |turn.messages| ==>
                 t.messages[i] == if first && turn.answered && i == |turn.messages| - 1
                                  then turn.messages[i].(content := turn.messages[i].content + INTERRUPTION)
                                  else turn.messages[i]
  {
  }

  /** A write that is repeated changes nothing more. */
  lemma WriteTwice(turn: Turn, write: Write)
    ensures Apply(Apply(turn, write), write) == Apply(turn, write)
  {
    var t := Apply(turn, write);
    if write.AddUser? && !HasUser(turn) { assert t.messages[0].User?; }
    if write.AddTool? && write.reply.Reply? && !HasReply(turn, write.reply.callId) {
      assert t.messages[|turn.messages| + 1] == write.reply;
    }
  }

  /** A write reaches the one turn with its id and no other, or a fresh turn behind the others. */
  lemma PutExactly(turns: seq<Turn>, id: string, write: Write, i: nat)
    requires Distinct(Ids(turns)) && i <= |turns|
    requires if i < |turns| then turns[i].id == id else forall turn <- turns :: turn.id != id
    ensures Put(turns, id, write)
            == if i < |turns| then turns[i := Apply(turns[i], write)]
               else if write.Finish? then turns
               else turns + [Apply(Turn(id, [], false, false, false, false), write)]
  {
    var p := Position(turns, id);
    assert p >= 0 ==> Ids(turns)[p] == id;
    assert i < |turns| ==> Ids(turns)[i] == id;
  }

  // ---------- when a compaction starts ----------

  /** A compaction starts exactly when more exchanges are held than are to be kept, all turns of the
      others are closed, and the first of them fits one request. */
  lemma CompactionStartsExactly(turns: seq<Turn>, summary: Summary, epoch: nat, limit: int, recentExchanges: int)
    ensures var groups := Groups(turns);
            var keep := if recentExchanges < 2 then 2 else recentExchanges;
            Snapshot(turns, summary, epoch, limit, recentExchanges).Some?
            <==> && |groups| > keep
                 && (forall g, i :: 0 <= g < |groups| - keep && 0 <= i < |groups[g]| ==> groups[g][i].closed)
                 && Tokens(Messages(groups[0], false)) <= limit
  {
    hide Tokens, Messages, FirstEnd;
    var groups, keep := Groups(turns), Keep(recentExchanges);
    if |groups| > keep {
      var m := |groups| - keep;
      PrefixRegroups(turns, m);
      GroupsIsGrouping(turns);
      ClosedEach(groups[..m]);
      assert forall g :: 0 <= g < m ==> groups[..m][g] == groups[g];
      FirstFits(Weigh, groups[..m], limit);
      FlattenNonEmpty(groups[..m]);
    }
  }

  lemma FirstFits(weigh: seq<Turn> -> nat, groups: seq<seq<Turn>>, limit: int)
    requires groups != [] && groups[0] != []
    ensures Flatten(groups[..Affordable(weigh, groups, limit, 0)]) != [] <==> weigh(groups[0]) <= limit
  {
    var k := Affordable(weigh, groups, limit, 0);
    assert groups[..1][1..] == [] && groups[0] + [] == groups[0];
    assert Flatten(groups[..1]) == groups[0];
    if k > 0 { FlattenNonEmpty(groups[..k]); }
  }

  lemma {:induction false} ClosedEach(groups: seq<seq<Turn>>)
    ensures AllClosed(Flatten(groups)) <==>
            forall g, i :: 0 <= g < |groups| && 0 <= i < |groups[g]| ==> groups[g][i].closed
    decreases |groups|
  {
    if groups != [] {
      var first, rest := groups[0], groups[1..];
      ClosedEach(rest);
      assert AllClosed(first + Flatten(rest)) <==> AllClosed(first) && AllClosed(Flatten(rest)) by {
        ClosedBoth(first, Flatten(rest));
      }
      assert forall g :: 0 <= g < |rest| ==> rest[g] == groups[g + 1];
      forall g, i | 0 <= g < |rest| && 0 <= i < |rest[g]|
        ensures groups[g + 1][i] == rest[g][i]
      {
      }
    }
  }

  lemma ClosedBoth(a: seq<Turn>, b: seq<Turn>)
    ensures AllClosed(a + b) <==> AllClosed(a) && AllClosed(b)
  {
    if AllClosed(a + b) {
      assert forall i :: 0 <= i < |a| ==> (a + b)[i] == a[i];
      assert forall i :: 0 <= i < |b| ==> (a + b)[|a| + i] == b[i];
    }
  }

  /** It carries the first exchanges, as many as fit one request and are not to be kept, with what the
      memory is then. */
  lemma SnapshotExactly(turns: seq<Turn>, summary: Summary, epoch: nat, limit: int, recentExchanges: int)
    returns (k: nat)
    requires Snapshot(turns, summary, epoch, limit, recentExchanges).Some?
    ensures var groups := Groups(turns);
            var keep := if recentExchanges < 2 then 2 else recentExchanges;
            && 0 < k <= |groups| - keep && Flatten(groups[..k]) <= turns
            && Tokens(Messages(Flatten(groups[..k]), false)) <= limit
            && (k < |groups| - keep ==> Tokens(Messages(Flatten(groups[..k + 1]), false)) > limit)
            && Snapshot(turns, summary, epoch, limit, recentExchanges)
               == Some(Ticket(Ids(Flatten(groups[..k])), epoch, Messages(Flatten(groups[..k]), false), summary))
  {
    hide Tokens, Messages;
    SelectsWholeExchanges(Weigh, turns, limit, recentExchanges);
    var prefix := Selected(Weigh, Groups(turns), limit, recentExchanges);
    k :| WholeExchanges(Weigh, Groups(turns), limit, recentExchanges, prefix, k);
  }
}
