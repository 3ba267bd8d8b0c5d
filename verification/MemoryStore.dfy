/** The session's conversation memory as an object whose turns are changed in place. */
module MemoryStore {
  import opened JsonText
  import opened Exchanges
  import opened PromptContext
  import opened Compaction
  import opened CompactionRuns
  import opened Wrappers

  class ConversationMemory {
    const contextTokens: int
    const recentExchanges: int
    var turns: seq<Turn>
    var summary: Summary
    var epoch: nat

    ghost predicate Valid()
      reads this
    {
      Distinct(Ids(turns))
    }

    /** The prompt relies on the pipeline to write each reply with the request for it. */
    ghost predicate RepliesPaired()
      reads this
    {
      AllPaired(turns)
    }

    constructor (contextTokens: int, recentExchanges: int)
      ensures Valid() && RepliesPaired() && turns == [] && summary == NO_SUMMARY && epoch == 0
      ensures this.contextTokens == contextTokens && this.recentExchanges == recentExchanges
    {
      this.contextTokens, this.recentExchanges := contextTokens, recentExchanges;
      turns, summary, epoch := [], NO_SUMMARY, 0;
    }

    /** The turn with an id, found from the newest end or created. */
    method Locate(turnId: string) returns (i: nat)
      requires Valid()
      modifies `turns
      ensures Valid() && i < |turns| && turns[i].id == turnId
      ensures turns == if Position(old(turns), turnId) >= 0 then old(turns) else old(turns) + [Fresh(turnId)]
      ensures i == if Position(old(turns), turnId) >= 0 then Position(old(turns), turnId) else |old(turns)|
    {
      i := |turns|;
      assert turns[..i] == turns;
      while i > 0
        invariant i <= |turns|
        invariant Position(turns, turnId) == Position(turns[..i], turnId)
      {
        i := i - 1;
        assert turns[..i + 1][..i] == turns[..i];
        if turns[i].id == turnId { return; }
      }
      PutShape(turns, turnId, MarkListening(false));
      i := |turns|;
      turns := turns + [Fresh(turnId)];
    }

    /** A user text is retained once per turn, in front of the turn's other messages. */
    method User(turnId: string, text: string, listeningOnly: bool)
      requires Valid()
      modifies `turns
      ensures Valid() && turns == Put(old(turns), turnId, AddUser(text, listeningOnly))
      ensures old(RepliesPaired()) ==> RepliesPaired()
    {
      ghost var write := AddUser(text, listeningOnly);
      PutShape(turns, turnId, write);
      if RepliesPaired() { PutPaired(turns, turnId, write); }
      var i := Locate(turnId);
      var turn := turns[i];
      if !HasUser(turn) {
        turn := turn.(listeningOnly := listeningOnly, messages := [Message.User(text)] + turn.messages);
        turns := turns[i := turn];
      }
      assert turns == Put(old(turns), turnId, write);
    }

    method Tool(turnId: string, request: Message, reply: Message)
      requires Valid() && reply.Reply?
      modifies `turns
      ensures Valid() && turns == Put(old(turns), turnId, AddTool(request, reply))
      ensures old(RepliesPaired()) && request.Asks(reply.callId) ==> RepliesPaired()
    {
      ghost var write := AddTool(request, reply);
      PutShape(turns, turnId, write);
      var i := Locate(turnId);
      var turn := turns[i];
      if !HasReply(turn, reply.callId) {
        turn := turn.(messages := turn.messages + [request, reply]);
        turns := turns[i := turn];
      }
      assert turns == Put(old(turns), turnId, write);
      if AllPaired(old(turns)) && write.Proper() { PutPaired(old(turns), turnId, write); }
    }

    method Answer(turnId: string, text: string, reasoning: string)
      requires Valid()
      modifies `turns
      ensures Valid() && turns == Put(old(turns), turnId, AddAnswer(text, reasoning))
      ensures old(RepliesPaired()) ==> RepliesPaired()
    {
      ghost var write := AddAnswer(text, reasoning);
      PutShape(turns, turnId, write);
      if RepliesPaired() { PutPaired(turns, turnId, write); }
      var i := Locate(turnId);
      var turn := turns[i];
      if !turn.answered {
        turn := turn.(messages := turn.messages + [Assistant(text, reasoning)], answered := true);
        turns := turns[i := turn];
      }
      assert turns == Put(old(turns), turnId, write);
    }

    /** Closes a turn, found from the oldest end; a missing turn is left missing. */
    method FinishTurn(turnId: string, interrupted: bool)
      requires Valid()
      modifies `turns
      ensures Valid() && turns == Put(old(turns), turnId, Finish(interrupted))
      ensures old(RepliesPaired()) ==> RepliesPaired()
    {
      ghost var write := Finish(interrupted);
      PutShape(turns, turnId, write);
      if RepliesPaired() { PutPaired(turns, turnId, write); }
      var i := 0;
      while i < |turns| && turns[i].id != turnId
        invariant i <= |turns| && turns == old(turns)
        invariant forall j :: 0 <= j < i ==> turns[j].id != turnId
      {
        i := i + 1;
      }
      if i == |turns| { return; }
      assert i == Position(turns, turnId) by { assert Ids(turns)[i] == Ids(turns)[Position(turns, turnId)]; }
      var turn := turns[i].(closed := true);
      if interrupted && !turn.interrupted {
        turn := turn.(interrupted := true);
        if turn.answered {
          turn := turn.(messages := NoteInterruption(turn.messages));
        }
      }
      turns := turns[i := turn];
    }

    /** The pipeline marks a turn as only listened to through the turn it looks up. */
    method SetListeningOnly(turnId: string, listening: bool)
      requires Valid()
      modifies `turns
      ensures Valid() && turns == Put(old(turns), turnId, MarkListening(listening))
      ensures old(RepliesPaired()) ==> RepliesPaired()
    {
      PutShape(turns, turnId, MarkListening(listening));
      if RepliesPaired() { PutPaired(turns, turnId, MarkListening(listening)); }
      var i := Locate(turnId);
      turns := turns[i := turns[i].(listeningOnly := listening)];
      assert turns == Put(old(turns), turnId, MarkListening(listening));
    }

    method Clear()
      modifies this
      ensures Valid() && RepliesPaired() && turns == [] && summary == NO_SUMMARY && epoch == old(epoch) + 1
    {
      epoch := epoch + 1;
      turns := [];
      summary := NO_SUMMARY;
    }

    /** The prompt: within the token budget, with every tool reply behind its request. */
    method Context(excluded: Excluded, includeReasoning: bool) returns (prompt: seq<Message>)
      requires Valid()
      ensures prompt == ContextFor(turns, summary, contextTokens, excluded, includeReasoning)
      ensures Tokens(prompt) <= Budget(contextTokens)
      ensures RepliesPaired() ==> Paired(prompt)
      ensures forall i :: 0 <= i < |turns| && excluded == TurnId(turns[i].id) ==>
                prompt == ContextFor(turns[..i] + turns[i + 1..], summary, contextTokens, NoTurn, includeReasoning)
    {
      var chosen := Others(turns, excluded);
      var groups := GroupTurns(chosen);
      prompt := FillPrompt(Tokens, SummaryMessages(summary), groups, includeReasoning, Budget(contextTokens));
      ContextWithinBudget(turns, summary, contextTokens, excluded, includeReasoning);
      if AllPaired(turns) { ContextPaired(turns, summary, contextTokens, excluded, includeReasoning); }
      forall i | 0 <= i < |turns| && excluded == TurnId(turns[i].id)
        ensures prompt == ContextFor(turns[..i] + turns[i + 1..], summary, contextTokens, NoTurn, includeReasoning)
      {
        AloneWithItsId(turns, i);
        ContextLeavesOut(turns, i, summary, contextTokens, includeReasoning);
      }
    }

    /** First half of a compaction, up to the request to the summariser. */
    method BeginCompaction() returns (ticket: Option<Ticket>)
      ensures ticket == Snapshot(turns, summary, epoch, contextTokens, recentExchanges)
    {
      var groups := GroupTurns(turns);
      var keep := Keep(recentExchanges);
      if |groups| <= keep { return None; }
      var eligible := Flatten(groups[..|groups| - keep]);
      if eligible == [] || !AllClosed(eligible) { return None; }
      var again := GroupTurns(eligible);
      var prefix := [];
      var k := 0;
      assert again[..0] == [];
      while k < |again| && Weigh(prefix + again[k]) <= contextTokens
        invariant k <= |again| && prefix == Flatten(again[..k])
        invariant Affordable(Weigh, again, contextTokens, 0) == Affordable(Weigh, again, contextTokens, k)
      {
        FlattenNext(again, k);
        prefix := prefix + again[k];
        k := k + 1;
      }
      if k < |again| { FlattenNext(again, k); }
      if prefix == [] { return None; }
      ticket := Some(Ticket(Ids(prefix), epoch, Messages(prefix, false), summary));
    }

    /** Second half: replaces the snapshot if it is still what the memory starts with.
        `reply` is `None` when the request failed, timed out or was cancelled. */
    method CompleteCompaction(ticket: Ticket, reply: Option<Summary>) returns (done: bool)
      requires Valid() && ticket.ids != []
      modifies this
      ensures Valid() && epoch == old(epoch)
      ensures old(RepliesPaired()) ==> RepliesPaired()
      ensures done <==> reply.Some? && WithinBounds(reply.value) && StillLeads(old(turns), epoch, ticket)
      ensures done ==> |ticket.ids| <= |old(turns)| && turns == old(turns)[|ticket.ids|..] && summary == reply.value
      ensures !done ==> turns == old(turns) && summary == old(summary)
    {
      var checked := Checked(reply);
      CheckedExactly(reply);
      UnchangedExactly(turns, epoch, ticket);
      done := Replace(ticket, checked);
    }

    method Replace(ticket: Ticket, checked: Option<Summary>) returns (done: bool)
      requires Valid() && ticket.ids != []
      modifies this
      ensures Valid() && epoch == old(epoch)
      ensures old(RepliesPaired()) ==> RepliesPaired()
      ensures done == (checked.Some? && Unchanged(old(turns), epoch, ticket))
      ensures done ==> |ticket.ids| <= |old(turns)| && turns == old(turns)[|ticket.ids|..] && summary == checked.value
      ensures !done ==> turns == old(turns) && summary == old(summary)
    {
      if checked.None? || !Unchanged(turns, epoch, ticket) { return false; }
      RemainderIsValid(turns, epoch, ticket);
      summary := checked.value;
      turns := turns[|ticket.ids|..];
      done := true;
    }
  }

  lemma RemainderIsValid(turns: seq<Turn>, epoch: nat, ticket: Ticket)
    requires Distinct(Ids(turns)) && Unchanged(turns, epoch, ticket)
    ensures |ticket.ids| <= |turns|
    ensures Distinct(Ids(turns[|ticket.ids|..]))
  {
    var n := |ticket.ids|;
    assert |Leading(turns, n)| == n;
    IdsSplit(turns, n);
    assert Distinct(Ids(turns)[n..]);
  }

  lemma AloneWithItsId(turns: seq<Turn>, i: nat)
    requires Distinct(Ids(turns)) && i < |turns|
    ensures forall j :: 0 <= j < |turns| && j != i ==> turns[j].id != turns[i].id
  {
    forall j | 0 <= j < |turns| && j != i ensures turns[j].id != turns[i].id {
      assert Ids(turns)[i] == turns[i].id && Ids(turns)[j] == turns[j].id;
    }
  }

  method Others(turns: seq<Turn>, excluded: Excluded) returns (chosen: seq<Turn>)
    ensures chosen == Without(turns, excluded)
    ensures excluded.NoTurn? || (forall i :: 0 <= i < |turns| ==> turns[i].id != excluded.id) ==> chosen == turns
    ensures forall i :: 0 <= i < |turns| && excluded == TurnId(turns[i].id)
                        && (forall j :: 0 <= j < |turns| && j != i ==> turns[j].id != turns[i].id) ==>
              chosen == turns[..i] + turns[i + 1..]
  {
    if excluded.NoTurn? || forall i :: 0 <= i < |turns| ==> turns[i].id != excluded.id {
      WithoutOthers(turns, excluded);
    }
    forall i | 0 <= i < |turns| && excluded == TurnId(turns[i].id)
               && (forall j :: 0 <= j < |turns| && j != i ==> turns[j].id != turns[i].id)
      ensures Without(turns, excluded) == turns[..i] + turns[i + 1..]
    {
      WithoutOne(turns, i);
    }
    chosen := [];
    for i := 0 to |turns|
      invariant chosen == Without(turns[..i], excluded)
    {
      assert turns[..i + 1][..i] == turns[..i];
      if !excluded.Matches(turns[i].id) { chosen := chosen + [turns[i]]; }
    }
    assert turns[..|turns|] == turns;
  }

  lemma FlattenNext(groups: seq<seq<Turn>>, k: nat)
    requires k < |groups|
    ensures Flatten(groups[..k + 1]) == Flatten(groups[..k]) + groups[k]
  {
    assert groups[..k + 1] == groups[..k] + [groups[k]];
    FlattenConcat(groups[..k], [groups[k]]);
    assert [groups[k]][1..] == [];
  }

  method GroupTurns(turns: seq<Turn>) returns (groups: seq<seq<Turn>>)
    ensures groups == Groups(turns)
  {
    groups := [];
    var pending: seq<Turn> := [];
    GroupingStart(turns);
    for i := 0 to |turns|
      invariant Grouped(groups, pending, turns[i..], turns)
    {
      assert pending + turns[i..] == (pending + [turns[i]]) + turns[i + 1..];
      pending := pending + [turns[i]];
      if turns[i].Boundary() {
        GroupingCloses(groups, pending, turns[i + 1..], turns);
        groups := groups + [pending];
        pending := [];
      }
    }
    assert turns[|turns|..] == [];
    GroupingEnd(groups, pending, turns);
    if pending != [] { groups := groups + [pending]; }
  }

  /** The groups closed so far, the pending run and the rest make up the exchanges of all turns. */
  ghost predicate Grouped(groups: seq<seq<Turn>>, pending: seq<Turn>, rest: seq<Turn>, turns: seq<Turn>) {
    && (forall i :: 0 <= i < |pending| ==> !pending[i].Boundary())
    && groups + Groups(pending + rest) == Groups(turns)
  }

  lemma GroupingStart(turns: seq<Turn>)
    ensures Grouped([], [], turns[0..], turns)
  {
    assert [] + turns[0..] == turns;
  }

  lemma GroupingCloses(groups: seq<seq<Turn>>, pending: seq<Turn>, rest: seq<Turn>, turns: seq<Turn>)
    requires pending != [] && pending[|pending| - 1].Boundary()
    requires forall i :: 0 <= i < |pending| - 1 ==> !pending[i].Boundary()
    requires groups + Groups(pending + rest) == Groups(turns)
    ensures Grouped(groups + [pending], [], rest, turns)
  {
    GroupsStep(pending, rest);
    assert [] + rest == rest;
    assert groups + ([pending] + Groups(rest)) == (groups + [pending]) + Groups(rest);
  }

  lemma GroupingEnd(groups: seq<seq<Turn>>, pending: seq<Turn>, turns: seq<Turn>)
    requires Grouped(groups, pending, [], turns)
    ensures Groups(turns) == if pending == [] then groups else groups + [pending]
  {
    assert pending + [] == pending;
    GroupsOfRun(pending);
  }

  method CollectMessages(turns: seq<Turn>, includeReasoning: bool) returns (messages: seq<Message>)
    ensures messages == Messages(turns, includeReasoning)
  {
    messages := [];
    for i := 0 to |turns|
      invariant messages == Messages(turns[..i], includeReasoning)
    {
      ghost var before := messages;
      var turn := turns[i];
      for j := 0 to |turn.messages|
        invariant messages == before + turn.ShownAll(includeReasoning)[..j]
      {
        messages := messages + [turn.Shown(turn.messages[j], includeReasoning)];
      }
      assert turns[..i + 1][..i] == turns[..i];
    }
    assert turns[..|turns|] == turns;
  }

  /** The summary if it leaves room, a note when anything is left out, and the exchanges that fit. */
  method FillPrompt(cost: seq<Message> -> nat, opening: seq<Message>, groups: seq<seq<Turn>>, includeReasoning: bool,
                    budget: nat)
    returns (prompt: seq<Message>)
    ensures prompt == Assemble(cost, opening, GroupMessages(groups, includeReasoning), budget)
  {
    var prefix := opening;
    var dropped := cost(prefix) + RESERVE > budget;
    if dropped { prefix := []; }
    var fit := FitNewest(cost, groups, includeReasoning, cost(prefix) + RESERVE, budget);
    prompt := prefix + NoteIf(dropped || fit.omitted) + fit.kept;
  }

  /** Newest exchanges first, until one does not fit. */
  method FitNewest(cost: seq<Message> -> nat, groups: seq<seq<Turn>>, includeReasoning: bool, start: nat, budget: nat)
    returns (fit: Fit)
    ensures fit == FitGroups(cost, GroupMessages(groups, includeReasoning), [], start, budget)
  {
    var kept, i := [], |groups|;
    var used: nat := start;
    ghost var all := GroupMessages(groups, includeReasoning);
    ghost var target := FitGroups(cost, all, [], start, budget);
    assert all[..i] == all;
    while i > 0
      invariant i <= |groups|
      invariant target == FitGroups(cost, all[..i], kept, used, budget)
    {
      i := i - 1;
      assert all[..i + 1][..i] == all[..i];
      var messages := CollectMessages(groups[i], includeReasoning);
      assert all[i] == messages;
      var price := cost(messages);
      if used + price > budget {
        if kept == [] {
          kept, used := FitTail(cost, messages, used, budget);
        }
        return Fit(kept, used, true);
      }
      kept := messages + kept;
      used := used + price;
    }
    fit := Fit(kept, used, false);
  }

  /** The whole messages and tool pairs of one oversized exchange that fit, from its end. */
  method FitTail(cost: seq<Message> -> nat, messages: seq<Message>, start: nat, budget: nat)
    returns (kept: seq<Message>, used: nat)
    ensures (kept, used) == FitUnits(cost, Units(messages), [], start, budget)
  {
    hide Units;
    var units := CollectUnits(messages);
    ghost var target := FitUnits(cost, units, [], start, budget);
    kept, used := [], start;
    var u := |units|;
    assert units[..u] == units;
    while u > 0
      invariant u <= |units|
      invariant target == FitUnits(cost, units[..u], kept, used, budget)
    {
      u := u - 1;
      assert units[..u + 1][..u] == units[..u];
      var price := cost(units[u]);
      if used + price <= budget {
        kept := units[u] + kept;
        used := used + price;
      }
    }
  }

  method CollectUnits(messages: seq<Message>) returns (units: seq<seq<Message>>)
    ensures units == Units(messages)
  {
    units := [];
    for i := 0 to |messages|
      invariant units == Units(messages[..i])
    {
      assert messages[..i + 1][..i] == messages[..i];
      units := AddUnit(units, messages[i]);
    }
    assert messages[..|messages|] == messages;
  }
}
