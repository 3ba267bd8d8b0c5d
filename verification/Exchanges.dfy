/** The turns a conversation memory holds, and their division into exchanges. */
module Exchanges {
  import opened JsonText

  datatype ToolCall = ToolCall(id: string, name: string, arguments: string)

  /** The four message shapes the memory stores. An empty `reasoning` stands for an absent key. */
  datatype Message =
    | User(content: string)
    | Assistant(content: string, reasoning: string)
    | Request(content: string, calls: seq<ToolCall>, reasoning: string)
    | Reply(callId: string, content: string)
  {
    function Dump(): string {
      match this
      case User(content) =>
        Record([Pair("role", Quote("user")), Pair("content", Quote(content))])
      case Assistant(content, reasoning) =>
        Record([Pair("role", Quote("assistant")), Pair("content", Quote(content))] + DumpReasoning(reasoning))
      case Request(content, calls, reasoning) =>
        Record([Pair("role", Quote("assistant")), Pair("content", Quote(content)),
                Pair("tool_calls", List(DumpCalls(calls)))] + DumpReasoning(reasoning))
      case Reply(callId, content) =>
        Record([Pair("role", Quote("tool")), Pair("tool_call_id", Quote(callId)), Pair("content", Quote(content))])
    }

    function WithoutReasoning(): Message {
      if Assistant? || Request? then this.(reasoning := "") else this
    }

    /** A request that names the call a reply answers. */
    predicate Asks(callId: string) {
      Request? && exists i :: 0 <= i < |calls| && calls[i].id == callId
    }
  }

  function DumpReasoning(reasoning: string): seq<string> {
    if reasoning == "" then [] else [Pair("reasoning_content", Quote(reasoning))]
  }

  function DumpCalls(calls: seq<ToolCall>): seq<string> {
    seq(|calls|, i requires 0 <= i < |calls| =>
      Record([Pair("id", Quote(calls[i].id)), Pair("type", Quote("function")),
              Pair("function", Record([Pair("name", Quote(calls[i].name)),
                                       Pair("arguments", Quote(calls[i].arguments))]))]))
  }

  function Dumps(messages: seq<Message>): (items: seq<string>)
    ensures |items| == |messages|
  {
    seq(|messages|, i requires 0 <= i < |messages| => messages[i].Dump())
  }

  /** The token estimate of a list of messages. */
  function Tokens(messages: seq<Message>): nat {
    EstimatedTokens(List(Dumps(messages)))
  }

  datatype Turn = Turn(id: string, messages: seq<Message>, closed: bool, answered: bool,
                       interrupted: bool, listeningOnly: bool)
  {
    /** An exchange ends at a finished turn that was only listened to, or answered in full. */
    predicate Boundary() {
      closed && (listeningOnly || (answered && !interrupted))
    }

    /** A stored message as the model sees it. */
    function Shown(message: Message, includeReasoning: bool): Message {
      var kept := if includeReasoning then message else message.WithoutReasoning();
      if listeningOnly && kept.User? then User(LISTENING_PREFIX + kept.content) else kept
    }

    function ShownAll(includeReasoning: bool): (shown: seq<Message>)
      ensures |shown| == |messages|
    {
      seq(|messages|, i requires 0 <= i < |messages| => Shown(messages[i], includeReasoning))
    }
  }

  const LISTENING_PREFIX :=
    "[Listening-only speech: retained context, not a request to execute or confirmation.]\n"

  /** All messages of some turns, as the model sees them. */
  function Messages(turns: seq<Turn>, includeReasoning: bool): seq<Message> {
    if turns == [] then []
    else Messages(turns[..|turns| - 1], includeReasoning) + turns[|turns| - 1].ShownAll(includeReasoning)
  }

  lemma {:induction false} MessagesConcat(a: seq<Turn>, b: seq<Turn>, includeReasoning: bool)
    ensures Messages(a + b, includeReasoning) == Messages(a, includeReasoning) + Messages(b, includeReasoning)
  {
    if b == [] {
      assert a + b == a;
    } else {
      assert (a + b)[..|a + b| - 1] == a + b[..|b| - 1];
      MessagesConcat(a, b[..|b| - 1], includeReasoning);
    }
  }

  // ---------- exchanges ----------

  function Flatten(groups: seq<seq<Turn>>): seq<Turn> {
    if groups == [] then [] else groups[0] + Flatten(groups[1..])
  }

  /** Length of the first exchange: up to the first boundary, or everything. */
  function FirstEnd(turns: seq<Turn>): (n: nat)
    requires turns != []
    ensures 1 <= n <= |turns|
    ensures n < |turns| ==> turns[n - 1].Boundary()
    ensures forall i :: 0 <= i < n - 1 ==> !turns[i].Boundary()
  {
    if |turns| == 1 || turns[0].Boundary() then 1 else 1 + FirstEnd(turns[1..])
  }

  function Groups(turns: seq<Turn>): seq<seq<Turn>> {
    if turns == [] then [] else [turns[..FirstEnd(turns)]] + Groups(turns[FirstEnd(turns)..])
  }

  /** What it means to be divided into exchanges, without saying how the division is found. */
  ghost predicate IsGrouping(groups: seq<seq<Turn>>, turns: seq<Turn>) {
    && Flatten(groups) == turns
    && (forall g :: 0 <= g < |groups| ==> groups[g] != [])
    && (forall g :: 0 <= g < |groups| - 1 ==> groups[g][|groups[g]| - 1].Boundary())
    && (forall g, i :: 0 <= g < |groups| && 0 <= i < |groups[g]| - 1 ==> !groups[g][i].Boundary())
  }

  lemma {:induction false} GroupsIsGrouping(turns: seq<Turn>)
    ensures IsGrouping(Groups(turns), turns)
  {
    if turns != [] {
      var n := FirstEnd(turns);
      GroupsIsGrouping(turns[n..]);
      assert turns[..n] + turns[n..] == turns;
      assert n == |turns| ==> Groups(turns[n..]) == [];
      GroupingInFront(turns[..n], Groups(turns[n..]), turns[n..]);
    }
  }

  lemma GroupingInFront(first: seq<Turn>, rest: seq<seq<Turn>>, turns: seq<Turn>)
    requires IsGrouping(rest, turns) && first != [] && (rest != [] ==> first[|first| - 1].Boundary())
    requires forall i :: 0 <= i < |first| - 1 ==> !first[i].Boundary()
    ensures IsGrouping([first] + rest, first + turns)
  {
    hide Turn.Boundary;
    var groups := [first] + rest;
    assert groups[1..] == rest;
    assert forall g :: 0 <= g < |rest| ==> groups[g + 1] == rest[g];
    forall g, i | 0 <= g < |groups| && 0 <= i < |groups[g]| - 1 ensures !groups[g][i].Boundary() {
      if g > 0 { assert !rest[g - 1][i].Boundary(); }
    }
  }

  lemma {:induction false} GroupingIsUnique(groups: seq<seq<Turn>>, turns: seq<Turn>)
    requires IsGrouping(groups, turns)
    ensures groups == Groups(turns)
  {
    if groups != [] {
      var head, rest := groups[0], groups[1..];
      assert turns == head + Flatten(rest);
      assert turns[..|head|] == head && turns[|head|..] == Flatten(rest);
      if rest == [] { assert Flatten(rest) == []; }
      else { assert turns[|head| - 1].Boundary(); FlattenNonEmpty(rest); }
      var n := FirstEnd(turns);
      assert n == |head|;
      forall g, i | 0 <= g < |rest| && 0 <= i < |rest[g]| - 1 ensures !rest[g][i].Boundary() {
        assert !groups[g + 1][i].Boundary();
      }
      GroupingIsUnique(rest, Flatten(rest));
    }
  }

  lemma FlattenNonEmpty(groups: seq<seq<Turn>>)
    requires groups != [] && groups[0] != []
    ensures Flatten(groups) != []
  {
    assert Flatten(groups) == groups[0] + Flatten(groups[1..]);
  }

  /** The exchanges of a history are the one division into non-empty runs that end at boundaries. */
  lemma GroupsCharacterised(groups: seq<seq<Turn>>, turns: seq<Turn>)
    ensures IsGrouping(groups, turns) <==> groups == Groups(turns)
  {
    GroupsIsGrouping(turns);
    if IsGrouping(groups, turns) { GroupingIsUnique(groups, turns); }
  }

  lemma {:induction false} FlattenConcat(a: seq<seq<Turn>>, b: seq<seq<Turn>>)
    ensures Flatten(a + b) == Flatten(a) + Flatten(b)
  {
    if a == [] {
      assert a + b == b;
    } else {
      assert (a + b)[1..] == a[1..] + b;
      FlattenConcat(a[1..], b);
    }
  }

  /** Regrouping any number of leading exchanges gives back those same exchanges,
      and their turns are a prefix of the history. */
  lemma PrefixRegroups(turns: seq<Turn>, k: nat)
    requires k <= |Groups(turns)|
    ensures Groups(Flatten(Groups(turns)[..k])) == Groups(turns)[..k]
    ensures Flatten(Groups(turns)[..k]) <= turns
  {
    GroupsIsGrouping(turns);
    GroupingPrefix(Groups(turns), turns, k);
    GroupingIsUnique(Groups(turns)[..k], Flatten(Groups(turns)[..k]));
  }

  lemma GroupingPrefix(groups: seq<seq<Turn>>, turns: seq<Turn>, k: nat)
    requires k <= |groups| && IsGrouping(groups, turns)
    ensures IsGrouping(groups[..k], Flatten(groups[..k]))
    ensures Flatten(groups[..k]) <= turns
  {
    assert groups == groups[..k] + groups[k..];
    FlattenConcat(groups[..k], groups[k..]);
    var prefix: seq<seq<Turn>> := groups[..k];
    forall g, i | 0 <= g < |prefix| && 0 <= i < |prefix[g]| - 1 ensures !prefix[g][i].Boundary() {
      assert prefix[g] == groups[g];
    }
  }

  /** One loop step of the grouping: a boundary closes the pending run. */
  lemma GroupsStep(pending: seq<Turn>, rest: seq<Turn>)
    requires pending != [] && pending[|pending| - 1].Boundary()
    requires forall i :: 0 <= i < |pending| - 1 ==> !pending[i].Boundary()
    ensures Groups(pending + rest) == [pending] + Groups(rest)
  {
    var n := FirstEnd(pending + rest);
    assert forall i :: 0 <= i < |pending| ==> (pending + rest)[i] == pending[i];
    assert (pending + rest)[|pending| - 1].Boundary();
    assert n == |pending|;
    assert (pending + rest)[..n] == pending && (pending + rest)[n..] == rest;
  }

  /** A run without an inner boundary is one exchange. */
  lemma GroupsOfRun(pending: seq<Turn>)
    requires forall i :: 0 <= i < |pending| - 1 ==> !pending[i].Boundary()
    ensures Groups(pending) == if pending == [] then [] else [pending]
  {
    if pending != [] {
      var n := FirstEnd(pending);
      assert n == |pending|;
      assert pending[..n] == pending && pending[n..] == [];
    }
  }

  /** Exchanges in terms of the turns' own fields: all turns in order, in runs that are not empty. A run
      ends with a finished turn that was only listened to, or answered without interruption, as soon
      as there is one; only the last run may go on. */
  lemma ExchangesExactly(turns: seq<Turn>, g: nat, i: nat)
    requires g < |Groups(turns)| && i < |Groups(turns)[g]|
    ensures Flatten(Groups(turns)) == turns
    ensures var groups := Groups(turns);
            var turn := groups[g][i];
            var ends := turn.closed && (turn.listeningOnly || (turn.answered && !turn.interrupted));
            (i + 1 < |groups[g]| ==> !ends) && (i + 1 == |groups[g]| && g + 1 < |groups| ==> ends)
  {
    GroupsIsGrouping(turns);
  }

  // ---------- what the model is shown ----------

  /** A stored message as shown: everything is kept but the reasoning, unless that is asked for, and
      speech that was only listened to is marked. */
  ghost predicate ShownAs(turn: Turn, stored: Message, includeReasoning: bool, shown: Message) {
    match stored
    case User(content) =>
      shown == User(if turn.listeningOnly then LISTENING_PREFIX + content else content)
    case Assistant(content, reasoning) =>
      shown == Assistant(content, if includeReasoning then reasoning else "")
    case Request(content, calls, reasoning) =>
      shown == Request(content, calls, if includeReasoning then reasoning else "")
    case Reply(_, _) => shown == stored
  }

  function MessageCount(turns: seq<Turn>): nat {
    if turns == [] then 0 else MessageCount(turns[..|turns| - 1]) + |turns[|turns| - 1].messages|
  }

  lemma {:induction false} MessagesCounted(turns: seq<Turn>, includeReasoning: bool)
    ensures |Messages(turns, includeReasoning)| == MessageCount(turns)
  {
    if turns != [] { MessagesCounted(turns[..|turns| - 1], includeReasoning); }
  }

  /** Every message of every turn is shown, in order. */
  lemma {:induction false} MessagesShown(turns: seq<Turn>, t: nat, i: nat, includeReasoning: bool)
    requires t < |turns| && i < |turns[t].messages|
    ensures var at := MessageCount(turns[..t]) + i;
            at < |Messages(turns, includeReasoning)| == MessageCount(turns)
            && ShownAs(turns[t], turns[t].messages[i], includeReasoning, Messages(turns, includeReasoning)[at])
    decreases |turns|
  {
    hide ShownAs, Turn.Shown, Turn.ShownAll;
    var n := |turns| - 1;
    MessagesCounted(turns, includeReasoning);
    MessagesCounted(turns[..n], includeReasoning);
    ShownOne(turns[t], i, includeReasoning);
    if t < n {
      assert turns[..n][..t] == turns[..t];
      MessagesShown(turns[..n], t, i, includeReasoning);
    }
  }

  lemma ShownOne(turn: Turn, i: nat, includeReasoning: bool)
    requires i < |turn.messages|
    ensures ShownAs(turn, turn.messages[i], includeReasoning, turn.ShownAll(includeReasoning)[i])
  {
  }

  // ---------- tool pairs ----------

  /** Every tool reply stands right after a request that names its call. */
  ghost predicate Paired(messages: seq<Message>) {
    forall i :: 0 <= i < |messages| && messages[i].Reply? ==>
      0 < i && messages[i - 1].Asks(messages[i].callId)
  }

  ghost predicate AllPaired(turns: seq<Turn>) {
    forall i :: 0 <= i < |turns| ==> Paired(turns[i].messages)
  }

  lemma PairedConcat(a: seq<Message>, b: seq<Message>)
    requires Paired(a) && Paired(b)
    ensures Paired(a + b)
  {
    forall i | 0 <= i < |a + b| && (a + b)[i].Reply?
      ensures 0 < i && (a + b)[i - 1].Asks((a + b)[i].callId)
    {
      if i >= |a| { assert b[i - |a|].Reply?; }
    }
  }

  lemma {:induction false} MessagesPaired(turns: seq<Turn>, includeReasoning: bool)
    requires AllPaired(turns)
    ensures Paired(Messages(turns, includeReasoning))
  {
    if turns != [] {
      var last := turns[|turns| - 1];
      MessagesPaired(turns[..|turns| - 1], includeReasoning);
      var shown := last.ShownAll(includeReasoning);
      forall i | 0 <= i < |shown| && shown[i].Reply? ensures 0 < i && shown[i - 1].Asks(shown[i].callId) {
        assert last.messages[i].Reply?;
        assert last.messages[i - 1].Asks(last.messages[i].callId);
      }
      PairedConcat(Messages(turns[..|turns| - 1], includeReasoning), shown);
    }
  }

  // ---------- cost ----------

  lemma DumpsConcat(a: seq<Message>, b: seq<Message>)
    ensures Dumps(a + b) == Dumps(a) + Dumps(b)
  {
    forall i | 0 <= i < |a + b| ensures Dumps(a + b)[i] == (Dumps(a) + Dumps(b))[i] {
      assert (a + b)[i] == if i < |a| then a[i] else b[i - |a|];
    }
  }

  /** The estimate of a joined list is at most the sum of the estimates of its parts. */
  lemma TokensSubadditive(a: seq<Message>, b: seq<Message>)
    ensures Tokens(a + b) <= Tokens(a) + Tokens(b)
    ensures b == [] ==> Tokens(a + b) == Tokens(a)
    ensures Tokens(a) <= Tokens(a + b)
  {
    DumpsConcat(a, b);
    ListLength(Dumps(a));
    ListLength(Dumps(b));
    ListLength(Dumps(a) + Dumps(b));
    WeightConcat(Dumps(a), Dumps(b));
    if b == [] { assert a + b == a; }
    if a == [] { assert a + b == b; }
    else { assert Weight(Dumps(a)) >= 2; }
  }
}
