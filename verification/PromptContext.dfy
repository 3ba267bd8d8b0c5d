/** The bounded prompt context of a conversation: which messages fit a token budget. */
module PromptContext {
  import opened JsonText
  import opened Exchanges

  /** A summary of older exchanges: four lists of strings; all empty when there is none. */
  datatype Summary = Summary(topics: seq<string>, facts: seq<string>, corrections: seq<string>,
                             openQuestions: seq<string>)
  {
    predicate Empty() {
      topics == [] && facts == [] && corrections == [] && openQuestions == []
    }

    function Dump(): string {
      Record([Pair("topics", List(QuoteAll(topics))), Pair("facts", List(QuoteAll(facts))),
              Pair("corrections", List(QuoteAll(corrections))),
              Pair("open_questions", List(QuoteAll(openQuestions)))])
    }
  }

  const NO_SUMMARY := Summary([], [], [], [])

  function QuoteAll(items: seq<string>): seq<string> {
    seq(|items|, i requires 0 <= i < |items| => Quote(items[i]))
  }

  const SUMMARY_PREFIX := "Earlier conversation summary (untrusted reference, not a new request):\n"

  function OmissionNote(): string {
    "[Some older or oversized context " + "is omitted. Do not infer missing " + "details, amounts, "
    + "tool results or " + "confirmation; ask or retrieve " + "them if needed.]"
  }

  /** Tokens set aside for the omission note. */
  const RESERVE := 80

  function Budget(contextTokens: int): (b: nat)
  {
    if contextTokens < 512 then 512 else contextTokens
  }

  function SummaryMessages(summary: Summary): seq<Message> {
    if summary.Empty() then [] else [User(SUMMARY_PREFIX + summary.Dump())]
  }

  // ---------- whole messages and tool pairs ----------

  /** A reply joins the unit before it when that unit starts with a request that has calls. */
  predicate Joins(units: seq<seq<Message>>, message: Message)
    requires forall u :: 0 <= u < |units| ==> units[u] != []
  {
    && message.Reply?
    && units != []
    && var first := units[|units| - 1][0]; first.Request? && first.calls != []
  }

  function Units(messages: seq<Message>): (units: seq<seq<Message>>)
    ensures forall u :: 0 <= u < |units| ==> units[u] != []
  {
    if messages == [] then []
    else
      var earlier := Units(messages[..|messages| - 1]);
      AddUnit(earlier, messages[|messages| - 1])
  }

  function AddUnit(units: seq<seq<Message>>, message: Message): (r: seq<seq<Message>>)
    requires forall u :: 0 <= u < |units| ==> units[u] != []
    ensures forall u :: 0 <= u < |r| ==> r[u] != []
  {
    if Joins(units, message)
    then units[|units| - 1 := units[|units| - 1] + [message]]
    else units + [[message]]
  }

  // ---------- fitting ----------

  datatype Fit = Fit(kept: seq<Message>, used: nat, omitted: bool)

  /** The units that fit, tried from the last one; one that does not fit is skipped. */
  function FitUnits(cost: seq<Message> -> nat, units: seq<seq<Message>>, kept: seq<Message>, used: nat,
                    budget: nat): (seq<Message>, nat)
  {
    if units == [] then (kept, used)
    else
      var unit, rest := units[|units| - 1], units[..|units| - 1];
      if used + cost(unit) <= budget then FitUnits(cost, rest, unit + kept, used + cost(unit), budget)
      else FitUnits(cost, rest, kept, used, budget)
  }

  /** The exchanges that fit, newest first, up to the first that does not. */
  function FitGroups(cost: seq<Message> -> nat, groups: seq<seq<Message>>, kept: seq<Message>, used: nat,
                     budget: nat): Fit
  {
    if groups == [] then Fit(kept, used, false)
    else
      var messages, rest := groups[|groups| - 1], groups[..|groups| - 1];
      if used + cost(messages) > budget then
        if kept == [] then
          var (tail, total) := FitUnits(cost, Units(messages), kept, used, budget);
          Fit(tail, total, true)
        else Fit(kept, used, true)
      else FitGroups(cost, rest, messages + kept, used + cost(messages), budget)
  }

  function GroupMessages(groups: seq<seq<Turn>>, includeReasoning: bool): (r: seq<seq<Message>>)
    ensures |r| == |groups|
  {
    seq(|groups|, i requires 0 <= i < |groups| => Messages(groups[i], includeReasoning))
  }

  /** The turns other than an excluded one. */
  function Without(turns: seq<Turn>, excluded: Excluded): seq<Turn> {
    if turns == [] then []
    else
      var earlier := Without(turns[..|turns| - 1], excluded);
      if excluded.Matches(turns[|turns| - 1].id) then earlier else earlier + [turns[|turns| - 1]]
  }

  datatype Excluded = NoTurn | TurnId(id: string)
  {
    predicate Matches(other: string) {
      TurnId? && id == other
    }
  }

  /** The summary if it leaves room for the reserve, a note when anything was left out,
      and the exchanges that fit. */
  function Assemble(cost: seq<Message> -> nat, opening: seq<Message>, groups: seq<seq<Message>>, budget: nat)
    : seq<Message>
  {
    var dropped := cost(opening) + RESERVE > budget;
    var prefix := if dropped then [] else opening;
    var fit := FitGroups(cost, groups, [], cost(prefix) + RESERVE, budget);
    prefix + NoteIf(dropped || fit.omitted) + fit.kept
  }

  function NoteIf(omitted: bool): seq<Message> {
    if omitted then [User(OmissionNote())] else []
  }

  function ContextFor(turns: seq<Turn>, summary: Summary, contextTokens: int, excluded: Excluded,
                      includeReasoning: bool): seq<Message>
  {
    Assemble(Tokens, SummaryMessages(summary),
             GroupMessages(Groups(Without(turns, excluded)), includeReasoning), Budget(contextTokens))
  }

  // ---------- an excluded turn ----------

  lemma {:induction false} WithoutOthers(turns: seq<Turn>, excluded: Excluded)
    requires excluded.NoTurn? || forall i :: 0 <= i < |turns| ==> turns[i].id != excluded.id
    ensures Without(turns, excluded) == turns
  {
    if turns != [] { WithoutOthers(turns[..|turns| - 1], excluded); }
  }

  lemma {:induction false} WithoutConcat(a: seq<Turn>, b: seq<Turn>, excluded: Excluded)
    ensures Without(a + b, excluded) == Without(a, excluded) + Without(b, excluded)
  {
    if b == [] {
      assert a + b == a;
    } else {
      assert (a + b)[..|a + b| - 1] == a + b[..|b| - 1];
      WithoutConcat(a, b[..|b| - 1], excluded);
    }
  }

  /** A turn left out is gone, and the others stay as they were. */
  lemma WithoutOne(turns: seq<Turn>, i: nat)
    requires i < |turns| && forall j :: 0 <= j < |turns| && j != i ==> turns[j].id != turns[i].id
    ensures Without(turns, TurnId(turns[i].id)) == turns[..i] + turns[i + 1..]
  {
    hide Without;
    SplitAt(turns, i);
    WithoutAround(turns[..i], turns[i], turns[i + 1..]);
  }

  lemma SplitAt(turns: seq<Turn>, i: nat)
    requires i < |turns|
    ensures turns == turns[..i] + ([turns[i]] + turns[i + 1..])
  {
  }

  lemma WithoutAround(before: seq<Turn>, turn: Turn, after: seq<Turn>)
    requires forall j :: 0 <= j < |before| ==> before[j].id != turn.id
    requires forall j :: 0 <= j < |after| ==> after[j].id != turn.id
    ensures Without(before + ([turn] + after), TurnId(turn.id)) == before + after
  {
    hide Without;
    var excluded := TurnId(turn.id);
    WithoutConcat(before, [turn] + after, excluded);
    WithoutConcat([turn], after, excluded);
    WithoutOthers(before, excluded);
    WithoutOthers(after, excluded);
    WithoutIt(turn);
    assert [] + after == after;
  }

  lemma WithoutIt(turn: Turn)
    ensures Without([turn], TurnId(turn.id)) == []
  {
    assert [turn][..0] == [];
  }

  /** The context with a turn left out is that of a memory which never held it. */
  lemma ContextLeavesOut(turns: seq<Turn>, i: nat, summary: Summary, contextTokens: int, includeReasoning: bool)
    requires i < |turns| && forall j :: 0 <= j < |turns| && j != i ==> turns[j].id != turns[i].id
    ensures ContextFor(turns, summary, contextTokens, TurnId(turns[i].id), includeReasoning)
            == ContextFor(turns[..i] + turns[i + 1..], summary, contextTokens, NoTurn, includeReasoning)
  {
    WithoutOne(turns, i);
    WithoutOthers(turns[..i] + turns[i + 1..], NoTurn);
  }

  // ---------- the budget is kept ----------

  ghost predicate AllPlain(s: string) {
    forall i :: 0 <= i < |s| ==> Plain(s[i])
  }

  lemma NoteIsPlain()
    ensures AllPlain(OmissionNote()) && |OmissionNote()| <= 160
  {
    PlainPart1(); PlainPart2(); PlainPart3();
  }

  lemma PlainPart1()
    ensures AllPlain("[Some older or oversized context ") && AllPlain("is omitted. Do not infer missing ")
  {
  }

  lemma PlainPart2()
    ensures AllPlain("details, amounts, ") && AllPlain("tool results or ")
  {
  }

  lemma PlainPart3()
    ensures AllPlain("confirmation; ask or retrieve ") && AllPlain("them if needed.]")
  {
  }

  lemma QuotedLength(text: string)
    requires AllPlain(text)
    ensures Utf8Length(Quote(text)) == |text| + 2
  {
    PlainLength(text);
    Utf8LengthConcat("\"" + text, "\"");
    Utf8LengthConcat("\"", text);
    assert Utf8Length("\"") == 1;
  }

  lemma PairLength(key: string, value: string)
    requires AllPlain(key)
    ensures Utf8Length(Pair(key, value)) == |key| + 4 + Utf8Length(value)
  {
    QuotedLength(key);
    Utf8LengthConcat(Quote(key) + ": ", value);
    Utf8LengthConcat(Quote(key), ": ");
    assert Utf8Length(": ") == 2;
  }

  lemma RecordLength(pairs: seq<string>)
    requires pairs != []
    ensures Utf8Length(Record(pairs)) == Weight(pairs)
  {
    JoinLength(pairs);
    Utf8LengthConcat("{" + Join(pairs), "}");
    Utf8LengthConcat("{", Join(pairs));
    assert Utf8Length("{") == 1 && Utf8Length("}") == 1;
  }

  lemma SingleCost(message: Message)
    ensures Tokens([message]) == (Utf8Length(message.Dump()) + 4) / 3
  {
    assert Dumps([message]) == [message.Dump()];
    ListLength([message.Dump()]);
  }

  // ---------- the size of a message ----------

  function Width(text: string): nat {
    Utf8Length(EscapeAll(text))
  }

  function CallBytes(calls: seq<ToolCall>): nat {
    if calls == [] then 0
    else 75 + Width(calls[0].id) + Width(calls[0].name) + Width(calls[0].arguments) + CallBytes(calls[1..])
  }

  function ReasoningBytes(reasoning: string): nat {
    if reasoning == "" then 0 else 25 + Width(reasoning)
  }

  /** Bytes a message takes: its texts, escaped and in UTF-8, and its keys and punctuation. */
  function MessageBytes(message: Message): nat {
    match message
    case User(content) => 31 + Width(content)
    case Assistant(content, reasoning) => 36 + Width(content) + ReasoningBytes(reasoning)
    case Request(content, calls, reasoning) =>
      52 + Width(content) + (if calls == [] then 2 else CallBytes(calls)) + ReasoningBytes(reasoning)
    case Reply(callId, content) => 51 + Width(callId) + Width(content)
  }

  lemma QuoteBytes(text: string)
    ensures Utf8Length(Quote(text)) == Width(text) + 2
  {
    Utf8LengthConcat("\"" + EscapeAll(text), "\"");
    Utf8LengthConcat("\"", EscapeAll(text));
    assert Utf8Length("\"") == 1;
  }

  lemma TextBytes(key: string, text: string)
    requires AllPlain(key)
    ensures Utf8Length(Pair(key, Quote(text))) == |key| + 6 + Width(text)
  {
    QuoteBytes(text);
    PairLength(key, Quote(text));
  }

  lemma RoleBytes(role: string)
    requires AllPlain(role)
    ensures Utf8Length(Pair("role", Quote(role))) == 10 + |role|
  {
    assert AllPlain("role");
    PlainLength(role);
    TextBytes("role", role);
  }

  lemma KeysArePlain()
    ensures AllPlain("content") && AllPlain("tool_calls") && AllPlain("reasoning_content")
    ensures AllPlain("tool_call_id") && AllPlain("id") && AllPlain("type") && AllPlain("function")
    ensures AllPlain("name") && AllPlain("arguments")
    ensures AllPlain("user") && AllPlain("assistant") && AllPlain("tool")
  {
  }

  lemma CallLength(call: ToolCall)
    ensures var inner := Record([Pair("name", Quote(call.name)), Pair("arguments", Quote(call.arguments))]);
            Utf8Length(Record([Pair("id", Quote(call.id)), Pair("type", Quote("function")), Pair("function", inner)]))
            == 73 + Width(call.id) + Width(call.name) + Width(call.arguments)
  {
    hide AllPlain, Utf8Length, EscapeAll, Record, Pair, Quote, Weight;
    KeysArePlain();
    TextBytes("name", call.name);
    TextBytes("arguments", call.arguments);
    TextBytes("id", call.id);
    PlainWidth("function");
    TextBytes("type", "function");
    var inner := [Pair("name", Quote(call.name)), Pair("arguments", Quote(call.arguments))];
    WeightOfTwo(inner);
    PairLength("function", Record(inner));
    WeightOfThree([Pair("id", Quote(call.id)), Pair("type", Quote("function")), Pair("function", Record(inner))]);
  }

  lemma PlainWidth(text: string)
    requires AllPlain(text)
    ensures Width(text) == |text|
  {
    PlainLength(text);
  }

  lemma WeightOfTwo(pairs: seq<string>)
    requires |pairs| == 2
    ensures Utf8Length(Record(pairs)) == Utf8Length(pairs[0]) + Utf8Length(pairs[1]) + 4
  {
    RecordLength(pairs);
    assert Weight(pairs[1..]) == Utf8Length(pairs[1]) + 2;
  }

  lemma WeightOfThree(pairs: seq<string>)
    requires |pairs| == 3
    ensures Utf8Length(Record(pairs)) == Utf8Length(pairs[0]) + Utf8Length(pairs[1]) + Utf8Length(pairs[2]) + 6
  {
    RecordLength(pairs);
    assert Weight(pairs[1..][1..]) == Utf8Length(pairs[2]) + 2;
  }

  lemma {:induction false} CallsLength(calls: seq<ToolCall>)
    ensures Weight(DumpCalls(calls)) == CallBytes(calls)
    decreases |calls|
  {
    hide Utf8Length, Record, Pair, Quote, Width;
    if calls != [] {
      CallLength(calls[0]);
      CallsLength(calls[1..]);
      assert DumpCalls(calls)[1..] == DumpCalls(calls[1..]);
    }
  }

  lemma ReasoningLength(pairs: seq<string>, reasoning: string)
    requires pairs != []
    ensures Utf8Length(Record(pairs + DumpReasoning(reasoning))) == Weight(pairs) + ReasoningBytes(reasoning)
  {
    hide AllPlain, Utf8Length, Record, Pair, Quote, Width;
    var more := DumpReasoning(reasoning);
    RecordLength(pairs + more);
    WeightConcat(pairs, more);
    KeysArePlain();
    TextBytes("reasoning_content", reasoning);
    if reasoning != "" { assert Weight(more[1..]) == 0; }
  }

  /** A message takes just those bytes. */
  lemma DumpBytes(message: Message)
    ensures Utf8Length(message.Dump()) == MessageBytes(message)
  {
    hide AllPlain, Utf8Length, Record, Pair, Quote, Width, Weight, ReasoningBytes, DumpReasoning;
    KeysArePlain();
    RoleBytes("user");
    RoleBytes("assistant");
    RoleBytes("tool");
    TextBytes("content", message.content);
    match message
    case User(content) => WeightOfTwo([Pair("role", Quote("user")), Pair("content", Quote(content))]);
    case Assistant(content, reasoning) =>
      var pairs := [Pair("role", Quote("assistant")), Pair("content", Quote(content))];
      WeightOfTwo(pairs);
      RecordLength(pairs);
      ReasoningLength(pairs, reasoning);
    case Request(content, calls, reasoning) =>
      var pairs := [Pair("role", Quote("assistant")), Pair("content", Quote(content)),
                    Pair("tool_calls", List(DumpCalls(calls)))];
      CallsLength(calls);
      ListLength(DumpCalls(calls));
      PairLength("tool_calls", List(DumpCalls(calls)));
      WeightOfThree(pairs);
      RecordLength(pairs);
      ReasoningLength(pairs, reasoning);
    case Reply(callId, content) =>
      TextBytes("tool_call_id", callId);
      WeightOfThree([Pair("role", Quote("tool")), Pair("tool_call_id", Quote(callId)),
                     Pair("content", Quote(content))]);
  }

  function TotalBytes(messages: seq<Message>): nat {
    if messages == [] then 0 else MessageBytes(messages[0]) + 2 + TotalBytes(messages[1..])
  }

  /** The estimate of a list of messages is a third of its bytes, rounded up; each message adds its own
      bytes and two for its separator or bracket. */
  lemma TokensExactly(messages: seq<Message>)
    ensures var bytes := if messages == [] then 2 else TotalBytes(messages);
            3 * Tokens(messages) - 3 < bytes <= 3 * Tokens(messages)
  {
    hide Utf8Length, List, MessageBytes, Message.Dump;
    ListLength(Dumps(messages));
    WeightBytes(messages);
  }

  lemma {:induction false} WeightBytes(messages: seq<Message>)
    ensures Weight(Dumps(messages)) == TotalBytes(messages)
    decreases |messages|
  {
    hide Utf8Length, MessageBytes, Message.Dump;
    if messages != [] {
      DumpBytes(messages[0]);
      WeightBytes(messages[1..]);
      assert Dumps(messages)[1..] == Dumps(messages[1..]);
    }
  }

  /** The reserve covers the omission note. */
  lemma NoteCost()
    ensures Tokens([User(OmissionNote())]) <= RESERVE
  {
    hide OmissionNote, Message.Dump;
    NoteIsPlain();
    DumpBytes(User(OmissionNote()));
    PlainWidth(OmissionNote());
    SingleCost(User(OmissionNote()));
  }

  lemma EmptyCost()
    ensures Tokens([]) == 1
  {
    ListLength(Dumps([]));
  }

  ghost predicate Subadditive(cost: seq<Message> -> nat) {
    forall a, b :: cost(a + b) <= cost(a) + cost(b)
  }

  lemma TokensAreSubadditive()
    ensures Subadditive(Tokens)
  {
    forall a, b ensures Tokens(a + b) <= Tokens(a) + Tokens(b) { TokensSubadditive(a, b); }
  }

  /** Cost of a list that is not charged when it is empty. */
  function Charge(cost: seq<Message> -> nat, messages: seq<Message>): nat {
    if messages == [] then 0 else cost(messages)
  }

  lemma ChargeConcat(cost: seq<Message> -> nat, a: seq<Message>, b: seq<Message>)
    requires Subadditive(cost)
    ensures cost(a + b) <= cost(a) + Charge(cost, b)
  {
    if b == [] { assert a + b == a; }
  }

  lemma {:induction false} FitUnitsWithin(cost: seq<Message> -> nat, units: seq<seq<Message>>, kept: seq<Message>,
                                          used: nat, budget: nat, start: nat)
    requires Subadditive(cost) && used <= budget && start + Charge(cost, kept) <= used
    ensures var (tail, total) := FitUnits(cost, units, kept, used, budget);
            total <= budget && start + Charge(cost, tail) <= total
  {
    if units != [] {
      var unit, rest := units[|units| - 1], units[..|units| - 1];
      if used + cost(unit) <= budget {
        ChargeConcat(cost, unit, kept);
        FitUnitsWithin(cost, rest, unit + kept, used + cost(unit), budget, start);
      } else {
        FitUnitsWithin(cost, rest, kept, used, budget, start);
      }
    }
  }

  lemma {:induction false} FitGroupsWithin(cost: seq<Message> -> nat, groups: seq<seq<Message>>, kept: seq<Message>,
                                           used: nat, budget: nat, start: nat)
    requires Subadditive(cost) && used <= budget && start + Charge(cost, kept) <= used
    ensures var fit := FitGroups(cost, groups, kept, used, budget);
            fit.used <= budget && start + Charge(cost, fit.kept) <= fit.used
  {
    if groups != [] {
      var messages, rest := groups[|groups| - 1], groups[..|groups| - 1];
      if used + cost(messages) > budget {
        FitUnitsWithin(cost, Units(messages), kept, used, budget, start);
      } else {
        ChargeConcat(cost, messages, kept);
        FitGroupsWithin(cost, rest, messages + kept, used + cost(messages), budget, start);
      }
    }
  }

  lemma AssembleWithin(cost: seq<Message> -> nat, opening: seq<Message>, groups: seq<seq<Message>>, budget: nat)
    requires Subadditive(cost) && cost([]) + RESERVE <= budget && cost([User(OmissionNote())]) <= RESERVE
    ensures cost(Assemble(cost, opening, groups, budget)) <= budget
  {
    var dropped := cost(opening) + RESERVE > budget;
    var prefix := if dropped then [] else opening;
    var start := cost(prefix) + RESERVE;
    FitGroupsWithin(cost, groups, [], start, budget, start);
    var fit := FitGroups(cost, groups, [], start, budget);
    var note := NoteIf(dropped || fit.omitted);
    ChargeConcat(cost, prefix + note, fit.kept);
    ChargeConcat(cost, prefix, note);
  }

  /** Whatever the history and the summary, the context stays within the budget. */
  lemma ContextWithinBudget(turns: seq<Turn>, summary: Summary, contextTokens: int, excluded: Excluded,
                            includeReasoning: bool)
    ensures Tokens(ContextFor(turns, summary, contextTokens, excluded, includeReasoning)) <= Budget(contextTokens)
  {
    EmptyCost();
    NoteCost();
    TokensAreSubadditive();
    AssembleWithin(Tokens, SummaryMessages(summary),
                   GroupMessages(Groups(Without(turns, excluded)), includeReasoning), Budget(contextTokens));
  }

  // ---------- tool pairs survive ----------

  lemma {:induction false} UnitsPaired(messages: seq<Message>)
    requires Paired(messages)
    ensures EachPaired(Units(messages))
    ensures messages != [] && !messages[|messages| - 1].Reply? ==>
              Units(messages) != [] && Units(messages)[|Units(messages)| - 1] == [messages[|messages| - 1]]
  {
    if messages != [] {
      var earlier, last := messages[..|messages| - 1], messages[|messages| - 1];
      UnitsPaired(earlier);
      if last.Reply? {
        assert messages[|messages| - 2].Asks(last.callId);
        assert earlier[|earlier| - 1] == messages[|messages| - 2];
        assert Joins(Units(earlier), last);
      }
    }
  }

  lemma {:induction false} FitUnitsPaired(cost: seq<Message> -> nat, units: seq<seq<Message>>, kept: seq<Message>,
                                          used: nat, budget: nat)
    requires Paired(kept) && EachPaired(units)
    ensures Paired(FitUnits(cost, units, kept, used, budget).0)
  {
    if units != [] {
      var unit, rest := units[|units| - 1], units[..|units| - 1];
      PairedConcat(unit, kept);
      if used + cost(unit) <= budget {
        FitUnitsPaired(cost, rest, unit + kept, used + cost(unit), budget);
      } else {
        FitUnitsPaired(cost, rest, kept, used, budget);
      }
    }
  }

  lemma {:induction false} FitGroupsPaired(cost: seq<Message> -> nat, groups: seq<seq<Message>>, kept: seq<Message>,
                                           used: nat, budget: nat)
    requires Paired(kept) && EachPaired(groups)
    ensures Paired(FitGroups(cost, groups, kept, used, budget).kept)
  {
    if groups != [] {
      var messages, rest := groups[|groups| - 1], groups[..|groups| - 1];
      if used + cost(messages) > budget {
        UnitsPaired(messages);
        FitUnitsPaired(cost, Units(messages), kept, used, budget);
      } else {
        PairedConcat(messages, kept);
        FitGroupsPaired(cost, rest, messages + kept, used + cost(messages), budget);
      }
    }
  }

  lemma {:induction false} WithoutPaired(turns: seq<Turn>, excluded: Excluded)
    requires AllPaired(turns)
    ensures AllPaired(Without(turns, excluded))
  {
    if turns != [] { WithoutPaired(turns[..|turns| - 1], excluded); }
  }

  lemma {:induction false} FlattenMembers(groups: seq<seq<Turn>>, g: nat)
    requires g < |groups|
    ensures forall t <- groups[g] :: t in Flatten(groups)
  {
    if g > 0 { FlattenMembers(groups[1..], g - 1); }
  }

  /** In every context each tool reply follows a request that names its call,
      also when only part of an oversized exchange fits. */
  lemma ContextPaired(turns: seq<Turn>, summary: Summary, contextTokens: int, excluded: Excluded,
                      includeReasoning: bool)
    requires AllPaired(turns)
    ensures Paired(ContextFor(turns, summary, contextTokens, excluded, includeReasoning))
  {
    SummaryPaired(summary);
    WithoutPaired(turns, excluded);
    ExchangesPaired(Without(turns, excluded), includeReasoning);
    AssemblePaired(Tokens, SummaryMessages(summary),
                   GroupMessages(Groups(Without(turns, excluded)), includeReasoning), Budget(contextTokens));
  }

  ghost predicate EachPaired(groups: seq<seq<Message>>) {
    forall g :: 0 <= g < |groups| ==> Paired(groups[g])
  }

  lemma SummaryPaired(summary: Summary)
    ensures Paired(SummaryMessages(summary))
  {
  }

  lemma ExchangesPaired(turns: seq<Turn>, includeReasoning: bool)
    requires AllPaired(turns)
    ensures EachPaired(GroupMessages(Groups(turns), includeReasoning))
  {
    GroupsIsGrouping(turns);
    var groups := Groups(turns);
    forall g | 0 <= g < |groups| ensures Paired(Messages(groups[g], includeReasoning)) {
      forall i | 0 <= i < |groups[g]| ensures Paired(groups[g][i].messages) {
        FlattenMembers(groups, g);
        assert groups[g][i] in turns;
      }
      MessagesPaired(groups[g], includeReasoning);
    }
  }

  lemma AssemblePaired(cost: seq<Message> -> nat, opening: seq<Message>, groups: seq<seq<Message>>, budget: nat)
    requires Paired(opening) && EachPaired(groups)
    ensures Paired(Assemble(cost, opening, groups, budget))
  {
    var dropped := cost(opening) + RESERVE > budget;
    var prefix := if dropped then [] else opening;
    var start := cost(prefix) + RESERVE;
    FitGroupsPaired(cost, groups, [], start, budget);
    var fit := FitGroups(cost, groups, [], start, budget);
    var note := NoteIf(dropped || fit.omitted);
    assert Paired(note);
    PairedConcat(prefix, note);
    PairedConcat(prefix + note, fit.kept);
  }

  // ---------- which exchanges are kept ----------

  function TotalCost(cost: seq<Message> -> nat, groups: seq<seq<Message>>): nat {
    if groups == [] then 0 else cost(groups[0]) + TotalCost(cost, groups[1..])
  }

  function Joined(groups: seq<seq<Message>>): seq<Message> {
    if groups == [] then [] else groups[0] + Joined(groups[1..])
  }

  /** How many of the oldest exchanges must go before the rest fit in the room left. */
  function Cut(cost: seq<Message> -> nat, groups: seq<seq<Message>>, room: nat): (k: nat)
    ensures k <= |groups|
  {
    if TotalCost(cost, groups) <= room then 0 else 1 + Cut(cost, groups[1..], room)
  }

  /** The cut is the least number of exchanges to drop. */
  lemma {:induction false} CutIsLeast(cost: seq<Message> -> nat, groups: seq<seq<Message>>, room: nat, k: nat)
    requires k <= |groups|
    ensures Cut(cost, groups, room) <= k <==> TotalCost(cost, groups[k..]) <= room
  {
    if k == 0 {
      assert groups[0..] == groups;
    } else {
      assert groups[1..][k - 1..] == groups[k..];
      CutIsLeast(cost, groups[1..], room, k - 1);
      DropLowersCost(cost, groups, k);
    }
  }

  lemma {:induction false} DropLowersCost(cost: seq<Message> -> nat, groups: seq<seq<Message>>, k: nat)
    requires k <= |groups|
    ensures TotalCost(cost, groups[k..]) <= TotalCost(cost, groups)
  {
    if k == 0 {
      assert groups[0..] == groups;
    } else {
      assert groups[1..][k - 1..] == groups[k..];
      DropLowersCost(cost, groups[1..], k - 1);
    }
  }

  lemma {:induction false} TotalCostFromEnd(cost: seq<Message> -> nat, groups: seq<seq<Message>>, last: seq<Message>)
    ensures TotalCost(cost, groups + [last]) == TotalCost(cost, groups) + cost(last)
  {
    if groups == [] {
      assert groups + [last] == [last];
      assert [last][1..] == [];
    } else {
      assert (groups + [last])[1..] == groups[1..] + [last];
      TotalCostFromEnd(cost, groups[1..], last);
    }
  }

  lemma {:induction false} CutFromEnd(cost: seq<Message> -> nat, groups: seq<seq<Message>>, last: seq<Message>,
                                      room: nat)
    ensures Cut(cost, groups + [last], room) ==
            if cost(last) > room then |groups| + 1 else Cut(cost, groups, room - cost(last))
  {
    TotalCostFromEnd(cost, groups, last);
    if groups == [] {
      assert groups + [last] == [last];
      assert [last][1..] == [];
    } else {
      assert (groups + [last])[1..] == groups[1..] + [last];
      CutFromEnd(cost, groups[1..], last, room);
    }
  }

  lemma {:induction false} JoinedFromEnd(groups: seq<seq<Message>>, last: seq<Message>)
    ensures Joined(groups + [last]) == Joined(groups) + last
  {
    if groups == [] {
      assert groups + [last] == [last];
      assert [last][1..] == [];
    } else {
      assert (groups + [last])[1..] == groups[1..] + [last];
      JoinedFromEnd(groups[1..], last);
    }
  }

  /** The exchanges kept are the longest run of newest ones whose estimates fit; something is
      reported as omitted exactly when an exchange had to go; and only when the run that fits
      holds no message is part of the exchange before it used. */
  ghost predicate LongestSuffix(cost: seq<Message> -> nat, groups: seq<seq<Message>>, kept: seq<Message>, used: nat,
                                budget: nat, fit: Fit, k: nat)
    requires k <= |groups|
  {
    var whole := Joined(groups[k..]) + kept;
    && (fit.omitted <==> k > 0)
    && (k == 0 || whole != [] ==> fit.kept == whole)
    && (k > 0 && whole == [] ==>
          fit.kept == FitUnits(cost, Units(groups[k - 1]), [], used + TotalCost(cost, groups[k..]), budget).0)
  }

  lemma {:induction false} FitIsLongestSuffix(cost: seq<Message> -> nat, groups: seq<seq<Message>>, kept: seq<Message>,
                                              used: nat, budget: nat)
    requires used <= budget
    ensures LongestSuffix(cost, groups, kept, used, budget, FitGroups(cost, groups, kept, used, budget),
                          Cut(cost, groups, budget - used))
  {
    if groups == [] {
      assert Joined(groups[0..]) + kept == kept;
    } else {
      var last, rest := groups[|groups| - 1], groups[..|groups| - 1];
      assert rest + [last] == groups;
      CutFromEnd(cost, rest, last, budget - used);
      if used + cost(last) > budget {
        OversizedStep(cost, groups, kept, used, budget);
      } else {
        FitIsLongestSuffix(cost, rest, last + kept, used + cost(last), budget);
        SuffixStep(cost, rest, last, kept, used, budget, FitGroups(cost, groups, kept, used, budget),
                   Cut(cost, groups, budget - used));
      }
    }
  }

  lemma OversizedStep(cost: seq<Message> -> nat, groups: seq<seq<Message>>, kept: seq<Message>, used: nat, budget: nat)
    requires groups != [] && used + cost(groups[|groups| - 1]) > budget
    ensures LongestSuffix(cost, groups, kept, used, budget, FitGroups(cost, groups, kept, used, budget), |groups|)
  {
    assert groups[|groups|..] == [];
    assert Joined([]) + kept == kept;
    assert TotalCost(cost, []) == 0;
  }

  lemma SuffixStep(cost: seq<Message> -> nat, rest: seq<seq<Message>>, last: seq<Message>, kept: seq<Message>,
                   used: nat, budget: nat, fit: Fit, k: nat)
    requires k <= |rest|
    requires LongestSuffix(cost, rest, last + kept, used + cost(last), budget, fit, k)
    ensures LongestSuffix(cost, rest + [last], kept, used, budget, fit, k)
  {
    SuffixParts(cost, rest, last, kept, k);
    assert k > 0 ==> (rest + [last])[k - 1] == rest[k - 1];
  }

  lemma SuffixParts(cost: seq<Message> -> nat, rest: seq<seq<Message>>, last: seq<Message>, kept: seq<Message>, k: nat)
    requires k <= |rest|
    ensures Joined((rest + [last])[k..]) + kept == Joined(rest[k..]) + (last + kept)
    ensures TotalCost(cost, (rest + [last])[k..]) == TotalCost(cost, rest[k..]) + cost(last)
  {
    assert (rest + [last])[k..] == rest[k..] + [last];
    JoinedFromEnd(rest[k..], last);
    TotalCostFromEnd(cost, rest[k..], last);
  }

  /** The messages of the exchanges that fit; of the newest oversized one, the whole units that fit. */
  function Newest(cost: seq<Message> -> nat, groups: seq<seq<Message>>, start: nat, budget: nat): seq<Message>
    requires start <= budget
  {
    var k := Cut(cost, groups, budget - start);
    var whole := Joined(groups[k..]);
    if k == 0 || whole != [] then whole
    else FitUnits(cost, Units(groups[k - 1]), [], start + TotalCost(cost, groups[k..]), budget).0
  }

  /** The context is the summary if it fits, a note exactly when the summary or an exchange was
      left out, and the longest run of newest exchanges that fits. */
  lemma AssembleShape(cost: seq<Message> -> nat, opening: seq<Message>, groups: seq<seq<Message>>, budget: nat)
    requires cost([]) + RESERVE <= budget
    ensures var dropped := cost(opening) + RESERVE > budget;
            var prefix := if dropped then [] else opening;
            var start := cost(prefix) + RESERVE;
            && start <= budget
            && Assemble(cost, opening, groups, budget)
               == prefix + NoteIf(dropped || start + TotalCost(cost, groups) > budget)
                  + Newest(cost, groups, start, budget)
  {
    var prefix := if cost(opening) + RESERVE > budget then [] else opening;
    var start := cost(prefix) + RESERVE;
    FitIsLongestSuffix(cost, groups, [], start, budget);
    var k := Cut(cost, groups, budget - start);
    CutIsLeast(cost, groups, budget - start, 0);
    assert groups[0..] == groups;
    assert Joined(groups[k..]) + [] == Joined(groups[k..]);
  }

  // ---------- the context of a conversation ----------

  lemma {:induction false} JoinedMessages(groups: seq<seq<Turn>>, includeReasoning: bool)
    ensures Joined(GroupMessages(groups, includeReasoning)) == Messages(Flatten(groups), includeReasoning)
    decreases |groups|
  {
    if groups != [] {
      JoinedMessages(groups[1..], includeReasoning);
      assert GroupMessages(groups, includeReasoning)[1..] == GroupMessages(groups[1..], includeReasoning);
      MessagesConcat(groups[0], Flatten(groups[1..]), includeReasoning);
    }
  }

  /** The estimates of the exchanges from the k-th on. */
  function CostFrom(groups: seq<seq<Turn>>, includeReasoning: bool, k: nat): nat
    requires k <= |groups|
  {
    TotalCost(Tokens, GroupMessages(groups[k..], includeReasoning))
  }

  /** The context, without saying how it is found: the summary, unless it leaves no room for the note;
      the note, exactly when the summary or an exchange had to go; and all messages of as many of the
      newest exchanges as fit, if those have any. */
  lemma ContextExactly(turns: seq<Turn>, summary: Summary, contextTokens: int, includeReasoning: bool,
                       opening: seq<Message>, prefix: seq<Message>, budget: nat, k: nat)
    requires budget == if contextTokens < 512 then 512 else contextTokens
    requires opening == if summary == Summary([], [], [], []) then [] else [User(SUMMARY_PREFIX + summary.Dump())]
    requires prefix == if Tokens(opening) + 80 > budget then [] else opening
    requires k <= |Groups(turns)| && Tokens(prefix) + 80 + CostFrom(Groups(turns), includeReasoning, k) <= budget
    requires k > 0 ==> Tokens(prefix) + 80 + CostFrom(Groups(turns), includeReasoning, k - 1) > budget
    requires k > 0 ==> Messages(Flatten(Groups(turns)[k..]), includeReasoning) != []
    ensures ContextFor(turns, summary, contextTokens, NoTurn, includeReasoning)
            == prefix + (if prefix != opening || k > 0 then [User(OmissionNote())] else [])
               + Messages(Flatten(Groups(turns)[k..]), includeReasoning)
  {
    hide Tokens, OmissionNote, Summary.Dump, Groups, Flatten, Messages, FitUnits, FitGroups;
    WithoutOthers(turns, NoTurn);
    JoinedMessages(Groups(turns)[k..], includeReasoning);
    var groups := Groups(turns);
    var shown := GroupMessages(groups, includeReasoning);
    assert shown[k..] == GroupMessages(groups[k..], includeReasoning);
    if k > 0 { assert shown[k - 1..] == GroupMessages(groups[k - 1..], includeReasoning); }
    EmptyCost();
    assert opening == SummaryMessages(summary);
    AssembleFrom(Tokens, opening, prefix, shown, budget, k);
  }

  lemma AssembleFrom(cost: seq<Message> -> nat, opening: seq<Message>, prefix: seq<Message>, groups: seq<seq<Message>>,
                     budget: nat, k: nat)
    requires cost([]) + RESERVE <= budget && prefix == if cost(opening) + RESERVE > budget then [] else opening
    requires k <= |groups| && cost(prefix) + RESERVE + TotalCost(cost, groups[k..]) <= budget
    requires k > 0 ==> cost(prefix) + RESERVE + TotalCost(cost, groups[k - 1..]) > budget && Joined(groups[k..]) != []
    ensures Assemble(cost, opening, groups, budget)
            == prefix + NoteIf(prefix != opening || k > 0) + Joined(groups[k..])
  {
    hide Assemble, NoteIf, TotalCost, Joined, Cut, FitUnits, Units;
    var room := budget - (cost(prefix) + RESERVE);
    AssembleShape(cost, opening, groups, budget);
    CutIsLeast(cost, groups, room, k);
    CutIsLeast(cost, groups, room, 0);
    assert groups[0..] == groups;
    if k > 0 {
      CutIsLeast(cost, groups, room, k - 1);
      CutIsLeast(cost, groups, room, 0);
    }
  }

  // ---------- part of an oversized exchange ----------

  /** Single messages, and requests for tools with the replies behind them. */
  ghost predicate IsUnits(units: seq<seq<Message>>, messages: seq<Message>) {
    && Joined(units) == messages
    && (forall u :: 0 <= u < |units| ==> IsUnit(units[u]))
    && (forall u :: 0 <= u < |units| - 1 ==> Apart(units[u], units[u + 1]))
  }

  ghost predicate IsUnit(unit: seq<Message>) {
    unit != [] && forall i :: 1 <= i < |unit| ==> unit[i].Reply? && CallsTools(unit[0])
  }

  /** The second unit does not begin with a reply that belongs to the first. */
  ghost predicate Apart(unit: seq<Message>, next: seq<Message>)
    requires IsUnit(unit) && IsUnit(next)
  {
    next[0].Reply? ==> !CallsTools(unit[0])
  }

  ghost predicate CallsTools(message: Message) {
    message.Request? && message.calls != []
  }

  lemma {:induction false} UnitsExactly(messages: seq<Message>)
    ensures IsUnits(Units(messages), messages)
    decreases |messages|
  {
    if messages != [] {
      var earlier, last := messages[..|messages| - 1], messages[|messages| - 1];
      UnitsExactly(earlier);
      UnitAdded(Units(earlier), earlier, last);
      assert earlier + [last] == messages;
    }
  }

  lemma UnitAdded(units: seq<seq<Message>>, messages: seq<Message>, last: Message)
    requires IsUnits(units, messages)
    ensures IsUnits(AddUnit(units, last), messages + [last])
  {
    hide Joined;
    var n := |units| - 1;
    if Joins(units, last) {
      LastUnitGrows(units, last);
      UnitGrows(units[n], last);
      var r := AddUnit(units, last);
      assert r == units[n := units[n] + [last]];
      forall u | 0 <= u < |r| - 1 ensures Apart(r[u], r[u + 1]) {
        assert Apart(units[u], units[u + 1]);
        assert r[u] == units[u] && r[u + 1][0] == units[u + 1][0];
      }
    } else {
      JoinedFromEnd(units, [last]);
      forall u | 0 <= u < |units| ensures Apart((units + [[last]])[u], (units + [[last]])[u + 1]) {
        if u < n { assert Apart(units[u], units[u + 1]); }
      }
    }
  }

  lemma UnitGrows(unit: seq<Message>, last: Message)
    requires IsUnit(unit) && CallsTools(unit[0]) && last.Reply?
    ensures IsUnit(unit + [last]) && (unit + [last])[0] == unit[0]
  {
  }

  lemma LastUnitGrows(units: seq<seq<Message>>, last: Message)
    requires units != []
    ensures var n := |units| - 1;
            Joined(units[n := units[n] + [last]]) == Joined(units) + [last]
  {
    hide Joined;
    var n := |units| - 1;
    JoinedFromEnd(units[..n], units[n]);
    JoinedFromEnd(units[..n], units[n] + [last]);
    assert units[..n] + [units[n]] == units;
    assert units[n := units[n] + [last]] == units[..n] + [units[n] + [last]];
  }

  /** The chosen ones of some units, joined, and what they cost. */
  function Chosen(units: seq<seq<Message>>, chosen: seq<bool>): seq<Message>
    requires |chosen| == |units|
  {
    if units == [] then [] else (if chosen[0] then units[0] else []) + Chosen(units[1..], chosen[1..])
  }

  function ChosenCost(cost: seq<Message> -> nat, units: seq<seq<Message>>, chosen: seq<bool>): nat
    requires |chosen| == |units|
  {
    if units == [] then 0 else (if chosen[0] then cost(units[0]) else 0) + ChosenCost(cost, units[1..], chosen[1..])
  }

  lemma {:induction false} ChosenFromEnd(cost: seq<Message> -> nat, units: seq<seq<Message>>, chosen: seq<bool>,
                                         unit: seq<Message>, take: bool)
    requires |chosen| == |units|
    ensures Chosen(units + [unit], chosen + [take]) == Chosen(units, chosen) + if take then unit else []
    ensures ChosenCost(cost, units + [unit], chosen + [take])
            == ChosenCost(cost, units, chosen) + if take then cost(unit) else 0
    decreases |units|
  {
    var us, cs := units + [unit], chosen + [take];
    if units == [] {
      assert us[1..] == [] && cs[1..] == [];
    } else {
      assert us[1..] == units[1..] + [unit] && cs[1..] == chosen[1..] + [take];
      ChosenFromEnd(cost, units[1..], chosen[1..], unit, take);
    }
  }

  /** A unit is chosen exactly when it fits besides the chosen ones behind it. */
  ghost predicate Greedy(cost: seq<Message> -> nat, units: seq<seq<Message>>, chosen: seq<bool>, used: nat, budget: nat)
    requires |chosen| == |units|
  {
    forall u :: 0 <= u < |units| ==>
      (chosen[u] <==> used + ChosenCost(cost, units[u + 1..], chosen[u + 1..]) + cost(units[u]) <= budget)
  }

  /** Of an oversized exchange the units that fit are kept, the later ones first. */
  lemma {:induction false} FitUnitsIsGreedy(cost: seq<Message> -> nat, units: seq<seq<Message>>, kept: seq<Message>,
                                            used: nat, budget: nat) returns (chosen: seq<bool>)
    ensures |chosen| == |units| && Greedy(cost, units, chosen, used, budget)
    ensures FitUnits(cost, units, kept, used, budget)
            == (Chosen(units, chosen) + kept, used + ChosenCost(cost, units, chosen))
    decreases |units|
  {
    if units == [] {
      chosen := [];
      assert [] + kept == kept;
    } else {
      var n := |units| - 1;
      var unit, rest := units[n], units[..n];
      var take := used + cost(unit) <= budget;
      var before := FitUnitsIsGreedy(cost, rest, if take then unit + kept else kept,
                                     if take then used + cost(unit) else used, budget);
      chosen := before + [take];
      assert rest + [unit] == units;
      ChosenFromEnd(cost, rest, before, unit, take);
      GreedyFromEnd(cost, rest, before, used, budget, unit, take);
      Regroup(Chosen(rest, before), if take then unit else [], kept);
      assert Chosen(rest, before) + [] == Chosen(rest, before);
    }
  }

  lemma Regroup(a: seq<Message>, b: seq<Message>, c: seq<Message>)
    ensures a + (b + c) == (a + b) + c
  {
  }

  lemma GreedyFromEnd(cost: seq<Message> -> nat, units: seq<seq<Message>>, chosen: seq<bool>, used: nat, budget: nat,
                      unit: seq<Message>, take: bool)
    requires |chosen| == |units| && (take <==> used + cost(unit) <= budget)
    requires Greedy(cost, units, chosen, if take then used + cost(unit) else used, budget)
    ensures Greedy(cost, units + [unit], chosen + [take], used, budget)
  {
    hide ChosenCost;
    var us, cs := units + [unit], chosen + [take];
    forall u | 0 <= u < |us|
      ensures cs[u] <==> used + ChosenCost(cost, us[u + 1..], cs[u + 1..]) + cost(us[u]) <= budget
    {
      if u < |units| {
        assert us[u + 1..] == units[u + 1..] + [unit] && cs[u + 1..] == chosen[u + 1..] + [take];
        ChosenFromEnd(cost, units[u + 1..], chosen[u + 1..], unit, take);
      } else {
        NoCost(cost, us[u + 1..], cs[u + 1..]);
      }
    }
  }

  lemma NoCost(cost: seq<Message> -> nat, units: seq<seq<Message>>, chosen: seq<bool>)
    requires |units| == |chosen| == 0
    ensures ChosenCost(cost, units, chosen) == 0
  {
  }
}
