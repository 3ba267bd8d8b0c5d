/** The incremental speech filter: internal markup, and what it encloses, is never spoken. */
module SpokenText {
  import opened Characters
  import opened Rendering
  import opened Scanner
  import opened TagScanner

  // ---------- pushes ----------

  datatype State = State(buffer: string, hidden: seq<string>)

  /** The new state and the text to speak after one push. */
  function Pushed(s: State, text: string): (State, string) {
    var scanned := Scan(Decide, s.buffer + text);
    (State(scanned.rest, NestAll(s.hidden, scanned.tokens)), SayAll(s.hidden, scanned.tokens))
  }

  function PushedAll(s: State, chunks: seq<string>): (State, string)
    decreases |chunks|
  {
    if chunks == [] then (s, "")
    else
      var (t, spoken) := Pushed(s, chunks[0]);
      var (u, more) := PushedAll(t, chunks[1..]);
      (u, spoken + more)
  }

  function Join(chunks: seq<string>): string {
    if chunks == [] then "" else chunks[0] + Join(chunks[1..])
  }

  lemma PushTwice(s: State, a: string, b: string)
    requires Unfelt(s.hidden, Scan(Decide, s.buffer + (a + b)).tokens)
    ensures var (t, first) := Pushed(s, a);
            var (u, second) := Pushed(t, b);
            Pushed(s, a + b) == (u, first + second) && Unfelt(t.hidden, Scan(Decide, t.buffer + b).tokens)
  {
    hide Decide, Unfelt, Scan, Stable, Trimmable, Clean;
    DecideIsFit();
    assert s.buffer + (a + b) == (s.buffer + a) + b;
    SplitIsUnfelt(Decide, s.hidden, s.buffer + a, b);
    var first := Scan(Decide, s.buffer + a);
    RenderConcat(s.hidden, first.tokens, Scan(Decide, first.rest + b).tokens);
  }

  lemma DecideIsFit()
    ensures Stable(Decide) && Trimmable(Decide) && Clean(Decide)
  {
    hide Decide, Stable, Trimmable, Clean;
    DecideIsStable();
    DecideIsTrimmable();
    DecideIsClean();
  }

  /** However a text is cut into pushes, the text spoken, the text held back and the open hidden
      spans are those of one push of the whole text, when no tag in it with a wide delimiter makes
      a difference where it stands. */
  lemma {:induction false} ChunksAreInvisible(s: State, chunks: seq<string>)
    requires chunks != [] && Unfelt(s.hidden, Scan(Decide, s.buffer + Join(chunks)).tokens)
    ensures PushedAll(s, chunks) == Pushed(s, Join(chunks))
    decreases |chunks|
  {
    hide Decide, Unfelt, Pushed;
    var (t, spoken) := Pushed(s, chunks[0]);
    if |chunks| == 1 {
      assert chunks[1..] == [];
      assert Join(chunks) == chunks[0] + "" == chunks[0];
      assert PushedAll(t, []) == (t, "");
      assert spoken + "" == spoken;
    } else {
      PushTwice(s, chunks[0], Join(chunks[1..]));
      ChunksAreInvisible(t, chunks[1..]);
    }
  }

  /** White space that the regular expression takes behind a tag name is of the kind that the hold
      test takes too. */
  ghost predicate OrdinarySpaces(text: string) {
    forall i :: 0 <= i < |text| && IsSpace(text[i]) ==> text[i] in " \t\r\n"
  }

  lemma {:induction false} DelimitersAreNarrow(t: string)
    requires OrdinarySpaces(t)
    ensures AllNarrow(Scan(Decide, t).tokens)
    decreases |t|
  {
    hide Decide, Scan;
    if t == "" {
      ScanNothing();
    } else if First(Decide, t).0 > 0 {
      var (n, token) := First(Decide, t);
      ScanFirst(Decide, t);
      if token.Tag? { DelimiterIsNarrow(t); }
      DelimitersAreNarrow(t[n..]);
      NarrowTail(Scan(Decide, t[n..]), token);
    } else {
      ScanFirst(Decide, t);
    }
  }

  lemma ScanNothing()
    ensures Scan(Decide, "") == Scanned([], "")
  {
  }

  lemma DelimiterIsNarrow(t: string)
    requires OrdinarySpaces(t) && Decide(t).Found?
    ensures Decide(t).tag.Tag? && IsNarrow(Decide(t).tag.delimiter)
  {
    hide PossibleTag, Prefix;
  }

  lemma {:induction false} NarrowIsUnfelt(hidden: seq<string>, tokens: seq<Token>)
    requires AllNarrow(tokens)
    ensures Unfelt(hidden, tokens)
    decreases |tokens|
  {
    if tokens != [] { NarrowIsUnfelt(Nest(hidden, tokens[0]), tokens[1..]); }
  }

  /** However a text is cut into pushes, nothing changes, when its only white space is spaces, tabs
      and line ends. */
  lemma OrdinaryTextHidesCuts(s: State, chunks: seq<string>)
    requires chunks != []
    requires forall c <- s.buffer + Join(chunks) :: IsSpace(c) ==> c == ' ' || c == '\t' || c == '\r' || c == '\n'
    ensures PushedAll(s, chunks) == Pushed(s, Join(chunks))
  {
    hide Decide, Unfelt, AllNarrow, Pushed, PushedAll, Join;
    var text := s.buffer + Join(chunks);
    DelimitersAreNarrow(text);
    NarrowIsUnfelt(s.hidden, Scan(Decide, text).tokens);
    ChunksAreInvisible(s, chunks);
  }

  // ---------- what is spoken, and what is held back ----------

  /** Text in which no opening bracket stands in front of a slash or a letter that a tag name can
      start with is spoken as it is. */
  lemma {:induction false} OtherTextIsSpoken(text: string)
    requires forall i :: 0 <= i < |text| && text[i] == '<' ==> i + 1 < |text| && !OpensName(text[i + 1])
    ensures Scan(Decide, text) == Scanned(Letters(text), "")
    ensures Pushed(State("", []), text) == (State("", []), text)
    decreases |text|
  {
    hide Decide, SayAll, NestAll, Letters;
    if text == "" {
      assert Letters("") == [] by { LettersOfNothing(); }
    } else {
      var rest := text[1..];
      assert forall i :: 0 <= i < |rest| && rest[i] == '<' ==> text[i + 1] == '<';
      OtherTextIsSpoken(rest);
      if text[0] == '<' { OtherBracketIsEmitted(text); }
      LettersStep(text, []);
      assert Letters(rest) + [] == Letters(rest) && Letters(text) + [] == Letters(text);
    }
    RenderLetters([], text);
    assert "" + text == text;
  }

  lemma LettersOfNothing()
    ensures Letters("") == []
  {
  }

  lemma {:induction false} RestIsHeld(t: string)
    ensures var rest := Scan(Decide, t).rest;
            rest == "" || (rest[0] == '<' && Decide(rest) == Hold)
    decreases |t|
  {
    hide Decide, Scan;
    if t == "" {
      ScanNothing();
    } else {
      ScanFirst(Decide, t);
      if First(Decide, t).0 > 0 { RestIsHeld(t[First(Decide, t).0..]); }
    }
  }

  /** What a push holds back is held for good, and with it all text that follows, exactly when it
      has a second opening bracket in it. */
  lemma HeldForGoodExactly(s: State, text: string)
    requires Pushed(s, text).0.buffer != ""
    ensures var t := Pushed(s, text).0;
            (forall more :: Pushed(t, more) == (State(t.buffer + more, t.hidden), ""))
            <==> exists i :: 0 < i < |t.buffer| && t.buffer[i] == '<'
  {
    hide Decide;
    RestIsHeld(s.buffer + text);
    var t := Pushed(s, text).0;
    var b := t.buffer;
    if i :| 0 < i < |b| && b[i] == '<' {
      forall more ensures Pushed(t, more) == (State(b + more, t.hidden), "") {
        HeldForGood(b, more, i);
        assert (b + more)[0] == '<';
      }
    } else {
      var more := HeldMayComplete(b);
      assert Scan(Decide, b + more).rest == "" by {
        assert (b + more)[|b + more|..] == "" && (b + more)[0] == '<';
      }
      assert Pushed(t, more).0 != State(b + more, t.hidden);
    }
  }

  /** Such a text: the tag can no longer be completed, and is waited for nevertheless. */
  lemma SecondBracketIsHeld()
    ensures Pushed(State("", []), "<think <") == (State("<think <", []), "")
  {
    hide Decide;
    var b := "<think <";
    assert Decide(b) == Hold by { StartedTwice(); }
    assert "" + b == b;
  }

  // ---------- every cut of a text ----------

  /** Every way of pushing a text, or a beginning of it, gives what one push gives. */
  ghost predicate CutsAreInvisible(hidden: seq<string>, text: string) {
    forall chunks :: chunks != [] && Join(chunks) <= text ==>
      PushedAll(State("", hidden), chunks) == Pushed(State("", hidden), Join(chunks))
  }

  /** From a filter that holds nothing back, no cut ever shows exactly when no tag with a wide
      delimiter would be heard as text or opens or closes a hidden span where it stands. */
  lemma CutsShowExactly(hidden: seq<string>, text: string)
    ensures CutsAreInvisible(hidden, text) <==> Unfelt(hidden, Scan(Decide, text).tokens)
  {
    hide Decide, Unfelt, Stable, Trimmable, Clean, Pushed, PushedAll, Join;
    DecideIsFit();
    var start := State("", hidden);
    if Unfelt(hidden, Scan(Decide, text).tokens) {
      forall chunks | chunks != [] && Join(chunks) <= text
        ensures PushedAll(start, chunks) == Pushed(start, Join(chunks))
      {
        var m := |Join(chunks)|;
        assert Join(chunks) + text[m..] == text && "" + Join(chunks) == Join(chunks);
        SplitIsUnfelt(Decide, hidden, Join(chunks), text[m..]);
        ChunksAreInvisible(start, chunks);
      }
    } else {
      var k, m, i := FeltBreaks(Decide, hidden, text);
      TwoPushesShow(hidden, text, k, m);
    }
  }

  lemma TwoPushesShow(hidden: seq<string>, text: string, k: nat, m: nat)
    requires FeltAt(Decide, hidden, text, k, m)
    ensures !CutsAreInvisible(hidden, text)
  {
    hide Decide, Scan, Join, PushedAll, NestAll, SayAll;
    var start, a, b := State("", hidden), text[..k], text[k..m];
    assert "" + a == a && "" + text[..m] == text[..m] && a + b == text[..m];
    PushTwoChunks(start, a, b);
    JoinTwo(a, b);
    var first := Scan(Decide, a);
    RenderConcat(hidden, first.tokens, Scan(Decide, first.rest + b).tokens);
  }

  lemma JoinTwo(a: string, b: string)
    ensures Join([a, b]) == a + b
  {
    assert [a, b][1..] == [b] && [b][1..] == [];
    assert Join([b]) == b + "" == b;
  }

  /** Its tokens are those of the whole text for every split exactly when every tag recognised in it
      has a narrow delimiter. */
  lemma SplitsOfFreshFilter(text: string)
    ensures (forall k :: 0 <= k <= |text| ==> Resume(Decide, text[..k], text[k..]) == Scan(Decide, text))
            <==> AllNarrow(Scan(Decide, text).tokens)
  {
    hide *;
    DecideIsStable();
    DecideIsTrimmable();
    SplitsExactlyWhenNarrow(Decide, text);
  }

  /** The cut that shows: pushed whole, the tag opens a hidden span; cut before its closing bracket,
      it is spoken. */
  lemma FormFeedShowsTheCut()
    ensures var start := State("", []);
            && Pushed(start, FORM_FEED_TAG) == (State("", ["think"]), "")
            && PushedAll(start, [FORM_FEED_TAG[..7], FORM_FEED_TAG[7..]]) == (start, FORM_FEED_TAG)
  {
    hide Decide, Pushed, PushedAll;
    FormFeedTagIsFound();
    var start, cut, end := State("", []), FORM_FEED_TAG[..7], FORM_FEED_TAG[7..];
    assert cut[0] == '<' && end == ">" && cut + end == FORM_FEED_TAG;
    assert forall i :: 0 < i < 7 ==> cut[i] != '<';
    assert |FORM_FEED_TAG| == 8 && Nest([], Tag(false, "think", false, '\U{c}')) == ["think"];
    PushTag(FORM_FEED_TAG, Tag(false, "think", false, '\U{c}'));
    PushSpokenBracket(cut);
    PushPlain(end);
    PushTwoChunks(start, cut, end);
  }

  lemma PushPlain(text: string)
    requires forall i :: 0 <= i < |text| ==> text[i] != '<'
    ensures Pushed(State("", []), text) == (State("", []), text)
  {
    hide Decide, SayAll, NestAll, Letters;
    assert "" + text == text && text + "" == text;
    ScanLetters(Decide, text, "");
    RenderLetters([], text);
    assert Letters(text) + [] == Letters(text);
  }

  lemma PushSpokenBracket(text: string)
    requires text != "" && text[0] == '<' && Decide(text) == Emit
    requires forall i :: 0 < i < |text| ==> text[i] != '<'
    ensures Pushed(State("", []), text) == (State("", []), text)
  {
    hide Decide, SayAll, NestAll, Letters;
    var rest := text[1..];
    assert "" + text == text && rest + "" == rest;
    ScanLetters(Decide, rest, "");
    RenderLetters([], rest);
    RenderOne([], Spoken('<'));
    RenderConcat([], [Spoken('<')], Letters(rest));
    assert Letters(rest) + [] == Letters(rest);
    assert text == ['<'] + rest;
  }

  lemma PushTag(text: string, tag: Token)
    requires text != "" && text[0] == '<' && Decide(text) == Found(tag, |text|) && tag.Tag?
    ensures Pushed(State("", []), text) == (State("", Nest([], tag)), "")
  {
    hide Decide, SayAll, NestAll, Nest;
    assert "" + text == text && text[|text|..] == "";
    RenderOne([], tag);
    assert Scan(Decide, text).tokens == [tag] + [] == [tag];
  }

  lemma PushTwoChunks(s: State, a: string, b: string)
    ensures var (t, first) := Pushed(s, a);
            var (u, second) := Pushed(t, b);
            PushedAll(s, [a, b]) == (u, first + second)
  {
    hide Pushed;
    var (t, first) := Pushed(s, a);
    var (u, second) := Pushed(t, b);
    assert [a, b][1..] == [b] && [b][1..] == [];
    assert PushedAll(u, []) == (u, "");
    assert PushedAll(t, [b]) == (u, second + "");
    assert second + "" == second;
  }

  // ---------- hidden spans ----------

  /** A tag as it is written: a name in any case, and attributes. */
  datatype Written = Written(name: string, attributes: string)

  /** Markup as it nests: characters, self-closing tags, and spans that are closed again. */
  datatype Node =
    | Letter(c: char)
    | Empty(tag: Written)
    | Span(open: Written, inside: seq<Node>, close: Written)

  function TokenOf(tag: Written, closing: bool): Token {
    Tag(closing, Lower(tag.name), EndsInSlash(tag.attributes), (tag.attributes + ">")[0])
  }

  function Flat(nodes: seq<Node>): seq<Token> {
    if nodes == [] then [] else FlatNode(nodes[0]) + Flat(nodes[1..])
  }

  function FlatNode(node: Node): seq<Token> {
    match node
    case Letter(c) => [Spoken(c)]
    case Empty(tag) => [TokenOf(tag, false)]
    case Span(open, inside, close) => [TokenOf(open, false)] + Flat(inside) + [TokenOf(close, true)]
  }

  /** The characters outside every span. */
  function Outside(nodes: seq<Node>): string {
    if nodes == [] then "" else (if nodes[0].Letter? then [nodes[0].c] else "") + Outside(nodes[1..])
  }

  /** Only a self-closing tag ends in a slash, and a span is closed by the name that opened it. */
  predicate Nested(nodes: seq<Node>) {
    nodes != [] ==> NestedNode(nodes[0]) && Nested(nodes[1..])
  }

  predicate NestedNode(node: Node) {
    match node
    case Letter(_) => true
    case Empty(tag) => EndsInSlash(tag.attributes)
    case Span(open, inside, close) =>
      !EndsInSlash(open.attributes) && Lower(close.name) == Lower(open.name) && Nested(inside)
  }

  /** Well-nested markup leaves the hidden spans as they were, and exactly the characters outside
      its spans are spoken; inside a hidden span nothing is. */
  lemma {:induction false} NestedMarkup(nodes: seq<Node>, hidden: seq<string>)
    requires Nested(nodes)
    ensures NestAll(hidden, Flat(nodes)) == hidden
    ensures SayAll(hidden, Flat(nodes)) == if hidden == [] then Outside(nodes) else ""
  {
    if nodes != [] {
      NestedNodeIsHidden(nodes[0], hidden);
      NestedMarkup(nodes[1..], hidden);
      RenderConcat(hidden, FlatNode(nodes[0]), Flat(nodes[1..]));
    }
  }

  lemma {:induction false} NestedNodeIsHidden(node: Node, hidden: seq<string>)
    requires NestedNode(node)
    ensures NestAll(hidden, FlatNode(node)) == hidden
    ensures SayAll(hidden, FlatNode(node)) == if node.Letter? && hidden == [] then [node.c] else ""
  {
    match node
    case Letter(c) => RenderOne(hidden, Spoken(c));
    case Empty(tag) => RenderOne(hidden, TokenOf(tag, false));
    case Span(open, inside, close) =>
      var name, first, last := Lower(open.name), TokenOf(open, false), TokenOf(close, true);
      var within := hidden + [name];
      NestedMarkup(inside, within);
      RenderOne(hidden, first);
      RenderOne(within, last);
      RenderConcat(hidden, [first], Flat(inside));
      RenderConcat(hidden, [first] + Flat(inside), [last]);
      assert LastIndex(within, name) == |hidden|;
      assert within[..|hidden|] == hidden;
  }

  // ---------- hidden spans, as text ----------

  /** Markup of the tags the filter knows, around text without opening brackets. */
  predicate Known(nodes: seq<Node>) {
    nodes != [] ==> KnownNode(nodes[0]) && Known(nodes[1..])
  }

  predicate KnownNode(node: Node) {
    match node
    case Letter(c) => c != '<'
    case Empty(tag) => KnownTag(tag)
    case Span(open, inside, close) => KnownTag(open) && KnownTag(close) && Known(inside)
  }

  predicate KnownTag(tag: Written) {
    Lower(tag.name) in NAMES && IsAttributes(tag.attributes)
  }

  function Text(nodes: seq<Node>): string {
    if nodes == [] then "" else TextOf(nodes[0]) + Text(nodes[1..])
  }

  function TextOf(node: Node): string {
    match node
    case Letter(c) => [c]
    case Empty(tag) => TagText(tag, false)
    case Span(open, inside, close) => TagText(open, false) + Text(inside) + TagText(close, true)
  }

  function TagText(tag: Written, closing: bool): string {
    (if closing then "</" else "<") + tag.name + tag.attributes + ">"
  }

  /** Tokens in front of a scan. */
  function Behind(tokens: seq<Token>, s: Scanned): Scanned {
    Scanned(tokens + s.tokens, s.rest)
  }

  lemma BehindTwice(a: seq<Token>, b: seq<Token>, s: Scanned)
    ensures Behind(a, Behind(b, s)) == Behind(a + b, s)
  {
    assert a + (b + s.tokens) == (a + b) + s.tokens;
  }

  lemma ScanTag(tag: Written, closing: bool, rest: string)
    requires KnownTag(tag)
    ensures Scan(Decide, TagText(tag, closing) + rest) == Behind([TokenOf(tag, closing)], Scan(Decide, rest))
  {
    hide Decide, Scan, IsAttributes, EndsInSlash;
    var head := (if closing then "</" else "<") + tag.name;
    var p := PrefixFor(tag.name, closing, head);
    WrittenTagIsFound(p, head, tag.attributes, rest);
    ScanFound(head + tag.attributes + ">", rest, TokenOf(tag, closing));
  }

  lemma PrefixFor(name: string, closing: bool, head: string) returns (p: nat)
    requires Lower(name) in NAMES && head == (if closing then "</" else "<") + name
    ensures p < PREFIXES && NameOf(p) == Lower(name) && IsClosing(p) == closing && Lower(head) == Prefix(p)
  {
    var n :| 0 <= n < |NAMES| && NAMES[n] == Lower(name);
    p := 2 * n + if closing then 1 else 0;
    assert Lower(head) == (if closing then "</" else "<") + Lower(name);
  }

  lemma ScanFound(text: string, rest: string, tag: Token)
    requires text != "" && text[0] == '<' && Decide(text + rest) == Found(tag, |text|)
    ensures Scan(Decide, text + rest) == Behind([tag], Scan(Decide, rest))
  {
    hide Decide;
    assert (text + rest)[|text|..] == rest;
  }

  lemma ScanLetter(c: char, rest: string)
    requires c != '<'
    ensures Scan(Decide, [c] + rest) == Behind([Spoken(c)], Scan(Decide, rest))
  {
    hide Decide;
    assert ([c] + rest)[1..] == rest;
  }

  /** Nested markup written out is scanned to its own tokens, whatever follows. */
  lemma {:induction false} ScanMarkup(nodes: seq<Node>, rest: string)
    requires Known(nodes)
    ensures Scan(Decide, Text(nodes) + rest) == Behind(Flat(nodes), Scan(Decide, rest))
    decreases nodes
  {
    hide Decide, Scan;
    if nodes == [] {
      assert Text(nodes) + rest == rest;
      assert [] + Scan(Decide, rest).tokens == Scan(Decide, rest).tokens;
    } else {
      assert Text(nodes) + rest == TextOf(nodes[0]) + (Text(nodes[1..]) + rest);
      ScanNode(nodes[0], Text(nodes[1..]) + rest);
      ScanMarkup(nodes[1..], rest);
      BehindTwice(FlatNode(nodes[0]), Flat(nodes[1..]), Scan(Decide, rest));
    }
  }

  lemma {:induction false} ScanNode(node: Node, rest: string)
    requires KnownNode(node)
    ensures Scan(Decide, TextOf(node) + rest) == Behind(FlatNode(node), Scan(Decide, rest))
    decreases node
  {
    hide Decide, Scan, TagText, Behind;
    match node
    case Letter(c) => ScanLetter(c, rest);
    case Empty(tag) => ScanTag(tag, false, rest);
    case Span(open, inside, close) =>
      var end := TagText(close, true);
      ScanTag(open, false, Text(inside) + (end + rest));
      ScanMarkup(inside, end + rest);
      ScanTag(close, true, rest);
      SpanText(TagText(open, false), Text(inside), end, rest);
      SpanTokens(TokenOf(open, false), Flat(inside), TokenOf(close, true), Scan(Decide, rest));
  }

  lemma SpanText(open: string, inside: string, close: string, rest: string)
    ensures open + inside + close + rest == open + (inside + (close + rest))
  {
  }

  lemma SpanTokens(open: Token, inside: seq<Token>, close: Token, s: Scanned)
    ensures Behind([open], Behind(inside, Behind([close], s))) == Behind([open] + inside + [close], s)
  {
    BehindTwice(inside, [close], s);
    BehindTwice([open], inside + [close], s);
    assert [open] + (inside + [close]) == [open] + inside + [close];
  }

  /** Pushing well-nested markup speaks exactly the text outside its tags and spans, and nothing
      inside a hidden span; it leaves no buffer and the hidden spans as they were. */
  lemma NestedMarkupIsHidden(nodes: seq<Node>, hidden: seq<string>)
    requires Known(nodes) && Nested(nodes)
    ensures Pushed(State("", hidden), Text(nodes)) == (State("", hidden), if hidden == [] then Outside(nodes) else "")
  {
    hide Decide;
    ScanMarkup(nodes, "");
    NestedMarkup(nodes, hidden);
    assert "" + Text(nodes) == Text(nodes) && Text(nodes) + "" == Text(nodes);
    assert Flat(nodes) + [] == Flat(nodes);
  }

  // ---------- the filter object ----------

  /** Output so far and what is left to scan make up the whole push. */
  ghost predicate Progress(start: State, text: string, output: string, hidden: seq<string>, buffer: string) {
    var left := Scan(Decide, buffer);
    Pushed(start, text) == (State(left.rest, NestAll(hidden, left.tokens)), output + SayAll(hidden, left.tokens))
  }

  lemma TextProgress(start: State, text: string, output: string, hidden: seq<string>, piece: string, rest: string)
    requires Progress(start, text, output, hidden, piece + rest)
    requires forall i :: 0 <= i < |piece| ==> piece[i] != '<'
    ensures Progress(start, text, if hidden == [] then output + piece else output, hidden, rest)
  {
    hide Decide, Pushed, Scan, SayAll, NestAll, Letters;
    ScanLetters(Decide, piece, rest);
    RenderLetters(hidden, piece);
    var left := Scan(Decide, rest).tokens;
    RenderConcat(hidden, Letters(piece), left);
    Regroup(output, if hidden == [] then piece else "", SayAll(hidden, left));
    assert output + "" == output;
  }

  lemma TokenProgress(start: State, text: string, output: string, hidden: seq<string>, buffer: string)
    requires buffer != "" && First(Decide, buffer).0 > 0 && Progress(start, text, output, hidden, buffer)
    ensures var (n, token) := First(Decide, buffer);
            && n <= |buffer|
            && Progress(start, text, if token.Spoken? && hidden == [] then output + [token.c] else output,
                        Nest(hidden, token), buffer[n..])
  {
    hide Decide, Pushed, Nest, Scan, First, SayAll, NestAll;
    ScanFirst(Decide, buffer);
    var token, left := First(Decide, buffer).1, Scan(Decide, buffer[First(Decide, buffer).0..]).tokens;
    RenderConcat(hidden, [token], left);
    RenderOne(hidden, token);
    var more := SayAll(Nest(hidden, token), left);
    Regroup(output, Say(hidden, token), more);
    assert output + "" == output;
  }

  lemma ProgressStarts(start: State, text: string)
    ensures Progress(start, text, "", start.hidden, start.buffer + text)
  {
    hide Decide, Scan;
    var left := Scan(Decide, start.buffer + text);
    assert "" + SayAll(start.hidden, left.tokens) == SayAll(start.hidden, left.tokens);
  }

  lemma ProgressEnds(start: State, text: string, output: string, hidden: seq<string>, buffer: string)
    requires Progress(start, text, output, hidden, buffer)
    requires buffer == "" || (buffer[0] == '<' && Decide(buffer) == Hold)
    ensures Pushed(start, text) == (State(buffer, hidden), output)
  {
    hide Decide, Pushed;
    assert Scan(Decide, buffer) == Scanned([], buffer);
    assert output + "" == output;
  }

  class SpokenTextFilter {
    var buffer: string
    var hidden: seq<string>

    constructor ()
      ensures buffer == "" && hidden == []
    {
      buffer, hidden := "", [];
    }

    method Push(text: string) returns (output: string)
      modifies this
      ensures (State(buffer, hidden), output) == Pushed(State(old(buffer), old(hidden)), text)
    {
      hide PossibleTag, FindTag, NextAngle, Progress, Pushed;
      ghost var before := State(buffer, hidden);
      buffer := buffer + text;
      output := "";
      ProgressStarts(before, text);
      while buffer != ""
        invariant Progress(before, text, output, hidden, buffer)
        decreases |buffer|
      {
        var start := Find(buffer);
        assert buffer == buffer[..start] + buffer[start..];
        TextProgress(before, text, output, hidden, buffer[..start], buffer[start..]);
        if start == |buffer| {
          assert buffer[..start] == buffer && buffer[start..] == "";
          if hidden == [] { output := output + buffer; }
          buffer := "";
          break;
        }
        assert start == 0 ==> buffer[start..] == buffer && output + buffer[..start] == output;
        if start > 0 {
          if hidden == [] { output := output + buffer[..start]; }
          buffer := buffer[start..];
        }
        match Decide(buffer) {
          case Found(tag, n) =>
            TokenProgress(before, text, output, hidden, buffer);
            if tag.Tag? {
              if tag.closing {
                if tag.name in hidden {
                  hidden := hidden[..LastIndex(hidden, tag.name)];
                }
              } else if !tag.selfClosing {
                hidden := hidden + [tag.name];
              }
            }
            buffer := buffer[n..];
          case Hold =>
            break;
          case Emit =>
            TokenProgress(before, text, output, hidden, buffer);
            if hidden == [] { output := output + "<"; }
            buffer := buffer[1..];
        }
      }
      ProgressEnds(before, text, output, hidden, buffer);
    }
  }

  /** Position of the first opening angle bracket, or the length. */
  method Find(text: string) returns (n: nat)
    ensures n <= |text| && (n < |text| ==> text[n] == '<')
    ensures forall i :: 0 <= i < n ==> text[i] != '<'
  {
    n := 0;
    while n < |text| && text[n] != '<'
      invariant n <= |text| && forall i :: 0 <= i < n ==> text[i] != '<'
    {
      n := n + 1;
    }
  }
}
