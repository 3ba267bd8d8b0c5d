/** What is spoken of scanned tokens: nothing inside a hidden span. */
module Rendering {
  import opened Scanner

  /** Position of the last occurrence of a name on the stack of hidden spans, or -1. */
  function LastIndex(hidden: seq<string>, name: string): (i: int)
    ensures -1 <= i < |hidden|
    ensures i >= 0 ==> hidden[i] == name && forall j :: i < j < |hidden| ==> hidden[j] != name
    ensures i < 0 ==> name !in hidden
  {
    if hidden == [] then -1
    else if hidden[|hidden| - 1] == name then |hidden| - 1
    else LastIndex(hidden[..|hidden| - 1], name)
  }

  /** The stack of hidden spans after a token. */
  function Nest(hidden: seq<string>, token: Token): seq<string> {
    match token
    case Spoken(_) => hidden
    case Tag(closing, name, selfClosing, _) =>
      if closing then
        if name in hidden then hidden[..LastIndex(hidden, name)] else hidden
      else if selfClosing then hidden
      else hidden + [name]
  }

  /** A closing tag ends the innermost span of its name, and all spans opened inside that and left open;
      without such a span it does nothing. Only an opening tag that does not close itself opens one. */
  lemma NestExactly(hidden: seq<string>, more: seq<string>, name: string, selfClosing: bool, delimiter: char)
    requires name !in more
    ensures Nest(hidden + [name] + more, Tag(true, name, selfClosing, delimiter)) == hidden
    ensures Nest(more, Tag(true, name, selfClosing, delimiter)) == more
    ensures Nest(hidden, Tag(false, name, selfClosing, delimiter)) == if selfClosing then hidden else hidden + [name]
  {
    var all := hidden + [name] + more;
    var i := LastIndex(all, name);
    assert all[|hidden|] == name;
    assert i == |hidden| by {
      assert forall j :: |hidden| < j < |all| ==> all[j] == more[j - |hidden| - 1];
    }
    assert all[..|hidden|] == hidden;
  }

  function NestAll(hidden: seq<string>, tokens: seq<Token>): seq<string>
    decreases |tokens|
  {
    if tokens == [] then hidden else NestAll(Nest(hidden, tokens[0]), tokens[1..])
  }

  /** What is spoken of one token inside given hidden spans. */
  function Say(hidden: seq<string>, token: Token): string {
    if token.Spoken? && hidden == [] then [token.c] else ""
  }

  function SayAll(hidden: seq<string>, tokens: seq<Token>): string
    decreases |tokens|
  {
    if tokens == [] then "" else Say(hidden, tokens[0]) + SayAll(Nest(hidden, tokens[0]), tokens[1..])
  }

  lemma {:induction false} RenderConcat(hidden: seq<string>, a: seq<Token>, b: seq<Token>)
    ensures NestAll(hidden, a + b) == NestAll(NestAll(hidden, a), b)
    ensures SayAll(hidden, a + b) == SayAll(hidden, a) + SayAll(NestAll(hidden, a), b)
    decreases |a|
  {
    if a == [] {
      assert a + b == b;
    } else {
      assert (a + b)[1..] == a[1..] + b;
      RenderConcat(Nest(hidden, a[0]), a[1..], b);
    }
  }

  function Letters(text: string): seq<Token> {
    seq(|text|, i requires 0 <= i < |text| => Spoken(text[i]))
  }

  lemma {:induction false} RenderLetters(hidden: seq<string>, text: string)
    ensures NestAll(hidden, Letters(text)) == hidden
    ensures SayAll(hidden, Letters(text)) == if hidden == [] then text else ""
    decreases |text|
  {
    if text != "" {
      assert Letters(text)[1..] == Letters(text[1..]);
      RenderLetters(hidden, text[1..]);
    }
  }

  lemma {:induction false} ScanLetters(decide: Rule, text: string, rest: string)
    requires forall i :: 0 <= i < |text| ==> text[i] != '<'
    ensures Scan(decide, text + rest) == Scanned(Letters(text) + Scan(decide, rest).tokens, Scan(decide, rest).rest)
    decreases |text|
  {
    hide Scan;
    if text == "" {
      assert text + rest == rest;
      assert Letters("") + Scan(decide, rest).tokens == Scan(decide, rest).tokens;
    } else {
      ScanLetters(decide, text[1..], rest);
      ScanOneLetter(decide, text, rest);
      LettersStep(text, Scan(decide, rest).tokens);
    }
  }

  lemma ScanOneLetter(decide: Rule, text: string, rest: string)
    requires text != "" && text[0] != '<'
    ensures Scan(decide, text + rest) == Scan(decide, text[1..] + rest).After(Spoken(text[0]))
  {
    assert (text + rest)[1..] == text[1..] + rest;
  }

  lemma LettersStep(text: string, tokens: seq<Token>)
    requires text != ""
    ensures [Spoken(text[0])] + (Letters(text[1..]) + tokens) == Letters(text) + tokens
  {
    assert Letters(text) == [Spoken(text[0])] + Letters(text[1..]);
  }

  lemma RenderOne(hidden: seq<string>, token: Token)
    ensures NestAll(hidden, [token]) == Nest(hidden, token)
    ensures SayAll(hidden, [token]) == Say(hidden, token)
  {
    assert [token][1..] == [];
  }

  lemma Regroup(a: string, b: string, c: string)
    ensures a + (b + c) == (a + b) + c
  {
  }

  // ---------- what a cut changes ----------

  datatype Rendered = Rendered(hidden: seq<string>, spoken: string, rest: string)

  /** The open hidden spans, the text spoken and the text held back. */
  function Render(hidden: seq<string>, s: Scanned): Rendered {
    Rendered(NestAll(hidden, s.tokens), SayAll(hidden, s.tokens), s.rest)
  }

  function Before(spoken: string, r: Rendered): Rendered {
    r.(spoken := spoken + r.spoken)
  }

  lemma RenderAfter(hidden: seq<string>, token: Token, s: Scanned)
    ensures Render(hidden, s.After(token)) == Before(Say(hidden, token), Render(Nest(hidden, token), s))
  {
    assert s.After(token).tokens[1..] == s.tokens;
  }

  /** A tag with a wide delimiter makes a difference when it would be heard as text, or opens or
      closes a hidden span. */
  predicate Felt(hidden: seq<string>, token: Token) {
    token.Tag? && !IsNarrow(token.delimiter) && (hidden == [] || Nest(hidden, token) != hidden)
  }

  predicate Unfelt(hidden: seq<string>, tokens: seq<Token>)
    decreases |tokens|
  {
    tokens != [] ==> !Felt(hidden, tokens[0]) && Unfelt(Nest(hidden, tokens[0]), tokens[1..])
  }

  lemma UnfeltAfter(hidden: seq<string>, token: Token, s: Scanned)
    ensures Unfelt(hidden, s.After(token).tokens) <==> !Felt(hidden, token) && Unfelt(Nest(hidden, token), s.tokens)
  {
    assert s.After(token).tokens[1..] == s.tokens;
  }

  lemma {:induction false} UnfeltLetters(hidden: seq<string>, text: string, tokens: seq<Token>)
    ensures Unfelt(hidden, Letters(text) + tokens) <==> Unfelt(hidden, tokens)
    decreases |text|
  {
    if text == "" {
      assert Letters(text) + tokens == tokens;
    } else {
      assert (Letters(text) + tokens)[1..] == Letters(text[1..]) + tokens;
      UnfeltLetters(hidden, text[1..], tokens);
    }
  }

  /** Without a wide delimiter no tag makes a difference. */
  lemma {:induction false} NarrowIsUnfelt(hidden: seq<string>, tokens: seq<Token>)
    requires AllNarrow(tokens)
    ensures Unfelt(hidden, tokens)
    decreases |tokens|
  {
    if tokens != [] { NarrowIsUnfelt(Nest(hidden, tokens[0]), tokens[1..]); }
  }

  /** A cut inside a tag that is given up on too early: all of the tag becomes letters. */
  lemma TagBecomesLetters(decide: Rule, a: string, b: string)
    requires Stable(decide) && Trimmable(decide) && Clean(decide)
    requires a != "" && First(decide, a).0 > 0 && First(decide, a + b) != First(decide, a)
    ensures a[0] == '<' && decide(a + b).Found? && IsWideTag(decide(a + b))
    ensures var n := decide(a + b).length;
            && |a| < n <= |a + b|
            && (forall i :: 0 <= i < n - |a| ==> b[i] != '<')
            && Scan(decide, a) == Scanned(Letters(a), "")
            && Scan(decide, a + b) == Scan(decide, b[n - |a|..]).After(decide(a + b).tag)
  {
    hide Scan;
    assert (a + b)[0] == a[0];
    var n := decide(a + b).length;
    FoundInShorter(decide, a, b);
    assert forall i :: 0 < i < |a| ==> a[i] == (a + b)[i];
    assert forall i :: 0 <= i < n - |a| ==> b[i] == (a + b)[|a| + i];
    ScanFirst(decide, a + b);
    assert (a + b)[n..] == b[n - |a|..];
    EmittedLetters(decide, a);
  }

  /** A tag found in the longer text is found in the shorter one that holds it whole. */
  lemma FoundInShorter(decide: Rule, a: string, b: string)
    requires Stable(decide) && Trimmable(decide) && decide(a + b).Found?
    ensures decide(a + b).length <= |a| ==> decide(a).Found?
  {
    var n := decide(a + b).length;
    if n <= |a| {
      assert (a + b)[..n] == a[..n];
      assert a[..n] + a[n..] == a;
      assert decide(a[..n]).Found?;
    }
  }

  lemma EmittedLetters(decide: Rule, a: string)
    requires a != "" && a[0] == '<' && decide(a).Emit? && forall i :: 0 < i < |a| ==> a[i] != '<'
    ensures Scan(decide, a) == Scanned(Letters(a), "")
  {
    hide Letters;
    var rest := a[1..];
    assert rest + "" == rest;
    ScanLetters(decide, rest, "");
    assert Scan(decide, "") == Scanned([], "");
    LettersStep(a, []);
    assert Letters(rest) + [] == Letters(rest) && Letters(a) + [] == Letters(a);
  }

  /** What a cut leaves for the second part, and what both parts come to. */
  ghost predicate CutIsUnfelt(decide: Rule, hidden: seq<string>, a: string, b: string) {
    var first := Scan(decide, a);
    && Render(hidden, Resume(decide, a, b)) == Render(hidden, Scan(decide, a + b))
    && Unfelt(hidden, first.tokens)
    && Unfelt(NestAll(hidden, first.tokens), Scan(decide, first.rest + b).tokens)
  }

  /** Where no wide tag makes a difference, no cut does. */
  lemma {:induction false} SplitIsUnfelt(decide: Rule, hidden: seq<string>, a: string, b: string)
    requires Stable(decide) && Trimmable(decide) && Clean(decide)
    requires Unfelt(hidden, Scan(decide, a + b).tokens)
    ensures CutIsUnfelt(decide, hidden, a, b)
    decreases |a|
  {
    if a == "" {
      assert a + b == b && Scan(decide, a).rest + b == b;
      assert [] + Scan(decide, b).tokens == Scan(decide, b).tokens;
    } else if First(decide, a).0 == 0 {
      ScanFirst(decide, a);
      assert [] + Scan(decide, a + b).tokens == Scan(decide, a + b).tokens;
    } else {
      hide Stable, Trimmable, Clean, Scan, Unfelt, First, CutIsUnfelt;
      if First(decide, a + b) == First(decide, a) {
        var (n, token) := First(decide, a);
        ScanFirst(decide, a);
        ScanFirst(decide, a + b);
        DropConcat(a, b, n);
        UnfeltAfter(hidden, token, Scan(decide, a[n..] + b));
        SplitIsUnfelt(decide, Nest(hidden, token), a[n..], b);
        CutAfter(decide, hidden, a, a[n..], b, token);
      } else {
        LettersUnfelt(decide, hidden, a, b);
      }
    }
  }

  lemma CutAfter(decide: Rule, hidden: seq<string>, a: string, shorter: string, b: string, token: Token)
    requires Scan(decide, a) == Scan(decide, shorter).After(token)
    requires Scan(decide, a + b) == Scan(decide, shorter + b).After(token)
    requires !Felt(hidden, token) && CutIsUnfelt(decide, Nest(hidden, token), shorter, b)
    ensures CutIsUnfelt(decide, hidden, a, b)
  {
    hide Scan, Unfelt, Nest, Say, Felt, Resume;
    ResumeAfter(decide, a, shorter, b, token);
    RenderAfter(hidden, token, Resume(decide, shorter, b));
    RenderAfter(hidden, token, Scan(decide, shorter + b));
    UnfeltAfter(hidden, token, Scan(decide, shorter));
    RenderAfter(hidden, token, Scan(decide, shorter));
  }

  lemma LettersUnfelt(decide: Rule, hidden: seq<string>, a: string, b: string)
    requires Stable(decide) && Trimmable(decide) && Clean(decide)
    requires a != "" && First(decide, a).0 > 0 && First(decide, a + b) != First(decide, a)
    requires Unfelt(hidden, Scan(decide, a + b).tokens)
    ensures CutIsUnfelt(decide, hidden, a, b)
  {
    hide Stable, Trimmable, Clean, Scan, First, Unfelt, Letters, NestAll, SayAll;
    TagBecomesLetters(decide, a, b);
    var tag, m := decide(a + b).tag, decide(a + b).length - |a|;
    var left := Scan(decide, b[m..]);
    UnfeltAfter(hidden, tag, left);
    RenderAfter(hidden, tag, left);
    assert hidden != [] && Nest(hidden, tag) == hidden && Unfelt(hidden, left.tokens);
    assert b[..m] + b[m..] == b && "" + b == b;
    ScanLetters(decide, b[..m], b[m..]);
    LettersRender(hidden, a, b[..m], left.tokens);
  }

  /** In a hidden span letters change nothing. */
  lemma LettersRender(hidden: seq<string>, a: string, b: string, tokens: seq<Token>)
    requires hidden != [] && Unfelt(hidden, tokens)
    ensures NestAll(hidden, Letters(a) + (Letters(b) + tokens)) == NestAll(hidden, tokens)
    ensures SayAll(hidden, Letters(a) + (Letters(b) + tokens)) == SayAll(hidden, tokens)
    ensures NestAll(hidden, Letters(a)) == hidden && Unfelt(hidden, Letters(a))
    ensures Unfelt(hidden, Letters(b) + tokens)
  {
    hide NestAll, SayAll, Letters, Unfelt;
    RenderConcat(hidden, Letters(a), Letters(b) + tokens);
    RenderConcat(hidden, Letters(b), tokens);
    RenderLetters(hidden, a);
    RenderLetters(hidden, b);
    UnfeltLetters(hidden, b, tokens);
    UnfeltLetters(hidden, a, []);
    assert Letters(a) + [] == Letters(a);
    assert Unfelt(hidden, []) by { UnfeltNothing(hidden); }
    assert "" + ("" + SayAll(hidden, tokens)) == SayAll(hidden, tokens);
  }

  lemma UnfeltNothing(hidden: seq<string>)
    ensures Unfelt(hidden, [])
  {
  }

  // ---------- a cut that is felt ----------

  /** Cut at k, the text up to m comes to something else than whole. */
  ghost predicate FeltAt(decide: Rule, hidden: seq<string>, t: string, k: nat, m: nat) {
    k <= m <= |t| && Render(hidden, Resume(decide, t[..k], t[k..m])) != Render(hidden, Scan(decide, t[..m]))
  }

  /** A wide tag that makes a difference gives a cut, behind some opening bracket, that does. */
  lemma {:induction false} FeltBreaks(decide: Rule, hidden: seq<string>, t: string) returns (k: nat, m: nat, i: nat)
    requires Stable(decide) && Trimmable(decide) && Clean(decide)
    requires !Unfelt(hidden, Scan(decide, t).tokens)
    ensures i < k <= m <= |t| && t[i] == '<' && FeltAt(decide, hidden, t, k, m)
    decreases |t|
  {
    hide Stable, Trimmable, Clean, Scan, Unfelt, FeltAt;
    FirstOfFelt(decide, hidden, t);
    var (n, token) := First(decide, t);
    if Felt(hidden, token) {
      k := FeltHere(decide, hidden, t);
      m, i := n, 0;
    } else {
      k, m, i := FeltBreaks(decide, Nest(hidden, token), t[n..]);
      FeltInFront(decide, hidden, t, k, m, i);
      k, m, i := n + k, n + m, n + i;
    }
  }

  lemma FirstOfFelt(decide: Rule, hidden: seq<string>, t: string)
    requires !Unfelt(hidden, Scan(decide, t).tokens)
    ensures t != ""
    ensures var (n, token) := First(decide, t);
            && 0 < n <= |t|
            && (Felt(hidden, token) || !Unfelt(Nest(hidden, token), Scan(decide, t[n..]).tokens))
  {
    if t != "" {
      ScanFirst(decide, t);
      var (n, token) := First(decide, t);
      if n > 0 { UnfeltAfter(hidden, token, Scan(decide, t[n..])); }
    }
  }

  lemma FeltHere(decide: Rule, hidden: seq<string>, t: string) returns (k: nat)
    requires Stable(decide) && Trimmable(decide) && Clean(decide)
    requires t != "" && First(decide, t).0 > 0 && Felt(hidden, First(decide, t).1)
    ensures t[0] == '<' && 0 < k <= First(decide, t).0 <= |t| && FeltAt(decide, hidden, t, k, First(decide, t).0)
  {
    assert IsWideTag(decide(t));
    k :| 0 < k <= |t| && decide(t[..k]) == Emit;
    var a, b := t[..k], t[k..];
    assert a + b == t;
    FoundInShorter(decide, a, b);
    FeltCut(decide, hidden, t, k);
  }

  lemma FeltCut(decide: Rule, hidden: seq<string>, t: string, k: nat)
    requires Stable(decide) && Trimmable(decide) && Clean(decide)
    requires t != "" && t[0] == '<' && decide(t).Found? && Felt(hidden, decide(t).tag)
    requires 0 < k < decide(t).length && decide(t[..k]) == Emit
    ensures FeltAt(decide, hidden, t, k, decide(t).length)
  {
    hide Scan, NestAll, SayAll, Letters;
    var n := decide(t).length;
    var whole, a, b := t[..n], t[..k], t[k..n];
    assert a + b == whole && decide(whole) == decide(t);
    TagBecomesLetters(decide, a, b);
    assert b[n - k..] == "" && b + "" == b && "" + b == b;
    EmptyScan(decide);
    ScanLetters(decide, b, "");
    RenderAfter(hidden, decide(t).tag, Scanned([], ""));
    RenderNothing(Nest(hidden, decide(t).tag));
    assert Letters(b) + [] == Letters(b);
    RenderConcat(hidden, Letters(a), Letters(b));
    RenderLetters(hidden, a);
    RenderLetters(hidden, b);
  }

  lemma EmptyScan(decide: Rule)
    ensures Scan(decide, "") == Scanned([], "")
  {
  }

  lemma RenderNothing(hidden: seq<string>)
    ensures Render(hidden, Scanned([], "")) == Rendered(hidden, "", "")
  {
  }

  lemma FeltInFront(decide: Rule, hidden: seq<string>, t: string, k: nat, m: nat, i: nat)
    requires Stable(decide) && Trimmable(decide) && t != "" && 0 < First(decide, t).0 <= |t|
    requires var (n, token) := First(decide, t);
             i < k <= m <= |t| - n && t[n + i] == '<' && FeltAt(decide, Nest(hidden, token), t[n..], k, m)
    ensures FeltAt(decide, hidden, t, First(decide, t).0 + k, First(decide, t).0 + m)
  {
    hide Stable, Trimmable, Scan, First, NestAll, SayAll, Resume, Nest, Say;
    var (n, token) := First(decide, t);
    FirstOfShorter(decide, t, k, i);
    FirstOfShorter(decide, t, m, i);
    Slices(t, n, k);
    Slices(t, n, m);
    assert t[n..][k..m] == t[n + k..n + m];
    ScanFirst(decide, t[..n + k]);
    ScanFirst(decide, t[..n + m]);
    var a, b := t[n..][..k], t[n..][k..m];
    ResumeAfter(decide, t[..n + k], a, b, token);
    RenderAfter(hidden, token, Resume(decide, a, b));
    RenderAfter(hidden, token, Scan(decide, t[n..][..m]));
    BeforeInjective(Say(hidden, token), Render(Nest(hidden, token), Resume(decide, a, b)),
                    Render(Nest(hidden, token), Scan(decide, t[n..][..m])));
  }

  lemma BeforeInjective(spoken: string, x: Rendered, y: Rendered)
    requires x != y
    ensures Before(spoken, x) != Before(spoken, y)
  {
    assert (spoken + x.spoken)[|spoken|..] == x.spoken && (spoken + y.spoken)[|spoken|..] == y.spoken;
  }

  /** However a text and its beginnings are cut in two, the hidden spans, what is spoken and what is
      held back are those of the uncut text, exactly when no tag in it with a wide delimiter makes a
      difference where it stands. */
  lemma CutsShowExactlyWhenFelt(decide: Rule, hidden: seq<string>, t: string)
    requires Stable(decide) && Trimmable(decide) && Clean(decide)
    ensures (forall k, m :: 0 <= k <= m <= |t| ==> !FeltAt(decide, hidden, t, k, m))
            <==> Unfelt(hidden, Scan(decide, t).tokens)
  {
    hide Stable, Trimmable, Clean, Scan, Unfelt, Resume, Render;
    if Unfelt(hidden, Scan(decide, t).tokens) {
      forall k, m | 0 <= k <= m <= |t| ensures !FeltAt(decide, hidden, t, k, m) {
        assert t[..m] + t[m..] == t && t[..k] + t[k..m] == t[..m];
        SplitIsUnfelt(decide, hidden, t[..m], t[m..]);
        SplitIsUnfelt(decide, hidden, t[..k], t[k..m]);
      }
    } else {
      var k, m, i := FeltBreaks(decide, hidden, t);
    }
  }
}
