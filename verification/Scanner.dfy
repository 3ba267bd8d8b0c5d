/** Cutting a text into tokens with any rule that decides, at each opening angle bracket, between
    a complete tag, a bracket to speak, and waiting for more text. */
module Scanner {

  datatype Token =
    | Spoken(c: char)
    | Tag(closing: bool, name: string, selfClosing: bool, delimiter: char)

  datatype Decision = Found(tag: Token, length: nat) | Hold | Emit

  predicate IsWideTag(d: Decision) {
    d.Found? && d.tag.Tag? && !IsNarrow(d.tag.delimiter)
  }

  /** What may follow a tag name in the test for holding a buffer. */
  predicate IsNarrow(c: char) {
    c == ' ' || c == '=' || c == '/' || c == '>' || c == '\t' || c == '\r' || c == '\n'
  }

  /** A rule; a tag it finds is not empty and lies in the text. */
  type Rule = f: string -> Decision | forall b :: f(b).Found? ==> 0 < f(b).length <= |b|
    witness (b: string) => Emit

  datatype Scanned = Scanned(tokens: seq<Token>, rest: string)
  {
    function After(token: Token): Scanned {
      Scanned([token] + tokens, rest)
    }
  }

  /** The tokens of a text, and the part at its end that is held back. */
  function Scan(decide: Rule, b: string): Scanned
    decreases |b|
  {
    if b == "" then Scanned([], "")
    else if b[0] != '<' then Scan(decide, b[1..]).After(Spoken(b[0]))
    else
      match decide(b)
      case Found(tag, n) => Scan(decide, b[n..]).After(tag)
      case Hold => Scanned([], b)
      case Emit => Scan(decide, b[1..]).After(Spoken('<'))
  }

  /** Scanning `a` first, then what it held back followed by `b`. */
  function Resume(decide: Rule, a: string, b: string): Scanned {
    var first := Scan(decide, a);
    var second := Scan(decide, first.rest + b);
    Scanned(first.tokens + second.tokens, second.rest)
  }

  /** Every tag recognised has a delimiter that the hold test also accepts. */
  ghost predicate AllNarrow(tokens: seq<Token>) {
    forall i :: 0 <= i < |tokens| && tokens[i].Tag? ==> IsNarrow(tokens[i].delimiter)
  }

  /** How decisions react to more text: a tag stays, and only a wide tag is given up on too early. */
  ghost predicate Stable(decide: Rule) {
    && (forall a, b {:trigger decide(a + b)} :: decide(a).Found? ==> decide(a + b) == decide(a))
    && (forall a, b {:trigger decide(a + b)} :: decide(a).Emit? && !IsWideTag(decide(a + b)) ==> decide(a + b) == Emit)
  }

  /** How decisions react to less text: a tag needs nothing behind it, a spoken bracket in front
      of another one stays spoken, and a wide tag can be cut so that its bracket is spoken. */
  ghost predicate Trimmable(decide: Rule) {
    && (forall b {:trigger b[..decide(b).length]} :: decide(b).Found? ==> decide(b[..decide(b).length]) == decide(b))
    && (forall b, k, i {:trigger decide(b[..k]), b[i]} ::
          decide(b) == Emit && 0 < i < k <= |b| && b[i] == '<' ==> decide(b[..k]) == Emit)
    && (forall b {:trigger IsWideTag(decide(b))} ::
          b != "" && IsWideTag(decide(b)) ==> exists k :: 0 < k <= |b| && decide(b[..k]) == Emit)
  }

  /** A tag holds no second opening bracket. */
  ghost predicate Clean(decide: Rule) {
    forall b, i {:trigger decide(b), b[i]} :: decide(b).Found? && 0 < i < decide(b).length ==> b[i] != '<'
  }

  /** One more token in front of both scans. */
  lemma ResumeAfter(decide: Rule, a: string, shorter: string, b: string, token: Token)
    requires Scan(decide, a) == Scan(decide, shorter).After(token)
    ensures Resume(decide, a, b) == Resume(decide, shorter, b).After(token)
  {
    hide Scan;
    var first := Scan(decide, shorter);
    var second := Scan(decide, first.rest + b);
    assert ([token] + first.tokens) + second.tokens == [token] + (first.tokens + second.tokens);
  }

  lemma NarrowTail(inner: Scanned, token: Token)
    ensures AllNarrow(inner.After(token).tokens) <==>
            AllNarrow(inner.tokens) && (token.Tag? ==> IsNarrow(token.delimiter))
  {
    var tokens := inner.After(token).tokens;
    assert tokens[0] == token && forall i :: 0 <= i < |inner.tokens| ==> inner.tokens[i] == tokens[i + 1];
  }

  lemma AfterInjective(x: Scanned, y: Scanned, token: Token)
    requires x != y
    ensures x.After(token) != y.After(token)
  {
    assert ([token] + x.tokens)[1..] == x.tokens && ([token] + y.tokens)[1..] == y.tokens;
  }

  /** The first token of a text and its length; length 0 when the whole text is held. */
  function First(decide: Rule, b: string): (nat, Token)
    requires b != ""
  {
    if b[0] != '<' then (1, Spoken(b[0]))
    else
      match decide(b)
      case Found(tag, n) => (n, tag)
      case Hold => (0, Spoken('<'))
      case Emit => (1, Spoken('<'))
  }

  lemma ScanFirst(decide: Rule, b: string)
    requires b != ""
    ensures First(decide, b).0 <= |b|
    ensures First(decide, b).0 == 0 ==> Scan(decide, b) == Scanned([], b)
    ensures First(decide, b).0 > 0 ==>
              Scan(decide, b) == Scan(decide, b[First(decide, b).0..]).After(First(decide, b).1)
  {
  }

  /** With only narrow tags a longer text starts with the same token. */
  lemma FirstOfLonger(decide: Rule, a: string, b: string)
    requires Stable(decide) && a != "" && First(decide, a).0 > 0 && AllNarrow(Scan(decide, a + b).tokens)
    ensures First(decide, a + b) == First(decide, a)
  {
    assert (a + b)[0] == a[0];
    if a[0] == '<' && decide(a) == Emit {
      ScanFirst(decide, a + b);
      if decide(a + b).Found? {
        NarrowTail(Scan(decide, (a + b)[decide(a + b).length..]), decide(a + b).tag);
      }
    }
  }

  lemma {:induction false} SplitScan(decide: Rule, a: string, b: string)
    requires Stable(decide) && AllNarrow(Scan(decide, a + b).tokens)
    ensures Resume(decide, a, b) == Scan(decide, a + b)
    decreases |a|
  {
    if a == "" {
      assert a + b == b;
      assert Scan(decide, a).rest + b == b;
    } else if First(decide, a).0 == 0 {
      ScanFirst(decide, a);
    } else {
      hide Stable, AllNarrow, Resume, Scan;
      var (n, token) := First(decide, a);
      BothStep(decide, a, b);
      SplitScan(decide, a[n..], b);
      ResumeAfter(decide, a, a[n..], b, token);
    }
  }

  /** With only narrow tags both texts take the same first step. */
  lemma BothStep(decide: Rule, a: string, b: string)
    requires Stable(decide) && a != "" && First(decide, a).0 > 0 && AllNarrow(Scan(decide, a + b).tokens)
    ensures var (n, token) := First(decide, a);
            && n <= |a| && Scan(decide, a) == Scan(decide, a[n..]).After(token)
            && Scan(decide, a + b) == Scan(decide, a[n..] + b).After(token)
            && AllNarrow(Scan(decide, a[n..] + b).tokens)
  {
    hide Stable, AllNarrow, Scan, First;
    FirstOfLonger(decide, a, b);
    ScanFirst(decide, a);
    ScanFirst(decide, a + b);
    var n := First(decide, a).0;
    DropConcat(a, b, n);
    NarrowTail(Scan(decide, a[n..] + b), First(decide, a).1);
  }

  lemma DropConcat(a: string, b: string, n: nat)
    requires n <= |a|
    ensures (a + b)[n..] == a[n..] + b
  {
  }

  /** Cutting `t` at `k`, behind some opening bracket, scans it differently. */
  ghost predicate BreaksAt(decide: Rule, t: string, k: nat, i: nat) {
    i < k <= |t| && t[i] == '<' && Resume(decide, t[..k], t[k..]) != Scan(decide, t)
  }

  /** A recognised tag with a wide delimiter gives a split that is scanned differently. */
  lemma {:induction false} WideTagBreaks(decide: Rule, t: string) returns (k: nat, i: nat)
    requires Stable(decide) && Trimmable(decide) && !AllNarrow(Scan(decide, t).tokens)
    ensures BreaksAt(decide, t, k, i)
    decreases |t|
  {
    hide Stable, Trimmable, AllNarrow, Resume;
    NotEmptyWhenWide(decide, t);
    if t[0] == '<' && IsWideTag(decide(t)) {
      k := WideTagHere(decide, t);
      i := 0;
    } else {
      RestIsWide(decide, t);
      var n := First(decide, t).0;
      k, i := WideTagBreaks(decide, t[n..]);
      BreakInFront(decide, t, k, i);
      k, i := n + k, n + i;
    }
  }

  lemma BreakInFront(decide: Rule, t: string, k: nat, i: nat)
    requires Stable(decide) && Trimmable(decide) && t != ""
    requires 0 < First(decide, t).0 <= |t| && BreaksAt(decide, t[First(decide, t).0..], k, i)
    ensures BreaksAt(decide, t, First(decide, t).0 + k, First(decide, t).0 + i)
  {
    hide Stable, Trimmable, Scan, Resume, First;
    var n := First(decide, t).0;
    assert t[n..][i] == t[n + i];
    FirstOfShorter(decide, t, k, i);
    BreakEarlier(decide, t, n, k);
  }

  lemma NotEmptyWhenWide(decide: Rule, t: string)
    requires !AllNarrow(Scan(decide, t).tokens)
    ensures t != ""
  {
  }

  lemma RestIsWide(decide: Rule, t: string)
    requires t != "" && !AllNarrow(Scan(decide, t).tokens) && !(t[0] == '<' && IsWideTag(decide(t)))
    ensures 0 < First(decide, t).0 <= |t|
    ensures !AllNarrow(Scan(decide, t[First(decide, t).0..]).tokens)
  {
    var (n, token) := First(decide, t);
    ScanFirst(decide, t);
    NarrowTail(Scan(decide, t[n..]), token);
  }

  lemma BreakEarlier(decide: Rule, t: string, n: nat, k: nat)
    requires t != "" && 0 < n == First(decide, t).0 && 0 < n + k <= |t|
    requires First(decide, t[..n + k]) == First(decide, t)
    requires Resume(decide, t[n..][..k], t[n..][k..]) != Scan(decide, t[n..])
    ensures Resume(decide, t[..n + k], t[n + k..]) != Scan(decide, t)
  {
    Slices(t, n, k);
    ScanFirst(decide, t);
    ScanFirst(decide, t[..n + k]);
    BreakBehind(decide, t, t[n..], t[..n + k], t[n..][..k], t[n + k..], First(decide, t).1);
  }

  lemma Slices(t: string, n: nat, k: nat)
    requires n + k <= |t|
    ensures t[..n + k][n..] == t[n..][..k] && t[n..][k..] == t[n + k..]
  {
  }

  lemma WideTagHere(decide: Rule, t: string) returns (k: nat)
    requires Trimmable(decide) && t != "" && t[0] == '<' && IsWideTag(decide(t))
    ensures BreaksAt(decide, t, k, 0)
  {
    k :| 0 < k <= |t| && decide(t[..k]) == Emit;
    ScanFirst(decide, t);
    ScanFirst(decide, t[..k]);
    assert Resume(decide, t[..k], t[k..]).tokens[0] == Spoken('<');
    assert Scan(decide, t).tokens[0] == decide(t).tag;
  }

  /** A split that breaks the rest of a text breaks the text, when its first token stays. */
  lemma BreakBehind(decide: Rule, t: string, t': string, a: string, a': string, b: string, token: Token)
    requires Scan(decide, t) == Scan(decide, t').After(token)
    requires Scan(decide, a) == Scan(decide, a').After(token)
    requires Resume(decide, a', b) != Scan(decide, t')
    ensures Resume(decide, a, b) != Scan(decide, t)
  {
    ResumeAfter(decide, a, a', b, token);
    AfterInjective(Resume(decide, a', b), Scan(decide, t'), token);
  }

  lemma FirstOfShorter(decide: Rule, t: string, k: nat, i: nat)
    requires Stable(decide) && Trimmable(decide) && t != ""
    requires var n := First(decide, t).0;
             0 < n && n + k <= |t| && i < k && t[n + i] == '<'
    ensures First(decide, t[..First(decide, t).0 + k]) == First(decide, t)
  {
    var n := First(decide, t).0;
    if t[0] == '<' && decide(t).Found? {
      assert t[..n] + t[n..n + k] == t[..n + k];
      assert decide(t[..n]) == decide(t);
    }
  }

  /** Scanning a text in two parts gives the tokens of the whole, for every way of cutting it,
      exactly when every tag recognised in it has a narrow delimiter. */
  lemma SplitsExactlyWhenNarrow(decide: Rule, t: string)
    requires Stable(decide) && Trimmable(decide)
    ensures (forall k :: 0 <= k <= |t| ==> Resume(decide, t[..k], t[k..]) == Scan(decide, t))
            <==> AllNarrow(Scan(decide, t).tokens)
  {
    hide Stable, Trimmable, Scan, Resume, AllNarrow;
    if AllNarrow(Scan(decide, t).tokens) {
      forall k | 0 <= k <= |t| ensures Resume(decide, t[..k], t[k..]) == Scan(decide, t) {
        assert t[..k] + t[k..] == t;
        SplitScan(decide, t[..k], t[k..]);
      }
    } else {
      var k, i := WideTagBreaks(decide, t);
    }
  }
}

