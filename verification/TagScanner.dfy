/** The rule for internal tags: which text is one, which could still become one. */
module TagScanner {
  import opened Characters
  import opened Scanner

  const NAMES: seq<string> := ["think", "thinking", "reasoning", "tool_call", "function", "parameter"]

  /** Number of ways an internal tag can start: each name, plain or closing. */
  const PREFIXES := 12

  function NameOf(p: nat): string
    requires p < PREFIXES
  {
    NAMES[p / 2]
  }

  predicate IsClosing(p: nat) {
    p % 2 == 1
  }

  function Prefix(p: nat): string
    requires p < PREFIXES
  {
    (if IsClosing(p) then "</" else "<") + NameOf(p)
  }

  /** What may follow a tag name in the regular expression. */
  predicate IsDelimiter(c: char) {
    c == '>' || c == '=' || c == '/' || IsSpace(c)
  }

  /** The buffer starts with prefix `p`, whatever its case, and a character after it. */
  predicate Headed(b: string, p: nat)
    requires p < PREFIXES
  {
    |b| > |Prefix(p)| && Lower(b[..|Prefix(p)|]) == Prefix(p)
  }

  /** Position of the first angle bracket from `i` on, or the length. */
  function NextAngle(b: string, i: nat): (n: nat)
    requires i <= |b|
    ensures i <= n <= |b|
    ensures n < |b| ==> b[n] == '<' || b[n] == '>'
    ensures forall j :: i <= j < n ==> b[j] != '<' && b[j] != '>'
    decreases |b| - i
  {
    if i == |b| || b[i] == '<' || b[i] == '>' then i else NextAngle(b, i + 1)
  }

  /** Where the tag that starts with prefix `p` ends, if it is complete: its closing bracket
      comes before any other angle bracket. */
  predicate Closes(b: string, p: nat)
    requires p < PREFIXES && Headed(b, p)
  {
    var n := NextAngle(b, |Prefix(p)|);
    IsDelimiter(b[|Prefix(p)|]) && n < |b| && b[n] == '>'
  }

  predicate Matches(b: string, p: nat)
    requires p < PREFIXES
  {
    Headed(b, p) && Closes(b, p)
  }

  /** The buffer could still become a tag that starts with prefix `p`. */
  predicate Pending(b: string, p: nat)
    requires p < PREFIXES
  {
    || (|b| <= |Prefix(p)| && Lower(b) == Prefix(p)[..|b|])
    || (Headed(b, p) && IsNarrow(b[|Prefix(p)|]))
  }

  predicate PossibleTag(b: string) {
    exists p :: 0 <= p < PREFIXES && Pending(b, p)
  }

  /** The prefix of the tag at the front of the buffer, if there is a complete one. */
  function FindTag(b: string, p: nat): (r: nat)
    requires p <= PREFIXES
    ensures p <= r <= PREFIXES
    ensures r < PREFIXES ==> Matches(b, r)
    ensures forall q :: p <= q < r ==> !Matches(b, q)
    decreases PREFIXES - p
  {
    if p == PREFIXES || Matches(b, p) then p else FindTag(b, p + 1)
  }

  /** What to do with a buffer that starts with an opening angle bracket. */
  function Decide(b: string): (d: Decision)
    ensures d.Found? ==> 0 < d.length <= |b|
  {
    var p := FindTag(b, 0);
    if p < PREFIXES then
      var n := NextAngle(b, |Prefix(p)|);
      Found(Tag(IsClosing(p), NameOf(p), b[n - 1] == '/', b[|Prefix(p)|]), n + 1)
    else if PossibleTag(b) then Hold
    else Emit
  }

  // ---------- decisions and longer buffers ----------

  lemma LowerPrefix(a: string, b: string, n: nat)
    requires n <= |a|
    ensures Lower((a + b)[..n]) == Lower(a[..n])
  {
    assert (a + b)[..n] == a[..n];
  }

  lemma {:induction false} NextAngleExtends(a: string, b: string, i: nat)
    requires i <= |a|
    ensures NextAngle(a, i) < |a| ==> NextAngle(a + b, i) == NextAngle(a, i)
    ensures NextAngle(a, i) == |a| ==> NextAngle(a + b, i) >= |a|
    decreases |a| - i
  {
    if i < |a| {
      assert (a + b)[i] == a[i];
      if a[i] != '<' && a[i] != '>' { NextAngleExtends(a, b, i + 1); }
    }
  }

  /** The one prefix a headed text can have, read off a few of its characters. */
  function Code(b: string): nat
    requires |b| >= 7 && (b[1] == '/' ==> |b| >= 8)
  {
    var k := if b[1] == '/' then 2 else 1;
    var first, second, sixth := LowerChar(b[k]), LowerChar(b[k + 1]), LowerChar(b[k + 5]);
    var name :=
      if first == 'r' then 2 else if first == 'f' then 4 else if first == 'p' then 5
      else if second == 'o' then 3 else if sixth == 'i' then 1 else 0;
    2 * name + k - 1
  }

  lemma HeadChars(b: string, p: nat, i: nat)
    requires p < PREFIXES && Headed(b, p) && i < |Prefix(p)|
    ensures LowerChar(b[i]) == Prefix(p)[i]
  {
    assert Lower(b[..|Prefix(p)|])[i] == LowerChar(b[i]);
  }

  /** The letters that tell the names apart. */
  lemma NameLetters(n: nat)
    requires n < |NAMES|
    ensures var s := NAMES[n];
            && |s| >= 5 && s[0] != '/' && (n != 0 ==> |s| > 5)
            && (s[0] == 'r' <==> n == 2) && (s[0] == 'f' <==> n == 4) && (s[0] == 'p' <==> n == 5)
            && (s[1] == 'o' <==> n == 3) && (n == 1 ==> s[5] == 'i') && (n == 0 ==> |s| == 5)
  {
  }

  /** A prefix followed by a delimiter is determined by the text. */
  lemma HeadIsUnique(b: string, p: nat)
    requires p < PREFIXES && Headed(b, p) && IsDelimiter(b[|Prefix(p)|])
    ensures |b| >= 7 && (b[1] == '/' ==> |b| >= 8) && p == Code(b)
  {
    var name := NameOf(p);
    NameLetters(p / 2);
    var k := if IsClosing(p) then 2 else 1;
    assert Prefix(p)[k] == name[0] && Prefix(p)[k + 1] == name[1];
    HeadChars(b, p, 1);
    HeadChars(b, p, k);
    HeadChars(b, p, k + 1);
    if |name| > 5 {
      assert Prefix(p)[k + 5] == name[5];
      HeadChars(b, p, k + 5);
    }
  }

  /** A complete tag stays the same tag when more text follows. */
  lemma MatchExtends(a: string, b: string, p: nat)
    requires p < PREFIXES && Matches(a, p)
    ensures Matches(a + b, p) && NextAngle(a + b, |Prefix(p)|) == NextAngle(a, |Prefix(p)|)
  {
    LowerPrefix(a, b, |Prefix(p)|);
    NextAngleExtends(a, b, |Prefix(p)|);
  }

  lemma FindTagIs(b: string, p: nat)
    requires p < PREFIXES && Matches(b, p)
    ensures FindTag(b, 0) == p
  {
    var r := FindTag(b, 0);
    HeadIsUnique(b, p);
    HeadIsUnique(b, r);
  }

  lemma FoundExtends(a: string, b: string)
    requires Decide(a).Found?
    ensures Decide(a + b) == Decide(a)
  {
    var p := FindTag(a, 0);
    MatchExtends(a, b, p);
    FindTagIs(a + b, p);
    var n := NextAngle(a, |Prefix(p)|);
    assert (a + b)[n - 1] == a[n - 1] && (a + b)[|Prefix(p)|] == a[|Prefix(p)|];
  }

  /** Shortening a buffer that could become a tag leaves one that could become a tag. */
  lemma PendingShrinks(a: string, b: string, p: nat)
    requires p < PREFIXES && Pending(a + b, p)
    ensures Pending(a, p)
  {
    var s := Prefix(p);
    if |a| <= |s| {
      assert forall i :: 0 <= i < |a| ==> LowerChar(a[i]) == LowerChar((a + b)[i]);
      if |a + b| <= |s| {
        assert forall i :: 0 <= i < |a| ==> Lower(a)[i] == Lower(a + b)[i] == s[i];
      } else {
        assert forall i :: 0 <= i < |a| ==> Lower(a)[i] == Lower((a + b)[..|s|])[i] == s[i];
      }
      assert Lower(a) == s[..|a|];
    } else {
      LowerPrefix(a, b, |s|);
      assert (a + b)[|s|] == a[|s|];
    }
  }

  /** A complete tag with a narrow delimiter is one the hold test would have waited for. */
  lemma NarrowMatchIsPending(b: string, p: nat)
    requires p < PREFIXES && Matches(b, p) && IsNarrow(b[|Prefix(p)|])
    ensures Pending(b, p)
  {
  }

  lemma PossibleShrinks(a: string, b: string)
    requires PossibleTag(a + b)
    ensures PossibleTag(a)
  {
    var p :| 0 <= p < PREFIXES && Pending(a + b, p);
    PendingShrinks(a, b, p);
  }

  /** What a shorter buffer decides, given what the longer one does: the same, or to wait.
      Only a tag with a wide delimiter can be given up on too early. */
  lemma DecisionOfShorter(a: string, b: string)
    ensures Decide(a).Found? ==> Decide(a + b) == Decide(a)
    ensures Decide(a).Emit? && !IsWideTag(Decide(a + b)) ==> Decide(a + b) == Emit
  {
    if Decide(a).Found? {
      FoundExtends(a, b);
    } else if Decide(a).Emit? && !IsWideTag(Decide(a + b)) {
      if Decide(a + b).Hold? {
        PossibleShrinks(a, b);
      } else if Decide(a + b).Found? {
        var p := FindTag(a + b, 0);
        NarrowMatchIsPending(a + b, p);
        PendingShrinks(a, b, p);
      }
    }
  }

  // ---------- decisions and shorter buffers ----------

  /** A complete tag is recognised without the text behind it. */
  lemma FoundTrims(b: string)
    requires Decide(b).Found?
    ensures Decide(b[..Decide(b).length]) == Decide(b)
  {
    hide FindTag, PossibleTag, Matches, Prefix, NextAngle, IsNarrow, NameOf;
    var p := FindTag(b, 0);
    var n := NextAngle(b, |Prefix(p)|);
    MatchTrims(b, p, n, b[..n + 1]);
    FindTagIs(b[..n + 1], p);
  }

  lemma MatchTrims(b: string, p: nat, n: nat, a: string)
    requires p < PREFIXES && Matches(b, p) && n == NextAngle(b, |Prefix(p)|) && a == b[..n + 1]
    ensures Matches(a, p) && NextAngle(a, |Prefix(p)|) == n
    ensures a[|Prefix(p)|] == b[|Prefix(p)|] && 0 < n && a[n - 1] == b[n - 1]
  {
    hide NextAngle;
    assert a + b[n + 1..] == b;
    NextAngleExtends(a, b[n + 1..], |Prefix(p)|);
    assert a[..|Prefix(p)|] == b[..|Prefix(p)|];
  }

  lemma NoSpaceInPrefix(p: nat, i: nat)
    requires p < PREFIXES && i < |Prefix(p)|
    ensures !IsSpace(Prefix(p)[i]) && (i > 0 ==> Prefix(p)[i] != '<')
  {
    var name := NameOf(p);
    var k := if IsClosing(p) then 2 else 1;
    if i >= k { assert Prefix(p)[i] == name[i - k]; }
  }

  /** Cut right behind a wide delimiter, the start of a tag is given up on. */
  lemma CutTagIsEmitted(b: string)
    requires IsWideTag(Decide(b))
    ensures var k := |Prefix(FindTag(b, 0))| + 1;
            k <= |b| && Decide(b[..k]) == Emit
  {
    hide Headed, NextAngle, PossibleTag, IsDelimiter, IsNarrow;
    var p := FindTag(b, 0);
    var k := |Prefix(p)|;
    CutTag(b, p, b[..k + 1]);
  }

  lemma CutTag(b: string, p: nat, a: string)
    requires p < PREFIXES && Headed(b, p) && a == b[..|Prefix(p)| + 1]
    requires IsDelimiter(b[|Prefix(p)|]) && !IsNarrow(b[|Prefix(p)|])
    ensures Decide(a) == Emit
  {
    assert a[..|Prefix(p)|] == b[..|Prefix(p)|];
    forall q | 0 <= q < PREFIXES ensures !Matches(a, q) && !Pending(a, q) {
      NotPendingWhenCut(a, p, q);
    }
    NothingIsEmitted(a);
  }

  lemma NothingIsEmitted(a: string)
    requires forall q :: 0 <= q < PREFIXES ==> !Matches(a, q) && !Pending(a, q)
    ensures Decide(a) == Emit
  {
  }

  lemma NotPendingWhenCut(a: string, p: nat, q: nat)
    requires p < PREFIXES && q < PREFIXES && Headed(a, p) && |a| == |Prefix(p)| + 1
    requires IsDelimiter(a[|Prefix(p)|]) && !IsNarrow(a[|Prefix(p)|])
    ensures !Matches(a, q) && !Pending(a, q)
  {
    var k := |Prefix(p)|;
    if Headed(a, q) && IsDelimiter(a[|Prefix(q)|]) {
      HeadIsUnique(a, q);
      HeadIsUnique(a, p);
    }
    if |a| <= |Prefix(q)| {
      NoSpaceInPrefix(q, k);
      assert Lower(a)[k] == LowerChar(a[k]) == a[k];
    }
  }

  /** A buffer with a second bracket that could still become a tag still could with more text. */
  lemma PendingExtends(a: string, b: string, q: nat, i: nat)
    requires q < PREFIXES && 0 < i < |a| && a[i] == '<' && Pending(a, q)
    ensures Pending(a + b, q)
  {
    assert Lower(a)[i] == '<';
    if |a| <= |Prefix(q)| { NoSpaceInPrefix(q, i); }
    assert |a| > |Prefix(q)|;
    LowerPrefix(a, b, |Prefix(q)|);
  }

  /** A text that starts with a bracket that is spoken, and holds another one, is not held. */
  lemma EmitTrims(t: string, k: nat, i: nat)
    requires Decide(t) == Emit && 0 < i < k <= |t| && t[i] == '<'
    ensures Decide(t[..k]) == Emit
  {
    var a := t[..k];
    assert a + t[k..] == t;
    DecisionOfShorter(a, t[k..]);
    if PossibleTag(a) {
      var q :| 0 <= q < PREFIXES && Pending(a, q);
      PendingExtends(a, t[k..], q, i);
    }
  }

  lemma DecideIsStable()
    ensures Stable(Decide)
  {
    forall a, b
      ensures Decide(a).Found? ==> Decide(a + b) == Decide(a)
      ensures Decide(a).Emit? && !IsWideTag(Decide(a + b)) ==> Decide(a + b) == Emit
    {
      DecisionOfShorter(a, b);
    }
  }

  lemma DecideIsTrimmable()
    ensures Trimmable(Decide)
  {
    forall b | Decide(b).Found? ensures Decide(b[..Decide(b).length]) == Decide(b) { FoundTrims(b); }
    forall b, k, i | Decide(b) == Emit && 0 < i < k <= |b| && b[i] == '<' ensures Decide(b[..k]) == Emit {
      EmitTrims(b, k, i);
    }
    forall b | b != "" && IsWideTag(Decide(b)) ensures exists k :: 0 < k <= |b| && Decide(b[..k]) == Emit {
      CutTagIsEmitted(b);
    }
  }

  lemma DecideIsClean()
    ensures Clean(Decide)
  {
    forall b, i | Decide(b).Found? && 0 < i < Decide(b).length ensures b[i] != '<' { FoundIsClean(b, i); }
  }

  lemma FoundIsClean(b: string, i: nat)
    requires Decide(b).Found? && 0 < i < Decide(b).length
    ensures b[i] != '<'
  {
    hide PossibleTag;
    var p := FindTag(b, 0);
    if i < |Prefix(p)| {
      HeadChars(b, p, i);
      NoSpaceInPrefix(p, i);
    }
  }

  // ---------- complete tags ----------

  /** What the regular expression takes between a tag name and the closing bracket. */
  predicate IsAttributes(text: string) {
    text != "" ==> text[0] != '>' && IsDelimiter(text[0]) && forall i :: 0 <= i < |text| ==> text[i] !in "<>"
  }

  predicate EndsInSlash(text: string) {
    text != "" && text[|text| - 1] == '/'
  }

  lemma {:induction false} AttributesHoldNoAngle(b: string, i: nat, n: nat)
    requires i <= n < |b| && b[n] == '>' && forall j :: i <= j < n ==> b[j] !in "<>"
    ensures NextAngle(b, i) == n
    decreases n - i
  {
    if i < n { AttributesHoldNoAngle(b, i + 1, n); }
  }

  lemma LastOfHead(head: string, p: nat)
    requires p < PREFIXES && Lower(head) == Prefix(p)
    ensures |head| > 2 && head[0] == '<' && head[|head| - 1] != '/'
  {
    var name := NameOf(p);
    assert Lower(head)[|head| - 1] == name[|name| - 1];
    assert Lower(head)[0] == '<';
  }

  /** A tag, in whatever case and with whatever attributes, is found whatever follows it. */
  lemma WrittenTagIsFound(p: nat, head: string, attributes: string, rest: string)
    requires p < PREFIXES && Lower(head) == Prefix(p) && IsAttributes(attributes)
    ensures Decide(head + attributes + ">" + rest)
            == Found(Tag(IsClosing(p), NameOf(p), EndsInSlash(attributes), (attributes + ">")[0]),
                     |head| + |attributes| + 1)
  {
    hide FindTag, PossibleTag, Prefix, NameOf, IsClosing;
    var b := head + attributes + ">" + rest;
    var n := |head| + |attributes|;
    LastOfHead(head, p);
    assert b[..|head|] == head && b[|head|] == (attributes + ">")[0] && b[n] == '>';
    assert forall j :: |head| <= j < n ==> b[j] == attributes[j - |head|];
    AttributesHoldNoAngle(b, |head|, n);
    FindTagIs(b, p);
  }

  // ---------- what is held back ----------

  /** What is held, with a second opening bracket in it, is held for good. */
  lemma HeldForGood(b: string, more: string, i: nat)
    requires Decide(b) == Hold && 0 < i < |b| && b[i] == '<'
    ensures Decide(b + more) == Hold
  {
    if Decide(b + more).Found? {
      TagInFront(b, more, i);
    } else {
      hide FindTag, Prefix;
      var q :| 0 <= q < PREFIXES && Pending(b, q);
      PendingExtends(b, more, q, i);
    }
  }

  /** A tag ends before a second opening bracket, so it needs nothing behind that. */
  lemma TagInFront(b: string, more: string, i: nat)
    requires Decide(b + more).Found? && 0 < i < |b| && b[i] == '<'
    ensures Decide(b).Found?
  {
    hide Decide;
    var n := Decide(b + more).length;
    assert (b + more)[i] == '<';
    if i < n { FoundIsClean(b + more, i); }
    FoundTrims(b + more);
    assert (b + more)[..n] == b[..n] && b[..n] + b[n..] == b;
    FoundExtends(b[..n], b[n..]);
  }

  lemma StartedTwice()
    ensures Decide("<think <") == Hold
  {
    hide FindTag, PossibleTag;
    var b := "<think <";
    assert Prefix(0) == "<think" && b[..6] == "<think";
    assert forall i :: 0 <= i < 6 ==> Lower("<think")[i] == "<think"[i];
    assert Lower("<think") == "<think";
    assert Pending(b, 0);
    assert PossibleTag(b) by { PendingIsPossible(b, 0); }
    var p := FindTag(b, 0);
    if p < PREFIXES { NotFoundTwice(b, p); }
  }

  lemma PendingIsPossible(b: string, p: nat)
    requires p < PREFIXES && Pending(b, p)
    ensures PossibleTag(b)
  {
  }

  lemma NotFoundTwice(b: string, p: nat)
    requires p < PREFIXES && Matches(b, p)
    ensures exists i :: 0 < i < |b| && b[i] == '>'
  {
    assert b[NextAngle(b, |Prefix(p)|)] == '>';
  }

  /** Anything else that is held can still become a tag. */
  lemma HeldMayComplete(b: string) returns (more: string)
    requires b != "" && b[0] == '<' && Decide(b) == Hold && forall i :: 0 < i < |b| ==> b[i] != '<'
    ensures Decide(b + more).Found? && Decide(b + more).length == |b + more|
  {
    hide FindTag;
    var p :| 0 <= p < PREFIXES && Pending(b, p);
    if |b| <= |Prefix(p)| { more := CompleteName(b, p); } else { more := CompleteTag(b, p); }
  }

  lemma CompleteName(b: string, p: nat) returns (more: string)
    requires p < PREFIXES && |b| <= |Prefix(p)| && Lower(b) == Prefix(p)[..|b|]
    ensures Decide(b + more).Found? && Decide(b + more).length == |b + more|
  {
    hide Decide, Prefix;
    var name := Prefix(p)[|b|..];
    more := name + ">";
    forall k | 0 <= k < |Prefix(p)| ensures Lower(b + name)[k] == Prefix(p)[k] {
      PrefixLetterIsLower(p, k);
      if k < |b| { assert Lower(b)[k] == Prefix(p)[k]; }
    }
    assert Lower(b + name) == Prefix(p);
    WrittenTagIsFound(p, b + name, "", "");
    assert (b + name) + "" + ">" + "" == b + more;
  }

  lemma CompleteTag(b: string, p: nat) returns (more: string)
    requires p < PREFIXES && Headed(b, p) && IsNarrow(b[|Prefix(p)|]) && !Decide(b).Found?
    requires forall i :: 0 < i < |b| ==> b[i] != '<'
    ensures Decide(b + more).Found? && Decide(b + more).length == |b + more|
  {
    hide PossibleTag, Prefix;
    var n := |Prefix(p)|;
    var head, attributes := b[..n], b[n..];
    if Matches(b, p) { FindTagIs(b, p); }
    LastOfHead(head, p);
    assert NextAngle(b, n) == |b|;
    more := ">";
    WrittenTagIsFound(p, head, attributes, "");
    assert head + attributes + ">" + "" == b + more;
  }

  lemma PrefixLetterIsLower(p: nat, i: nat)
    requires p < PREFIXES && i < |Prefix(p)|
    ensures LowerChar(Prefix(p)[i]) == Prefix(p)[i]
  {
    var name := NameOf(p);
    var k := if IsClosing(p) then 2 else 1;
    if i >= k { assert Prefix(p)[i] == name[i - k]; }
  }

  /** A letter that a tag name can start with, in either case, or the slash of a closing tag. */
  predicate OpensName(c: char) {
    c in "/tTrRfFpP"
  }

  lemma SecondOfPrefix(p: nat)
    requires p < PREFIXES
    ensures |Prefix(p)| > 1 && Prefix(p)[1] in "/trfp"
  {
    NameLetters(p / 2);
  }

  /** An opening bracket in front of anything else is spoken at once. */
  lemma OtherBracketIsEmitted(b: string)
    requires |b| > 1 && b[0] == '<' && !OpensName(b[1])
    ensures Decide(b) == Emit
  {
    hide Decide, Prefix;
    forall p | 0 <= p < PREFIXES ensures !Matches(b, p) && !Pending(b, p) {
      SecondOfPrefix(p);
      if Headed(b, p) { HeadChars(b, p, 1); }
    }
    NothingIsEmitted(b);
  }

  // ---------- a tag that is given up on too early ----------

  /** A form feed may follow a name in the regular expression, but not in the test for holding. */
  const FORM_FEED_TAG := "<think" + ['\U{c}', '>']

  lemma FormFeedTagIsFound()
    ensures Decide(FORM_FEED_TAG) == Found(Tag(false, "think", false, '\U{c}'), 8)
    ensures Decide(FORM_FEED_TAG[..7]) == Emit
  {
    hide FindTag, PossibleTag;
    assert Prefix(0) == "<think";
    assert FORM_FEED_TAG[..6] == "<think";
    assert forall i :: 0 <= i < 6 ==> Lower("<think")[i] == "<think"[i];
    assert Lower("<think") == "<think";
    assert NextAngle(FORM_FEED_TAG, 7) == 7;
    assert NextAngle(FORM_FEED_TAG, 6) == 7;
    FindTagIs(FORM_FEED_TAG, 0);
    CutTag(FORM_FEED_TAG, 0, FORM_FEED_TAG[..7]);
  }
}
