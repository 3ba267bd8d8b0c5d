/** JSON text as `json.dumps(value, ensure_ascii=False)` writes it, and its size in UTF-8 bytes.
    Only the shapes the conversation memory sends are rendered: strings, lists and records. */
module JsonText {

  /** Bytes one character takes in UTF-8. */
  function Utf8Width(c: char): (n: nat)
    ensures 1 <= n <= 4
  {
    var code := c as int;
    if code < 0x80 then 1 else if code < 0x800 then 2 else if code < 0x1_0000 then 3 else 4
  }

  function Utf8Length(s: string): (n: nat)
  {
    if s == [] then 0 else Utf8Width(s[0]) + Utf8Length(s[1..])
  }

  /** One character as UTF-8 (section 4 of RFC 3629): the shortest form, and no other. */
  ghost predicate IsUtf8(bytes: seq<nat>, code: int) {
    match |bytes|
    case 1 => bytes[0] < 0x80 && code == bytes[0]
    case 2 => 0xC2 <= bytes[0] <= 0xDF && Tail(bytes[1]) && code == (bytes[0] - 0xC0) * 64 + bytes[1] - 0x80
    case 3 =>
      && 0xE0 <= bytes[0] <= 0xEF && Tail(bytes[1]) && Tail(bytes[2]) && (bytes[0] == 0xE0 ==> bytes[1] >= 0xA0)
      && code == (bytes[0] - 0xE0) * 4096 + (bytes[1] - 0x80) * 64 + bytes[2] - 0x80
    case 4 =>
      && 0xF0 <= bytes[0] <= 0xF4 && Tail(bytes[1]) && Tail(bytes[2]) && Tail(bytes[3])
      && (bytes[0] == 0xF0 ==> bytes[1] >= 0x90)
      && code == (bytes[0] - 0xF0) * 262144 + (bytes[1] - 0x80) * 4096 + (bytes[2] - 0x80) * 64 + bytes[3] - 0x80
    case _ => false
  }

  ghost predicate Tail(b: nat) {
    0x80 <= b <= 0xBF
  }

  /** The width is the number of bytes of that form. */
  lemma WidthIsRight(c: char) returns (bytes: seq<nat>)
    ensures |bytes| == Utf8Width(c) && IsUtf8(bytes, c as int)
  {
    var n := c as nat;
    if n < 0x80 {
      bytes := [n];
    } else if n < 0x800 {
      bytes := [0xC0 + n / 64, 0x80 + n % 64];
    } else if n < 0x1_0000 {
      bytes := ThreeBytes(n);
    } else {
      bytes := FourBytes(n);
    }
  }

  lemma ThreeBytes(n: nat) returns (bytes: seq<nat>)
    requires 0x800 <= n < 0x1_0000
    ensures |bytes| == 3 && IsUtf8(bytes, n)
  {
    var m := n / 64;
    bytes := [0xE0 + m / 64, 0x80 + m % 64, 0x80 + n % 64];
    assert n == 64 * m + n % 64 && m == 64 * (m / 64) + m % 64;
  }

  lemma FourBytes(n: nat) returns (bytes: seq<nat>)
    requires 0x1_0000 <= n < 0x11_0000
    ensures |bytes| == 4 && IsUtf8(bytes, n)
  {
    var m := n / 64;
    var k := m / 64;
    bytes := [0xF0 + k / 64, 0x80 + k % 64, 0x80 + m % 64, 0x80 + n % 64];
    assert n == 64 * m + n % 64 && m == 64 * k + m % 64 && k == 64 * (k / 64) + k % 64;
  }

  const HEX := "0123456789abcdef"

  /** The text that stands for one character inside a JSON string. */
  function Escape(c: char): (s: string)
  {
    if c == '\"' then "\\\""
    else if c == '\\' then "\\\\"
    else if c == '\n' then "\\n"
    else if c == '\r' then "\\r"
    else if c == '\t' then "\\t"
    else if c as int == 8 then "\\b"
    else if c as int == 12 then "\\f"
    else if c as int < 0x20 then "\\u00" + [HEX[c as int / 16], HEX[c as int % 16]]
    else [c]
  }

  function EscapeAll(s: string): string
  {
    if s == [] then [] else Escape(s[0]) + EscapeAll(s[1..])
  }

  function Quote(s: string): string
  {
    "\"" + EscapeAll(s) + "\""
  }

  function Join(items: seq<string>): string
  {
    if items == [] then "" else if |items| == 1 then items[0] else items[0] + ", " + Join(items[1..])
  }

  function List(items: seq<string>): string
  {
    "[" + Join(items) + "]"
  }

  function Pair(key: string, value: string): string
  {
    Quote(key) + ": " + value
  }

  function Record(pairs: seq<string>): string
  {
    "{" + Join(pairs) + "}"
  }

  /** Bytes of the items, each with the two bytes of its separator or bracket. */
  function Weight(items: seq<string>): (n: nat)
  {
    if items == [] then 0 else Utf8Length(items[0]) + 2 + Weight(items[1..])
  }

  lemma {:induction false} Utf8LengthConcat(a: string, b: string)
    ensures Utf8Length(a + b) == Utf8Length(a) + Utf8Length(b)
  {
    if a == [] {
      assert a + b == b;
    } else {
      assert (a + b)[1..] == a[1..] + b;
      Utf8LengthConcat(a[1..], b);
    }
  }

  lemma {:induction false} JoinLength(items: seq<string>)
    requires items != []
    ensures Utf8Length(Join(items)) + 2 == Weight(items)
  {
    if |items| == 1 {
      assert Weight(items[1..]) == 0;
    } else {
      JoinLength(items[1..]);
      Utf8LengthConcat(items[0] + ", ", Join(items[1..]));
      Utf8LengthConcat(items[0], ", ");
      assert Utf8Length(", ") == 2;
    }
  }

  /** A list costs two bytes when empty and otherwise exactly the weight of its items. */
  lemma ListLength(items: seq<string>)
    ensures Utf8Length(List(items)) == if items == [] then 2 else Weight(items)
  {
    Utf8LengthConcat("[" + Join(items), "]");
    Utf8LengthConcat("[", Join(items));
    assert Utf8Length("[") == 1 && Utf8Length("]") == 1;
    if items != [] { JoinLength(items); }
  }

  lemma {:induction false} WeightConcat(a: seq<string>, b: seq<string>)
    ensures Weight(a + b) == Weight(a) + Weight(b)
  {
    if a == [] {
      assert a + b == b;
    } else {
      assert (a + b)[1..] == a[1..] + b;
      WeightConcat(a[1..], b);
    }
  }

  /** Printable ASCII that JSON does not escape. */
  predicate Plain(c: char)
  {
    0x20 <= c as int < 0x7f && c != '\"' && c != '\\'
  }

  /** Plain text is its own escaped form and takes one byte a character. */
  lemma {:induction false} PlainLength(s: string)
    requires forall i :: 0 <= i < |s| ==> Plain(s[i])
    ensures EscapeAll(s) == s && Utf8Length(s) == |s|
  {
    if s != [] {
      PlainLength(s[1..]);
      assert [s[0]] + s[1..] == s;
    }
  }

  // ---------- reading it back ----------

  function Digit(c: char): nat {
    if '0' <= c <= '9' then c as nat - '0' as nat else if 'a' <= c <= 'f' then c as nat - 'a' as nat + 10 else 0
  }

  /** What a backslash and a letter stand for (section 7 of RFC 8259). */
  function Meaning(c: char): char {
    if c == 'n' then '\n' else if c == 'r' then '\r' else if c == 't' then '\t'
    else if c == 'b' then '\U{8}' else if c == 'f' then '\U{c}' else c
  }

  /** Reading the inside of a JSON string, up to its closing quote; of the numeric escapes only those below 256. */
  function Unescape(text: string): string {
    if text == "" || text[0] == '\"' then ""
    else if text[0] != '\\' then [text[0]] + Unescape(text[1..])
    else if |text| >= 6 && text[1] == 'u' then
      [(16 * Digit(text[4]) + Digit(text[5])) as char] + Unescape(text[6..])
    else if |text| >= 2 then [Meaning(text[1])] + Unescape(text[2..])
    else ""
  }

  lemma EscapeMeans(c: char, rest: string)
    ensures Unescape(Escape(c) + rest) == [c] + Unescape(rest)
  {
    var text := Escape(c) + rest;
    if |Escape(c)| == 6 {
      assert text[6..] == rest;
      HexDigits(c as nat);
    } else if |Escape(c)| == 2 {
      assert text[2..] == rest;
    } else {
      assert text[1..] == rest;
    }
  }

  lemma HexDigits(n: nat)
    requires n < 0x20
    ensures 16 * Digit(HEX[n / 16]) + Digit(HEX[n % 16]) == n
  {
    var i := n % 16;
    assert Digit(HEX[i]) == i;
  }

  /** The short escapes take two characters, those of the other control characters six. */
  lemma EscapeLength(c: char)
    ensures |Escape(c)| == if c in "\"\\\n\r\t\U{8}\U{c}" then 2 else if c as int < 32 then 6 else 1
    ensures Utf8Length(Escape(c)) == if |Escape(c)| == 1 then Utf8Width(c) else |Escape(c)|
  {
    hide Utf8Length;
    if |Escape(c)| == 6 {
      PlainPair('\\', 'u');
      PlainPair('0', '0');
      PlainPair(HEX[c as int / 16], HEX[c as int % 16]);
      Utf8LengthConcat(['\\', 'u'], ['0', '0']);
      Utf8LengthConcat(['\\', 'u'] + ['0', '0'], [HEX[c as int / 16], HEX[c as int % 16]]);
      assert Escape(c) == ['\\', 'u'] + ['0', '0'] + [HEX[c as int / 16], HEX[c as int % 16]];
    } else if |Escape(c)| == 2 {
      PlainPair(Escape(c)[0], Escape(c)[1]);
    } else {
      OneLength(c);
    }
  }

  lemma OneLength(c: char)
    ensures Utf8Length([c]) == Utf8Width(c)
  {
    assert [c][1..] == [];
  }

  lemma PlainPair(a: char, b: char)
    requires a as int < 0x80 && b as int < 0x80
    ensures Utf8Length([a, b]) == 2
  {
    assert [a, b][1..] == [b] && [b][1..] == [];
    assert Utf8Length([b]) == 1;
  }

  /** A text that was escaped is read back as it was, and its escaped form holds no control character. */
  lemma {:induction false} EscapeRoundTrips(s: string)
    ensures Unescape(EscapeAll(s)) == s
    ensures forall i :: 0 <= i < |EscapeAll(s)| ==> EscapeAll(s)[i] as int >= 0x20
  {
    if s != [] {
      EscapeRoundTrips(s[1..]);
      EscapeMeans(s[0], EscapeAll(s[1..]));
      NoControls(s[0]);
    }
  }

  lemma NoControls(c: char)
    ensures forall i :: 0 <= i < |Escape(c)| ==> Escape(c)[i] as int >= 0x20
  {
    if |Escape(c)| == 6 {
      assert HEX[c as int / 16] as int >= 0x20 && HEX[c as int % 16] as int >= 0x20;
    }
  }

  /** The local estimate: a third of the bytes, rounded up. */
  function EstimatedTokens(text: string): nat
  {
    (Utf8Length(text) + 2) / 3
  }
}
