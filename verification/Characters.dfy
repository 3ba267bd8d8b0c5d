/** White space and lower case, as the source language's strings see them. */
module Characters {

  predicate IsSpace(c: char) {
    var n := c as int;
    || 9 <= n <= 13 || 28 <= n <= 32 || n == 0x85 || n == 0xA0 || n == 0x1680
    || 0x2000 <= n <= 0x200A || n == 0x2028 || n == 0x2029 || n == 0x202F || n == 0x205F || n == 0x3000
  }

  function LowerChar(c: char): char {
    if 'A' <= c <= 'Z' then c - 'A' + 'a' else c
  }

  function Lower(s: string): (r: string)
    ensures |r| == |s|
  {
    seq(|s|, i requires 0 <= i < |s| => LowerChar(s[i]))
  }

  /** The white space of Unicode, as the source language knows it. */
  const SPACES: seq<int> :=
    [9, 10, 11, 12, 13, 28, 29, 30, 31, 32, 133, 160, 5760, 8192, 8193, 8194, 8195, 8196, 8197, 8198, 8199, 8200, 8201,
     8202, 8232, 8233, 8239, 8287, 12288]

  lemma SpacesExactly(c: char)
    ensures IsSpace(c) <==> exists i :: 0 <= i < |SPACES| && SPACES[i] == c as int
  {
    var n := c as int;
    var i := if n < 28 then n - 9 else if n <= 32 then n - 23 else if n == 133 then 10 else if n == 160 then 11
             else if n == 5760 then 12 else if n <= 8202 then n - 8179 else if n <= 8233 then n - 8208
             else if n == 8239 then 26 else if n == 8287 then 27 else 28;
    if IsSpace(c) { assert SPACES[i] == n; }
  }

  const CAPITALS := "ABCDEFGHIJKLMNOPQRSTUVWXYZ"
  const SMALL := "abcdefghijklmnopqrstuvwxyz"

  lemma LowerExactly(c: char)
    ensures forall i :: 0 <= i < 26 && CAPITALS[i] == c ==> LowerChar(c) == SMALL[i]
    ensures (forall i :: 0 <= i < 26 ==> CAPITALS[i] != c) ==> LowerChar(c) == c
  {
    if 'A' <= c <= 'Z' { assert CAPITALS[c as int - 'A' as int] == c; }
  }
}
