/** The string operations the driver's files are written and read with. */
module Text {
  import opened BarrierTypes

  /** Unicode white space, as TrimSpace and Fields see it. */
  predicate IsSpace(c: char) {
    var x := c as int;
    x == 0x20 || 0x09 <= x <= 0x0D || x == 0x85 || x == 0xA0 || x == 0x1680 || 0x2000 <= x <= 0x200A
    || x == 0x2028 || x == 0x2029 || x == 0x202F || x == 0x205F || x == 0x3000
  }

  predicate NoSpaces(s: string) {
    forall i | 0 <= i < |s| :: !IsSpace(s[i])
  }

  // ----- numbers -----

  function Digit(d: nat): (c: char)
    requires d < 10
    ensures '0' <= c <= '9' && c as int - '0' as int == d
  {
    ('0' as int + d) as char
  }

  function Digits(n: nat): (s: string)
    ensures s != "" && forall i | 0 <= i < |s| :: '0' <= s[i] <= '9'
  {
    if n < 10 then [Digit(n)] else Digits(n / 10) + [Digit(n % 10)]
  }

  function Format(v: int): (s: string)
    ensures s != "" && NoSpaces(s) && s[|s| - 1] != ';'
  {
    if v < 0 then "-" + Digits(-v) else Digits(v)
  }

  predicate AllDigits(s: string) {
    s != "" && forall i | 0 <= i < |s| :: '0' <= s[i] <= '9'
  }

  function ValueOf(s: string): nat
    requires forall i | 0 <= i < |s| :: '0' <= s[i] <= '9'
  {
    if s == "" then 0 else 10 * ValueOf(s[..|s| - 1]) + (s[|s| - 1] as int - '0' as int)
  }

  lemma {:induction false} ValueOfDigits(n: nat)
    ensures ValueOf(Digits(n)) == n
  {
    if n >= 10 {
      ValueOfDigits(n / 10);
      assert Digits(n)[..|Digits(n)| - 1] == Digits(n / 10);
    } else {
      assert [Digit(n)][..0] == "";
    }
  }

  const INT64_LIMIT := 0x8000_0000_0000_0000

  /** A decimal number, optionally signed, within 64 bits. */
  function Atoi(s: string): Option<int> {
    var negative := s != "" && s[0] == '-';
    var body := if s != "" && (s[0] == '-' || s[0] == '+') then s[1..] else s;
    if !AllDigits(body) then None
    else
      var v: int := if negative then 0 - ValueOf(body) else ValueOf(body);
      if -INT64_LIMIT <= v < INT64_LIMIT then Some(v) else None
  }

  /** Conversion of a 64-bit number to 32 bits. */
  function Int32(v: int): (r: int)
    ensures -0x8000_0000 <= r < 0x8000_0000
    ensures -0x8000_0000 <= v < 0x8000_0000 ==> r == v
  {
    (v + 0x8000_0000) % 0x1_0000_0000 - 0x8000_0000
  }

  lemma AtoiDigits(n: nat)
    requires n < INT64_LIMIT
    ensures Atoi(Digits(n)) == Some(n)
  {
    ValueOfDigits(n);
    var s := Digits(n);
    assert s[0] != '-' && s[0] != '+';
  }

  lemma AtoiMinus(n: nat)
    requires n < INT64_LIMIT
    ensures Atoi("-" + Digits(n)).Some? && Atoi("-" + Digits(n)).value == 0 - n
  {
    ValueOfDigits(n);
    assert ("-" + Digits(n))[1..] == Digits(n);
  }

  lemma AtoiFormat(v: int)
    requires -0x8000_0000 <= v < 0x8000_0000
    ensures Atoi(Format(v)) == Some(v)
  {
    if v < 0 {
      AtoiMinus(-v);
    } else {
      AtoiDigits(v);
    }
  }

  // ----- trimming and cutting -----

  function TrimLeft(s: string): (r: string)
    ensures r != "" ==> !IsSpace(r[0])
    ensures |r| <= |s| && forall c <- r :: c in s
  {
    if s != "" && IsSpace(s[0]) then TrimLeft(s[1..]) else s
  }

  function TrimRight(s: string): (r: string)
    ensures |r| <= |s| && (r != "" ==> r[0] == s[0]) && forall c <- r :: c in s
  {
    if s != "" && IsSpace(s[|s| - 1]) then TrimRight(s[..|s| - 1]) else s
  }

  function TrimSpace(s: string): (r: string)
    ensures r != "" ==> !IsSpace(r[0])
    ensures forall c <- r :: c in s
    ensures s != "" && !IsSpace(s[0]) && !IsSpace(s[|s| - 1]) ==> r == s
  {
    TrimRight(TrimLeft(s))
  }

  /** The first position of c, or the length. */
  function IndexOf(s: string, c: char): (i: nat)
    ensures i <= |s| && c !in s[..i] && (i < |s| ==> s[i] == c)
  {
    if s == "" || s[0] == c then 0 else
      var i := 1 + IndexOf(s[1..], c);
      assert s[..i] == [s[0]] + s[1..][..i - 1];
      i
  }

  lemma IndexOfFirst(a: string, c: char, b: string)
    requires c !in a
    ensures IndexOf(a + [c] + b, c) == |a|
  {
    var s := a + [c] + b;
    var i := IndexOf(s, c);
    assert s[|a|] == c && forall j | 0 <= j < |a| :: s[j] == a[j];
    assert forall j | 0 <= j < i :: s[..i][j] == s[j];
  }

  // ----- lines -----

  function SplitLines(s: string): (lines: seq<string>)
    ensures lines != [] && forall l <- lines :: '\n' !in l
  {
    if s == "" then [""]
    else
      var rest := SplitLines(s[1..]);
      if s[0] == '\n' then [""] + rest else [[s[0]] + rest[0]] + rest[1..]
  }

  lemma {:induction false} SplitFirst(l: string, rest: string)
    requires '\n' !in l
    ensures SplitLines(l + "\n" + rest) == [l] + SplitLines(rest)
  {
    var s := l + "\n" + rest;
    if l == "" {
      assert s[1..] == rest;
    } else {
      assert s[1..] == l[1..] + "\n" + rest;
      SplitFirst(l[1..], rest);
      assert [l[0]] + l[1..] == l;
    }
  }

  /** Every line, newline-terminated. */
  function JoinLines(lines: seq<string>): string {
    if lines == [] then "" else lines[0] + "\n" + JoinLines(lines[1..])
  }

  lemma {:induction false} SplitJoin(lines: seq<string>)
    requires forall l <- lines :: '\n' !in l
    ensures SplitLines(JoinLines(lines)) == lines + [""]
  {
    if lines != [] {
      assert JoinLines(lines) == lines[0] + "\n" + JoinLines(lines[1..]);
      SplitFirst(lines[0], JoinLines(lines[1..]));
      SplitJoin(lines[1..]);
    }
  }

  // ----- fields -----

  /** The length of the word s begins with. */
  function WordLen(s: string): (n: nat)
    ensures n <= |s| && NoSpaces(s[..n]) && (n < |s| ==> IsSpace(s[n]))
  {
    if s == "" || IsSpace(s[0]) then 0 else 1 + WordLen(s[1..])
  }

  /** The white-space separated words. */
  function Fields(s: string): seq<string>
    decreases |s|
  {
    var t := TrimLeft(s);
    if t == "" then [] else [t[..WordLen(t)]] + Fields(t[WordLen(t)..])
  }

  lemma {:induction false} WordLenIs(w: string, rest: string)
    requires NoSpaces(w) && (rest != "" ==> IsSpace(rest[0]))
    ensures WordLen(w + rest) == |w|
  {
    if w == "" {
      assert w + rest == rest;
    } else {
      assert (w + rest)[1..] == w[1..] + rest;
      WordLenIs(w[1..], rest);
    }
  }

  function Indent(k: nat, body: string): (s: string)
    ensures forall c <- s :: c == ' ' || c in body
  {
    if k == 0 then body else " " + Indent(k - 1, body)
  }

  lemma IndentOne(body: string)
    ensures Indent(1, body) == " " + body
  {
    assert Indent(0, body) == body;
  }

  lemma TrimOne(s: string)
    ensures TrimLeft(" " + s) == TrimLeft(s)
  {
    assert (" " + s)[1..] == s;
  }

  lemma {:induction false} TrimIndent(k: nat, body: string)
    requires body == "" || !IsSpace(body[0])
    ensures TrimLeft(Indent(k, body)) == body
  {
    if k != 0 {
      TrimOne(Indent(k - 1, body));
      TrimIndent(k - 1, body);
    }
  }

  /** A word in front, after any indentation and before a space, is the first field. */
  lemma FieldsFirst(k: nat, w: string, rest: string)
    requires w != "" && NoSpaces(w) && (rest != "" ==> IsSpace(rest[0]))
    ensures Fields(Indent(k, w + rest)) == [w] + Fields(rest)
  {
    TrimIndent(k, w + rest);
    WordLenIs(w, rest);
    assert (w + rest)[..|w|] == w && (w + rest)[|w|..] == rest;
  }

  /** The same for a word after one space. */
  lemma FieldsNext(w: string, rest: string)
    requires w != "" && NoSpaces(w) && (rest != "" ==> IsSpace(rest[0]))
    ensures Fields(" " + (w + rest)) == [w] + Fields(rest)
  {
    IndentOne(w + rest);
    FieldsFirst(1, w, rest);
  }

  lemma FieldsLast(w: string)
    requires w != "" && NoSpaces(w)
    ensures Fields(" " + w) == [w]
  {
    assert w + "" == w;
    FieldsNext(w, "");
  }
}
