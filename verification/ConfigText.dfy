/** Config lines as the minor scan reads them: which lines yield a minor. */
module ConfigText {
  import opened BarrierTypes
  import opened Sequences
  import opened Text

  /** An indented line: its first word and what follows, space separated. */
  datatype ConfigLine = ConfigLine(indent: nat, word: string, args: seq<string>)

  function Args(args: seq<string>): string {
    if args == [] then "" else " " + args[0] + Args(args[1..])
  }

  function TextOf(l: ConfigLine): string {
    Indent(l.indent, l.word + Args(l.args))
  }

  function TextsOf(lines: seq<ConfigLine>): (ts: seq<string>)
    ensures |ts| == |lines| && forall i | 0 <= i < |ts| :: ts[i] == TextOf(lines[i])
  {
    if lines == [] then [] else [TextOf(lines[0])] + TextsOf(lines[1..])
  }

  // ----- the scan -----

  function TrimSemicolon(s: string): string {
    if s != "" && s[|s| - 1] == ';' then s[..|s| - 1] else s
  }

  function MinorOfFields(f: seq<string>): seq<int> {
    if |f| >= 3 && f[0] == "device" && f[|f| - 2] == "minor" then
      match Atoi(TrimSemicolon(f[|f| - 1]))
      case None => []
      case Some(n) => [Int32(n)]
    else []
  }

  function MinorOfLine(line: string): seq<int> {
    MinorOfFields(Fields(line))
  }

  function MinorsInText(text: string): seq<int> {
    FlatMap(SplitLines(text), MinorOfLine)
  }

  method MinorsInRes(text: string) returns (minors: seq<int>)
    ensures minors == MinorsInText(text)
  {
    minors := Collect(SplitLines(text), MinorOfLine);
  }

  // ----- single lines -----

  /** A word no device line starts with. */
  predicate OtherWord(w: string) {
    |w| > 1 && !IsSpace(w[0]) && !IsSpace(w[1]) && !(w[0] == 'd' && w[1] == 'e') && '\n' !in w
  }

  ghost predicate Ordinary(l: ConfigLine) {
    (OtherWord(l.word) || l.word == "}" || l.word == "#") && forall a <- l.args :: '\n' !in a
  }

  lemma FirstField(k: nat, body: string)
    requires body != "" && !IsSpace(body[0])
    ensures Fields(Indent(k, body)) == [body[..WordLen(body)]] + Fields(body[WordLen(body)..]) && WordLen(body) > 0
  {
    TrimIndent(k, body);
  }

  lemma OrdinaryHasNone(l: ConfigLine)
    requires Ordinary(l)
    ensures MinorOfLine(TextOf(l)) == []
  {
    OtherBody(l.indent, l.word, Args(l.args));
  }

  lemma OtherBody(k: nat, word: string, args: string)
    requires OtherWord(word) || word == "}" || word == "#"
    ensures MinorOfLine(Indent(k, word + args)) == []
  {
    var body := word + args;
    assert body[0] == word[0] && (|word| > 1 ==> body[1] == word[1]);
    FirstField(k, body);
    NotDevice(body, WordLen(body));
    OtherFields(Fields(Indent(k, body)));
  }

  lemma OtherFields(f: seq<string>)
    requires f == [] || f[0] != "device"
    ensures MinorOfFields(f) == []
  {
  }

  lemma NotDevice(body: string, n: nat)
    requires 0 < n <= |body| && (body[0] != 'd' || (|body| > 1 && body[1] != 'e'))
    ensures body[..n] != "device"
  {
    assert body[..n][0] == body[0];
    if n > 1 {
      assert body[..n][1] == body[1];
    }
  }

  function DeviceLine(minor: int): ConfigLine {
    ConfigLine(12, "device", ["minor", Format(minor) + ";"])
  }

  lemma DeviceText(x: string)
    ensures Args(["minor", x]) == " " + ("minor" + (" " + x))
  {
    assert Args(["minor", x]) == " " + "minor" + Args([x]);
    assert Args([x]) == " " + x + Args([]);
  }

  lemma LastTwoFields(x: string)
    requires x != "" && NoSpaces(x)
    ensures Fields(" " + ("minor" + (" " + x))) == ["minor", x]
  {
    FieldsNext("minor", " " + x);
    FieldsLast(x);
  }

  lemma DeviceFields(x: string)
    requires x != "" && NoSpaces(x)
    ensures Fields(TextOf(ConfigLine(12, "device", ["minor", x]))) == ["device", "minor", x]
  {
    var args := " " + ("minor" + (" " + x));
    DeviceText(x);
    FieldsFirst(12, "device", args);
    LastTwoFields(x);
  }

  lemma MinorOfThree(x: string, v: int)
    requires -0x8000_0000 <= v < 0x8000_0000 && x == Format(v) + ";"
    ensures MinorOfFields(["device", "minor", x]) == [v]
  {
    assert TrimSemicolon(x) == Format(v);
    AtoiFormat(v);
  }

  lemma DeviceLineRead(minor: int)
    requires -0x8000_0000 <= minor < 0x8000_0000
    ensures MinorOfLine(TextOf(DeviceLine(minor))) == [minor]
  {
    var x := Format(minor) + ";";
    assert NoSpaces(x);
    DeviceFields(x);
    MinorOfThree(x, minor);
  }

  // ----- whole files -----

  ghost predicate AllOrdinary(lines: seq<ConfigLine>) {
    forall l <- lines :: Ordinary(l)
  }

  /** Every line is an ordinary one or the device line of the given minor. */
  ghost predicate OneMinor(lines: seq<ConfigLine>, minor: int) {
    forall l <- lines :: Ordinary(l) || l == DeviceLine(minor)
  }

  lemma {:induction false} ArgsWhole(args: seq<string>)
    requires forall a <- args :: '\n' !in a
    ensures '\n' !in Args(args)
  {
    if args != [] {
      ArgsWhole(args[1..]);
    }
  }

  lemma FormatWhole(v: int)
    ensures '\n' !in Format(v)
  {
    var s := Format(v);
    forall i | 0 <= i < |s| ensures s[i] != '\n' {
      assert !IsSpace(s[i]);
    }
  }

  lemma LineWhole(l: ConfigLine, minor: int)
    requires Ordinary(l) || l == DeviceLine(minor)
    ensures '\n' !in TextOf(l)
  {
    FormatWhole(minor);
    ArgsWhole(l.args);
  }

  function MinorsOf(lines: seq<ConfigLine>): seq<int> {
    FlatMap(lines, MinorOfConfigLine)
  }

  function MinorOfConfigLine(l: ConfigLine): seq<int> {
    MinorOfLine(TextOf(l))
  }

  lemma MinorsOfTexts(lines: seq<ConfigLine>)
    ensures FlatMap(TextsOf(lines), MinorOfLine) == MinorsOf(lines)
  {
    FlatSame(TextsOf(lines), lines, MinorOfLine, MinorOfConfigLine);
  }

  lemma NoFields()
    ensures MinorOfLine("") == []
  {
    assert Fields("") == [];
  }

  lemma OrdinaryMinors(lines: seq<ConfigLine>)
    requires AllOrdinary(lines)
    ensures MinorsOf(lines) == []
  {
    forall l | l in lines ensures MinorOfConfigLine(l) == [] {
      OrdinaryHasNone(l);
    }
    FlatNone(lines, MinorOfConfigLine);
  }

  /** Ordinary lines around a device line leave its minor. */
  lemma Framed(before: seq<ConfigLine>, minor: int, next: seq<ConfigLine>)
    requires AllOrdinary(before) && AllOrdinary(next) && -0x8000_0000 <= minor < 0x8000_0000
    ensures MinorsOf(before + [DeviceLine(minor)] + next) == [minor]
  {
    var device := DeviceLine(minor);
    FlatConcat(before + [device], next, MinorOfConfigLine);
    FlatSnoc(before, device, MinorOfConfigLine);
    OrdinaryMinors(before);
    OrdinaryMinors(next);
    DeviceLineRead(minor);
  }

  /** Reading a file back line by line. */
  lemma ReadBack(lines: seq<ConfigLine>, minor: int)
    requires OneMinor(lines, minor)
    ensures MinorsInText(JoinLines(TextsOf(lines))) == MinorsOf(lines)
  {
    forall i | 0 <= i < |lines| ensures '\n' !in TextOf(lines[i]) {
      LineWhole(lines[i], minor);
    }
    SplitJoin(TextsOf(lines));
    FlatSnoc(TextsOf(lines), "", MinorOfLine);
    NoFields();
    MinorsOfTexts(lines);
  }
}
