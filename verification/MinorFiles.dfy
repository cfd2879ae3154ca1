/** The text of minor.assign, which maps volume names to minors one to a line. */
module MinorFiles {
  import opened BarrierTypes
  import opened Sequences
  import opened Text

  datatype Assignment = Assignment(name: string, minor: int)

  predicate Fits32(v: int) {
    -0x8000_0000 <= v < 0x8000_0000
  }

  function AssignmentLine(a: Assignment): string {
    a.name + " " + Format(a.minor)
  }

  /** The file, in whatever order the map is walked. */
  function WriteAssignments(entries: seq<Assignment>): string {
    if entries == [] then "" else AssignmentLine(entries[0]) + "\n" + WriteAssignments(entries[1..])
  }

  function ParseLine(line: string): Option<Assignment> {
    var l := TrimSpace(line);
    var i := IndexOf(l, ' ');
    if l == "" || i == |l| then None
    else
      match Atoi(l[i + 1..])
      case None => None
      case Some(v) => Some(Assignment(l[..i], Int32(v)))
  }

  function LineEntry(line: string): map<string, int> {
    var a := ParseLine(line);
    if a.Some? then map[a.value.name := a.value.minor] else map[]
  }

  /** Later lines win; lines that do not parse are skipped. */
  function ReadText(text: string): map<string, int> {
    MergeAll(SplitLines(text), LineEntry)
  }

  method ReadAssignments(text: string) returns (m: map<string, int>)
    ensures m == ReadText(text)
  {
    m := Merge(SplitLines(text), LineEntry);
  }

  /** A name the file format can carry. */
  predicate Clean(name: string) {
    name != "" && ' ' !in name && '\n' !in name && !IsSpace(name[0])
  }

  /** A name read back is always clean: the format cannot produce another. */
  lemma ReadNamesClean(text: string, name: string)
    requires name in ReadText(text)
    ensures Clean(name)
  {
    var line := MergeKey(SplitLines(text), LineEntry, name);
    ParsedNameClean(line);
  }

  lemma ParsedNameClean(line: string)
    requires '\n' !in line && ParseLine(line).Some?
    ensures Clean(ParseLine(line).value.name)
  {
    var l := TrimSpace(line);
    var i := IndexOf(l, ' ');
    assert l[0] != ' ' && i > 0;
    assert forall c <- l[..i] :: c in l;
  }

  lemma ParseWritten(a: Assignment)
    requires Clean(a.name) && Fits32(a.minor)
    ensures ParseLine(AssignmentLine(a)) == Some(a)
  {
    var l, digits := AssignmentLine(a), Format(a.minor);
    assert l[0] == a.name[0] && l[|l| - 1] == digits[|digits| - 1];
    assert TrimSpace(l) == l;
    IndexOfFirst(a.name, ' ', digits);
    assert l[|a.name| + 1..] == digits && l[..|a.name|] == a.name;
    AtoiFormat(a.minor);
  }

  function AsMap(entries: seq<Assignment>): map<string, int> {
    if entries == [] then map[] else map[entries[0].name := entries[0].minor] + AsMap(entries[1..])
  }

  /** Reading back written assignments is the identity on clean names. */
  lemma {:induction false} ReadWritten(entries: seq<Assignment>)
    requires forall a <- entries :: Clean(a.name) && Fits32(a.minor)
    ensures ReadText(WriteAssignments(entries)) == AsMap(entries)
  {
    if entries == [] {
      NothingWritten();
    } else {
      var a, rest := entries[0], WriteAssignments(entries[1..]);
      LineHasNoNewline(a);
      SplitFirst(AssignmentLine(a), rest);
      ReadWritten(entries[1..]);
      ParseWritten(a);
      MergeCons(AssignmentLine(a), SplitLines(rest), LineEntry);
    }
  }

  lemma NothingWritten()
    ensures ReadText("") == map[]
  {
    assert ParseLine("") == None;
    MergeSnoc([], "", LineEntry);
    assert [""] == [] + [""];
  }

  lemma LineHasNoNewline(a: Assignment)
    requires '\n' !in a.name
    ensures '\n' !in AssignmentLine(a)
  {
    var digits := Format(a.minor);
    forall c | c in digits ensures c != '\n' {
      var i :| 0 <= i < |digits| && digits[i] == c;
      assert !IsSpace(digits[i]);
    }
  }

  lemma {:induction false} AsMapNames(entries: seq<Assignment>, a: Assignment)
    requires a in entries
    ensures a.name in AsMap(entries)
  {
    if a != entries[0] {
      AsMapNames(entries[1..], a);
    }
  }

  /** The round trip holds exactly for the names the format can carry. */
  lemma RoundTripExactly(entries: seq<Assignment>)
    requires forall a <- entries :: Fits32(a.minor)
    ensures ReadText(WriteAssignments(entries)) == AsMap(entries) <==> forall a <- entries :: Clean(a.name)
  {
    if forall a <- entries :: Clean(a.name) {
      ReadWritten(entries);
    } else {
      var a :| a in entries && !Clean(a.name);
      AsMapNames(entries, a);
      if a.name in ReadText(WriteAssignments(entries)) {
        ReadNamesClean(WriteAssignments(entries), a.name);
      }
    }
  }
}
