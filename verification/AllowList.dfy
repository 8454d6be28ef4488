/** The allow-list format: ParseAllowList of gate.go, line by line. `id` is CodeID, any function here. */
module AllowList {
  import opened Text
  import opened Token

  type CodeIds = string -> string

  /** What one line of the file says. */
  datatype Meaning = Blank | Listed(e: Entry) | Malformed

  /** The line without comment and outer white space. */
  function Body(line: string): string {
    Trim(Before(Trim(line), '#'))
  }

  predicate IsHex(s: string) {
    forall c <- s :: IsHexDigit(c)
  }

  function MeaningOf(line: string): Meaning {
    var f := Fields(Body(line));
    if Body(line) == "" then Blank
    else if |f| < 2 || |f[0]| != 32 || !IsHex(f[0]) then Malformed
    else Listed(Entry(f[0], Upper(f[1]), Join(f[2..], ' ')))
  }

  /** The entries of a file; a later line replaces an earlier one, a malformed line spoils the file. */
  function ParseLines(lines: seq<string>, id: CodeIds): Option<Entries> {
    if lines == [] then Some(map[])
    else
      match ParseLines(lines[..|lines| - 1], id)
      case None => None
      case Some(m) =>
        match MeaningOf(lines[|lines| - 1])
        case Blank => Some(m)
        case Malformed => None
        case Listed(e) => Some(m[id(e.code) := e])
  }

  /** The lines a scanner yields: an empty last piece is not a line. (A trailing return is white space.) */
  function ScanLines(text: string): seq<string> {
    var parts := Split(text, '\n');
    if parts[|parts| - 1] == "" then parts[..|parts| - 1] else parts
  }

  function GateParse(text: string, id: CodeIds): Option<Entries> {
    ParseLines(ScanLines(text), id)
  }

  lemma {:induction false} SpoiledStays(lines: seq<string>, n: nat, id: CodeIds)
    requires n <= |lines| && ParseLines(lines[..n], id) == None
    ensures ParseLines(lines, id) == None
  {
    if n == |lines| {
      assert lines[..n] == lines;
    } else {
      assert lines[..|lines| - 1][..n] == lines[..n];
      SpoiledStays(lines[..|lines| - 1], n, id);
    }
  }

  /** A line without a comment is not cut, nor trimmed twice. */
  lemma BodyCut(raw: string)
    ensures var line := Trim(raw);
            var i := IndexOf(line, '#');
            Body(raw) == if i < |line| then Trim(line[..i]) else line
  {
    hide IndexOf, Trim;
    TrimResult(raw);
    TrimFixpoint(Trim(raw));
    assert Trim(raw)[..|Trim(raw)|] == Trim(raw);
  }

  method ParseAllowList(text: string, id: CodeIds) returns (out: Option<Entries>)
    ensures out == GateParse(text, id)
  {
    hide Body, IsHex, Fields, Trim, IndexOf, Upper, Join, ScanLines;
    var lines := ScanLines(text);
    var m: Entries := map[];
    for n := 0 to |lines|
      invariant ParseLines(lines[..n], id) == Some(m)
    {
      assert lines[..n + 1][..n] == lines[..n];
      BodyCut(lines[n]);
      var line := Trim(lines[n]);
      var i := IndexOf(line, '#');
      if i < |line| { line := Trim(line[..i]); }
      if line == "" { continue; }
      var f := Fields(line);
      if |f| < 2 || |f[0]| != 32 || !IsHex(f[0]) {
        SpoiledStays(lines, n + 1, id);
        return None;
      }
      m := m[id(f[0]) := Entry(f[0], Upper(f[1]), Join(f[2..], ' '))];
    }
    assert lines[..|lines|] == lines;
    return Some(m);
  }

  // ---- lines and files ----

  lemma ParseMore(lines: seq<string>, line: string, id: CodeIds)
    ensures ParseLines(lines + [line], id)
         == match ParseLines(lines, id)
            case None => None
            case Some(m) =>
              match MeaningOf(line) case Blank => Some(m) case Malformed => None case Listed(e) => Some(m[id(e.code) := e])
  {
    assert (lines + [line])[..|lines|] == lines;
  }

  /** An empty last line changes nothing, so scanned lines mean what the split pieces mean. */
  lemma ScanIsSplit(text: string, id: CodeIds)
    ensures GateParse(text, id) == ParseLines(Split(text, '\n'), id)
  {
    hide ParseLines, Split;
    var parts := Split(text, '\n');
    if parts[|parts| - 1] == "" {
      ParseMore(parts[..|parts| - 1], "", id);
      assert parts == parts[..|parts| - 1] + [""];
      assert MeaningOf("") == Blank;
    }
  }

  /** Lines written with a newline after each are scanned back unchanged. */
  lemma ScanWritten(lines: seq<string>)
    requires lines != [] && forall l <- lines :: '\n' !in l
    ensures ScanLines(Join(lines, '\n') + "\n") == lines
  {
    SplitConcat(Join(lines, '\n'), "", '\n');
    assert Join(lines, '\n') + ['\n'] + "" == Join(lines, '\n') + "\n";
    SplitJoin(lines, '\n');
    SplitWhole("", '\n');
  }

  // ---- what a file says ----

  /** The fields of a line before any comment. */
  function Words(line: string): seq<string> {
    Fields(Before(line, '#'))
  }

  /** A line with an entry: at least two fields, of which the first is 32 hexadecimal digits. */
  predicate HasEntry(line: string) {
    var f := Words(line);
    |f| >= 2 && |f[0]| == 32 && forall c <- f[0] :: '0' <= c <= '9' || 'a' <= c <= 'f' || 'A' <= c <= 'F'
  }

  /** Code, fingerprint in upper case, and the rest as a note. */
  function EntryOn(line: string): Entry
    requires HasEntry(line)
  {
    var f := Words(line);
    Entry(f[0], Upper(f[1]), Join(f[2..], ' '))
  }

  /** A line that is neither empty, nor a comment, nor an entry. */
  predicate Bad(line: string) {
    Words(line) != [] && !HasEntry(line)
  }

  lemma {:induction false} WordsTrimLeft(s: string)
    ensures Words(TrimLeft(s)) == Words(s)
  {
    if s != "" && IsSpace(s[0]) {
      WordsTrimLeft(s[1..]);
      assert Before(s, '#') == [s[0]] + Before(s[1..], '#');
      assert Before(s, '#')[1..] == Before(s[1..], '#');
    }
  }

  lemma {:induction false} WordsTrimRight(s: string)
    ensures Words(TrimRight(s)) == Words(s)
  {
    hide Fields;
    if s != "" && IsSpace(s[|s| - 1]) {
      var front, c := s[..|s| - 1], s[|s| - 1];
      WordsTrimRight(front);
      FieldsSpace(Before(front, '#'), c);
      var i, j := IndexOf(s, '#'), IndexOf(front, '#');
      assert s == front + [c];
      assert i == if j < |front| then j else |s|;
      assert s[..i] == if j < |front| then front[..j] else front[..j] + [c];
    }
  }

  lemma BodyWords(line: string)
    ensures Fields(Body(line)) == Words(line) && (Body(line) == "" <==> Words(line) == [])
  {
    FieldsTrim(Before(Trim(line), '#'));
    WordsTrimLeft(line);
    WordsTrimRight(TrimLeft(line));
  }

  lemma LineMeans(line: string)
    ensures MeaningOf(line).Malformed? <==> Bad(line)
    ensures MeaningOf(line).Listed? <==> HasEntry(line)
    ensures HasEntry(line) ==> MeaningOf(line).e == EntryOn(line)
  {
    BodyWords(line);
    hide Body, Words, Upper, Join;
  }

  lemma {:induction false} LinesFailIff(lines: seq<string>, id: CodeIds)
    ensures ParseLines(lines, id) == None <==> exists l <- lines :: Bad(l)
  {
    hide MeaningOf, Bad;
    if lines != [] {
      var before, l := lines[..|lines| - 1], lines[|lines| - 1];
      assert lines == before + [l];
      LinesFailIff(before, id);
      LineMeans(l);
    }
  }

  /** A file does not parse exactly when some line is bad. */
  lemma ParseFailsIff(text: string, id: CodeIds)
    ensures GateParse(text, id) == None <==> exists l <- Split(text, '\n') :: Bad(l)
  {
    ScanIsSplit(text, id);
    LinesFailIff(Split(text, '\n'), id);
  }

  /** Line `i` has an entry under `k`, and no later line has one. */
  predicate LastWith(lines: seq<string>, i: nat, k: string, id: CodeIds) {
    && i < |lines| && HasEntry(lines[i]) && id(EntryOn(lines[i]).code) == k
    && forall j | i < j < |lines| && HasEntry(lines[j]) :: id(EntryOn(lines[j]).code) != k
  }

  lemma {:induction false} LinesGive(lines: seq<string>, id: CodeIds)
    requires ParseLines(lines, id).Some?
    ensures var m := ParseLines(lines, id).value;
            && (forall k <- m :: exists i: nat | i < |lines| :: LastWith(lines, i, k, id))
            && forall i: nat, k: string | LastWith(lines, i, k, id) ::
                 k in m && m[k] == EntryOn(lines[i])
  {
    hide MeaningOf, Words, HasEntry, EntryOn;
    if lines != [] {
      var n := |lines| - 1;
      var before, l := lines[..n], lines[n];
      LinesGive(before, id);
      LineMeans(l);
      var m, was := ParseLines(lines, id).value, ParseLines(before, id).value;
      forall k <- m ensures exists i: nat | i < |lines| :: LastWith(lines, i, k, id) {
        if HasEntry(l) && id(EntryOn(l).code) == k {
          assert LastWith(lines, n, k, id);
        } else {
          var i: nat :| i < n && LastWith(before, i, k, id);
          assert LastWith(lines, i, k, id);
        }
      }
      forall i: nat, k: string | LastWith(lines, i, k, id)
        ensures k in m && m[k] == EntryOn(lines[i])
      {
        if i < n { assert LastWith(before, i, k, id); }
      }
    }
  }

  /** A file that parses lists, under each id, exactly the entry of the last line that has one for it. */
  lemma ParseGives(text: string, id: CodeIds)
    requires GateParse(text, id).Some?
    ensures var lines, m := Split(text, '\n'), GateParse(text, id).value;
            && (forall k <- m :: exists i: nat | i < |lines| :: LastWith(lines, i, k, id))
            && forall i: nat, k: string | LastWith(lines, i, k, id) ::
                 k in m && m[k] == EntryOn(lines[i])
  {
    ScanIsSplit(text, id);
    LinesGive(Split(text, '\n'), id);
  }

  // ---- printing an entry ----

  predicate PlainWord(w: string) {
    Word(w) && '#' !in w
  }

  /** An entry as some line of a file can carry it. */
  ghost predicate WellFormed(e: Entry) {
    && |e.code| == 32 && IsHex(e.code)
    && PlainWord(e.creatorFp) && Upper(e.creatorFp) == e.creatorFp
    && exists ws: seq<string> :: (forall w <- ws :: PlainWord(w)) && e.note == Join(ws, ' ')
  }

  lemma UpperWord(w: string)
    requires PlainWord(w)
    ensures PlainWord(Upper(w)) && Upper(Upper(w)) == Upper(w)
  {
    var u := Upper(w);
    forall c <- u ensures !IsSpace(c) && c != '#' {
      var i :| 0 <= i < |u| && u[i] == c;
      assert w[i] in w;
    }
    assert w[0] in w;
  }

  lemma ListedIsWellFormed(line: string)
    requires MeaningOf(line).Listed?
    ensures WellFormed(MeaningOf(line).e)
  {
    hide IsHex, Upper;
    var f := Fields(Body(line));
    TrimChars(Before(Trim(line), '#'), '#');
    FieldsChars(Body(line), '#');
    assert f[0] in f && f[1] in f;
    UpperWord(f[1]);
    assert forall w <- f[2..] :: w in f;
  }

  function Print(e: Entry): string {
    e.code + " " + e.creatorFp + if e.note == "" then "" else " " + e.note
  }

  lemma {:induction false} JoinEmpty(ws: seq<string>)
    requires forall w <- ws :: Word(w)
    ensures Join(ws, ' ') == "" <==> ws == []
  {
    if ws != [] { JoinWords(ws); }
  }

  lemma PrintIsJoin(e: Entry, ws: seq<string>)
    requires (forall w <- ws :: Word(w)) && e.note == Join(ws, ' ')
    ensures Print(e) == Join([e.code, e.creatorFp] + ws, ' ')
  {
    JoinEmpty(ws);
    var all := [e.code, e.creatorFp] + ws;
    assert all[1..] == [e.creatorFp] + ws && all[1..][1..] == ws;
    assert Join(all, ' ') == e.code + " " + Join(all[1..], ' ');
    if ws == [] {
      assert Join(all[1..], ' ') == e.creatorFp;
    } else {
      assert Join(all[1..], ' ') == e.creatorFp + " " + Join(ws, ' ');
    }
  }

  lemma HexWord(s: string)
    requires |s| == 32 && IsHex(s)
    ensures PlainWord(s)
  {
  }

  /** A line of plain words is its own body. */
  lemma WordsBody(ws: seq<string>)
    requires ws != [] && forall w <- ws :: PlainWord(w)
    ensures var line := Join(ws, ' ');
            Body(line) == line != "" && Fields(line) == ws && '\n' !in line
  {
    hide Fields, Trim, Before, IndexOf;
    var line := Join(ws, ' ');
    JoinWords(ws);
    FieldsJoin(ws);
    NoNewline(ws);
    TrimFixpoint(line);
    BeforeWhole(line, '#');
  }

  /** The printed line is one line and is read back as the same entry. */
  lemma PrintRoundTrip(e: Entry)
    requires WellFormed(e)
    ensures MeaningOf(Print(e)) == Listed(e) && '\n' !in Print(e)
  {
    hide IsHex, Upper, Fields, Body, Join, Print;
    var ws :| (forall w <- ws :: PlainWord(w)) && e.note == Join(ws, ' ');
    HexWord(e.code);
    PrintIsJoin(e, ws);
    var all := [e.code, e.creatorFp] + ws;
    assert forall w <- all :: PlainWord(w);
    WordsBody(all);
    assert all[2..] == ws;
  }

  lemma {:induction false} NoNewline(ws: seq<string>)
    requires forall w <- ws :: Word(w)
    ensures '\n' !in Join(ws, ' ')
  {
    if ws != [] {
      assert IsSpace('\n') && Word(ws[0]);
      NoNewline(ws[1..]);
    }
  }
}
