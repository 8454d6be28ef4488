/** The operator's allow-list editor: AddLock, RevokeLock and Locks of oversee.go against the gate's parser. */
module Editor {
  import opened Text
  import opened Token
  import opened AllowList

  // ---- reading and writing the file ----

  function StripNewlines(s: string): string {
    if s != "" && s[|s| - 1] == '\n' then StripNewlines(s[..|s| - 1]) else s
  }

  /** readLines; a missing file is the empty text. */
  function ReadLines(text: string): seq<string> {
    var s := StripNewlines(text);
    if s == "" then [] else Split(s, '\n')
  }

  lemma ReadLinesPlain(text: string)
    ensures forall l <- ReadLines(text) :: '\n' !in l
  {
    SplitParts(StripNewlines(text), '\n');
  }

  lemma {:induction false} StripParse(text: string, id: CodeIds)
    ensures ParseLines(Split(StripNewlines(text), '\n'), id) == ParseLines(Split(text, '\n'), id)
  {
    hide ParseLines, Split;
    if text != "" && text[|text| - 1] == '\n' {
      var t := text[..|text| - 1];
      StripParse(t, id);
      assert text == t + ['\n'] + "";
      SplitConcat(t, "", '\n');
      SplitWhole("", '\n');
      ParseMore(Split(t, '\n'), "", id);
      assert MeaningOf("") == Blank;
    }
  }

  /** The editor's lines mean what the gate reads from the same text. */
  lemma ReadLinesParse(text: string, id: CodeIds)
    ensures ParseLines(ReadLines(text), id) == GateParse(text, id)
  {
    ScanIsSplit(text, id);
    StripParse(text, id);
    if StripNewlines(text) == "" {
      assert Split("", '\n') == [] + [""];
      ParseMore([], "", id);
      assert MeaningOf("") == Blank;
    }
  }

  // ---- one line ----

  /** parseLine: the only entry of a text that parses to exactly one. */
  function ParseLine(l: string, id: CodeIds): Option<Entry> {
    match GateParse(l, id)
    case None => None
    case Some(m) => if |m| == 1 then Some(Only(m)) else None
  }

  lemma OneKey(m: Entries, a: string, b: string)
    requires |m| == 1 && a in m && b in m
    ensures a == b
  {
    var rest := m.Keys - {a};
    assert |rest| == 0 && b !in rest;
  }

  function Only(m: Entries): (e: Entry)
    requires |m| == 1
    ensures forall k <- m :: m[k] == e
  {
    assert m.Keys != {};
    assert forall a, b | a in m && b in m :: a == b by {
      forall a, b | a in m && b in m ensures a == b { OneKey(m, a, b); }
    }
    var k :| k in m;
    m[k]
  }

  /** On a single line parseLine sees an entry exactly when the gate does. */
  lemma ParseLineMeaning(l: string, id: CodeIds)
    requires '\n' !in l
    ensures ParseLine(l, id) == match MeaningOf(l) case Listed(e) => Some(e) case _ => None
  {
    hide MeaningOf, Split;
    SplitWhole(l, '\n');
    ScanIsSplit(l, id);
    assert ParseLines([], id) == Some(map[]);
    ParseMore([], l, id);
    assert [] + [l] == [l];
    if MeaningOf(l).Listed? {
      var e := MeaningOf(l).e;
      assert GateParse(l, id) == Some(map[id(e.code) := e]);
      assert map[id(e.code) := e].Keys == {id(e.code)};
    }
  }

  /** Every entry parseLine returns, even from a text of several lines, comes from a listed line. */
  lemma {:induction false} ParsedEntries(lines: seq<string>, id: CodeIds)
    requires ParseLines(lines, id).Some?
    ensures forall k <- ParseLines(lines, id).value ::
              var e := ParseLines(lines, id).value[k]; WellFormed(e) && id(e.code) == k
  {
    hide MeaningOf, WellFormed;
    if lines != [] {
      var l := lines[|lines| - 1];
      ParsedEntries(lines[..|lines| - 1], id);
      if MeaningOf(l).Listed? { ListedIsWellFormed(l); }
    }
  }

  lemma ParseLineWellFormed(l: string, id: CodeIds)
    requires ParseLine(l, id).Some?
    ensures WellFormed(ParseLine(l, id).value)
  {
    hide WellFormed, MeaningOf;
    ParsedEntries(ScanLines(l), id);
    var m := GateParse(l, id).value;
    var k :| k in m;
    assert m[k] == Only(m);
  }

  // ---- AddLock ----

  predicate HasId(l: string, k: string, id: CodeIds) {
    ParseLine(l, id).Some? && id(ParseLine(l, id).value.code) == k
  }

  function Without(lines: seq<string>, k: string, id: CodeIds): seq<string> {
    if lines == [] then []
    else
      Without(lines[..|lines| - 1], k, id)
      + if HasId(lines[|lines| - 1], k, id) then [] else [lines[|lines| - 1]]
  }

  /** The file with the lines of an entry's id replaced by that entry, at the end. */
  function WithLock(text: string, e: Entry, id: CodeIds): string {
    Join(Without(ReadLines(text), id(e.code), id) + [Print(e)], '\n') + "\n"
  }

  /** Some((new text, entry)), or None when the line is refused and nothing is written. */
  method AddLock(text: string, line: string, id: CodeIds) returns (r: Option<(string, Entry)>)
    ensures r == match ParseLine(Trim(line), id)
                 case None => None
                 case Some(e) => Some((WithLock(text, e, id), e))
  {
    hide ParseLine, ReadLines, Join, Trim;
    var parsed := ParseLine(Trim(line), id);
    if parsed == None { return None; }
    var e := parsed.value;
    var lines := ReadLines(text);
    var kept := [];
    for i := 0 to |lines|
      invariant kept == Without(lines[..i], id(e.code), id)
    {
      assert lines[..i + 1][..i] == lines[..i];
      var x := ParseLine(lines[i], id);
      if x.Some? && id(x.value.code) == id(e.code) { continue; }
      kept := kept + [lines[i]];
    }
    assert lines[..|lines|] == lines;
    kept := kept + [e.code + " " + e.creatorFp + if e.note == "" then "" else " " + e.note];
    return Some((Join(kept, '\n') + "\n", e));
  }

  lemma WithoutMore(lines: seq<string>, l: string, k: string, id: CodeIds)
    ensures Without([], k, id) == []
    ensures Without(lines + [l], k, id) == Without(lines, k, id) + if HasId(l, k, id) then [] else [l]
  {
    hide HasId;
    assert (lines + [l])[..|lines|] == lines;
  }

  lemma {:induction false} WithoutPlain(lines: seq<string>, k: string, id: CodeIds)
    requires forall l <- lines :: '\n' !in l
    ensures forall l <- Without(lines, k, id) :: '\n' !in l
  {
    hide HasId;
    if lines != [] {
      assert lines[|lines| - 1] in lines && forall l <- lines[..|lines| - 1] :: l in lines;
      WithoutPlain(lines[..|lines| - 1], k, id);
    }
  }

  lemma SetAndRemove(m: Entries, i: string, e: Entry, k: string)
    ensures m[i := e] - {k} == if i == k then m - {k} else (m - {k})[i := e]
  {
  }

  /** A line more, for the whole file and for the lines that are kept of it. */
  lemma ParseKept(before: seq<string>, kept: seq<string>, l: string, k: string, id: CodeIds)
    requires '\n' !in l && ParseLines(before + [l], id).Some?
    requires ParseLines(before, id).Some? ==> ParseLines(kept, id) == Some(ParseLines(before, id).value - {k})
    ensures ParseLines(if HasId(l, k, id) then kept else kept + [l], id) == Some(ParseLines(before + [l], id).value - {k})
  {
    hide MeaningOf, ParseLines, ParseLine;
    ParseLineMeaning(l, id);
    ParseMore(before, l, id);
    ParseMore(kept, l, id);
    if MeaningOf(l).Listed? {
      var e := MeaningOf(l).e;
      SetAndRemove(ParseLines(before, id).value, id(e.code), e, k);
    }
  }

  lemma {:induction false} WithoutParse(lines: seq<string>, k: string, id: CodeIds)
    requires forall l <- lines :: '\n' !in l
    ensures ParseLines(lines, id).Some? ==>
              ParseLines(Without(lines, k, id), id) == Some(ParseLines(lines, id).value - {k})
  {
    hide HasId, Without, ParseLines;
    if lines == [] {
      NothingParsed(k, id);
    } else if ParseLines(lines, id).Some? {
      var before, l := lines[..|lines| - 1], lines[|lines| - 1];
      assert l in lines && forall x <- before :: x in lines;
      WithoutParse(before, k, id);
      WithoutMore(before, l, k, id);
      assert before + [l] == lines;
      ParseKept(before, Without(before, k, id), l, k, id);
      assert Without(before, k, id) + [] == Without(before, k, id);
    }
  }

  lemma NothingParsed(k: string, id: CodeIds)
    ensures var none: Entries := map[]; Without([], k, id) == [] && ParseLines([], id) == Some(none) && none - {k} == none
  {
    hide MeaningOf;
  }

  lemma {:induction false} WithoutConcat(a: seq<string>, b: seq<string>, k: string, id: CodeIds)
    ensures Without(a + b, k, id) == Without(a, k, id) + Without(b, k, id)
  {
    hide HasId, Without;
    if b == [] {
      assert a + b == a;
      WithoutMore(b, "", k, id);
    } else {
      var before, l := b[..|b| - 1], b[|b| - 1];
      WithoutConcat(a, before, k, id);
      WithoutMore(before, l, k, id);
      WithoutMore(a + before, l, k, id);
      assert b == before + [l] && a + b == a + before + [l];
    }
  }

  /** Line by line, only the entries of the id are taken out: comments, blank lines and other entries stay in place. */
  lemma WithoutMeans(a: seq<string>, l: string, b: seq<string>, k: string, id: CodeIds)
    requires '\n' !in l
    ensures Without([], k, id) == []
    ensures Without(a + [l] + b, k, id)
         == Without(a, k, id) + (if HasEntry(l) && id(EntryOn(l).code) == k then [] else [l]) + Without(b, k, id)
  {
    WithoutConcat(a + [l], b, k, id);
    WithoutConcat(a, [l], k, id);
    WithoutMore([], l, k, id);
    assert [] + [l] == [l];
    IdOn(l, k, id);
    hide HasId, HasEntry, EntryOn, Without;
  }

  lemma IdOn(l: string, k: string, id: CodeIds)
    requires '\n' !in l
    ensures HasId(l, k, id) <==> HasEntry(l) && id(EntryOn(l).code) == k
  {
    ParseLineMeaning(l, id);
    LineMeans(l);
    hide ParseLine, MeaningOf, EntryOn;
  }

  /** A successful AddLock sets exactly the added id in what the gate parses, and returns that entry. */
  lemma AddLockSets(text: string, line: string, id: CodeIds)
    requires GateParse(text, id).Some? && ParseLine(Trim(line), id).Some?
    ensures var e := ParseLine(Trim(line), id).value;
            GateParse(WithLock(text, e, id), id) == Some(GateParse(text, id).value[id(e.code) := e])
  {
    hide ParseLine, ReadLines, Join, Trim, MeaningOf, Print, WellFormed, ParseLines, ScanLines;
    var e := ParseLine(Trim(line), id).value;
    var lines := ReadLines(text);
    var kept := Without(lines, id(e.code), id);
    ParseLineWellFormed(Trim(line), id);
    PrintRoundTrip(e);
    ReadLinesPlain(text);
    ReadLinesParse(text, id);
    WithoutPlain(lines, id(e.code), id);
    WithoutParse(lines, id(e.code), id);
    ScanWritten(kept + [Print(e)]);
    ParseMore(kept, Print(e), id);
    var m := GateParse(text, id).value;
    assert (m - {id(e.code)})[id(e.code) := e] == m[id(e.code) := e];
  }

  lemma LastNewline(lines: seq<string>)
    requires lines != [] && forall l <- lines :: '\n' !in l
    requires lines[|lines| - 1] != ""
    ensures StripNewlines(Join(lines, '\n') + "\n") == Join(lines, '\n')
  {
    var s := Join(lines, '\n');
    EndsLikeLast(lines);
    assert (s + "\n")[..|s|] == s;
    assert s[|s| - 1] in lines[|lines| - 1];
  }

  lemma {:induction false} EndsLikeLast(lines: seq<string>)
    requires lines != [] && lines[|lines| - 1] != ""
    ensures var s, l := Join(lines, '\n'), lines[|lines| - 1]; s != "" && s[|s| - 1] == l[|l| - 1]
  {
    if |lines| > 1 { EndsLikeLast(lines[1..]); }
  }

  /** AddLock keeps every other line, comments included, with its text and order. */
  lemma AddLockKeepsLines(text: string, line: string, id: CodeIds)
    requires ParseLine(Trim(line), id).Some?
    ensures var e := ParseLine(Trim(line), id).value;
            var kept := Without(ReadLines(text), id(e.code), id);
            ReadLines(WithLock(text, e, id)) == kept + [Print(e)]
  {
    ParseLineWellFormed(Trim(line), id);
    hide ParseLine, WellFormed, WithLock;
    WithLockLines(text, ParseLine(Trim(line), id).value, id);
  }

  lemma WithLockLines(text: string, e: Entry, id: CodeIds)
    requires WellFormed(e)
    ensures var kept := Without(ReadLines(text), id(e.code), id);
            ReadLines(WithLock(text, e, id)) == kept + [Print(e)]
  {
    hide ParseLine, Join, Trim, Split, StripNewlines, WellFormed, MeaningOf;
    PrintRoundTrip(e);
    ReadLinesPlain(text);
    WithoutPlain(ReadLines(text), id(e.code), id);
    var all := Without(ReadLines(text), id(e.code), id) + [Print(e)];
    LastNewline(all);
    SplitJoin(all, '\n');
    EndsLikeLast(all);
  }

  // ---- RevokeLock ----

  predicate Hit(l: string, prefix: string, id: CodeIds) {
    match ParseLine(l, id)
    case Some(e) => prefix <= id(e.code) || prefix <= e.code
    case None => false
  }

  datatype Revoked = TooShort | NoMatch | Ambiguous | Revoked(text: string, e: Entry, line: nat)

  function Hits(lines: seq<string>, prefix: string, id: CodeIds): seq<nat> {
    if lines == [] then []
    else
      var n := |lines| - 1;
      Hits(lines[..n], prefix, id) + if Hit(lines[n], prefix, id) then [n] else []
  }

  lemma {:induction false} HitsAreHits(lines: seq<string>, prefix: string, id: CodeIds)
    ensures forall i <- Hits(lines, prefix, id) :: i < |lines| && Hit(lines[i], prefix, id)
    ensures forall i | 0 <= i < |lines| && Hit(lines[i], prefix, id) :: i in Hits(lines, prefix, id)
  {
    hide Hit;
    if lines != [] { HitsAreHits(lines[..|lines| - 1], prefix, id); }
  }

  function WriteBack(lines: seq<string>): string {
    var body := Join(lines, '\n');
    if body == "" then "" else body + "\n"
  }

  function Revoke(text: string, prefix: string, id: CodeIds): Revoked {
    var prefix := Lower(Trim(prefix));
    var lines := ReadLines(text);
    var hits := Hits(lines, prefix, id);
    if |prefix| < 4 then TooShort
    else if |hits| == 0 then NoMatch
    else if |hits| > 1 then Ambiguous
    else
      HitsAreHits(lines, prefix, id);
      var i := hits[0];
      assert i in hits;
      Revoked(WriteBack(lines[..i] + lines[i + 1..]), ParseLine(lines[i], id).value, i)
  }

  /** The loop of RevokeLock: the matching line numbers and the entry of the last one. */
  method FindHits(lines: seq<string>, prefix: string, id: CodeIds) returns (hit: seq<nat>, found: Entry)
    ensures hit == Hits(lines, prefix, id)
    ensures |hit| == 1 ==> hit[0] < |lines| && ParseLine(lines[hit[0]], id) == Some(found)
  {
    hide ParseLine;
    hit := [];
    found := Entry("", "", "");
    for i := 0 to |lines|
      invariant hit == Hits(lines[..i], prefix, id)
      invariant |hit| == 1 ==> hit[0] < i && ParseLine(lines[hit[0]], id) == Some(found)
    {
      assert lines[..i + 1][..i] == lines[..i];
      var e := ParseLine(lines[i], id);
      if e.Some? && (prefix <= id(e.value.code) || prefix <= e.value.code) {
        hit, found := hit + [i], e.value;
      }
    }
    assert lines[..|lines|] == lines;
  }

  method RevokeLock(text: string, prefix: string, id: CodeIds) returns (r: Revoked)
    ensures r == Revoke(text, prefix, id)
  {
    hide ParseLine, ReadLines, Trim, Lower, WriteBack, Hits;
    var prefix := Lower(Trim(prefix));
    if |prefix| < 4 { return TooShort; }
    var lines := ReadLines(text);
    var hit, found := FindHits(lines, prefix, id);
    if |hit| == 0 { return NoMatch; }
    if |hit| > 1 { return Ambiguous; }
    var kept := lines[..hit[0]] + lines[hit[0] + 1..];
    return Revoked(WriteBack(kept), found, hit[0]);
  }

  /** What the last line with an id says. */
  function LastEntry(lines: seq<string>, k: string, id: CodeIds): Option<Entry> {
    if lines == [] then None
    else if HasId(lines[|lines| - 1], k, id) then ParseLine(lines[|lines| - 1], id)
    else LastEntry(lines[..|lines| - 1], k, id)
  }

  predicate Agrees(m: Entries, lines: seq<string>, k: string, id: CodeIds) {
    LastEntry(lines, k, id) == if k in m then Some(m[k]) else None
  }

  lemma {:induction false} ParseIsLastEntry(lines: seq<string>, k: string, id: CodeIds)
    requires (forall l <- lines :: '\n' !in l) && ParseLines(lines, id).Some?
    ensures Agrees(ParseLines(lines, id).value, lines, k, id)
  {
    hide MeaningOf, ParseLine;
    if lines != [] {
      var n := |lines| - 1;
      assert lines[n] in lines && forall l <- lines[..n] :: l in lines;
      ParseIsLastEntry(lines[..n], k, id);
      ParseLineMeaning(lines[n], id);
    }
  }

  /** Removing a line keeps a parsable file parsable. */
  lemma {:induction false} RemoveParses(lines: seq<string>, i: nat, id: CodeIds)
    requires i < |lines| && ParseLines(lines, id).Some?
    ensures ParseLines(lines[..i] + lines[i + 1..], id).Some?
  {
    hide MeaningOf;
    var n := |lines| - 1;
    var rest := lines[..i] + lines[i + 1..];
    if i == n {
      assert rest == lines[..n];
    } else {
      assert rest[..n - 1] == lines[..n][..i] + lines[..n][i + 1..];
      RemoveParses(lines[..n], i, id);
    }
  }

  lemma {:induction false} RemoveLastEntry(lines: seq<string>, i: nat, k: string, id: CodeIds)
    requires i < |lines| && !HasId(lines[i], k, id)
    ensures LastEntry(lines[..i] + lines[i + 1..], k, id) == LastEntry(lines, k, id)
  {
    hide HasId, ParseLine;
    var n := |lines| - 1;
    var rest := lines[..i] + lines[i + 1..];
    if i == n {
      assert rest == lines[..n];
    } else {
      assert rest[..n - 1] == lines[..n][..i] + lines[..n][i + 1..];
      assert rest[n - 1] == lines[n];
      RemoveLastEntry(lines[..n], i, k, id);
    }
  }

  lemma {:induction false} LastEntrySome(lines: seq<string>, k: string, id: CodeIds)
    ensures LastEntry(lines, k, id).Some? <==> exists l <- lines :: HasId(l, k, id)
  {
    hide ParseLine;
    if lines != [] {
      var n := |lines| - 1;
      LastEntrySome(lines[..n], k, id);
      assert lines == lines[..n] + [lines[n]];
    }
  }

  lemma WriteBackParse(lines: seq<string>, id: CodeIds)
    requires forall l <- lines :: '\n' !in l
    ensures GateParse(WriteBack(lines), id) == ParseLines(lines, id)
  {
    hide ParseLines, ScanLines, Join;
    if Join(lines, '\n') == "" {
      ScanIsSplit("", id);
      SplitWhole("", '\n');
      ParseMore([], "", id);
      assert [] + [""] == [""] && MeaningOf("") == Blank;
      if lines != [] { SplitJoin(lines, '\n'); }
    } else {
      assert lines != [] by { assert Join([], '\n') == "" by { EmptyJoin(); } }
      ScanWritten(lines);
    }
  }

  lemma EmptyJoin()
    ensures Join([], '\n') == ""
  {
  }

  /** Another line carries the id of line i. */
  predicate Shared(lines: seq<string>, i: nat, k: string, id: CodeIds)
    requires i < |lines|
  {
    exists l <- lines[..i] + lines[i + 1..] :: HasId(l, k, id)
  }

  /** A successful RevokeLock takes exactly one id out of what the gate parses, unless another line
      of the file has the same id: then, and only then, that id is still there. */
  lemma RevokeRemoves(text: string, prefix: string, id: CodeIds)
    requires GateParse(text, id).Some? && Revoke(text, prefix, id).Revoked?
    ensures var r := Revoke(text, prefix, id);
            var m, k := GateParse(text, id).value, id(r.e.code);
            && k in m && GateParse(r.text, id).Some? && r.line < |ReadLines(text)|
            && GateParse(r.text, id).value - {k} == m - {k}
            && (GateParse(r.text, id) == Some(m - {k}) <==> !Shared(ReadLines(text), r.line, k, id))
  {
    hide ParseLine, ReadLines, Trim, Lower, Join, GateParse, ParseLines, LastEntry, WriteBack;
    var lines, r := ReadLines(text), Revoke(text, prefix, id);
    var k := id(r.e.code);
    HitsAreHits(lines, Lower(Trim(prefix)), id);
    ReadLinesPlain(text);
    ReadLinesParse(text, id);
    var rest := lines[..r.line] + lines[r.line + 1..];
    assert forall l <- rest :: l in lines;
    RemoveParses(lines, r.line, id);
    WriteBackParse(rest, id);
    var m, m' := ParseLines(lines, id).value, ParseLines(rest, id).value;
    assert HasId(lines[r.line], k, id);
    forall x: string
      ensures x != k ==> (x in m <==> x in m') && (x in m ==> m[x] == m'[x])
    {
      ParseIsLastEntry(lines, x, id);
      ParseIsLastEntry(rest, x, id);
      if x != k { RemoveLastEntry(lines, r.line, x, id); }
    }
    ParseIsLastEntry(lines, k, id);
    ParseIsLastEntry(rest, k, id);
    assert lines[r.line] in lines;
    LastEntrySome(lines, k, id);
    LastEntrySome(rest, k, id);
    assert m' - {k} == m - {k};
    assert k !in m' ==> m' == m - {k};
  }

  /** RevokeLock keeps every other line with its text and order. */
  lemma RevokeKeepsLines(text: string, prefix: string, id: CodeIds)
    requires Revoke(text, prefix, id).Revoked?
    ensures var r, lines := Revoke(text, prefix, id), ReadLines(text);
            r.line < |lines| && r.text == WriteBack(lines[..r.line] + lines[r.line + 1..])
            && forall i | 0 <= i < |lines| && i != r.line :: !Hit(lines[i], Lower(Trim(prefix)), id)
  {
    hide ReadLines, Trim, Lower, WriteBack, ParseLine;
    HitsAreHits(ReadLines(text), Lower(Trim(prefix)), id);
  }

  lemma HitsParse(l: string, prefix: string, id: CodeIds)
    ensures Hit(l, prefix, id) ==> ParseLine(l, id).Some?
  {
    hide ParseLine;
  }

  /** Why nothing is revoked, from the lines that the typed text hits; and which entry a revocation reports. */
  lemma OutcomeIs(text: string, prefix: string, id: CodeIds)
    ensures var r, lines, p := Revoke(text, prefix, id), ReadLines(text), Lower(Trim(prefix));
            && (r == TooShort <==> |p| < 4)
            && (r == NoMatch <==> |p| >= 4 && forall l <- lines :: !Hit(l, p, id))
            && (r == Ambiguous <==> |p| >= 4 && exists i, j | 0 <= i < j < |lines| :: Hit(lines[i], p, id) && Hit(lines[j], p, id))
            && (r.Revoked? ==> r.line < |lines| && ParseLine(lines[r.line], id) == Some(r.e))
  {
    hide ParseLine, ReadLines, Trim, Lower, WriteBack, Hit;
    var lines, p := ReadLines(text), Lower(Trim(prefix));
    HitsAreHits(lines, p, id);
    HitsAscend(lines, p, id);
    var hits := Hits(lines, p, id);
    if |hits| == 0 {
      assert forall l <- lines :: !Hit(l, p, id);
    } else {
      assert hits[0] in hits && Hit(lines[hits[0]], p, id);
      HitsParse(lines[hits[0]], p, id);
    }
    if |hits| > 1 { assert hits[1] in hits && Hit(lines[hits[1]], p, id) && hits[0] < hits[1]; }
    hide Hits;
    forall i, j | 0 <= i < j < |lines| && Hit(lines[i], p, id) && Hit(lines[j], p, id) ensures |hits| > 1 {
      assert i in hits && j in hits;
    }
  }

  /** The rewritten file has these lines again. */
  lemma WriteBackLines(lines: seq<string>)
    requires lines != [] && lines[|lines| - 1] != "" && forall l <- lines :: '\n' !in l
    ensures ReadLines(WriteBack(lines)) == lines
  {
    EndsLikeLast(lines);
    LastNewline(lines);
    SplitJoin(lines, '\n');
  }

  /** Typing a lock's whole code finds its line exactly when the code has no upper-case letter. */
  lemma WholeCodeHitsIff(l: string, e: Entry, id: CodeIds)
    requires ParseLine(l, id) == Some(e) && |e.code| == 32 && |id(e.code)| == 16
    ensures Hit(l, Lower(e.code), id) <==> Lower(e.code) == e.code
  {
    hide ParseLine;
  }

  /** A code listed on two lines can never be revoked: every prefix that hits one hits both. */
  lemma DuplicateNeverRevoked(text: string, i: nat, j: nat, prefix: string, id: CodeIds)
    requires i < j < |ReadLines(text)| && ParseLine(ReadLines(text)[i], id).Some?
    requires ParseLine(ReadLines(text)[j], id).Some?
    requires ParseLine(ReadLines(text)[i], id).value.code == ParseLine(ReadLines(text)[j], id).value.code
    ensures var r := Revoke(text, prefix, id);
            r.Revoked? ==> r.e.code != ParseLine(ReadLines(text)[i], id).value.code
  {
    hide ParseLine, ReadLines, Trim, Lower, WriteBack;
    HitsAreHits(ReadLines(text), Lower(Trim(prefix)), id);
  }

  // ---- which lines can be revoked ----

  /** Ids as CodeID prints them: sixteen lower-case characters, no white space. */
  ghost predicate PlainIds(id: CodeIds) {
    forall c: string :: |id(c)| == 16 && Lower(id(c)) == id(c) && Trim(id(c)) == id(c)
  }

  lemma CodeIdsArePlain()
    ensures PlainIds(CodeId)
  {
    forall c: string ensures Lower(CodeId(c)) == CodeId(c) && Trim(CodeId(c)) == CodeId(c) { CodeIdPlain(c); }
    hide CodeId;
  }

  /** Some typed text makes RevokeLock remove line i. */
  ghost predicate Revocable(text: string, i: nat, id: CodeIds) {
    exists prefix :: Revoke(text, prefix, id).Revoked? && Revoke(text, prefix, id).line == i
  }

  /** Line i is the only one that a prefix hits. */
  predicate HitsOnly(lines: seq<string>, prefix: string, i: nat, id: CodeIds)
    requires i < |lines|
  {
    Hit(lines[i], prefix, id) && forall j | 0 <= j < |lines| && j != i :: !Hit(lines[j], prefix, id)
  }

  lemma {:induction false} HitsAscend(lines: seq<string>, prefix: string, id: CodeIds)
    ensures forall a, b | 0 <= a < b < |Hits(lines, prefix, id)| :: Hits(lines, prefix, id)[a] < Hits(lines, prefix, id)[b]
    ensures forall a | 0 <= a < |Hits(lines, prefix, id)| :: Hits(lines, prefix, id)[a] < |lines|
  {
    hide Hit;
    if lines != [] { HitsAscend(lines[..|lines| - 1], prefix, id); }
  }

  /** RevokeLock removes line i exactly when the typed text is long enough and hits that line only. */
  lemma RevokesIff(text: string, prefix: string, i: nat, id: CodeIds)
    requires i < |ReadLines(text)|
    ensures Revoke(text, prefix, id).Revoked? && Revoke(text, prefix, id).line == i
       <==> |Lower(Trim(prefix))| >= 4 && HitsOnly(ReadLines(text), Lower(Trim(prefix)), i, id)
  {
    hide ParseLine, ReadLines, Trim, Lower, WriteBack, Hit;
    var lines, p := ReadLines(text), Lower(Trim(prefix));
    var hits := Hits(lines, p, id);
    HitsAreHits(lines, p, id);
    HitsAscend(lines, p, id);
    hide Hits;
    if |hits| == 1 { assert forall j <- hits :: j == hits[0]; }
    assert |hits| >= 2 ==> hits[0] < hits[1];
    if HitsOnly(lines, p, i, id) {
      assert i in hits;
      forall a | 0 <= a < |hits| ensures hits[a] == i {
        assert hits[a] in hits && Hit(lines[hits[a]], p, id);
      }
    }
  }

  /** The part of a code before its first upper-case letter: all that can be typed of it. */
  function Typable(code: string): string {
    if code == "" || LowerChar(code[0]) != code[0] then "" else [code[0]] + Typable(code[1..])
  }

  lemma LowerFirst(c: char, rest: string)
    ensures Lower("") == "" && Lower([c] + rest) == [LowerChar(c)] + Lower(rest)
  {
    hide LowerChar;
  }

  lemma {:induction false} TypableLongest(code: string, p: string)
    ensures Typable(code) <= code && Lower(Typable(code)) == Typable(code)
    ensures p <= code && Lower(p) == p ==> p <= Typable(code)
  {
    hide Lower, LowerChar;
    LowerFirst('a', "");
    if code != "" {
      var c, rest := code[0], code[1..];
      LowerFirst(c, Typable(rest));
      if p <= code && Lower(p) == p && p != "" {
        assert p == [c] + p[1..] && p[1..] <= rest;
        LowerFirst(c, p[1..]);
        assert Lower(p)[0] == LowerChar(c) && Lower(p)[1..] == Lower(p[1..]);
        TypableLongest(rest, p[1..]);
      } else {
        TypableLongest(rest, "");
      }
    }
  }

  lemma LongerHits(lines: seq<string>, p: string, q: string, i: nat, id: CodeIds)
    requires i < |lines| && p <= q && HitsOnly(lines, p, i, id) && Hit(lines[i], q, id)
    ensures HitsOnly(lines, q, i, id)
  {
    hide ParseLine;
  }

  lemma CodesTrimmed(code: string, t: string)
    requires IsHex(code) && t <= code
    ensures Trim(t) == t
  {
    assert t != "" ==> t[0] in code && t[|t| - 1] in code;
    TrimFixpoint(t);
  }

  lemma LowerTwice(s: string)
    ensures Lower(Lower(s)) == Lower(s)
  {
  }

  /** Exactly the lines that RevokeLock can be made to remove: those whose id, or the part of whose code that
      can be typed, hits no other line. */
  lemma RevocableIff(text: string, i: nat, id: CodeIds)
    requires PlainIds(id) && i < |ReadLines(text)| && ParseLine(ReadLines(text)[i], id).Some?
    ensures var lines := ReadLines(text);
            var code := ParseLine(lines[i], id).value.code;
            Revocable(text, i, id)
            <==> HitsOnly(lines, id(code), i, id) || (|Typable(code)| >= 4 && HitsOnly(lines, Typable(code), i, id))
  {
    var lines := ReadLines(text);
    var code := ParseLine(lines[i], id).value.code;
    var t := Typable(code);
    TypableLongest(code, "");
    ParseLineWellFormed(lines[i], id);
    CodesTrimmed(code, t);
    RevokesIff(text, id(code), i, id);
    RevokesIff(text, t, i, id);
    hide ReadLines, ParseLine, Revoke, Typable, Lower, Trim, IsHex;
    if prefix :| Revoke(text, prefix, id).Revoked? && Revoke(text, prefix, id).line == i {
      var p := Lower(Trim(prefix));
      RevokesIff(text, prefix, i, id);
      LowerTwice(Trim(prefix));
      TypableLongest(code, p);
      hide HitsOnly;
      if p <= id(code) { LongerHits(lines, p, id(code), i, id); } else { LongerHits(lines, p, t, i, id); }
    }
  }

  predicate Carries(l: string, code: string, id: CodeIds) {
    ParseLine(l, id).Some? && ParseLine(l, id).value.code == code
  }

  lemma CodeHits(l: string, code: string, id: CodeIds)
    requires PlainIds(id) && |code| == 32
    ensures Hit(l, code, id) <==> Carries(l, code, id)
    ensures Carries(l, code, id) ==> Hit(l, id(code), id)
  {
    if ParseLine(l, id).Some? { ParseLineWellFormed(l, id); }
    hide ParseLine, IsHex, Upper;
  }

  /** A line whose code has no upper-case letter can be revoked exactly when no other line carries that code. */
  lemma LowerCodeRevocableIff(text: string, i: nat, id: CodeIds)
    requires PlainIds(id) && i < |ReadLines(text)| && ParseLine(ReadLines(text)[i], id).Some?
    requires var code := ParseLine(ReadLines(text)[i], id).value.code; Lower(code) == code
    ensures var lines := ReadLines(text);
            var code := ParseLine(lines[i], id).value.code;
            Revocable(text, i, id) <==> forall j | 0 <= j < |lines| && j != i :: !Carries(lines[j], code, id)
  {
    var lines := ReadLines(text);
    var code := ParseLine(lines[i], id).value.code;
    RevocableIff(text, i, id);
    ParseLineWellFormed(lines[i], id);
    TypableLongest(code, code);
    hide ReadLines, ParseLine, Revocable, Typable, Lower, WellFormed, Hit;
    assert Typable(code) == code;
    forall l: string ensures Hit(l, code, id) <==> Carries(l, code, id) { CodeHits(l, code, id); }
    forall l: string ensures Carries(l, code, id) ==> Hit(l, id(code), id) { CodeHits(l, code, id); }
    assert Carries(lines[i], code, id);
  }

  // ---- Locks ----

  function Locks(lines: seq<string>, id: CodeIds): seq<Entry> {
    if lines == [] then []
    else
      var e := ParseLine(lines[|lines| - 1], id);
      Locks(lines[..|lines| - 1], id) + if e.Some? then [e.value] else []
  }

  function LastWins(locks: seq<Entry>, id: CodeIds): Entries {
    if locks == [] then map[]
    else
      var e := locks[|locks| - 1];
      LastWins(locks[..|locks| - 1], id)[id(e.code) := e]
  }

  lemma {:induction false} LocksFold(lines: seq<string>, id: CodeIds)
    requires (forall l <- lines :: '\n' !in l) && ParseLines(lines, id).Some?
    ensures LastWins(Locks(lines, id), id) == ParseLines(lines, id).value
  {
    hide MeaningOf, ParseLine;
    if lines != [] {
      var n := |lines| - 1;
      assert lines[n] in lines && forall l <- lines[..n] :: l in lines;
      LocksFold(lines[..n], id);
      ParseLineMeaning(lines[n], id);
      var before := Locks(lines[..n], id);
      if ParseLine(lines[n], id).Some? {
        assert (before + [ParseLine(lines[n], id).value])[..|before|] == before;
      } else {
        assert before + [] == before;
      }
    }
  }

  /** A prefix that hits no line of a file hits only the last line after one more is appended. */
  lemma {:induction false} NoHits(lines: seq<string>, prefix: string, id: CodeIds)
    requires forall l <- lines :: !Hit(l, prefix, id)
    ensures Hits(lines, prefix, id) == []
  {
    hide Hit;
    if lines != [] {
      assert lines[|lines| - 1] in lines && forall l <- lines[..|lines| - 1] :: l in lines;
      NoHits(lines[..|lines| - 1], prefix, id);
    }
  }

  lemma {:induction false} NothingWithout(lines: seq<string>, k: string, id: CodeIds)
    requires forall l <- lines :: !Hit(l, k, id)
    ensures Without(lines, k, id) == lines
  {
    hide Hit, HasId;
    if lines != [] {
      var before, l := lines[..|lines| - 1], lines[|lines| - 1];
      assert lines == before + [l] && l in lines && forall x <- before :: x in lines;
      NothingWithout(before, k, id);
      IdHits(l, k, id);
    }
  }

  lemma IdHits(l: string, k: string, id: CodeIds)
    ensures HasId(l, k, id) ==> Hit(l, k, id)
  {
    hide ParseLine;
  }

  lemma PrintedHits(e: Entry, id: CodeIds)
    requires WellFormed(e)
    ensures ParseLine(Print(e), id) == Some(e) && Hit(Print(e), id(e.code), id)
  {
    PrintRoundTrip(e);
    hide MeaningOf, WellFormed, Print;
    ParseLineMeaning(Print(e), id);
    hide ParseLine;
  }

  /** Adding a lock that nothing in the file resembles and revoking it by its id gives back the lines of
      the file, and with them what the gate parses. */
  lemma RevokeUndoesAdd(text: string, e: Entry, id: CodeIds)
    requires WellFormed(e) && |id(e.code)| >= 4 && Lower(Trim(id(e.code))) == id(e.code)
    requires forall l <- ReadLines(text) :: !Hit(l, id(e.code), id)
    ensures Revoke(WithLock(text, e, id), id(e.code), id) == Revoked(WriteBack(ReadLines(text)), e, |ReadLines(text)|)
    ensures GateParse(WriteBack(ReadLines(text)), id) == GateParse(text, id)
  {
    hide WellFormed, ReadLines, Trim, Lower, Print, ParseLine, Hit, Without, WithLock, WriteBack, GateParse, ParseLines;
    var lines, k := ReadLines(text), id(e.code);
    PrintedHits(e, id);
    NothingWithout(lines, k, id);
    WithLockLines(text, e, id);
    NoHits(lines, k, id);
    ReadLinesPlain(text);
    ReadLinesParse(text, id);
    WriteBackParse(lines, id);
    var all := lines + [Print(e)];
    assert all[..|all| - 1] == lines && all[|lines| + 1..] == [] && all[..|lines|] == lines && lines + [] == lines;
  }

  /** The list the operator sees, folded with the last entry winning, is what the gate serves. */
  lemma LocksAreTheGates(text: string, id: CodeIds)
    requires GateParse(text, id).Some?
    ensures LastWins(Locks(ReadLines(text), id), id) == GateParse(text, id).value
  {
    ReadLinesPlain(text);
    ReadLinesParse(text, id);
    LocksFold(ReadLines(text), id);
  }
}
