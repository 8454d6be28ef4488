/** ASCII text as the Go and Dart sources use it: trimming, splitting, fields, case and decimals. */
module Text {

  datatype Option<+T> = None | Some(value: T)

  /** The six ASCII white-space characters: space and U+0009 to U+000D. */
  predicate IsSpace(c: char) {
    c == ' ' || '\t' <= c <= '\r'
  }

  function TrimLeft(s: string): string {
    if s != "" && IsSpace(s[0]) then TrimLeft(s[1..]) else s
  }

  function TrimRight(s: string): string {
    if s != "" && IsSpace(s[|s| - 1]) then TrimRight(s[..|s| - 1]) else s
  }

  function Trim(s: string): string {
    TrimRight(TrimLeft(s))
  }

  predicate Trimmed(s: string) {
    s == "" || (!IsSpace(s[0]) && !IsSpace(s[|s| - 1]))
  }

  lemma {:induction false} TrimLeftStart(s: string)
    ensures var t := TrimLeft(s); t == "" || !IsSpace(t[0])
  {
    if s != "" && IsSpace(s[0]) { TrimLeftStart(s[1..]); }
  }

  lemma {:induction false} TrimRightEnds(s: string)
    ensures var t := TrimRight(s);
            t <= s && (t == "" || !IsSpace(t[|t| - 1]))
  {
    if s != "" && IsSpace(s[|s| - 1]) { TrimRightEnds(s[..|s| - 1]); }
  }

  lemma TrimResult(s: string)
    ensures Trimmed(Trim(s))
  {
    TrimLeftStart(s);
    TrimRightEnds(TrimLeft(s));
  }

  /** The trimmed texts are exactly the fixed points of trimming. */
  lemma TrimFixpoint(s: string)
    ensures Trimmed(s) <==> Trim(s) == s
  {
    TrimResult(s);
  }

  lemma {:induction false} TrimLeftChars(s: string, c: char)
    requires c !in s
    ensures c !in TrimLeft(s)
  {
    if s != "" && IsSpace(s[0]) { TrimLeftChars(s[1..], c); }
  }

  lemma TrimChars(s: string, c: char)
    requires c !in s
    ensures c !in Trim(s)
  {
    TrimLeftChars(s, c);
    TrimRightEnds(TrimLeft(s));
  }

  // ---- splitting on one character ----

  function Split(s: string, c: char): (r: seq<string>)
    ensures r != []
  {
    if s == "" then [""]
    else
      var rest := Split(s[1..], c);
      if s[0] == c then [""] + rest else [[s[0]] + rest[0]] + rest[1..]
  }

  function Join(parts: seq<string>, c: char): string {
    if parts == [] then ""
    else if |parts| == 1 then parts[0]
    else parts[0] + [c] + Join(parts[1..], c)
  }

  lemma {:induction false} SplitParts(s: string, c: char)
    ensures forall p <- Split(s, c) :: c !in p
  {
    if s != "" {
      SplitParts(s[1..], c);
      var rest := Split(s[1..], c);
      assert forall i | 0 <= i < |rest| :: rest[i] in rest;
    }
  }

  lemma {:induction false} JoinSplit(s: string, c: char)
    ensures Join(Split(s, c), c) == s
  {
    if s != "" {
      JoinSplit(s[1..], c);
      var rest := Split(s[1..], c);
      var r := Split(s, c);
      if s[0] == c {
        assert r[1..] == rest;
      } else if |rest| > 1 {
        assert r[1..] == rest[1..];
      }
    }
  }

  lemma {:induction false} SplitWhole(s: string, c: char)
    requires c !in s
    ensures Split(s, c) == [s]
  {
    if s != "" {
      SplitWhole(s[1..], c);
      assert [s[0]] + s[1..] == s;
    }
  }

  /** Splitting peels off a separator-free head. */
  lemma {:induction false} SplitHead(p: string, rest: string, c: char)
    requires c !in p
    ensures Split(p + [c] + rest, c) == [p] + Split(rest, c)
  {
    var s := p + [c] + rest;
    if p == "" {
      assert s[1..] == rest;
    } else {
      assert s[1..] == p[1..] + [c] + rest;
      SplitHead(p[1..], rest, c);
      var r := Split(s[1..], c);
      assert r[0] == p[1..] && r[1..] == Split(rest, c);
      assert [p[0]] + p[1..] == p;
    }
  }

  lemma {:induction false} SplitJoin(parts: seq<string>, c: char)
    requires parts != [] && forall p <- parts :: c !in p
    ensures Split(Join(parts, c), c) == parts
  {
    if |parts| == 1 {
      SplitWhole(parts[0], c);
    } else {
      SplitHead(parts[0], Join(parts[1..], c), c);
      SplitJoin(parts[1..], c);
      assert [parts[0]] + parts[1..] == parts;
    }
  }

  lemma SplitInjective(a: string, b: string, c: char)
    ensures Split(a, c) == Split(b, c) <==> a == b
  {
    JoinSplit(a, c);
    JoinSplit(b, c);
  }

  lemma {:induction false} SplitConcat(a: string, b: string, c: char)
    ensures Split(a + [c] + b, c) == Split(a, c) + Split(b, c)
  {
    hide Split;
    var s := a + [c] + b;
    SplitStep(s, c);
    if a == "" {
      SplitWhole(a, c);
      assert s[1..] == b;
    } else {
      SplitStep(a, c);
      SplitConcat(a[1..], b, c);
      assert s[1..] == a[1..] + [c] + b;
      if a[0] != c {
        var rest := Split(a[1..], c);
        assert (rest + Split(b, c))[1..] == rest[1..] + Split(b, c);
      }
    }
  }

  lemma SplitStep(s: string, c: char)
    requires s != ""
    ensures var rest := Split(s[1..], c);
            Split(s, c) == if s[0] == c then [""] + rest else [[s[0]] + rest[0]] + rest[1..]
  {
  }

  lemma {:induction false} JoinConcat(a: seq<string>, b: seq<string>, c: char)
    requires a != [] && b != []
    ensures Join(a + b, c) == Join(a, c) + [c] + Join(b, c)
  {
    if |a| == 1 {
      assert (a + b)[1..] == b;
    } else {
      JoinConcat(a[1..], b, c);
      assert (a + b)[1..] == a[1..] + b;
    }
  }

  // ---- first occurrence ----

  /** Index of the first `c`, or |s| when there is none. */
  function IndexOf(s: string, c: char): (i: nat)
    ensures i <= |s|
    ensures forall k | 0 <= k < i :: s[k] != c
    ensures i < |s| ==> s[i] == c
  {
    if s == "" || s[0] == c then 0 else 1 + IndexOf(s[1..], c)
  }

  /** Index of the last `c`, or |s| when there is none. */
  function LastIndexOf(s: string, c: char): (i: nat)
    ensures i <= |s|
    ensures i == |s| ==> c !in s
    ensures i < |s| ==> s[i] == c && forall k | i < k < |s| :: s[k] != c
  {
    if c !in s then |s|
    else if s[|s| - 1] == c then |s| - 1
    else
      assert s == s[..|s| - 1] + [s[|s| - 1]];
      LastIndexOf(s[..|s| - 1], c)
  }

  lemma IndexOfAppend(a: string, c: char, b: string)
    requires c !in a
    ensures IndexOf(a + [c] + b, c) == |a|
  {
    var s := a + [c] + b;
    var i := IndexOf(s, c);
    assert s[|a|] == c && s[..|a|] == a;
    assert forall k | 0 <= k < |a| :: s[k] == a[k];
  }

  lemma {:induction false} LastIndexOfAppend(a: string, c: char, b: string)
    requires c !in b
    ensures LastIndexOf(a + [c] + b, c) == |a|
  {
    var s := a + [c] + b;
    assert s[|a|] == c;
    if b != "" {
      var b' := b[..|b| - 1];
      assert b == b' + [b[|b| - 1]];
      assert s[..|s| - 1] == a + [c] + b';
      assert s[|s| - 1] == b[|b| - 1];
      LastIndexOfAppend(a, c, b');
    }
  }

  /** The part of `s` before the first `c`; all of `s` when there is none. */
  function Before(s: string, c: char): (r: string)
    ensures c !in r
  {
    s[..IndexOf(s, c)]
  }

  lemma BeforeWhole(s: string, c: char)
    requires c !in s
    ensures Before(s, c) == s
  {
  }

  // ---- white-space separated fields ----

  predicate Word(w: string) {
    w != "" && forall c <- w :: !IsSpace(c)
  }

  /** Length of the longest white-space free prefix. */
  function WordLength(s: string): (n: nat)
    ensures n <= |s|
    ensures forall k | 0 <= k < n :: !IsSpace(s[k])
    ensures n < |s| ==> IsSpace(s[n])
  {
    if s == "" || IsSpace(s[0]) then 0 else 1 + WordLength(s[1..])
  }

  function Fields(s: string): (r: seq<string>)
    ensures forall w <- r :: Word(w)
    decreases |s|
  {
    if s == "" then []
    else if IsSpace(s[0]) then Fields(s[1..])
    else
      var n := WordLength(s);
      [s[..n]] + Fields(s[n..])
  }

  /** White space around a text makes no difference to its fields. */
  lemma FieldsTrim(s: string)
    ensures Fields(Trim(s)) == Fields(s)
    ensures Fields(s) == [] <==> Trim(s) == ""
  {
    FieldsTrimLeft(s);
    FieldsTrimRight(TrimLeft(s));
    TrimResult(s);
  }

  lemma {:induction false} FieldsTrimLeft(s: string)
    ensures Fields(TrimLeft(s)) == Fields(s)
  {
    if s != "" && IsSpace(s[0]) { FieldsTrimLeft(s[1..]); }
  }

  lemma {:induction false} FieldsTrimRight(s: string)
    ensures Fields(TrimRight(s)) == Fields(s)
  {
    if s != "" && IsSpace(s[|s| - 1]) {
      FieldsTrimRight(s[..|s| - 1]);
      FieldsSpace(s[..|s| - 1], s[|s| - 1]);
      assert s[..|s| - 1] + [s[|s| - 1]] == s;
    }
  }

  lemma {:induction false} FieldsSpace(s: string, c: char)
    requires IsSpace(c)
    ensures Fields(s + [c]) == Fields(s)
    decreases |s|
  {
    var all := s + [c];
    if s == "" {
      assert all[1..] == "";
    } else if IsSpace(s[0]) {
      FieldsSpace(s[1..], c);
      assert all[1..] == s[1..] + [c];
    } else {
      var n := WordLength(s);
      assert forall k | 0 <= k < |s| :: all[k] == s[k];
      var m := WordLength(all);
      assert IsSpace(all[n]) && forall k | 0 <= k < n :: !IsSpace(s[k]);
      assert m == n;
      FieldsSpace(s[n..], c);
      assert all[..n] == s[..n] && all[n..] == s[n..] + [c];
    }
  }

  lemma {:induction false} FieldsChars(s: string, c: char)
    requires c !in s
    ensures forall w <- Fields(s) :: c !in w
    decreases |s|
  {
    if s != "" {
      var n := if IsSpace(s[0]) then 1 else WordLength(s);
      assert s == s[..n] + s[n..];
      FieldsChars(s[n..], c);
    }
  }

  lemma WordLengthOf(w: string, rest: string)
    requires Word(w)
    requires rest == "" || IsSpace(rest[0])
    ensures WordLength(w + rest) == |w|
  {
    var s := w + rest;
    var n := WordLength(s);
    assert forall k | 0 <= k < |w| :: s[k] == w[k];
    assert rest != "" ==> s[|w|] == rest[0];
  }

  /** Words joined by single spaces read back as the same words. */
  lemma {:induction false} FieldsJoin(ws: seq<string>)
    requires forall w <- ws :: Word(w)
    ensures Fields(Join(ws, ' ')) == ws
  {
    if ws != [] {
      var w := ws[0];
      var tail := if |ws| == 1 then "" else " " + Join(ws[1..], ' ');
      assert Join(ws, ' ') == w + tail;
      WordLengthOf(w, tail);
      assert (w + tail)[..|w|] == w && (w + tail)[|w|..] == tail;
      FieldsJoin(ws[1..]);
      if |ws| > 1 { assert tail[1..] == Join(ws[1..], ' '); }
      assert [w] + ws[1..] == ws;
    }
  }

  lemma {:induction false} JoinWords(ws: seq<string>)
    requires ws != [] && forall w <- ws :: Word(w)
    ensures Join(ws, ' ') != "" && Trimmed(Join(ws, ' '))
    ensures forall c | !IsSpace(c) && (forall w <- ws :: c !in w) :: c !in Join(ws, ' ')
  {
    assert Word(ws[0]) && ws[0][0] in ws[0] && ws[0][|ws[0]| - 1] in ws[0];
    if |ws| > 1 { JoinWords(ws[1..]); }
  }

  // ---- ASCII case ----

  function UpperChar(c: char): char {
    if 'a' <= c <= 'z' then (c as int - 32) as char else c
  }

  function LowerChar(c: char): char {
    if 'A' <= c <= 'Z' then (c as int + 32) as char else c
  }

  function Upper(s: string): (r: string)
    ensures |r| == |s|
  {
    seq(|s|, i requires 0 <= i < |s| => UpperChar(s[i]))
  }

  function Lower(s: string): (r: string)
    ensures |r| == |s|
  {
    seq(|s|, i requires 0 <= i < |s| => LowerChar(s[i]))
  }

  // ---- hexadecimal digits ----

  predicate IsHexDigit(c: char) {
    '0' <= c <= '9' || 'a' <= c <= 'f' || 'A' <= c <= 'F'
  }

  function HexValue(c: char): (v: nat)
    requires IsHexDigit(c)
    ensures v < 16
  {
    if '0' <= c <= '9' then c as int - 48
    else if 'a' <= c <= 'f' then c as int - 87
    else c as int - 55
  }

  // ---- decimals ----

  predicate IsDigit(c: char) {
    '0' <= c <= '9'
  }

  function DigitChar(d: nat): char
    requires d < 10
  {
    (d + 48) as char
  }

  function DigitOf(c: char): nat
    requires IsDigit(c)
  {
    c as int - 48
  }

  function DigitsOf(n: nat): string {
    if n < 10 then [DigitChar(n)] else DigitsOf(n / 10) + [DigitChar(n % 10)]
  }

  function DigitsValue(s: string): nat
    requires forall c <- s :: IsDigit(c)
  {
    if s == "" then 0
    else 10 * DigitsValue(s[..|s| - 1]) + DigitOf(s[|s| - 1])
  }

  function DecimalOf(n: int): string {
    if n < 0 then "-" + DigitsOf(-n) else DigitsOf(n)
  }

  lemma {:induction false} DigitsRoundTrip(n: nat)
    ensures DigitsOf(n) != "" && forall c <- DigitsOf(n) :: IsDigit(c)
    ensures DigitsValue(DigitsOf(n)) == n
  {
    if n >= 10 {
      DigitsRoundTrip(n / 10);
      var s := DigitsOf(n);
      assert s[..|s| - 1] == DigitsOf(n / 10);
    }
  }

  const MIN_INT64: int := -0x8000_0000_0000_0000
  const MAX_INT64: int := 0x7FFF_FFFF_FFFF_FFFF

  predicate Int64(n: int) {
    MIN_INT64 <= n <= MAX_INT64
  }

  /** Base-10 reading of a whole text with an optional sign, in the 64-bit range. */
  function ParseInt64(s: string): Option<int> {
    var neg := s != "" && s[0] == '-';
    var body := if s != "" && (s[0] == '-' || s[0] == '+') then s[1..] else s;
    if body == "" || exists c <- body :: !IsDigit(c) then None
    else
      var d: int := DigitsValue(body);
      var v := if neg then -d else d;
      if MIN_INT64 <= v <= MAX_INT64 then Some(v) else None
  }

  lemma ParseDecimal(n: int)
    requires MIN_INT64 <= n <= MAX_INT64
    ensures ParseInt64(DecimalOf(n)) == Some(n)
  {
    DigitsRoundTrip(if n < 0 then -n else n);
    var s := DecimalOf(n);
    if n < 0 {
      assert s[1..] == DigitsOf(-n);
    } else {
      assert IsDigit(s[0]);
    }
  }

  lemma DecimalChars(n: int)
    ensures DecimalOf(n) != ""
    ensures forall c <- DecimalOf(n) :: IsDigit(c) || c == '-'
    ensures Trimmed(DecimalOf(n))
  {
    DigitsRoundTrip(if n < 0 then -n else n);
    var s := DecimalOf(n);
    assert s[0] in s && s[|s| - 1] in s;
  }
}
