/** Base64 (section 4 of RFC 4648) and its URL form (section 5) on bytes, one character below 256 each. */
module Base64 {
  import opened Text
  import opened Percent

  /** The standard alphabet. */
  function Symbol(v: nat): char
    requires v < 64
  {
    if v < 26 then (v + 65) as char
    else if v < 52 then (v + 71) as char
    else if v < 62 then (v - 4) as char
    else if v == 62 then '+' else '/'
  }

  /** -1 outside the standard alphabet. */
  function Value(c: char): int {
    if 'A' <= c <= 'Z' then c as int - 65
    else if 'a' <= c <= 'z' then c as int - 71
    else if '0' <= c <= '9' then c as int + 4
    else if c == '+' then 62
    else if c == '/' then 63
    else -1
  }

  lemma SymbolValue(v: nat)
    requires v < 64
    ensures Value(Symbol(v)) == v && Symbol(v) != '=' && !IsSpace(Symbol(v))
    ensures Symbol(v) !in "@#?:%-_"
  {
  }

  function ToUrl(c: char): char {
    if c == '+' then '-' else if c == '/' then '_' else c
  }

  function FromUrl(c: char): char {
    if c == '-' then '+' else if c == '_' then '/' else c
  }

  function Each(s: string, f: char -> char): (r: string)
    ensures |r| == |s|
  {
    seq(|s|, i requires 0 <= i < |s| => f(s[i]))
  }

  // ---- encoding ----

  function Four(a: int, b: int, c: int): string
    requires 0 <= a < 256 && 0 <= b < 256 && 0 <= c < 256
  {
    [Symbol(a / 4), Symbol(a % 4 * 16 + b / 16), Symbol(b % 16 * 4 + c / 64), Symbol(c % 64)]
  }

  function Encode64(s: string): string
    requires IsBytes(s)
  {
    if s == "" then ""
    else if |s| == 1 then Four(s[0] as int, 0, 0)[..2] + "=="
    else if |s| == 2 then Four(s[0] as int, s[1] as int, 0)[..3] + "="
    else Four(s[0] as int, s[1] as int, s[2] as int) + Encode64(s[3..])
  }

  // ---- strict decoding, as base64.decode ----

  /** The three bytes of four symbols. */
  function Three(a: int, b: int, c: int, d: int): string
    requires 0 <= a < 64 && 0 <= b < 64 && 0 <= c < 64 && 0 <= d < 64
  {
    [(a * 4 + b / 16) as char, (b % 16 * 16 + c / 4) as char, (c % 4 * 64 + d) as char]
  }

  predicate Symbols(t: string) {
    forall i | 0 <= i < |t| :: Value(t[i]) >= 0
  }

  /** The last group with its padding; the unused bits must be zero. */
  function DecodeLast(t: string): Option<string>
    requires |t| == 4
  {
    if t[2..] == "==" then
      if Symbols(t[..2]) && Value(t[1]) % 16 == 0 then Some(Three(Value(t[0]), Value(t[1]), 0, 0)[..1]) else None
    else if Symbols(t[..3]) && Value(t[2]) % 4 == 0
    then Some(Three(Value(t[0]), Value(t[1]), Value(t[2]), 0)[..2]) else None
  }

  function Decode64(t: string): Option<string>
    decreases |t|
  {
    if t == "" then Some("")
    else if |t| < 4 then None
    else if |t| == 4 && t[3] == '=' then DecodeLast(t)
    else if !Symbols(t[..4]) then None
    else
      match Decode64(t[4..])
      case None => None
      case Some(rest) => Some(Three(Value(t[0]), Value(t[1]), Value(t[2]), Value(t[3])) + rest)
  }

  lemma GroupRoundTrip(a: int, b: int, c: int)
    requires 0 <= a < 256 && 0 <= b < 256 && 0 <= c < 256
    ensures Symbols(Four(a, b, c))
    ensures var f := Four(a, b, c);
            Three(Value(f[0]), Value(f[1]), Value(f[2]), Value(f[3])) == [a as char, b as char, c as char]
    ensures b == 0 && c == 0 ==> Value(Four(a, b, c)[1]) % 16 == 0 && Four(a, b, c)[2] == Symbol(0)
    ensures c == 0 ==> Value(Four(a, b, c)[2]) % 4 == 0 && Four(a, b, c)[3] == Symbol(0)
  {
    SymbolValue(a / 4);
    SymbolValue(a % 4 * 16 + b / 16);
    SymbolValue(b % 16 * 4 + c / 64);
    SymbolValue(c % 64);
    GroupBits(a, b, c);
    GroupZeros(a, b, c);
    hide Symbol, Value, Three;
  }

  lemma GroupZeros(a: int, b: int, c: int)
    requires 0 <= a < 256 && 0 <= b < 256 && 0 <= c < 256
    ensures b == 0 && c == 0 ==> (a % 4 * 16 + b / 16) % 16 == 0 && b % 16 * 4 + c / 64 == 0
    ensures c == 0 ==> (b % 16 * 4 + c / 64) % 4 == 0 && c % 64 == 0
  {
  }

  lemma GroupBits(a: int, b: int, c: int)
    requires 0 <= a < 256 && 0 <= b < 256 && 0 <= c < 256
    ensures Three(a / 4, a % 4 * 16 + b / 16, b % 16 * 4 + c / 64, c % 64) == [a as char, b as char, c as char]
  {
    assert (a % 4 * 16 + b / 16) / 16 == a % 4 && (a % 4 * 16 + b / 16) % 16 == b / 16;
    assert (b % 16 * 4 + c / 64) / 4 == b % 16 && (b % 16 * 4 + c / 64) % 4 == c / 64;
  }

  lemma {:induction false} RoundTrip64(s: string)
    requires IsBytes(s)
    ensures Decode64(Encode64(s)) == Some(s)
    decreases |s|
  {
    hide Four, Three, Symbol, Value;
    if s != "" {
      var a, b, c := s[0] as int, if |s| > 1 then s[1] as int else 0, if |s| > 2 then s[2] as int else 0;
      GroupRoundTrip(a, b, c);
      FourShape(a, b, c);
      ZeroSymbol();
      var t := Encode64(s);
      if |s| > 2 {
        RoundTrip64(s[3..]);
        assert t[4..] == Encode64(s[3..]) && t[..4] == Four(a, b, c);
        assert s == [s[0], s[1], s[2]] + s[3..];
      } else if |s| == 2 {
        var f := Four(a, b, c);
        assert t == [f[0], f[1], f[2], '='] && t[2..][0] != '=';
        assert s == [s[0], s[1]] == [s[0], s[1], c as char][..2];
      } else {
        var f := Four(a, b, c);
        assert t == [f[0], f[1], '=', '='] && t[2..] == "==";
        assert s == [s[0]] == [s[0], b as char, c as char][..1];
      }
    }
  }

  lemma SymbolOf(c: char)
    requires Value(c) >= 0
    ensures Value(c) < 64 && Symbol(Value(c)) == c
  {
  }

  lemma BitsBack(a: int, b: int, c: int, d: int)
    requires 0 <= a < 64 && 0 <= b < 64 && 0 <= c < 64 && 0 <= d < 64
    ensures var x, y, z := a * 4 + b / 16, b % 16 * 16 + c / 4, c % 4 * 64 + d;
            && 0 <= x < 256 && 0 <= y < 256 && 0 <= z < 256
            && x / 4 == a && x % 4 * 16 + y / 16 == b && y % 16 * 4 + z / 64 == c && z % 64 == d
  {
    var x, y, z := a * 4 + b / 16, b % 16 * 16 + c / 4, c % 4 * 64 + d;
    assert x % 4 == b / 16 && y / 16 == b % 16 && y % 16 == c / 4 && z / 64 == c % 4;
  }

  lemma ThreeBack(a: int, b: int, c: int, d: int)
    requires 0 <= a < 64 && 0 <= b < 64 && 0 <= c < 64 && 0 <= d < 64
    ensures var t := Three(a, b, c, d);
            && |t| == 3 && IsBytes(t) && t[0] as int == a * 4 + b / 16
            && Four(t[0] as int, t[1] as int, t[2] as int) == [Symbol(a), Symbol(b), Symbol(c), Symbol(d)]
            && (c == 0 && d == 0 ==> t[2] == 0 as char) && (b % 16 == 0 && c == 0 ==> t[1] == 0 as char)
            && (c % 4 == 0 && d == 0 ==> t[2] == 0 as char)
  {
    BitsBack(a, b, c, d);
    hide Symbol;
  }

  lemma LastIsEncoded(t: string)
    requires |t| == 4 && t[3] == '=' && DecodeLast(t).Some?
    ensures IsBytes(DecodeLast(t).value) && Encode64(DecodeLast(t).value) == t
  {
    hide Value, Symbol, Three, Four;
    assert t[..2][0] == t[0] && t[..2][1] == t[1];
    if t[2..] == "==" {
      SymbolOf(t[0]);
      SymbolOf(t[1]);
      ThreeBack(Value(t[0]), Value(t[1]), 0, 0);
      var x := Three(Value(t[0]), Value(t[1]), 0, 0);
      assert DecodeLast(t).value == [x[0]] && t[2..][0] == t[2];
      assert Encode64([x[0]]) == [t[0], t[1]] + "==";
    } else {
      assert t[..3][0] == t[0] && t[..3][1] == t[1] && t[..3][2] == t[2];
      SymbolOf(t[0]);
      SymbolOf(t[1]);
      SymbolOf(t[2]);
      ThreeBack(Value(t[0]), Value(t[1]), Value(t[2]), 0);
      var x := Three(Value(t[0]), Value(t[1]), Value(t[2]), 0);
      assert DecodeLast(t).value == [x[0], x[1]];
      assert Encode64([x[0], x[1]]) == [t[0], t[1], t[2]] + "=";
    }
  }

  /** Strict decoding takes nothing but what encoding gives. */
  lemma {:induction false} DecodedIsEncoded(t: string)
    requires Decode64(t).Some?
    ensures IsBytes(Decode64(t).value) && Encode64(Decode64(t).value) == t
    decreases |t|
  {
    hide Value, Symbol, Three, Four, DecodeLast;
    if t != "" {
      if |t| == 4 && t[3] == '=' {
        LastIsEncoded(t);
      } else {
        var rest := Decode64(t[4..]).value;
        DecodedIsEncoded(t[4..]);
        assert forall i | 0 <= i < 4 :: t[..4][i] == t[i];
        SymbolOf(t[0]);
        SymbolOf(t[1]);
        SymbolOf(t[2]);
        SymbolOf(t[3]);
        ThreeBack(Value(t[0]), Value(t[1]), Value(t[2]), Value(t[3]));
        var x := Three(Value(t[0]), Value(t[1]), Value(t[2]), Value(t[3]));
        var all := x + rest;
        assert all[3..] == rest && all[0] == x[0] && all[1] == x[1] && all[2] == x[2];
        assert t == [t[0], t[1], t[2], t[3]] + t[4..];
      }
    }
  }

  lemma ZeroSymbol()
    ensures Value(Symbol(0)) == 0
  {
  }

  lemma FourShape(a: int, b: int, c: int)
    requires 0 <= a < 256 && 0 <= b < 256 && 0 <= c < 256
    ensures |Four(a, b, c)| == 4 && forall i | 0 <= i < 4 :: Four(a, b, c)[i] != '='
  {
    SymbolValue(a / 4);
    SymbolValue(a % 4 * 16 + b / 16);
    SymbolValue(b % 16 * 4 + c / 64);
    SymbolValue(c % 64);
  }

  // ---- padding ----

  function DropPads(s: string): string {
    if s == "" then "" else (if s[0] == '=' then "" else [s[0]]) + DropPads(s[1..])
  }

  function PadCount(n: nat): nat {
    (3 - n % 3) % 3
  }

  /** Whole groups of symbols, of which the last `k` are padding. */
  predicate Shaped(e: string, k: nat) {
    && |e| % 4 == 0 && k <= |e|
    && (forall i | 0 <= i < |e| - k :: Value(e[i]) >= 0 && e[i] != '=')
    && (forall i | |e| - k <= i < |e| :: e[i] == '=')
  }

  lemma ShapedMore(f: string, rest: string, k: nat)
    requires |f| == 4 && Shaped(f, 0) && Shaped(rest, k)
    ensures Shaped(f + rest, k)
  {
    hide Value;
  }

  /** Padding only at the end, and as much as the bytes left over ask for. */
  lemma {:induction false} EncodedShape(s: string)
    requires IsBytes(s)
    ensures Shaped(Encode64(s), PadCount(|s|))
    decreases |s|
  {
    hide Four, Value;
    if s != "" {
      var a, b, c := s[0] as int, if |s| > 1 then s[1] as int else 0, if |s| > 2 then s[2] as int else 0;
      GroupRoundTrip(a, b, c);
      FourShape(a, b, c);
      if |s| > 2 {
        var rest := Encode64(s[3..]);
        assert Encode64(s) == Four(a, b, c) + rest;
        hide Encode64;
        EncodedShape(s[3..]);
        assert PadCount(|s|) == PadCount(|s| - 3);
        assert Shaped(Four(a, b, c), 0);
        ShapedMore(Four(a, b, c), rest, PadCount(|s|));
      }
    }
  }

  lemma {:induction false} DropTail(t: string, n: nat)
    requires n <= |t|
    requires forall i | 0 <= i < n :: t[i] != '='
    requires forall i | n <= i < |t| :: t[i] == '='
    ensures DropPads(t) == t[..n]
  {
    if t != "" { DropTail(t[1..], if n == 0 then 0 else n - 1); }
  }

  /** base64Url.encode without its padding. */
  function UrlNoPad(s: string): string
    requires IsBytes(s)
  {
    DropPads(Each(Encode64(s), ToUrl))
  }

  lemma UrlNoPadIs(s: string)
    requires IsBytes(s)
    ensures var e, n := Encode64(s), |Encode64(s)| - PadCount(|s|);
            0 <= n && UrlNoPad(s) == Each(e, ToUrl)[..n]
  {
    hide Encode64;
    EncodedShape(s);
    DropTail(Each(Encode64(s), ToUrl), |Encode64(s)| - PadCount(|s|));
  }

  /** Characters of the URL form: none that a share link uses as a separator. */
  lemma UrlChars(s: string)
    requires IsBytes(s)
    ensures forall c <- UrlNoPad(s) :: c !in "@#?:%" && !IsSpace(c) && c as int < 128
  {
    hide Encode64;
    UrlNoPadIs(s);
    EncodedShape(s);
    var e, u := Encode64(s), UrlNoPad(s);
    forall c <- u ensures c !in "@#?:%" && !IsSpace(c) && c as int < 128 {
      var i :| 0 <= i < |u| && u[i] == c;
      assert c == ToUrl(e[i]) && Value(e[i]) >= 0;
    }
  }

  /** The padding that makes a multiple of four. */
  function Repad(s: string): string {
    s + seq((4 - |s| % 4) % 4, _ => '=')
  }

  /** The padding loop of the client. */
  method PadLoop(s: string) returns (t: string)
    ensures t == Repad(s)
  {
    t := s;
    ghost var n := 0;
    while |t| % 4 != 0
      invariant 0 <= n <= (4 - |s| % 4) % 4
      invariant t == s + seq(n, _ => '=')
      decreases (4 - |s| % 4) % 4 - n
    {
      t := t + "=";
      n := n + 1;
    }
  }

  /** Restoring the alphabet and the padding gives back the standard encoding. */
  lemma RepadRestores(s: string)
    requires IsBytes(s)
    ensures Repad(Each(UrlNoPad(s), FromUrl)) == Encode64(s)
  {
    hide Encode64;
    UrlNoPadIs(s);
    EncodedShape(s);
    var e, k := Encode64(s), PadCount(|s|);
    var u := Each(UrlNoPad(s), FromUrl);
    forall i | 0 <= i < |u| ensures u[i] == e[i] {
      assert UrlNoPad(s)[i] == ToUrl(e[i]) && Value(e[i]) >= 0;
      assert u[i] == FromUrl(UrlNoPad(s)[i]);
    }
    assert u == e[..|e| - k];
    assert (4 - |u| % 4) % 4 == k;
  }

  /** Decoding undoes the unpadded URL encoding, for every byte string. */
  lemma UrlRoundTrip(s: string)
    requires IsBytes(s)
    ensures Decode64(Repad(Each(UrlNoPad(s), FromUrl))) == Some(s)
  {
    RepadRestores(s);
    RoundTrip64(s);
  }

  // ---- the standard's own tables and examples ----

  /** Table 1 of RFC 4648: capital letters, small letters, digits, plus and slash. */
  lemma Alphabet(v: nat)
    requires v < 64
    ensures v < 26 ==> Symbol(v) as int == 'A' as int + v
    ensures 26 <= v < 52 ==> Symbol(v) as int == 'a' as int + (v - 26)
    ensures 52 <= v < 62 ==> Symbol(v) as int == '0' as int + (v - 52)
    ensures Symbol(62) == '+' && Symbol(63) == '/'
  {
  }

  /** Table 2: the URL alphabet differs in the last two symbols. */
  lemma UrlAlphabet(v: nat)
    requires v < 64
    ensures ToUrl(Symbol(v)) == if v == 62 then '-' else if v == 63 then '_' else Symbol(v)
    ensures FromUrl(ToUrl(Symbol(v))) == Symbol(v)
  {
  }

  /** Section 4: three bytes are four groups of six bits, the most significant first. */
  lemma SixBits(a: int, b: int, c: int, w: nat, x: nat, y: nat, z: nat)
    requires 0 <= a < 256 && 0 <= b < 256 && 0 <= c < 256 && w < 64 && x < 64 && y < 64 && z < 64
    requires ((w * 64 + x) * 64 + y) * 64 + z == (a * 256 + b) * 256 + c
    ensures Four(a, b, c) == [Symbol(w), Symbol(x), Symbol(y), Symbol(z)]
  {
    hide Symbol;
    assert w == a / 4 && x == a % 4 * 16 + b / 16 && y == b % 16 * 4 + c / 64 && z == c % 64;
  }

  /** Section 10: the ends of a text. */
  lemma Examples()
    ensures Encode64("") == "" && Encode64("f") == "Zg==" && Encode64("fo") == "Zm8=" && Encode64("foo") == "Zm9v"
  {
    assert "foo"[3..] == "";
  }
}
