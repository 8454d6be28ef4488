/** gate.conf: LoadSettings, SaveSettings and SetSetting of oversee.go. */
module Settings {
  import opened Text

  datatype Settings = Settings(
    domain: string, upstream: string, plain: string, leakIps: int, noIpLimit: bool, lockIps: int,
    cdn: string, onlyProxy: bool, tokenDays: int, cert: string, key: string, port: int)

  /** The keys of the file, in the order in which they are written. */
  datatype Key = Domain | Upstream | Plain | LeakIps | Cdn | OnlyProxy | Cert | KeyFile | TokenDays | Port | IpLimit | LockIps

  const DEFAULTS := Settings("", "127.0.0.1:10000", "", 0, false, 0, "", false, 0, "", "", 0)

  function KeyName(k: Key): string {
    match k
    case Domain => "DOMAIN" case Upstream => "UPSTREAM" case Plain => "PLAIN" case LeakIps => "LEAK_IPS"
    case Cdn => "CDN" case OnlyProxy => "ONLY_PROXY" case Cert => "CERT" case KeyFile => "KEY"
    case TokenDays => "TOKEN_DAYS" case Port => "PORT" case IpLimit => "IP_LIMIT" case LockIps => "LOCK_IPS"
  }

  function KeyNamed(s: string): Option<Key> {
    if s == "DOMAIN" then Some(Domain) else if s == "UPSTREAM" then Some(Upstream)
    else if s == "PLAIN" then Some(Plain) else if s == "LEAK_IPS" then Some(LeakIps)
    else if s == "CDN" then Some(Cdn) else if s == "ONLY_PROXY" then Some(OnlyProxy)
    else if s == "CERT" then Some(Cert) else if s == "KEY" then Some(KeyFile)
    else if s == "TOKEN_DAYS" then Some(TokenDays) else if s == "PORT" then Some(Port)
    else if s == "IP_LIMIT" then Some(IpLimit) else if s == "LOCK_IPS" then Some(LockIps)
    else None
  }

  // ---- reading ----

  /** Sscanf with %d on a trimmed text: an optional sign and the longest run of digits, within 64 bits. */
  function ScanInt(s: string): Option<int> {
    var neg := s != "" && s[0] == '-';
    var body := if s != "" && (s[0] == '-' || s[0] == '+') then s[1..] else s;
    var digits := body[..DigitRun(body)];
    if digits == "" then None
    else
      var d: int := DigitsValue(digits);
      var v := if neg then -d else d;
      if MIN_INT64 <= v <= MAX_INT64 then Some(v) else None
  }

  function DigitRun(s: string): (n: nat)
    ensures n <= |s| && forall c <- s[..n] :: IsDigit(c)
    ensures n < |s| ==> !IsDigit(s[n])
  {
    if s == "" || !IsDigit(s[0]) then 0
    else
      assert s[..1 + DigitRun(s[1..])] == [s[0]] + s[1..][..DigitRun(s[1..])];
      1 + DigitRun(s[1..])
  }

  function ScanOr(v: string, was: int): int {
    match ScanInt(v) case Some(n) => n case None => was
  }

  predicate IsOff(v: string) {
    Lower(v) in {"off", "0", "false", "no"}
  }

  function Assign(s: Settings, k: Key, v: string): Settings {
    match k
    case Domain => s.(domain := v)
    case Upstream => s.(upstream := v)
    case Plain => s.(plain := v)
    case Cdn => s.(cdn := v)
    case OnlyProxy => s.(onlyProxy := v == "1" || v == "true")
    case LockIps => s.(lockIps := ScanOr(v, s.lockIps))
    case IpLimit => if IsOff(v) then s.(noIpLimit := true) else s
    case TokenDays => s.(tokenDays := ScanOr(v, s.tokenDays))
    case Cert => s.(cert := v)
    case KeyFile => s.(key := v)
    case Port => s.(port := ScanOr(v, s.port))
    case LeakIps => s.(leakIps := ScanOr(v, s.leakIps))
  }

  function ApplyLine(s: Settings, line: string): Settings {
    var t := Trim(line);
    var i := IndexOf(t, '=');
    if i == |t| || "#" <= t[..i] then s
    else
      match KeyNamed(Trim(t[..i]))
      case None => s
      case Some(k) => Assign(s, k, Trim(t[i + 1..]))
  }

  function ApplyLines(lines: seq<string>): Settings {
    if lines == [] then DEFAULTS else ApplyLine(ApplyLines(lines[..|lines| - 1]), lines[|lines| - 1])
  }

  /** LoadSettings of the text of gate.conf. */
  function Load(text: string): Settings {
    ApplyLines(Split(text, '\n'))
  }

  method LoadSettings(text: Option<string>) returns (s: Settings)
    ensures s == if text == None then DEFAULTS else Load(text.value)
  {
    hide ApplyLine;
    s := DEFAULTS;
    if text == None { return; }
    var lines := Split(text.value, '\n');
    for i := 0 to |lines|
      invariant s == ApplyLines(lines[..i])
    {
      assert lines[..i + 1][..i] == lines[..i];
      s := ApplyLine(s, lines[i]);
    }
    assert lines[..|lines|] == lines;
  }

  // ---- writing ----

  const HEADER := "# managed by `oversee`"

  function KeyAt(i: nat): Key
    requires i < 12
  {
    match i
    case 0 => Domain case 1 => Upstream case 2 => Plain case 3 => LeakIps case 4 => Cdn case 5 => OnlyProxy
    case 6 => Cert case 7 => KeyFile case 8 => TokenDays case 9 => Port case 10 => IpLimit case _ => LockIps
  }

  function ValueText(s: Settings, k: Key): string {
    match k
    case Domain => s.domain
    case Upstream => s.upstream
    case Plain => s.plain
    case LeakIps => DecimalOf(s.leakIps)
    case Cdn => s.cdn
    case OnlyProxy => if s.onlyProxy then "1" else "0"
    case Cert => s.cert
    case KeyFile => s.key
    case TokenDays => DecimalOf(s.tokenDays)
    case Port => DecimalOf(s.port)
    case IpLimit => if s.noIpLimit then "off" else "on"
    case LockIps => DecimalOf(s.lockIps)
  }

  function LineFor(s: Settings, k: Key): string {
    KeyName(k) + "=" + ValueText(s, k)
  }

  /** The header and the first `n` lines. */
  function Body(s: Settings, n: nat): string
    requires n <= 12
  {
    if n == 0 then HEADER else Body(s, n - 1) + "\n" + LineFor(s, KeyAt(n - 1))
  }

  function Save(s: Settings): string {
    Body(s, 12) + "\n"
  }

  // ---- the round trip ----

  predicate CleanText(v: string) {
    Trimmed(v) && '\n' !in v
  }

  predicate Clean(s: Settings) {
    && CleanText(s.domain) && CleanText(s.upstream) && CleanText(s.plain)
    && CleanText(s.cdn) && CleanText(s.cert) && CleanText(s.key)
  }

  /** Go's int fields are 64 bits wide. */
  predicate IntFields(s: Settings) {
    Int64(s.leakIps) && Int64(s.lockIps) && Int64(s.tokenDays) && Int64(s.port)
  }

  lemma KeyNames(k: Key)
    ensures KeyNamed(KeyName(k)) == Some(k)
    ensures '=' !in KeyName(k) && '\n' !in KeyName(k) && '#' !in KeyName(k) && KeyName(k) != "" && Trimmed(KeyName(k))
  {
    KeysTellApart(k);
    hide KeyNamed;
  }

  lemma KeysTellApart(k: Key)
    ensures KeyNamed(KeyName(k)) == Some(k)
  {
  }

  lemma ScanDecimal(n: int)
    requires Int64(n)
    ensures ScanInt(DecimalOf(n)) == Some(n)
  {
    var m := if n < 0 then -n else n;
    DigitsRoundTrip(m);
    var s, d := DecimalOf(n), DigitsOf(m);
    assert n < 0 ==> s[1..] == d;
    assert d[0] in d && IsDigit(d[0]);
    assert DigitRun(d) == |d| by {
      assert forall i | 0 <= i < |d| :: d[i] in d && IsDigit(d[i]);
    }
    assert d[..|d|] == d;
  }

  lemma ValueClean(s: Settings, k: Key)
    requires Clean(s)
    ensures CleanText(ValueText(s, k))
  {
    DecimalChars(s.leakIps);
    DecimalChars(s.tokenDays);
    DecimalChars(s.port);
    DecimalChars(s.lockIps);
    hide DecimalOf;
  }

  /** A written line assigns its value. */
  lemma LineAssigns(s: Settings, k: Key, v: string)
    requires CleanText(v)
    ensures ApplyLine(s, KeyName(k) + "=" + v) == Assign(s, k, v) && '\n' !in KeyName(k) + "=" + v
  {
    KeyNames(k);
    hide KeyName, KeyNamed, Assign, Trim;
    var name := KeyName(k);
    var line := name + ['='] + v;
    assert line == name + "=" + v;
    assert Trimmed(line) by { assert !IsSpace('='); }
    TrimFixpoint(line);
    TrimFixpoint(name);
    TrimFixpoint(v);
    IndexOfAppend(name, '=', v);
    assert line[..|name|] == name && line[|name| + 1..] == v;
    assert name[0] in name;
  }

  function AfterPairs(s: Settings, n: nat): Settings
    requires n <= 12
  {
    if n == 0 then DEFAULTS else Assign(AfterPairs(s, n - 1), KeyAt(n - 1), ValueText(s, KeyAt(n - 1)))
  }

  lemma {:induction false} BodyApplies(s: Settings, n: nat)
    requires n <= 12 && Clean(s)
    ensures ApplyLines(Split(Body(s, n), '\n')) == AfterPairs(s, n)
  {
    hide ApplyLine, Assign, KeyAt, ValueText, KeyName, Split;
    if n == 0 {
      HeaderIgnored(DEFAULTS);
      SplitWhole(HEADER, '\n');
      assert [HEADER][..0] == [];
    } else {
      var k := KeyAt(n - 1);
      BodyApplies(s, n - 1);
      ValueClean(s, k);
      LineAssigns(AfterPairs(s, n - 1), k, ValueText(s, k));
      var before, line := Split(Body(s, n - 1), '\n'), LineFor(s, k);
      assert Body(s, n) == Body(s, n - 1) + ['\n'] + line;
      SplitConcat(Body(s, n - 1), line, '\n');
      SplitWhole(line, '\n');
      assert (before + [line])[..|before|] == before;
    }
  }

  lemma NoEquals(s: Settings, line: string)
    requires Trimmed(line) && '=' !in line
    ensures ApplyLine(s, line) == s
  {
    hide Trim, KeyNamed, Assign, Trimmed;
    TrimFixpoint(line);
    var i := IndexOf(line, '=');
    assert forall j | 0 <= j < |line| :: line[j] in line;
  }

  lemma HeaderIgnored(s: Settings)
    ensures ApplyLine(s, HEADER) == s && '\n' !in HEADER && ApplyLine(s, "") == s
  {
    hide ApplyLine, Trim;
    NoEquals(s, HEADER);
    NoEquals(s, "");
  }

  lemma AssignedInt(n: int, was: int)
    requires Int64(n)
    ensures ScanOr(DecimalOf(n), was) == n
  {
    ScanDecimal(n);
  }

  /** `a` with the one field of `k` taken from `s`. */
  function Put(a: Settings, s: Settings, k: Key): Settings {
    match k
    case Domain => a.(domain := s.domain)
    case Upstream => a.(upstream := s.upstream)
    case Plain => a.(plain := s.plain)
    case LeakIps => a.(leakIps := s.leakIps)
    case Cdn => a.(cdn := s.cdn)
    case OnlyProxy => a.(onlyProxy := s.onlyProxy)
    case Cert => a.(cert := s.cert)
    case KeyFile => a.(key := s.key)
    case TokenDays => a.(tokenDays := s.tokenDays)
    case Port => a.(port := s.port)
    case IpLimit => a.(noIpLimit := a.noIpLimit || s.noIpLimit)
    case LockIps => a.(lockIps := s.lockIps)
  }

  lemma OnAndOff()
    ensures IsOff("off") && !IsOff("on")
  {
    assert Lower("off") == "off" && Lower("on") == "on";
  }

  lemma AssignPuts(a: Settings, s: Settings, k: Key)
    requires IntFields(s)
    ensures Assign(a, k, ValueText(s, k)) == Put(a, s, k)
  {
    hide ScanOr, DecimalOf, IsOff;
    AssignedInt(s.leakIps, a.leakIps);
    AssignedInt(s.tokenDays, a.tokenDays);
    AssignedInt(s.port, a.port);
    AssignedInt(s.lockIps, a.lockIps);
    OnAndOff();
  }

  function PutFirst(s: Settings, n: nat): Settings
    requires n <= 12
  {
    if n == 0 then DEFAULTS else Put(PutFirst(s, n - 1), s, KeyAt(n - 1))
  }

  lemma {:induction false} PairsPut(s: Settings, n: nat)
    requires n <= 12 && IntFields(s)
    ensures AfterPairs(s, n) == PutFirst(s, n)
  {
    hide Assign, Put, ValueText;
    if n > 0 {
      PairsPut(s, n - 1);
      AssignPuts(PutFirst(s, n - 1), s, KeyAt(n - 1));
    }
  }

  lemma AllAssigned(s: Settings)
    requires IntFields(s)
    ensures AfterPairs(s, 12) == s
  {
    PairsPut(s, 12);
    hide AfterPairs, Put;
    var a2 := Put(Put(DEFAULTS, s, Domain), s, Upstream);
    assert PutFirst(s, 0) == DEFAULTS;
    assert PutFirst(s, 1) == Put(DEFAULTS, s, Domain);
    assert PutFirst(s, 2) == a2;
    var a5 := Put(Put(Put(a2, s, Plain), s, LeakIps), s, Cdn);
    assert PutFirst(s, 3) == Put(a2, s, Plain);
    assert PutFirst(s, 4) == Put(Put(a2, s, Plain), s, LeakIps);
    assert PutFirst(s, 5) == a5;
    var a8 := Put(Put(Put(a5, s, OnlyProxy), s, Cert), s, KeyFile);
    assert PutFirst(s, 6) == Put(a5, s, OnlyProxy);
    assert PutFirst(s, 7) == Put(Put(a5, s, OnlyProxy), s, Cert);
    assert PutFirst(s, 8) == a8;
    var a10 := Put(Put(a8, s, TokenDays), s, Port);
    assert PutFirst(s, 9) == Put(a8, s, TokenDays);
    assert PutFirst(s, 10) == a10;
    assert PutFirst(s, 11) == Put(a10, s, IpLimit);
    assert PutFirst(s, 12) == Put(Put(a10, s, IpLimit), s, LockIps);
    AllPut(s);
  }

  lemma AllPut(s: Settings)
    ensures var a := Put(Put(Put(Put(Put(Put(DEFAULTS, s, Domain), s, Upstream), s, Plain), s, LeakIps), s, Cdn), s, OnlyProxy);
      Put(Put(Put(Put(Put(Put(a, s, Cert), s, KeyFile), s, TokenDays), s, Port), s, IpLimit), s, LockIps) == s
  {
  }

  /** Whatever the text, a loaded setting is trimmed, on one line, and fits its field. */
  lemma {:induction false} LoadedIsClean(lines: seq<string>)
    requires forall l <- lines :: '\n' !in l
    ensures Clean(ApplyLines(lines)) && IntFields(ApplyLines(lines))
  {
    hide Trim, KeyNamed, ApplyLine;
    if lines != [] {
      LoadedIsClean(lines[..|lines| - 1]);
      LineIsClean(ApplyLines(lines[..|lines| - 1]), lines[|lines| - 1]);
    }
  }

  lemma AssignClean(s: Settings, k: Key, v: string)
    requires Clean(s) && IntFields(s) && CleanText(v)
    ensures Clean(Assign(s, k, v)) && IntFields(Assign(s, k, v))
  {
    hide CleanText, IsOff, ScanInt;
    ScanRange(v);
  }

  lemma LineIsClean(s: Settings, line: string)
    requires Clean(s) && IntFields(s) && '\n' !in line
    ensures Clean(ApplyLine(s, line)) && IntFields(ApplyLine(s, line))
  {
    hide Trim, KeyNamed, Trimmed, Assign, Clean, IntFields;
    var t := Trim(line);
    var i := IndexOf(t, '=');
    TrimChars(line, '\n');
    if i < |t| {
      TrimChars(t[i + 1..], '\n');
      TrimResult(t[i + 1..]);
      var k := KeyNamed(Trim(t[..i]));
      if k.Some? { AssignClean(s, k.value, Trim(t[i + 1..])); }
    }
  }

  lemma ScanRange(v: string)
    ensures ScanInt(v).Some? ==> Int64(ScanInt(v).value)
  {
  }

  lemma TextLoadsClean(text: string)
    ensures Clean(Load(text)) && IntFields(Load(text))
  {
    SplitParts(text, '\n');
    LoadedIsClean(Split(text, '\n'));
  }

  /** Saving and loading gives the settings back exactly when every text is trimmed and on one line. */
  lemma RoundTripIff(s: Settings)
    requires IntFields(s)
    ensures Load(Save(s)) == s <==> Clean(s)
  {
    TextLoadsClean(Save(s));
    if Clean(s) {
      BodyApplies(s, 12);
      AllAssigned(s);
      hide ApplyLine, Body, Split, AfterPairs;
      SplitConcat(Body(s, 12), "", '\n');
      assert Save(s) == Body(s, 12) + ['\n'] + "";
      SplitWhole("", '\n');
      var lines := Split(Body(s, 12), '\n');
      assert (lines + [""])[..|lines|] == lines;
      HeaderIgnored(s);
    }
  }

  // ---- changing one setting ----

  datatype Name =
    | SetDomain | SetUpstream | SetPlain | SetLeakIps | SetCdn | SetOnlyProxy | SetLockIps | SetIpLimit
    | SetTokenDays | SetCert | SetKey | SetPort | UnknownName

  predicate IsOn(v: string) {
    v in {"1", "true", "on", "yes"}
  }

  predicate ValidCdn(v: string) {
    v in {"", "none", "cloudflare", "fastly", "generic"}
  }

  function InRange(v: string, low: int, high: int): Option<int> {
    match ScanInt(v) case Some(n) => if low <= n <= high then Some(n) else None case None => None
  }

  /** A bare port means loopback. */
  function UpstreamValue(v: string): string {
    match ParseInt64(v) case Some(n) => if 1 <= n <= 65535 then "127.0.0.1:" + v else v case None => v
  }

  /** The settings after a change with a trimmed value; None is a refusal. */
  function Changed(s: Settings, name: Name, v: string): Option<Settings> {
    match name
    case SetDomain => Some(s.(domain := v))
    case SetUpstream => if ':' in UpstreamValue(v) then Some(s.(upstream := UpstreamValue(v))) else None
    case SetPlain => Some(s.(plain := v))
    case SetLeakIps => (match InRange(v, 0, MAX_INT64) case Some(n) => Some(s.(leakIps := n)) case None => None)
    case SetCdn =>
      if !ValidCdn(v) then None
      else if v == "none" || v == "" then Some(s.(cdn := "", onlyProxy := false))
      else Some(s.(cdn := v))
    case SetOnlyProxy => if IsOn(v) && s.cdn == "" then None else Some(s.(onlyProxy := IsOn(v)))
    case SetLockIps => (match InRange(v, 0, 10000) case Some(n) => Some(s.(lockIps := n)) case None => None)
    case SetIpLimit => Some(s.(noIpLimit := !IsOn(v)))
    case SetTokenDays => (match InRange(v, 1, 7) case Some(n) => Some(s.(tokenDays := n)) case None => None)
    case SetCert => Some(s.(cert := v))
    case SetKey => Some(s.(key := v))
    case SetPort => (match InRange(v, 1, 65535) case Some(n) => Some(s.(port := n)) case None => None)
    case UnknownName => None
  }

  /** SetSetting: the new text, or None when nothing is written. */
  method SetSetting(text: Option<string>, name: Name, value: string) returns (r: Option<string>)
    ensures r == SetText(text, name, value)
  {
    hide Changed, Load, Save;
    var s := LoadSettings(text);
    var s' := Changed(s, name, Trim(value));
    if s' == None { return None; }
    return Some(Save(s'.value));
  }

  function Current(text: Option<string>): Settings {
    if text == None then DEFAULTS else Load(text.value)
  }

  function SetText(text: Option<string>, name: Name, value: string): Option<string> {
    match Changed(Current(text), name, Trim(value))
    case None => None
    case Some(s) => Some(Save(s))
  }

  lemma CurrentIsClean(text: Option<string>)
    ensures Clean(Current(text)) && IntFields(Current(text))
  {
    if text.Some? { TextLoadsClean(text.value); }
  }

  lemma UpstreamClean(v: string)
    requires CleanText(v)
    ensures CleanText(UpstreamValue(v))
  {
    hide ParseInt64;
  }

  lemma ChangedFits(s: Settings, name: Name, v: string)
    requires IntFields(s) && Changed(s, name, v).Some?
    ensures IntFields(Changed(s, name, v).value)
  {
    hide ScanInt, IsOn, ValidCdn, UpstreamValue;
  }

  lemma ServerTextsClean(s: Settings, name: Name, v: string)
    requires CleanText(v) && CleanText(UpstreamValue(v)) && Changed(s, name, v).Some?
    ensures var s' := Changed(s, name, v).value;
            && (CleanText(s.domain) ==> CleanText(s'.domain)) && (CleanText(s.upstream) ==> CleanText(s'.upstream))
            && (CleanText(s.plain) ==> CleanText(s'.plain))
  {
    hide InRange, IsOn, ValidCdn, UpstreamValue, CleanText;
  }

  lemma OtherTextsClean(s: Settings, name: Name, v: string)
    requires CleanText(v) && CleanText("") && Changed(s, name, v).Some?
    ensures var s' := Changed(s, name, v).value;
            && (CleanText(s.cdn) ==> CleanText(s'.cdn)) && (CleanText(s.cert) ==> CleanText(s'.cert))
            && (CleanText(s.key) ==> CleanText(s'.key))
  {
    hide InRange, IsOn, ValidCdn, UpstreamValue, CleanText;
  }

  lemma ChangedIsClean(s: Settings, name: Name, v: string)
    requires Clean(s) && IntFields(s) && CleanText(v) && Changed(s, name, v).Some?
    ensures Clean(Changed(s, name, v).value) && IntFields(Changed(s, name, v).value)
  {
    assert CleanText("");
    hide Changed, UpstreamValue, CleanText, IntFields;
    ChangedFits(s, name, v);
    UpstreamClean(v);
    ServerTextsClean(s, name, v);
    OtherTextsClean(s, name, v);
  }

  /** From any file, a change with a one-line value loads back as exactly that change. */
  lemma SetChangesOnly(text: Option<string>, name: Name, value: string)
    requires '\n' !in value && SetText(text, name, value).Some?
    ensures Some(Load(SetText(text, name, value).value)) == Changed(Current(text), name, Trim(value))
  {
    hide Changed, Load, Save, Trim;
    CurrentIsClean(text);
    TrimChars(value, '\n');
    TrimResult(value);
    ChangedIsClean(Current(text), name, Trim(value));
    RoundTripIff(Changed(Current(text), name, Trim(value)).value);
  }

  // ---- every run of changes ----

  predicate Sound(s: Settings) {
    && (s.onlyProxy ==> s.cdn != "") && s.cdn in {"", "cloudflare", "fastly", "generic"}
    && s.leakIps >= 0 && 0 <= s.lockIps <= 10000
    && (s.tokenDays == 0 || 1 <= s.tokenDays <= 7) && (s.port == 0 || 1 <= s.port <= 65535)
  }

  lemma ChangedIsSound(s: Settings, name: Name, v: string)
    requires Sound(s) && Changed(s, name, v).Some?
    ensures Sound(Changed(s, name, v).value)
  {
    hide ScanInt, ParseInt64, IsOn;
  }

  /** The file after a run of changes; a refused change leaves it alone. */
  function Run(changes: seq<(Name, string)>): Option<string> {
    if changes == [] then None
    else
      var text, c := Run(changes[..|changes| - 1]), changes[|changes| - 1];
      var r := SetText(text, c.0, c.1);
      if r == None then text else r
  }

  /** Any run of one-line changes from a fresh installation keeps the settings sound: refusing direct
      connections implies a CDN, and every number stays in its range. */
  lemma {:induction false} RunStaysSound(changes: seq<(Name, string)>)
    requires forall c <- changes :: '\n' !in c.1
    ensures Sound(Current(Run(changes)))
  {
    hide Changed, Load, Save, Trim;
    if changes != [] {
      var before, c := changes[..|changes| - 1], changes[|changes| - 1];
      RunStaysSound(before);
      if SetText(Run(before), c.0, c.1).Some? {
        SetChangesOnly(Run(before), c.0, c.1);
        ChangedIsSound(Current(Run(before)), c.0, Trim(c.1));
      }
    }
  }
}
