/** What the names of gate.conf and of `oversee set` mean, on the text of the file. */
module SettingsMeaning {
  import opened Text
  import opened Settings

  // ---- one more line of the file ----

  lemma LoadMore(text: string, line: string)
    requires '\n' !in line
    ensures Load(text + "\n" + line) == ApplyLine(Load(text), line)
  {
    hide ApplyLine, Split;
    SplitConcat(text, line, '\n');
    SplitWhole(line, '\n');
    assert text + ['\n'] + line == text + "\n" + line;
    var before := Split(text, '\n');
    assert (before + [line])[..|before|] == before;
  }

  lemma LoadKey(text: string, k: Key, v: string)
    requires CleanText(v)
    ensures Load(text + "\n" + (KeyName(k) + "=" + v)) == Assign(Load(text), k, v)
  {
    hide ApplyLine, Assign, KeyName, Load;
    LineAssigns(Load(text), k, v);
    LoadMore(text, KeyName(k) + "=" + v);
  }

  /** Each name of a text sets its own field. */
  lemma TextNames(text: string, v: string)
    requires CleanText(v)
    ensures var s := Load(text);
            && Load(text + "\n" + ("DOMAIN=" + v)) == s.(domain := v)
            && Load(text + "\n" + ("UPSTREAM=" + v)) == s.(upstream := v)
            && Load(text + "\n" + ("PLAIN=" + v)) == s.(plain := v)
            && Load(text + "\n" + ("CDN=" + v)) == s.(cdn := v)
            && Load(text + "\n" + ("CERT=" + v)) == s.(cert := v)
            && Load(text + "\n" + ("KEY=" + v)) == s.(key := v)
  {
    hide Load;
    Named(text, Domain, "DOMAIN=", v);
    Named(text, Upstream, "UPSTREAM=", v);
    Named(text, Plain, "PLAIN=", v);
    Named(text, Cdn, "CDN=", v);
    Named(text, Cert, "CERT=", v);
    Named(text, KeyFile, "KEY=", v);
    hide KeyName;
  }

  lemma Named(text: string, k: Key, name: string, v: string)
    requires CleanText(v) && name == KeyName(k) + "="
    ensures Load(text + "\n" + (name + v)) == Assign(Load(text), k, v)
  {
    hide Load, Assign, KeyName;
    LoadKey(text, k, v);
    assert name + v == KeyName(k) + "=" + v;
  }

  /** Each name of a switch sets its own flag, and IP_LIMIT only ever turns the limit off. */
  lemma SwitchNames(text: string, v: string)
    requires CleanText(v)
    ensures var s := Load(text);
            && Load(text + "\n" + ("ONLY_PROXY=" + v)) == s.(onlyProxy := v in {"1", "true"})
            && Load(text + "\n" + ("IP_LIMIT=" + v))
               == if Lower(v) in {"off", "0", "false", "no"} then s.(noIpLimit := true) else s
  {
    hide Load, Lower;
    Named(text, OnlyProxy, "ONLY_PROXY=", v);
    Named(text, IpLimit, "IP_LIMIT=", v);
    hide KeyName;
  }

  /** A text that begins with the decimal number n, as Sscanf reads it. */
  predicate BeginsWith(v: string, n: int) {
    Int64(n) && exists i | 0 <= i <= |v| :: v[..i] == DecimalOf(n) && (i < |v| ==> !IsDigit(v[i]))
  }

  /** A text without a number at its front. */
  predicate NoNumber(v: string) {
    var body := if v != "" && v[0] in "+-" then v[1..] else v;
    body == "" || !IsDigit(body[0])
  }

  lemma {:induction false} RunOf(digits: string, rest: string)
    requires (forall i | 0 <= i < |digits| :: IsDigit(digits[i])) && (rest == "" || !IsDigit(rest[0]))
    ensures DigitRun(digits + rest) == |digits|
  {
    if digits == "" {
      assert digits + rest == rest;
    } else {
      RunOf(digits[1..], rest);
      assert (digits + rest)[1..] == digits[1..] + rest;
    }
  }

  predicate AllDigits(d: string) {
    d != "" && forall i | 0 <= i < |d| :: IsDigit(d[i])
  }

  lemma ScansDigits(d: string, rest: string)
    requires AllDigits(d) && (rest == "" || !IsDigit(rest[0])) && Int64(DigitsValue(d))
    ensures ScanInt(d + rest) == Some(DigitsValue(d))
  {
    RunOf(d, rest);
    hide DigitRun, DigitsValue;
    var v := d + rest;
    assert v[..|d|] == d && v[0] == d[0] && IsDigit(d[0]);
  }

  lemma ScansNegative(d: string, rest: string)
    requires AllDigits(d) && (rest == "" || !IsDigit(rest[0])) && Int64(0 - DigitsValue(d))
    ensures ScanInt("-" + d + rest) == Some(0 - DigitsValue(d))
  {
    RunOf(d, rest);
    hide DigitRun, DigitsValue;
    var v := "-" + d + rest;
    assert v[0] == '-' && v[1..] == d + rest;
    assert (d + rest)[..|d|] == d;
  }

  lemma ScansNumber(v: string, n: int)
    requires BeginsWith(v, n)
    ensures ScanInt(v) == Some(n)
  {
    hide ScanInt, IsDigit, DigitsOf, DigitsValue;
    var i :| 0 <= i <= |v| && v[..i] == DecimalOf(n) && (i < |v| ==> !IsDigit(v[i]));
    var m := if n < 0 then -n else n;
    var d, rest := DigitsOf(m), v[i..];
    DigitsRoundTrip(m);
    DigitsAre(d);
    assert v == v[..i] + rest;
    if n < 0 { ScansNegative(d, rest); } else { ScansDigits(d, rest); }
  }

  lemma DigitsAre(d: string)
    requires d != "" && forall c <- d :: IsDigit(c)
    ensures AllDigits(d)
  {
  }

  lemma ScansNothing(v: string)
    requires NoNumber(v)
    ensures ScanInt(v) == None
  {
  }

  /** Each name of a number sets its own field; a value without a number leaves it alone. */
  lemma NumberNames(text: string, v: string, n: int)
    requires CleanText(v) && BeginsWith(v, n)
    ensures var s := Load(text);
            && Load(text + "\n" + ("LEAK_IPS=" + v)) == s.(leakIps := n)
            && Load(text + "\n" + ("TOKEN_DAYS=" + v)) == s.(tokenDays := n)
            && Load(text + "\n" + ("PORT=" + v)) == s.(port := n)
            && Load(text + "\n" + ("LOCK_IPS=" + v)) == s.(lockIps := n)
  {
    hide Load, ScanInt, BeginsWith;
    ScansNumber(v, n);
    Named(text, LeakIps, "LEAK_IPS=", v);
    Named(text, TokenDays, "TOKEN_DAYS=", v);
    Named(text, Port, "PORT=", v);
    Named(text, LockIps, "LOCK_IPS=", v);
    hide KeyName;
  }

  lemma NumberIgnored(text: string, v: string)
    requires CleanText(v) && NoNumber(v)
    ensures var s := Load(text);
            && Load(text + "\n" + ("LEAK_IPS=" + v)) == Load(text + "\n" + ("TOKEN_DAYS=" + v)) == s
            && Load(text + "\n" + ("PORT=" + v)) == Load(text + "\n" + ("LOCK_IPS=" + v)) == s
  {
    hide Load, ScanInt, NoNumber;
    ScansNothing(v);
    Named(text, LeakIps, "LEAK_IPS=", v);
    Named(text, TokenDays, "TOKEN_DAYS=", v);
    Named(text, Port, "PORT=", v);
    Named(text, LockIps, "LOCK_IPS=", v);
    hide KeyName;
  }

  /** A line without an equals sign, or whose name begins with a number sign, is skipped. */
  lemma CommentsSkipped(text: string, name: string, v: string)
    requires CleanText("#" + name + "=" + v) && '=' !in name
    ensures Load(text + "\n" + ("#" + name + "=" + v)) == Load(text)
  {
    hide Load, Assign, KeyNamed, Trim;
    var line := ("#" + name) + ['='] + v;
    assert line == "#" + name + "=" + v;
    LoadMore(text, line);
    TrimFixpoint(line);
    IndexOfAppend("#" + name, '=', v);
    assert line[..|name| + 1] == "#" + name;
  }

  // ---- one change ----

  /** The settings after a change that is not refused. */
  function Set(text: Option<string>, name: Name, value: string): Option<Settings> {
    match SetText(text, name, value) case None => None case Some(t) => Some(Load(t))
  }

  lemma SetIsChange(text: Option<string>, name: Name, value: string)
    requires '\n' !in value
    ensures Set(text, name, value) == Changed(Current(text), name, Trim(value))
  {
    hide Load, Save, Changed, Trim, Current;
    if SetText(text, name, value).Some? { SetChangesOnly(text, name, value); }
  }

  /** Each name of a text sets its own field. */
  lemma SetTexts(text: Option<string>, value: string)
    requires '\n' !in value
    ensures var s, v := Current(text), Trim(value);
            && Set(text, SetDomain, value) == Some(s.(domain := v)) && Set(text, SetPlain, value) == Some(s.(plain := v))
            && Set(text, SetCert, value) == Some(s.(cert := v)) && Set(text, SetKey, value) == Some(s.(key := v))
  {
    hide Set, Current, Trim;
    SetIsChange(text, SetDomain, value);
    SetIsChange(text, SetPlain, value);
    SetIsChange(text, SetCert, value);
    SetIsChange(text, SetKey, value);
  }

  /** The limit on addresses is on exactly for the four words; direct connections are refused for them too, but only
      behind a CDN. */
  lemma SetSwitches(text: Option<string>, value: string)
    requires '\n' !in value
    ensures var s := Current(text);
            var on := Trim(value) in {"1", "true", "on", "yes"};
            && Set(text, SetIpLimit, value) == Some(s.(noIpLimit := !on))
            && Set(text, SetOnlyProxy, value) == if on && s.cdn == "" then None else Some(s.(onlyProxy := on))
  {
    hide Set, Current, Trim;
    SetIsChange(text, SetIpLimit, value);
    SetIsChange(text, SetOnlyProxy, value);
  }

  /** A CDN is one of three, or none, which lets direct connections in again. */
  lemma SetCdns(text: Option<string>, value: string)
    requires '\n' !in value
    ensures var s, v := Current(text), Trim(value);
            Set(text, SetCdn, value)
            == if v in {"cloudflare", "fastly", "generic"} then Some(s.(cdn := v))
               else if v in {"", "none"} then Some(s.(cdn := "", onlyProxy := false)) else None
  {
    hide Set, Current, Trim;
    SetIsChange(text, SetCdn, value);
  }

  lemma ChangedNumber(s: Settings, v: string, n: int)
    requires ScanInt(v) == Some(n)
    ensures Changed(s, SetLeakIps, v) == (if 0 <= n <= MAX_INT64 then Some(s.(leakIps := n)) else None)
    ensures Changed(s, SetLockIps, v) == (if 0 <= n <= 10000 then Some(s.(lockIps := n)) else None)
    ensures Changed(s, SetTokenDays, v) == (if 1 <= n <= 7 then Some(s.(tokenDays := n)) else None)
    ensures Changed(s, SetPort, v) == (if 1 <= n <= 65535 then Some(s.(port := n)) else None)
  {
    hide ScanInt;
  }

  lemma ChangedNothing(s: Settings, v: string)
    requires ScanInt(v) == None
    ensures Changed(s, SetLeakIps, v) == Changed(s, SetLockIps, v) == None
    ensures Changed(s, SetTokenDays, v) == Changed(s, SetPort, v) == None
  {
    hide ScanInt;
  }

  /** Numbers have to be in their range. */
  lemma SetNumbers(text: Option<string>, value: string, n: int)
    requires '\n' !in value && BeginsWith(Trim(value), n)
    ensures var s := Current(text);
            && Set(text, SetLeakIps, value) == (if n >= 0 then Some(s.(leakIps := n)) else None)
            && Set(text, SetLockIps, value) == (if 0 <= n <= 10000 then Some(s.(lockIps := n)) else None)
            && Set(text, SetTokenDays, value) == (if 1 <= n <= 7 then Some(s.(tokenDays := n)) else None)
            && Set(text, SetPort, value) == (if 1 <= n <= 65535 then Some(s.(port := n)) else None)
  {
    hide Set, Current, Trim, ScanInt, Changed;
    ScansNumber(Trim(value), n);
    ChangedNumber(Current(text), Trim(value), n);
    SetIsChange(text, SetLeakIps, value);
    SetIsChange(text, SetLockIps, value);
    SetIsChange(text, SetTokenDays, value);
    SetIsChange(text, SetPort, value);
  }

  lemma SetNoNumber(text: Option<string>, value: string)
    requires '\n' !in value && NoNumber(Trim(value))
    ensures Set(text, SetLeakIps, value) == Set(text, SetLockIps, value) == None
    ensures Set(text, SetTokenDays, value) == Set(text, SetPort, value) == None
  {
    hide Set, Current, Trim, ScanInt, Changed;
    ScansNothing(Trim(value));
    ChangedNothing(Current(text), Trim(value));
    SetIsChange(text, SetLeakIps, value);
    SetIsChange(text, SetLockIps, value);
    SetIsChange(text, SetTokenDays, value);
    SetIsChange(text, SetPort, value);
  }

  /** An upstream needs a colon; a bare port is on the loopback address. */
  lemma SetUpstreams(text: Option<string>, value: string, port: int)
    requires '\n' !in value
    ensures var s, v := Current(text), Trim(value);
            && (v == DecimalOf(port) && 1 <= port <= 65535 ==>
                  Set(text, SetUpstream, value) == Some(s.(upstream := "127.0.0.1:" + v)))
            && (':' in v ==> Set(text, SetUpstream, value) == Some(s.(upstream := v)))
            && (':' !in v && (v == "" || exists c <- v :: !IsDigit(c) && c !in "+-") ==> Set(text, SetUpstream, value) == None)
  {
    hide Set, Current, Trim;
    SetIsChange(text, SetUpstream, value);
    var v := Trim(value);
    if 1 <= port <= 65535 { ParseDecimal(port); }
    hide DecimalOf;
    assert ("127.0.0.1:" + v)[9] == ':';
    if ':' in v { NotANumber(v, ':'); }
    if c :| c in v && !IsDigit(c) && c !in "+-" { NotANumber(v, c); }
  }

  lemma NotANumber(v: string, c: char)
    requires c in v && !IsDigit(c) && c !in "+-"
    ensures ParseInt64(v) == None
  {
    var i :| 0 <= i < |v| && v[i] == c;
    assert v[0] in "+-" ==> i > 0 && v[1..][i - 1] == c;
  }
}
