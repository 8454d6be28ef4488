/** Saving an edited link twice: exactly when the second save writes the same link as the first. */
module DraftStable {
  import opened Text
  import opened Percent
  import opened Xray
  import opened Draft
  import opened DraftMeaning

  /** The fields of a form opened on a query, without secret, address and port. */
  predicate ReadFrom(d: Fields, q: Query) {
    && (d.scheme == Vless ==> d.encryption == Val(q, Encryption, "none") && d.flow == Val(q, Flow, ""))
    && d.network == DraftNetwork(Lower(Val(q, Type, "tcp")))
    && d.security == DraftSecurity(Lower(Val(q, Security, DefaultSecurity(d.scheme))))
    && d.path == Val(q, Path, "") && d.hostHeader == Val(q, Host, "") && d.serviceName == Val(q, ServiceName, "")
    && d.mode == Val(q, Mode, "") && d.headerType == Val(q, HeaderType, "none")
    && d.sni == Val(q, Sni, "") && d.fingerprint == Val(q, Fp, "chrome") && d.alpn == Val(q, Alpn, "")
    && d.publicKey == Val(q, Pbk, "") && d.shortId == Val(q, Sid, "") && d.spiderX == Val(q, Spx, "")
    && d.pinnedCert == Val(q, Pcs, "") && d.verifyName == Val(q, Vcn, "")
    && d.extra == Left(q, d.scheme, OTHERS)
  }

  lemma ReadIsReadFrom(l: Link)
    requires Read(l).Some?
    ensures ReadFrom(Read(l).value, l.query) && Read(l).value.scheme == l.scheme
    ensures Read(l).value.secret == Decode(l.userInfo, false).value && Read(l).value.address == UriHost(l.hostText)
    ensures Read(l).value.port == if l.port == None then "" else DecimalOf(l.port.value)
  {
    hide Decode, Lower, DraftNetwork, DraftSecurity, DecimalOf, UriHost, Left;
  }

  /** `extra` holds only parameters the form has no field for. */
  predicate CleanExtra(d: Fields) {
    forall k <- d.extra :: Rank(d.scheme, k) == OTHERS
  }

  /** A form field after the first save: what was shown, or the default. */
  function Again(d: Fields, k: Key, default: string): string {
    if Shown(d, k).Some? then Shown(d, k).value else default
  }

  lemma PutTwice(v: string)
    ensures Put(if Put(v).Some? then Put(v).value else "") == Put(v)
    ensures Put("") == None
  {
    TrimKeeps(v);
    TrimKeeps(Trim(v));
  }

  /** `d'` is the form opened again on the saved link. */
  ghost predicate Reopened(d: Fields, d': Fields) {
    && d'.scheme == d.scheme && d'.extra == d.extra
    && (d.scheme == Vless ==> d'.encryption == Again(d, Encryption, "none") && d'.flow == Again(d, Flow, ""))
    && ReopenedTransport(d, d') && ReopenedSecurity(d, d')
  }

  ghost predicate ReopenedTransport(d: Fields, d': Fields) {
    && d'.network == d.network && d'.path == Again(d, Path, "") && d'.hostHeader == Again(d, Host, "")
    && d'.serviceName == Again(d, ServiceName, "") && d'.mode == Again(d, Mode, "")
    && d'.headerType == Again(d, HeaderType, "none")
  }

  ghost predicate ReopenedSecurity(d: Fields, d': Fields) {
    && d'.security == d.security
    && d'.sni == Again(d, Sni, "") && d'.fingerprint == Again(d, Fp, "chrome") && d'.alpn == Again(d, Alpn, "")
    && d'.publicKey == Again(d, Pbk, "") && d'.shortId == Again(d, Sid, "") && d'.spiderX == Again(d, Spx, "")
    && d'.pinnedCert == Again(d, Pcs, "") && d'.verifyName == Again(d, Vcn, "")
  }

  /** The only parameter a second save can add: a fingerprint left blank under TLS or Reality. */
  predicate BlankFingerprint(d: Fields) {
    d.security != NoSecurity && Trim(d.fingerprint) == ""
  }

  lemma ShownTransportAgain(d: Fields, d': Fields, k: Key)
    requires Reopened(d, d') && k in {Path, Host, ServiceName, Mode, HeaderType, Type}
    ensures Shown(d', k) == Shown(d, k)
  {
    hide Put, Trim;
    PutTwice(d.path);
    PutTwice(d.hostHeader);
    PutTwice(d.serviceName);
    PutTwice(d.mode);
  }

  lemma ShownAccountAgain(d: Fields, d': Fields, k: Key)
    requires Reopened(d, d') && k in {Encryption, Flow, Security}
    ensures Shown(d', k) == Shown(d, k)
  {
    PutTwice(d.flow);
    TrimKeeps(d.encryption);
    TrimKeeps(Trim(d.encryption));
    TrimKeeps("none");
    hide Put, Trim;
  }

  lemma ShownSecurityAgain(d: Fields, d': Fields, k: Key)
    requires Reopened(d, d') && k in {Sni, Alpn, Pbk, Sid, Spx, Pcs, Vcn}
    ensures Shown(d', k) == Shown(d, k)
  {
    hide Put, Trim;
    PutTwice(d.sni);
    PutTwice(d.alpn);
    PutTwice(d.publicKey);
    PutTwice(d.shortId);
    PutTwice(d.spiderX);
    PutTwice(d.pinnedCert);
    PutTwice(d.verifyName);
  }

  lemma ShownFingerprintAgain(d: Fields, d': Fields)
    requires Reopened(d, d')
    ensures Shown(d', Fp) == Shown(d, Fp) <==> !BlankFingerprint(d)
  {
    PutTwice(d.fingerprint);
    assert Trimmed("chrome");
    TrimKeeps("chrome");
    hide Trim;
  }

  lemma ShownAgain(d: Fields, d': Fields, k: Key)
    requires Reopened(d, d') && k != Fp
    ensures Shown(d', k) == Shown(d, k)
  {
    hide Put, Trim, Reopened;
    if k in {Path, Host, ServiceName, Mode, HeaderType, Type} { ShownTransportAgain(d, d', k); }
    else if k in {Encryption, Flow, Security} { ShownAccountAgain(d, d', k); }
    else if k in {Sni, Alpn, Pbk, Sid, Spx, Pcs, Vcn} { ShownSecurityAgain(d, d', k); }
  }

  lemma SameQueryIff(d: Fields, d': Fields)
    requires Reopened(d, d') && CleanExtra(d)
    ensures WrittenQuery(d') == WrittenQuery(d) <==> !BlankFingerprint(d)
  {
    assert Fp !in d.extra && d'.extra == d.extra;
    hide Shown, Reopened, BlankFingerprint, Rank;
    ShownFingerprintAgain(d, d');
    ShownKeys(d, Fp);
    ShownKeys(d', Fp);
    var w, w' := WrittenQuery(d), WrittenQuery(d');
    hide CleanExtra;
    if Shown(d', Fp) == Shown(d, Fp) {
      forall k: Key ensures Shown(d', k) == Shown(d, k) {
        if k != Fp { ShownAgain(d, d', k); }
      }
      assert w == w';
    } else {
      assert (Fp in w <==> Shown(d, Fp).Some?) && (Fp in w ==> w[Fp] == Shown(d, Fp).value);
      assert (Fp in w' <==> Shown(d', Fp).Some?) && (Fp in w' ==> w'[Fp] == Shown(d', Fp).value);
    }
  }

  lemma ExtraRank(l: Link)
    requires Read(l).Some?
    ensures CleanExtra(Read(l).value)
  {
    SchemeRead(l);
    forall k <- Read(l).value.extra ensures Rank(l.scheme, k) == OTHERS { ReadExtra(l, k); }
    hide Read;
  }

  lemma WrittenLeft(d: Fields)
    requires CleanExtra(d)
    ensures Left(WrittenQuery(d), d.scheme, OTHERS) == d.extra
  {
    var w, left := WrittenQuery(d), Left(WrittenQuery(d), d.scheme, OTHERS);
    forall k: Key ensures k in left <==> k in d.extra ensures k in left ==> left[k] == d.extra[k] {
      RankBound(d.scheme, k);
      if Rank(d.scheme, k) == OTHERS { ShownNone(d, k); }
    }
  }

  lemma RankBound(scheme: Scheme, k: Key)
    ensures Rank(scheme, k) <= OTHERS
  {
  }

  lemma ShownNone(d: Fields, k: Key)
    requires Rank(d.scheme, k) == OTHERS
    ensures Shown(d, k) == None
  {
    hide Trim;
  }

  lemma FieldAgain(d: Fields, k: Key, v: string)
    requires Rank(d.scheme, k) < OTHERS && CleanExtra(d)
    ensures Val(WrittenQuery(d), k, v) == Again(d, k, v)
  {
    WrittenAt(d, k);
  }

  /** Opening the saved link fills the form with what was shown. */
  lemma ReopenedAfterSave(d: Fields, d': Fields)
    requires d'.scheme == d.scheme && ReadFrom(d', WrittenQuery(d))
    requires CleanExtra(d)
    ensures Reopened(d, d')
  {
    hide WrittenQuery, Val, Lower, DraftNetwork, DraftSecurity, Again, Left, ReopenedTransport, ReopenedSecurity;
    WrittenLeft(d);
    if d.scheme == Vless {
      FieldAgain(d, Encryption, "none");
      FieldAgain(d, Flow, "");
    }
    TransportReopened(d, d');
    SecurityReopened(d, d');
  }

  lemma NetworkAgain(d: Fields)
    ensures DraftNetwork(Lower(Again(d, Type, "tcp"))) == d.network
  {
    NetworkNames(d.network);
    SameNames(Lower(NetworkName(d.network)));
  }

  lemma SecurityAgain(d: Fields)
    ensures DraftSecurity(Lower(Again(d, Security, DefaultSecurity(d.scheme)))) == d.security
  {
    SecurityNames(d.security);
    SameNames(Lower(SecurityName(d.security)));
  }

  lemma TransportReopened(d: Fields, d': Fields)
    requires d'.scheme == d.scheme && ReadFrom(d', WrittenQuery(d))
    requires CleanExtra(d)
    ensures ReopenedTransport(d, d')
  {
    hide WrittenQuery, Val, Lower, DraftNetwork, DraftSecurity, Again, Left, CleanExtra;
    NetworkAgain(d);
    FieldAgain(d, Type, "tcp");
    FieldAgain(d, Path, "");
    FieldAgain(d, Host, "");
    FieldAgain(d, ServiceName, "");
    FieldAgain(d, Mode, "");
    FieldAgain(d, HeaderType, "none");
  }

  lemma SecurityReopened(d: Fields, d': Fields)
    requires d'.scheme == d.scheme && ReadFrom(d', WrittenQuery(d))
    requires CleanExtra(d)
    ensures ReopenedSecurity(d, d')
  {
    hide WrittenQuery, Val, Lower, DraftNetwork, DraftSecurity, Again, Left, DefaultSecurity, CleanExtra;
    SecurityAgain(d);
    FieldAgain(d, Security, DefaultSecurity(d.scheme));
    FieldAgain(d, Sni, "");
    FieldAgain(d, Fp, "chrome");
    FieldAgain(d, Alpn, "");
    FieldAgain(d, Pbk, "");
    FieldAgain(d, Sid, "");
    FieldAgain(d, Spx, "");
    FieldAgain(d, Pcs, "");
    FieldAgain(d, Vcn, "");
  }

  /** The second save writes the link of the first one exactly when no blank fingerprint was left. */
  lemma SecondSaveSameIff(l: Link)
    requires Read(l).Some? && HostShape(l.hostText)
    ensures IsBytes(Trim(Read(l).value.secret))
    ensures var once := Write(Read(l).value);
            && Read(once).Some? && IsBytes(Trim(Read(once).value.secret))
            && (Write(Read(once).value) == once <==> !BlankFingerprint(Read(l).value))
  {
    hide IsUtf8, IsBytes;
    Writable(l);
    ReadIsReadFrom(l);
    ExtraRank(l);
    var d := Read(l).value;
    var once := Write(d);
    RoundTrip(Trim(d.secret), false);
    ReadsAgain(once);
    Writable(once);
    ReadIsReadFrom(once);
    var d' := Read(once).value;
    ReopenedAfterSave(d, d');
    SameQueryIff(d, d');
    AddressKept(l.hostText);
    TrimKeeps(d.secret);
    TrimKeeps(Trim(d.secret));
    TrimKeeps(d.address);
    TrimKeeps(Trim(d.address));
    if l.port.Some? { PortKept(l.port.value); }
    TrimFixpoint("");
    hide Read, WrittenQuery, Trim, Encode, Decode, DecimalOf, UriHost, HostForUri, ParsePort, ReadFrom, Reopened, BlankFingerprint;
    assert ParsePort("") == None by { NoPort(); }
  }

  lemma NoPort()
    ensures ParsePort("") == None
  {
  }

  lemma ReadsAgain(l: Link)
    requires Decode(l.userInfo, false).Some?
    ensures Read(l).Some?
  {
  }
}
