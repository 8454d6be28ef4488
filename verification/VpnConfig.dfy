/** Stored configs of vpn_config.dart and the links they hold. */
module VpnConfig {
  import opened Text

  datatype Config = Config(
    id: string, name: string, protocol: string, host: Option<string>, port: Option<int>, raw: string, source: string,
    channelRef: Option<string>, adText: Option<string>, telegramUrl: Option<string>, locked: bool,
    creator: Option<string>, gateCode: Option<string>, expiresAt: Option<int>)

  function Links(configs: seq<Config>): set<string> {
    set c <- configs :: c.raw
  }

  lemma LinksOfNone()
    ensures Links([]) == {}
  {
  }

  lemma LinksOfMore(xs: seq<Config>, x: Config)
    ensures Links(xs + [x]) == Links(xs) + {x.raw}
  {
    assert forall c :: c in xs + [x] <==> c in xs || c == x;
  }

  lemma LinksHold(xs: seq<Config>)
    ensures forall x <- xs :: x.raw in Links(xs)
  {
  }

  /** How many configs have a link. */
  function Times(configs: seq<Config>, link: string): nat {
    if configs == [] then 0
    else Times(configs[..|configs| - 1], link) + if configs[|configs| - 1].raw == link then 1 else 0
  }

  lemma {:induction false} TimesConcat(a: seq<Config>, b: seq<Config>, link: string)
    ensures Times(a + b, link) == Times(a, link) + Times(b, link)
  {
    if b == [] {
      assert a + b == a;
    } else {
      var before := b[..|b| - 1];
      TimesConcat(a, before, link);
      assert (a + b)[..|a + b| - 1] == a + before;
    }
  }

  lemma TimesOfOne(x: Config, link: string)
    ensures Times([x], link) == if x.raw == link then 1 else 0
  {
    assert [x][..0] == [];
  }

  lemma {:induction false} TimesOfLink(configs: seq<Config>, link: string)
    ensures link in Links(configs) <==> Times(configs, link) > 0
  {
    hide Links;
    if configs == [] {
      LinksOfNone();
    } else {
      var before, c := configs[..|configs| - 1], configs[|configs| - 1];
      TimesOfLink(before, link);
      LinksOfMore(before, c);
      assert before + [c] == configs;
    }
  }
}
