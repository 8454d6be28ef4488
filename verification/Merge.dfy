/** Refreshing a subscription: merge of subscription.dart. */
module Merge {
  import opened Text
  import opened VpnConfig

  predicate Own(c: Config, subId: string) {
    c.channelRef == Some(subId)
  }

  function Others(current: seq<Config>, subId: string): seq<Config> {
    if current == [] then []
    else
      var c := current[|current| - 1];
      Others(current[..|current| - 1], subId) + if Own(c, subId) then [] else [c]
  }

  /** The subscription's own configs by link; a later one replaces an earlier one. */
  function Mine(current: seq<Config>, subId: string): map<string, Config> {
    if current == [] then map[]
    else
      var c := current[|current| - 1];
      var before := Mine(current[..|current| - 1], subId);
      if Own(c, subId) then before[c.raw := c] else before
  }

  /** A fetched config, under its old id when it was there before. */
  function Kept(mine: map<string, Config>, f: Config): Config {
    if f.raw in mine then f.(id := mine[f.raw].id) else f
  }

  function Added(taken: set<string>, mine: map<string, Config>, fetched: seq<Config>): seq<Config> {
    if fetched == [] then []
    else
      var before, f := fetched[..|fetched| - 1], fetched[|fetched| - 1];
      Added(taken, mine, before) + if f.raw in taken + Links(before) then [] else [Kept(mine, f)]
  }

  function Merged(current: seq<Config>, subId: string, fetched: seq<Config>): seq<Config> {
    var others := Others(current, subId);
    others + Added(Links(others), Mine(current, subId), fetched)
  }

  method Merge(current: seq<Config>, subId: string, fetched: seq<Config>) returns (out: seq<Config>)
    ensures out == Merged(current, subId, fetched)
  {
    var others := Others(current, subId);
    var mine := Mine(current, subId);
    var taken := Links(others);
    out := others;
    hide Others, Mine, Links;
    LinksOfNone();
    for i := 0 to |fetched|
      invariant taken == Links(others) + Links(fetched[..i])
      invariant out == others + Added(Links(others), mine, fetched[..i])
    {
      var f := fetched[i];
      AddedStep(Links(others), mine, fetched[..i], f);
      KeptMeans(mine, f);
      LinksOfMore(fetched[..i], f);
      assert fetched[..i] + [f] == fetched[..i + 1];
      if f.raw in taken { continue; }
      taken := taken + {f.raw};
      out := out + [if f.raw in mine then f.(id := mine[f.raw].id) else f];
    }
    assert fetched[..|fetched|] == fetched;
  }

  lemma AddedStep(taken: set<string>, mine: map<string, Config>, before: seq<Config>, f: Config)
    ensures Added(taken, mine, before + [f])
      == if f.raw in taken || f.raw in Links(before) then Added(taken, mine, before)
         else Added(taken, mine, before) + [Kept(mine, f)]
  {
    var all := before + [f];
    assert all[..|all| - 1] == before && all[|all| - 1] == f;
  }

  lemma KeptMeans(mine: map<string, Config>, f: Config)
    ensures Kept(mine, f) == f.(id := Kept(mine, f).id)
    ensures Kept(mine, f).id == if f.raw in mine then mine[f.raw].id else f.id
  {
  }

  // ---- what is there before ----

  lemma {:induction false} OthersMembers(current: seq<Config>, subId: string)
    ensures forall c :: c in Others(current, subId) <==> c in current && !Own(c, subId)
  {
    if current != [] {
      var before, c := current[..|current| - 1], current[|current| - 1];
      OthersMembers(before, subId);
      assert current == before + [c];
    }
  }

  lemma {:induction false} MineMembers(current: seq<Config>, subId: string)
    ensures forall l :: l in Mine(current, subId) ==>
      var c := Mine(current, subId)[l]; c in current && Own(c, subId) && c.raw == l
    ensures forall c <- current :: Own(c, subId) ==> c.raw in Mine(current, subId)
  {
    if current != [] {
      var before, c := current[..|current| - 1], current[|current| - 1];
      MineMembers(before, subId);
      assert current == before + [c];
    }
  }

  lemma {:induction false} OthersConcat(a: seq<Config>, b: seq<Config>, subId: string)
    ensures Others(a + b, subId) == Others(a, subId) + Others(b, subId)
  {
    if b == [] {
      assert a + b == a;
    } else {
      var before := b[..|b| - 1];
      OthersConcat(a, before, subId);
      assert (a + b)[..|a + b| - 1] == a + before;
    }
  }

  lemma {:induction false} OthersOfOne(xs: seq<Config>, subId: string)
    ensures (forall c <- xs :: Own(c, subId)) ==> Others(xs, subId) == []
    ensures (forall c <- xs :: !Own(c, subId)) ==> Others(xs, subId) == xs
  {
    if xs != [] {
      var before, c := xs[..|xs| - 1], xs[|xs| - 1];
      OthersOfOne(before, subId);
      assert xs == before + [c];
    }
  }

  // ---- every link counted ----

  lemma {:induction false} TimesAdded(taken: set<string>, mine: map<string, Config>, fetched: seq<Config>, link: string)
    ensures Times(Added(taken, mine, fetched), link) == if link in Links(fetched) && link !in taken then 1 else 0
  {
    hide Links, Kept;
    LinksOfNone();
    if fetched != [] {
      var before, f := fetched[..|fetched| - 1], fetched[|fetched| - 1];
      KeptMeans(mine, f);
      AddedStep(taken, mine, before, f);
      TimesAdded(taken, mine, before, link);
      LinksOfMore(before, f);
      assert before + [f] == fetched;
      hide Added;
      TimesConcat(Added(taken, mine, before), [Kept(mine, f)], link);
      TimesOfOne(Kept(mine, f), link);
    }
  }

  /** Conservation of links: other configs keep theirs, and every fetched link that they do not have is
      there exactly once. */
  lemma EveryLinkCounted(current: seq<Config>, subId: string, fetched: seq<Config>, link: string)
    ensures var others := Others(current, subId);
      Times(Merged(current, subId, fetched), link)
      == Times(others, link) + if link in Links(fetched) && link !in Links(others) then 1 else 0
  {
    var others := Others(current, subId);
    TimesAdded(Links(others), Mine(current, subId), fetched, link);
    TimesConcat(others, Added(Links(others), Mine(current, subId), fetched), link);
  }

  // ---- what an added config is ----

  /** `f` is the first fetched config with its link. */
  ghost predicate First(fetched: seq<Config>, f: Config) {
    exists i :: 0 <= i < |fetched| && fetched[i] == f && f.raw !in Links(fetched[..i])
  }

  lemma {:induction false} AddedOrigin(taken: set<string>, mine: map<string, Config>, fetched: seq<Config>, x: Config)
    ensures x in Added(taken, mine, fetched) <==> exists f :: First(fetched, f) && f.raw !in taken && x == Kept(mine, f)
  {
    if fetched != [] {
      var before, f := fetched[..|fetched| - 1], fetched[|fetched| - 1];
      AddedOrigin(taken, mine, before, x);
      forall g ensures First(fetched, g) <==> First(before, g) || (g == f && f.raw !in Links(before)) {
        FirstOfMore(before, f, g);
        assert before + [f] == fetched;
      }
    }
  }

  lemma FirstOfMore(before: seq<Config>, f: Config, g: Config)
    ensures First(before + [f], g) <==> First(before, g) || (g == f && f.raw !in Links(before))
  {
    var all := before + [f];
    assert all[..|before|] == before;
    assert forall i | 0 <= i <= |before| :: all[..i] == before[..i];
    if First(before, g) {
      var i :| 0 <= i < |before| && before[i] == g && g.raw !in Links(before[..i]);
      assert all[i] == g && g.raw !in Links(all[..i]);
    }
    if g == f && f.raw !in Links(before) {
      assert all[|before|] == g && g.raw !in Links(all[..|before|]);
    }
    if First(all, g) {
      var i :| 0 <= i < |all| && all[i] == g && g.raw !in Links(all[..i]);
      assert i < |before| ==> before[i] == g && g.raw !in Links(before[..i]);
    }
  }

  /** Config `j` is the last one of the subscription with a link. */
  predicate LastOwn(current: seq<Config>, j: nat, subId: string, link: string) {
    && j < |current| && current[j].channelRef == Some(subId) && current[j].raw == link
    && forall k | j < k < |current| && current[k].channelRef == Some(subId) :: current[k].raw != link
  }

  lemma {:induction false} MineIsLast(current: seq<Config>, subId: string, link: string)
    ensures link in Mine(current, subId) ==> exists j: nat | j < |current| :: LastOwn(current, j, subId, link)
    ensures forall j: nat | LastOwn(current, j, subId, link) ::
              link in Mine(current, subId) && Mine(current, subId)[link] == current[j]
  {
    if current != [] {
      var n := |current| - 1;
      var before, c := current[..n], current[n];
      MineIsLast(before, subId, link);
      if c.channelRef == Some(subId) && c.raw == link {
        assert LastOwn(current, n, subId, link);
      } else {
        forall j: nat ensures LastOwn(current, j, subId, link) <==> LastOwn(before, j, subId, link) {}
      }
    }
  }

  /** `x` is the fetched config `f`, under the id of the last own config that had its link, if there was one. */
  predicate Refreshed(current: seq<Config>, subId: string, f: Config, x: Config) {
    && x == f.(id := x.id)
    && (forall j: nat | j < |current| && LastOwn(current, j, subId, f.raw) :: x.id == current[j].id)
    && ((forall j: nat | j < |current| :: !LastOwn(current, j, subId, f.raw)) ==> x.id == f.id)
  }

  lemma KeptIsRefreshed(current: seq<Config>, subId: string, f: Config, x: Config)
    ensures Refreshed(current, subId, f, x) <==> x == Kept(Mine(current, subId), f)
  {
    MineIsLast(current, subId, f.raw);
    hide LastOwn, Mine;
    if f.raw in Mine(current, subId) {
      var j: nat :| j < |current| && LastOwn(current, j, subId, f.raw);
    }
  }

  /** The merged list, member by member: a config from elsewhere, unchanged, or the first fetched one with its
      link, when the link is nowhere else, under the id that the subscription's config had for it. */
  lemma MergedMembers(current: seq<Config>, subId: string, fetched: seq<Config>, x: Config)
    ensures x in Merged(current, subId, fetched)
      <==> ((x in current && x.channelRef != Some(subId))
        || (exists f :: First(fetched, f) && (forall c <- current :: c.raw == f.raw ==> c.channelRef == Some(subId))
              && Refreshed(current, subId, f, x)))
  {
    var others, mine := Others(current, subId), Mine(current, subId);
    OthersMembers(current, subId);
    AddedOrigin(Links(others), mine, fetched, x);
    hide Others, Mine, Added, First, Kept, Refreshed;
    forall f: Config ensures f.raw !in Links(others) <==> forall c <- current :: c.raw == f.raw ==> c.channelRef == Some(subId) {
      if f.raw !in Links(others) {
        forall c <- current | c.raw == f.raw ensures c.channelRef == Some(subId) { assert c !in others; }
      }
    }
    forall f: Config ensures Refreshed(current, subId, f, x) <==> x == Kept(mine, f) { KeptIsRefreshed(current, subId, f, x); }
  }

  /** What more is fetched only adds at the end. */
  lemma FetchedInOrder(current: seq<Config>, subId: string, fetched: seq<Config>, f: Config)
    ensures Merged(current, subId, fetched) <= Merged(current, subId, fetched + [f])
  {
    AddedStep(Links(Others(current, subId)), Mine(current, subId), fetched, f);
  }

  /** Configs from elsewhere keep their values and their order, in front. */
  lemma OthersUntouched(current: seq<Config>, subId: string, fetched: seq<Config>)
    requires forall f <- fetched :: f.channelRef == Some(subId)
    ensures Others(Merged(current, subId, fetched), subId) == Others(current, subId) <= Merged(current, subId, fetched)
  {
    var others, mine := Others(current, subId), Mine(current, subId);
    var added := Added(Links(others), mine, fetched);
    AddedAreOwn(Links(others), mine, fetched, subId);
    OthersConcat(others, added, subId);
    OthersMembers(current, subId);
    OthersOfOne(others, subId);
    OthersOfOne(added, subId);
  }

  /** The configs from elsewhere are those without the subscription's reference, in their order. */
  lemma {:induction false} ElsewhereMeans(a: seq<Config>, b: seq<Config>, c: Config, subId: string)
    ensures Others(a + b, subId) == Others(a, subId) + Others(b, subId)
    ensures Others([c], subId) == if c.channelRef == Some(subId) then [] else [c]
  {
    OthersConcat(a, b, subId);
    assert [c][..0] == [];
  }

  lemma {:induction false} AddedAreOwn(taken: set<string>, mine: map<string, Config>, fetched: seq<Config>, subId: string)
    requires forall f <- fetched :: Own(f, subId)
    ensures forall x <- Added(taken, mine, fetched) :: Own(x, subId)
  {
    hide Links, Kept;
    if fetched != [] {
      var before, f := fetched[..|fetched| - 1], fetched[|fetched| - 1];
      assert before + [f] == fetched && f in fetched;
      AddedAreOwn(taken, mine, before, subId);
      KeptMeans(mine, f);
      AddedStep(taken, mine, before, f);
    }
  }

  // ---- links and ids stay distinct ----

  predicate DistinctLinks(xs: seq<Config>) {
    forall i, j :: 0 <= i < j < |xs| ==> xs[i].raw != xs[j].raw
  }

  predicate DistinctIds(xs: seq<Config>) {
    forall i, j :: 0 <= i < j < |xs| ==> xs[i].id != xs[j].id
  }

  lemma {:induction false} AddedLinks(taken: set<string>, mine: map<string, Config>, fetched: seq<Config>)
    ensures Links(Added(taken, mine, fetched)) == Links(fetched) - taken
    ensures DistinctLinks(Added(taken, mine, fetched))
  {
    hide Links, Kept;
    LinksOfNone();
    if fetched != [] {
      var before, f := fetched[..|fetched| - 1], fetched[|fetched| - 1];
      KeptMeans(mine, f);
      AddedStep(taken, mine, before, f);
      AddedLinks(taken, mine, before);
      LinksOfMore(before, f);
      assert before + [f] == fetched;
      LinksOfMore(Added(taken, mine, before), Kept(mine, f));
      LinksHold(Added(taken, mine, before));
    }
  }

  /** A refresh never brings in a second copy of a link. */
  lemma LinksStayDistinct(current: seq<Config>, subId: string, fetched: seq<Config>)
    ensures DistinctLinks(Merged(current, subId, fetched)) <==> DistinctLinks(Others(current, subId))
  {
    var others := Others(current, subId);
    var added := Added(Links(others), Mine(current, subId), fetched);
    AddedLinks(Links(others), Mine(current, subId), fetched);
    hide Others, Mine, Added, Links;
    var out := others + added;
    assert forall x <- added :: x.raw in Links(added) by { LinksHold(added); }
    assert forall x <- others :: x.raw in Links(others) by { LinksHold(others); }
    if DistinctLinks(out) {
      forall i, j | 0 <= i < j < |others| ensures others[i].raw != others[j].raw {
        assert out[i] == others[i] && out[j] == others[j];
      }
    }
  }

  lemma IdsApart(xs: seq<Config>, a: Config, b: Config)
    requires DistinctIds(xs) && a in xs && b in xs && a != b
    ensures a.id != b.id
  {
  }

  lemma {:induction false} OthersIds(current: seq<Config>, subId: string)
    requires DistinctIds(current)
    ensures DistinctIds(Others(current, subId))
  {
    if current != [] {
      var before, c := current[..|current| - 1], current[|current| - 1];
      OthersIds(before, subId);
      OthersMembers(before, subId);
      forall x <- before ensures x.id != c.id {
        var i :| 0 <= i < |before| && before[i] == x;
        assert current[i] == x;
      }
    }
  }

  /** The config whose id `x` carries: the last own one with its link, or a fetched one. */
  lemma IdSource(current: seq<Config>, subId: string, fetched: seq<Config>, x: Config) returns (a: Config)
    requires x in Added(Links(Others(current, subId)), Mine(current, subId), fetched)
    ensures a.id == x.id && a.raw == x.raw && (a in fetched || (a in current && Own(a, subId)))
  {
    var mine := Mine(current, subId);
    AddedOrigin(Links(Others(current, subId)), mine, fetched, x);
    MineMembers(current, subId);
    hide Others, Mine, Added, Links;
    var f :| First(fetched, f) && x == Kept(mine, f);
    KeptMeans(mine, f);
    a := if f.raw in mine then mine[f.raw] else f;
  }

  lemma DistinctParts(xs: seq<Config>, ys: seq<Config>)
    requires DistinctIds(xs + ys)
    ensures DistinctIds(xs) && DistinctIds(ys)
    ensures forall x, y | x in xs && y in ys :: x.id != y.id
  {
    var all := xs + ys;
    assert forall i | 0 <= i < |xs| :: all[i] == xs[i];
    assert forall j | 0 <= j < |ys| :: all[|xs| + j] == ys[j];
  }

  /** With fresh ids on the fetched configs, no two configs share an id after a refresh. */
  lemma IdsStayDistinct(current: seq<Config>, subId: string, fetched: seq<Config>)
    requires DistinctIds(current + fetched)
    ensures DistinctIds(Merged(current, subId, fetched))
  {
    var others, mine := Others(current, subId), Mine(current, subId);
    var added := Added(Links(others), mine, fetched);
    DistinctParts(current, fetched);
    OthersIds(current, subId);
    OthersMembers(current, subId);
    AddedLinks(Links(others), mine, fetched);
    forall x, y | x in added && y in others ensures x.id != y.id {
      var a := IdSource(current, subId, fetched, x);
      hide *;
      assert a in fetched ==> a.id != y.id;
      if a in current { IdsApart(current, a, y); }
    }
    forall x, y | x in added && y in added && x.raw != y.raw ensures x.id != y.id {
      var a := IdSource(current, subId, fetched, x);
      var b := IdSource(current, subId, fetched, y);
      hide *;
      if a in current && b in current { IdsApart(current, a, b); }
      else if a in fetched && b in fetched { IdsApart(fetched, a, b); }
    }
  }

  // ---- refreshing again ----

  /** A later fetch of the same list: the parser gives every config a new id. */
  predicate SameList(a: seq<Config>, b: seq<Config>) {
    |a| == |b| && forall i :: 0 <= i < |a| ==> b[i] == a[i].(id := b[i].id)
  }

  lemma {:induction false} MineOfDistinct(xs: seq<Config>, subId: string, x: Config)
    requires DistinctLinks(xs) && x in xs && Own(x, subId)
    ensures x.raw in Mine(xs, subId) && Mine(xs, subId)[x.raw] == x
  {
    var before, c := xs[..|xs| - 1], xs[|xs| - 1];
    if x != c {
      assert xs == before + [c];
      MineOfDistinct(before, subId, x);
    }
  }

  lemma {:induction false} MineOfOthers(others: seq<Config>, xs: seq<Config>, subId: string)
    requires forall c <- others :: !Own(c, subId)
    ensures Mine(others + xs, subId) == Mine(xs, subId)
  {
    if xs == [] {
      MineMembers(others, subId);
      assert others + xs == others;
      assert Mine(others, subId) == map[];
    } else {
      MineOfOthers(others, xs[..|xs| - 1], subId);
      assert (others + xs)[..|others + xs| - 1] == others + xs[..|xs| - 1];
    }
  }

  lemma SameStep(taken: set<string>, mine: map<string, Config>, mine': map<string, Config>,
                 a: seq<Config>, f: Config, b: seq<Config>, g: Config)
    requires Added(taken, mine', b) == Added(taken, mine, a) && Links(a) == Links(b) && g == f.(id := g.id)
    requires f.raw !in taken + Links(a) ==> f.raw in mine' && mine'[f.raw] == Kept(mine, f)
    ensures Added(taken, mine', b + [g]) == Added(taken, mine, a + [f]) && Links(a + [f]) == Links(b + [g])
  {
    hide Links, Added, Kept;
    AddedStep(taken, mine, a, f);
    AddedStep(taken, mine', b, g);
    KeptMeans(mine, f);
    KeptMeans(mine', g);
    LinksOfMore(a, f);
    LinksOfMore(b, g);
  }

  lemma {:induction false} SameAdded(taken: set<string>, mine: map<string, Config>, mine': map<string, Config>,
                                     a: seq<Config>, b: seq<Config>)
    requires SameList(a, b)
    requires forall x <- Added(taken, mine, a) :: x.raw in mine' && mine'[x.raw] == x
    ensures Added(taken, mine', b) == Added(taken, mine, a) && Links(a) == Links(b)
  {
    hide Links, Kept;
    if a != [] {
      var a0, b0, f, g := a[..|a| - 1], b[..|b| - 1], a[|a| - 1], b[|b| - 1];
      assert a0 + [f] == a && b0 + [g] == b;
      AddedStep(taken, mine, a0, f);
      KeptMeans(mine, f);
      hide Added;
      SameAdded(taken, mine, mine', a0, b0);
      SameStep(taken, mine, mine', a0, f, b0, g);
    }
  }

  /** Refreshing again with the same list changes nothing, whatever ids it comes with. */
  lemma RefreshTwice(current: seq<Config>, subId: string, fetched: seq<Config>, again: seq<Config>)
    requires forall f <- fetched :: f.channelRef == Some(subId)
    requires SameList(fetched, again)
    ensures Merged(Merged(current, subId, fetched), subId, again) == Merged(current, subId, fetched)
  {
    var others, mine := Others(current, subId), Mine(current, subId);
    var added := Added(Links(others), mine, fetched);
    OthersUntouched(current, subId, fetched);
    OthersMembers(current, subId);
    AddedAreOwn(Links(others), mine, fetched, subId);
    AddedLinks(Links(others), mine, fetched);
    MineOfOthers(others, added, subId);
    var mine' := Mine(others + added, subId);
    forall x <- added ensures x.raw in mine' && mine'[x.raw] == x {
      MineOfDistinct(added, subId, x);
    }
    SameAdded(Links(others), mine, mine', fetched, again);
  }
}
