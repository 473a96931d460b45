/** With distinct account ids and somebody eligible, a deterministic selection does not
    depend on the order in which the accounts are listed. */
module OrderIndependence {
  import opened Common
  import opened Accounts
  import opened Ordering
  import opened Scoring
  import opened Selection
  import Opp = Opportunistic
  import Rel = RelativeAvailability

  ghost predicate Same(s: seq<Account>, t: seq<Account>) { forall a :: a in s <==> a in t }

  predicate DistinctIds(s: seq<Account>) {
    forall i, j :: 0 <= i < j < |s| ==> s[i].profile.id != s[j].profile.id
  }

  ghost predicate IdsTellApart(s: seq<Account>) {
    forall a, b :: a in s && b in s && a.profile.id == b.profile.id ==> a == b
  }

  /** Two listings of the same accounts, each account once. */
  ghost predicate Permuted(s: seq<Account>, t: seq<Account>) { DistinctIds(s) && DistinctIds(t) && Same(s, t) }

  predicate Deterministic(cfg: Config) {
    cfg.strategy.CapacityWeighted? || cfg.strategy.RelativeAvailability? ==> cfg.deterministicProbe
  }

  // ----- Recovery and the opportunistic filter -----

  lemma {:induction false} SiftedSame(s: seq<Account>, t: seq<Account>, v: Verdict, now: real, b: Bypass)
    requires Same(s, t)
    ensures Same(Sifted(s, v, now, b), Sifted(t, v, now, b))
  {
    forall a ensures a in Sifted(s, v, now, b) <==> a in Sifted(t, v, now, b) {
      SiftedMembers(s, v, now, b, a);
      SiftedMembers(t, v, now, b, a);
      if i :| 0 <= i < |s| && RecoverOne(s[i], now, b) == (a, v) {
        assert s[i] in t;
      }
      if i :| 0 <= i < |t| && RecoverOne(t[i], now, b) == (a, v) {
        assert t[i] in s;
      }
    }
  }

  lemma {:induction false} SiftedDistinct(s: seq<Account>, v: Verdict, now: real, b: Bypass)
    requires DistinctIds(s)
    ensures DistinctIds(Sifted(s, v, now, b))
  {
    if s != [] {
      var n := |s| - 1;
      SiftedDistinct(s[..n], v, now, b);
      var init := Sifted(s[..n], v, now, b);
      forall k | 0 <= k < |init| ensures init[k].profile.id != s[n].profile.id {
        SiftedMembers(s[..n], v, now, b, init[k]);
        var i :| 0 <= i < n && RecoverOne(s[..n][i], now, b) == (init[k], v);
        RecoverDecides(s[i], now, Bypasses(b, s[i].profile));
      }
      RecoverDecides(s[n], now, Bypasses(b, s[n].profile));
    }
  }

  lemma {:induction false} DistinctTellApart(s: seq<Account>)
    requires DistinctIds(s)
    ensures IdsTellApart(s)
  {
  }

  ghost function Preserved(s: seq<Account>): set<Account> { set a | a in s && Opp.PolicyOf(a) == Opp.Preserve }

  lemma {:induction false} CountIsCardinality(s: seq<Account>)
    requires DistinctIds(s)
    ensures Opp.CountPreserve(s) == |Preserved(s)|
  {
    if s != [] {
      var n := |s| - 1;
      CountIsCardinality(s[..n]);
      assert s == s[..n] + [s[n]];
      assert s[n] !in s[..n] by { DistinctTellApart(s); }
      if Opp.PolicyOf(s[n]) == Opp.Preserve {
        assert Preserved(s) == Preserved(s[..n]) + {s[n]};
      } else {
        assert Preserved(s) == Preserved(s[..n]);
      }
    }
  }

  lemma {:induction false} CountSame(s: seq<Account>, t: seq<Account>)
    requires Permuted(s, t)
    ensures Opp.CountPreserve(s) == Opp.CountPreserve(t)
  {
    CountIsCardinality(s);
    CountIsCardinality(t);
    assert Preserved(s) == Preserved(t);
  }

  lemma {:induction false} OthersSame(s: seq<Account>, t: seq<Account>, id: string, now: real)
    requires Permuted(s, t) && Opp.OthersUsable(id, s, now)
    ensures Opp.OthersUsable(id, t, now)
  {
    CountSame(s, t);
    var i :| 0 <= i < |s| && Opp.UsableBesides(id, s[i], now, Opp.CountPreserve(s));
    assert s[i] in t;
  }

  lemma {:induction false} CandidatesSame(s: seq<Account>, t: seq<Account>, now: real)
    requires Permuted(s, t)
    ensures Same(Opp.Candidates(s, now), Opp.Candidates(t, now))
  {
    CountSame(s, t);
    forall a ensures a in Opp.Candidates(s, now) <==> a in Opp.Candidates(t, now) {
      Opp.CandidatesExactly(s, now, a);
      Opp.CandidatesExactly(t, now, a);
      if Opp.OthersUsable(a.profile.id, s, now) { OthersSame(s, t, a.profile.id, now); }
      if Opp.OthersUsable(a.profile.id, t, now) { OthersSame(t, s, a.profile.id, now); }
    }
  }

  // ----- The pools -----

  lemma {:induction false} SameEmpty(s: seq<Account>, t: seq<Account>)
    requires Same(s, t)
    ensures s == [] <==> t == []
  {
    if s != [] { assert s[0] in t; }
    if t != [] { assert t[0] in s; }
  }

  lemma {:induction false} EffectiveSame(s: seq<Account>, t: seq<Account>)
    requires Same(s, t)
    ensures Same(EffectivePool(s), EffectivePool(t))
  {
    forall a ensures a in EffectivePool(s) <==> a in EffectivePool(t) {
      EffectivePoolExactly(s, a);
      EffectivePoolExactly(t, a);
    }
  }

  lemma {:induction false} EarliestSame(s: seq<Account>, t: seq<Account>, cfg: Config, now: real)
    requires Same(s, t) && s != [] && t != []
    ensures Same(EarliestReset(s, cfg, now), EarliestReset(t, cfg, now))
  {
    forall a ensures a in EarliestReset(s, cfg, now) <==> a in EarliestReset(t, cfg, now) {
      EarliestMembers(s, cfg, now, a);
      EarliestMembers(t, cfg, now, a);
    }
  }

  lemma {:induction false} CheapestSame(s: seq<Account>, t: seq<Account>, cfg: Config)
    requires Same(s, t) && s != [] && t != []
    ensures Same(Cheapest(s, cfg), Cheapest(t, cfg))
  {
    forall a ensures a in Cheapest(s, cfg) <==> a in Cheapest(t, cfg) {
      CheapestMembers(s, cfg, a);
      CheapestMembers(t, cfg, a);
    }
  }

  lemma {:induction false} StrategyPoolSame(s: seq<Account>, t: seq<Account>, cfg: Config, now: real)
    requires Same(s, t) && s != [] && t != [] && Deterministic(cfg)
    ensures Same(StrategyPool(s, cfg, now), StrategyPool(t, cfg, now))
  {
    if UsesLadder(cfg) {
      EffectiveSame(s, t);
      PolicyPoolNonEmpty(TierPool(s));
      PolicyPoolNonEmpty(TierPool(t));
      EarliestSame(EffectivePool(s), EffectivePool(t), cfg, now);
      CheapestSame(EffectivePool(s), EffectivePool(t), cfg);
    }
  }

  // ----- The winner -----

  lemma {:induction false} KeysTellApart(s: seq<Account>, cfg: Config, now: real, r: Ranking)
    requires IdsTellApart(s)
    ensures forall a, b :: a in s && b in s && By(cfg, now, r)(a) == By(cfg, now, r)(b) ==> a == b
  {
    forall a, b | a in s && b in s && By(cfg, now, r)(a) == By(cfg, now, r)(b) ensures a == b {
      KeyEndsInId(a, cfg, now, r);
      KeyEndsInId(b, cfg, now, r);
    }
  }

  lemma {:induction false} MinSame(s: seq<Account>, t: seq<Account>, cfg: Config, now: real, r: Ranking)
    requires Same(s, t) && s != [] && t != [] && IdsTellApart(s)
    ensures MinBy(s, By(cfg, now, r)) == MinBy(t, By(cfg, now, r))
  {
    KeysTellApart(s, cfg, now, r);
    LeastIsUnique(s, t, By(cfg, now, r), MinBy(s, By(cfg, now, r)), MinBy(t, By(cfg, now, r)));
  }

  lemma {:induction false} BestSame(s: seq<Account>, t: seq<Account>, now: real)
    requires Same(s, t)
    ensures Rel.Best(s, now) == Rel.Best(t, now)
  {
    forall i | 0 <= i < |s| ensures Rel.RawScore(s[i], now) <= Rel.Best(t, now) { assert s[i] in t; }
    forall i | 0 <= i < |t| ensures Rel.RawScore(t[i], now) <= Rel.Best(s, now) { assert t[i] in s; }
  }

  lemma {:induction false} WeighSame(s: seq<Account>, t: seq<Account>, now: real, best: real, cfg: Config)
    requires Same(s, t) && best > 0.0
    ensures forall w :: w in Rel.Weigh(s, now, best, cfg.power, cfg.pow) <==> w in Rel.Weigh(t, now, best, cfg.power, cfg.pow)
  {
    forall w ensures w in Rel.Weigh(s, now, best, cfg.power, cfg.pow) <==> w in Rel.Weigh(t, now, best, cfg.power, cfg.pow) {
      Rel.WeighMembers(s, now, best, cfg.power, cfg.pow, w);
      Rel.WeighMembers(t, now, best, cfg.power, cfg.pow, w);
    }
  }

  /** The first candidate is the least of the weighed accounts. */
  lemma {:induction false} TopIsLeast(s: seq<Account>, now: real, cfg: Config)
    requires Rel.Best(s, now) > 0.0
    ensures var weighed := Rel.Weigh(s, now, Rel.Best(s, now), cfg.power, cfg.pow);
            var top := Rel.Candidates(s, now, cfg.power, cfg.topK, cfg.pow);
            && (top == [] <==> weighed == [])
            && (top != [] ==> Least(weighed, Rel.WeightedKey, top[0]))
  {
    var weighed := Rel.Weigh(s, now, Rel.Best(s, now), cfg.power, cfg.pow);
    var ranked := SortBy(weighed, Rel.WeightedKey);
    SortSorts(weighed, Rel.WeightedKey);
    assert |ranked| == |multiset(ranked)| == |multiset(weighed)| == |weighed|;
    if ranked != [] {
      assert ranked[0] in multiset(weighed);
      forall w | w in weighed ensures KeyLe(Rel.WeightedKey(ranked[0]), Rel.WeightedKey(w)) {
        assert w in multiset(ranked);
        var i :| 0 <= i < |ranked| && ranked[i] == w;
        KeyLeTotal(Rel.WeightedKey(w), Rel.WeightedKey(w));
      }
    }
  }

  lemma {:induction false} WeightedTellApart(s: seq<Account>, now: real, best: real, cfg: Config)
    requires IdsTellApart(s) && best > 0.0
    ensures var weighed := Rel.Weigh(s, now, best, cfg.power, cfg.pow);
            forall v, w :: v in weighed && w in weighed && Rel.WeightedKey(v) == Rel.WeightedKey(w) ==> v == w
  {
    var weighed := Rel.Weigh(s, now, best, cfg.power, cfg.pow);
    forall v, w | v in weighed && w in weighed && Rel.WeightedKey(v) == Rel.WeightedKey(w) ensures v == w {
      Rel.WeighMembers(s, now, best, cfg.power, cfg.pow, v);
      Rel.WeighMembers(s, now, best, cfg.power, cfg.pow, w);
      assert Rel.WeightedKey(v)[5] == T(v.account.profile.id) && Rel.WeightedKey(w)[5] == T(w.account.profile.id);
    }
  }

  lemma {:induction false} TopSame(s: seq<Account>, t: seq<Account>, cfg: Config, now: real)
    requires Same(s, t) && IdsTellApart(s) && Rel.Best(s, now) > 0.0 && Rel.Best(t, now) == Rel.Best(s, now)
    ensures var a, b := RelativeTop(s, cfg, now), RelativeTop(t, cfg, now);
            (a == [] <==> b == []) && (a != [] && b != [] ==> a[0] == b[0])
  {
    var best := Rel.Best(s, now);
    var a, b := Rel.Weigh(s, now, best, cfg.power, cfg.pow), Rel.Weigh(t, now, best, cfg.power, cfg.pow);
    WeighSame(s, t, now, best, cfg);
    TopIsLeast(s, now, cfg);
    TopIsLeast(t, now, cfg);
    if a != [] { assert a[0] in b; }
    if b != [] { assert b[0] in a; }
    if a != [] {
      WeightedTellApart(s, now, best, cfg);
      LeastIsUnique(a, b, Rel.WeightedKey, RelativeTop(s, cfg, now)[0], RelativeTop(t, cfg, now)[0]);
    }
  }

  lemma {:induction false} WeighDistinct(s: seq<Account>, now: real, best: real, cfg: Config)
    requires DistinctIds(s) && best > 0.0
    ensures NoDuplicates(Rel.Weigh(s, now, best, cfg.power, cfg.pow))
  {
    if s != [] {
      var n := |s| - 1;
      WeighDistinct(s[..n], now, best, cfg);
      var init := Rel.Weigh(s[..n], now, best, cfg.power, cfg.pow);
      forall k | 0 <= k < |init| ensures init[k].account != s[n] {
        Rel.WeighMembers(s[..n], now, best, cfg.power, cfg.pow, init[k]);
        var i :| 0 <= i < n && s[..n][i] == init[k].account;
      }
    }
  }

  lemma {:induction false} WeighSameMultiset(s: seq<Account>, t: seq<Account>, now: real, best: real, cfg: Config)
    requires Permuted(s, t) && best > 0.0
    ensures multiset(Rel.Weigh(s, now, best, cfg.power, cfg.pow)) == multiset(Rel.Weigh(t, now, best, cfg.power, cfg.pow))
  {
    var a, b := Rel.Weigh(s, now, best, cfg.power, cfg.pow), Rel.Weigh(t, now, best, cfg.power, cfg.pow);
    WeighSame(s, t, now, best, cfg);
    WeighDistinct(s, now, best, cfg);
    WeighDistinct(t, now, best, cfg);
    forall w ensures multiset(a)[w] == multiset(b)[w] {
      DistinctMultiset(a, w);
      DistinctMultiset(b, w);
    }
  }

  /** The whole list of relative-availability candidates, in its order. */
  lemma {:induction false} CandidateListSame(s: seq<Account>, t: seq<Account>, cfg: Config, now: real)
    requires Permuted(s, t)
    ensures RelativeTop(s, cfg, now) == RelativeTop(t, cfg, now)
  {
    BestSame(s, t, now);
    var best := Rel.Best(s, now);
    if best > 0.0 {
      var a, b := Rel.Weigh(s, now, best, cfg.power, cfg.pow), Rel.Weigh(t, now, best, cfg.power, cfg.pow);
      WeighSameMultiset(s, t, now, best, cfg);
      SortSorts(a, Rel.WeightedKey);
      SortSorts(b, Rel.WeightedKey);
      DistinctTellApart(s);
      WeightedTellApart(s, now, best, cfg);
      var ranked := SortBy(a, Rel.WeightedKey);
      forall v, w | v in ranked && w in ranked && Rel.WeightedKey(v) == Rel.WeightedKey(w) ensures v == w {
        assert v in multiset(a) && w in multiset(a);
      }
      SortedIsUnique(ranked, SortBy(b, Rel.WeightedKey), Rel.WeightedKey);
    }
  }

  lemma {:induction false} RelativeSame(s: seq<Account>, t: seq<Account>, cfg: Config, now: real)
    requires Same(s, t) && s != [] && t != [] && IdsTellApart(s) && cfg.deterministicProbe && 0.0 <= cfg.draw < 1.0
    ensures DrawRelative(s, cfg, now) == DrawRelative(t, cfg, now)
  {
    BestSame(s, t, now);
    MinSame(s, t, cfg, now, ByUsage);
    if Rel.Best(s, now) > 0.0 { TopSame(s, t, cfg, now); }
  }

  lemma {:induction false} WinnerSame(s: seq<Account>, t: seq<Account>, cfg: Config, now: real)
    requires Same(s, t) && s != [] && t != [] && IdsTellApart(s) && Deterministic(cfg) && 0.0 <= cfg.draw < 1.0
    ensures Winner(s, cfg, now) == Winner(t, cfg, now)
  {
    StrategyPoolSame(s, t, cfg, now);
    var p, q := StrategyPool(s, cfg, now), StrategyPool(t, cfg, now);
    forall a | a in p ensures a in s { StrategyPoolWithin(s, cfg, now, a); }
    assert IdsTellApart(p);
    if cfg.strategy.RelativeAvailability? {
      RelativeSame(p, q, cfg, now);
    } else {
      MinSame(p, q, cfg, now, RankingOf(cfg));
    }
  }

  /** Every permutation of the accounts gives the same selection. */
  lemma {:induction false} SelectionIgnoresOrder(s: seq<Account>, t: seq<Account>, cfg: Config, now: real)
    requires Permuted(s, t) && Deterministic(cfg) && 0.0 <= cfg.draw < 1.0
    requires exists i :: 0 <= i < |s| && EligibleAt(s, i, cfg, now)
    ensures Select(s, cfg, now) == Select(t, cfg, now)
  {
    var a, b := Sifted(s, Available, now, cfg.bypass), Sifted(t, Available, now, cfg.bypass);
    SiftedSame(s, t, Available, now, cfg.bypass);
    SiftedDistinct(s, Available, now, cfg.bypass);
    SiftedDistinct(t, Available, now, cfg.bypass);
    var i :| 0 <= i < |s| && EligibleAt(s, i, cfg, now);
    RecoverDecides(s[i], now, Bypasses(cfg.bypass, s[i].profile));
    SiftedMembers(s, Available, now, cfg.bypass, RecoverOne(s[i], now, cfg.bypass).0);
    SameEmpty(a, b);
    ChoiceSame(a, b, cfg, now);
  }

  lemma {:induction false} ChoiceSame(a: seq<Account>, b: seq<Account>, cfg: Config, now: real)
    requires Permuted(a, b) && a != [] && b != [] && Deterministic(cfg) && 0.0 <= cfg.draw < 1.0
    ensures ChooseFrom(a, cfg, now) == ChooseFrom(b, cfg, now)
  {
    DistinctTellApart(a);
    if cfg.opportunistic {
      CandidatesSame(a, b, now);
      SameEmpty(Opp.Candidates(a, now), Opp.Candidates(b, now));
      PreserveSame(a, b);
      PreserveSame(b, a);
      if Opp.Candidates(a, now) != [] {
        forall x | x in Opp.Candidates(a, now) ensures x in a { Opp.CandidatesExactly(a, now, x); }
        WinnerSame(Opp.Candidates(a, now), Opp.Candidates(b, now), cfg, now);
      }
    } else {
      WinnerSame(a, b, cfg, now);
    }
  }

  lemma {:induction false} PreserveSame(a: seq<Account>, b: seq<Account>)
    requires Same(a, b)
    ensures (exists i :: 0 <= i < |a| && Opp.PolicyOf(a[i]) == Opp.Preserve) ==>
            exists i :: 0 <= i < |b| && Opp.PolicyOf(b[i]) == Opp.Preserve
  {
    if i :| 0 <= i < |a| && Opp.PolicyOf(a[i]) == Opp.Preserve { assert a[i] in b; }
  }
}
