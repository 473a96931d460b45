/** The relative-availability candidates: credits per second until the reset, raised to a
    power, cut below a tenth of the best and after the k best. */
module RelativeAvailability {
  import opened Common
  import opened Accounts
  import opened Ordering
  import opened Scoring

  function Divisor(a: Account, now: real): (d: real)
    ensures d >= 300.0
  {
    var resetAt := Or(a.profile.priorityResetAt, a.profile.secondaryResetAt);
    Max(if resetAt.None? then 604800.0 else Max(0.0, resetAt.value - now), 300.0)
  }

  /** `_relative_availability_raw_score` */
  function RawScore(a: Account, now: real): (score: real)
    ensures score >= 0.0
  {
    if CreditsLeft(a) <= 0.0 then 0.0 else Ratio(CreditsLeft(a), Divisor(a, now))
  }

  function Ratio(x: real, d: real): (r: real)
    requires x >= 0.0 && d > 0.0
    ensures r >= 0.0 && r * d == x
  {
    x / d
  }

  /** What is used of `x ** p` for a positive exponent. */
  ghost predicate PowerLaws(pow: (real, real) -> real) {
    && (forall p :: p > 0.0 ==> pow(1.0, p) == 1.0)
    && (forall x, y, p :: 0.0 <= x <= y <= 1.0 && p > 0.0 ==> pow(x, p) <= pow(y, p))
  }

  const MIN_WEIGHT := 0.1
  const DEFAULT_POWER := 2.0

  datatype Weighted = Weighted(account: Account, weight: real, raw: real)

  function Best(s: seq<Account>, now: real): (best: real)
    ensures best >= 0.0
    ensures forall i :: 0 <= i < |s| ==> RawScore(s[i], now) <= best
    ensures best > 0.0 ==> exists i :: 0 <= i < |s| && RawScore(s[i], now) == best
  {
    if s == [] then 0.0
    else
      var rest, last := Best(s[..|s| - 1], now), RawScore(s[|s| - 1], now);
      assert forall i :: 0 <= i < |s| - 1 ==> s[..|s| - 1][i] == s[i];
      Max(rest, last)
  }

  function Weight(raw: real, best: real, power: real, pow: (real, real) -> real): real
    requires best > 0.0
  {
    pow(raw / best, if power > 0.0 then power else DEFAULT_POWER)
  }

  /** The accounts whose weight is not below the minimum, with weight and score. */
  function Weigh(s: seq<Account>, now: real, best: real, power: real, pow: (real, real) -> real): seq<Weighted>
    requires best > 0.0
  {
    if s == [] then []
    else
      var init, last := Weigh(s[..|s| - 1], now, best, power, pow), s[|s| - 1];
      var raw := RawScore(last, now);
      if Weight(raw, best, power, pow) < MIN_WEIGHT then init
      else init + [Weighted(last, Weight(raw, best, power, pow), raw)]
  }

  function WeightedKey(w: Weighted): Key { [N(-w.weight), N(-w.raw)] + UsageKey(w.account) }

  function TopK(k: int, n: nat): nat { var m := if k > 1 then k else 1; if m < n then m else n }

  /** `_relative_availability_weighted_candidates` */
  function Candidates(s: seq<Account>, now: real, power: real, topK: int, pow: (real, real) -> real): seq<Weighted> {
    var best := Best(s, now);
    if best <= 0.0 then []
    else
      var ranked := SortBy(Weigh(s, now, best, power, pow), WeightedKey);
      ranked[..TopK(topK, |ranked|)]
  }

  method WeightedCandidates(s: seq<Account>, now: real, power: real, topK: int, pow: (real, real) -> real)
    returns (top: seq<Weighted>)
    ensures top == Candidates(s, now, power, topK, pow)
  {
    var best := Best(s, now);
    if best <= 0.0 {
      return [];
    }
    var weighted: seq<Weighted> := [];
    for i := 0 to |s|
      invariant weighted == Weigh(s[..i], now, best, power, pow)
    {
      assert s[..i + 1][..i] == s[..i];
      var raw := RawScore(s[i], now);
      var weight := Weight(raw, best, power, pow);
      if weight < MIN_WEIGHT {
        continue;
      }
      weighted := weighted + [Weighted(s[i], weight, raw)];
    }
    assert s[..|s|] == s;
    var ranked := SortBy(weighted, WeightedKey);
    return ranked[..TopK(topK, |ranked|)];
  }

  // ----- What the candidates are -----

  lemma {:induction false} WeighMembers(s: seq<Account>, now: real, best: real, power: real, pow: (real, real) -> real, w: Weighted)
    requires best > 0.0
    ensures w in Weigh(s, now, best, power, pow) <==>
            && w.account in s && w.raw == RawScore(w.account, now)
            && w.weight == Weight(w.raw, best, power, pow) && w.weight >= MIN_WEIGHT
  {
    if s != [] {
      WeighMembers(s[..|s| - 1], now, best, power, pow, w);
      assert s == s[..|s| - 1] + [s[|s| - 1]];
    }
  }

  lemma {:induction false} Normalized(x: real, y: real, best: real)
    requires 0.0 <= x <= y <= best && best > 0.0
    ensures 0.0 <= x / best <= y / best <= 1.0 && best / best == 1.0
  {
    DivideMultiply(x, best);
    DivideMultiply(y, best);
    DivideMultiply(best, best);
    CancelLe(0.0, x / best, best);
    CancelLe(x / best, y / best, best);
    CancelLe(y / best, 1.0, best);
    CancelLe(best / best, 1.0, best);
    CancelLe(1.0, best / best, best);
  }

  /** More score never means less weight. */
  lemma {:induction false} WeightGrows(x: real, y: real, best: real, power: real, pow: (real, real) -> real)
    requires PowerLaws(pow) && 0.0 <= x <= y <= best && best > 0.0
    ensures Weight(x, best, power, pow) <= Weight(y, best, power, pow) <= 1.0
    ensures Weight(best, best, power, pow) == 1.0
  {
    Normalized(x, y, best);
    var p := if power > 0.0 then power else DEFAULT_POWER;
    assert pow(y / best, p) <= pow(1.0, p);
  }

  /** The laws hold of squaring, the default power. */
  lemma {:induction false} SquareIsAPower()
    ensures PowerLaws((x: real, p: real) => x * x)
  {
    var square := (x: real, p: real) => x * x;
    forall x, y, p | 0.0 <= x <= y <= 1.0 && p > 0.0 ensures square(x, p) <= square(y, p) {
      SquareGrows(x, y);
    }
  }

  lemma {:induction false} SquareGrows(x: real, y: real)
    requires 0.0 <= x <= y
    ensures x * x <= y * y
  {
    assert y * y - x * x == (y - x) * (y + x);
  }

  ghost predicate Retained(top: seq<Weighted>, a: Account) { exists w :: w in top && w.account == a }

  /** A higher rank never has the lower score. */
  lemma {:induction false} RankFollowsScore(v: Weighted, w: Weighted, now: real, best: real, power: real, pow: (real, real) -> real)
    requires PowerLaws(pow) && best > 0.0 && 0.0 <= v.raw <= best && 0.0 <= w.raw <= best
    requires v.weight == Weight(v.raw, best, power, pow) && w.weight == Weight(w.raw, best, power, pow)
    requires KeyLe(WeightedKey(v), WeightedKey(w))
    ensures v.raw >= w.raw
  {
    var a, b := WeightedKey(v), WeightedKey(w);
    assert a[0] == N(-v.weight) && b[0] == N(-w.weight);
    assert a[1..][0] == N(-v.raw) && b[1..][0] == N(-w.raw);
    if v.raw < w.raw {
      WeightGrows(v.raw, w.raw, best, power, pow);
    }
  }

  /** The candidates exist exactly when some score is positive; they are at most the k best,
      ranked by score, led by a best-scoring account of weight 1, all of weight 0.1 to 1. */
  lemma {:induction false} CandidatesAreTheBest(s: seq<Account>, now: real, power: real, topK: int, pow: (real, real) -> real)
    requires PowerLaws(pow)
    ensures var top := Candidates(s, now, power, topK, pow);
            && (top != [] <==> exists i :: 0 <= i < |s| && RawScore(s[i], now) > 0.0)
            && |top| <= (if topK > 1 then topK else 1)
            && (forall w :: w in top ==>
                  w.account in s && w.raw == RawScore(w.account, now) && 0.1 <= w.weight <= 1.0)
            && (top != [] ==> top[0].weight == 1.0 && forall i :: 0 <= i < |s| ==> RawScore(s[i], now) <= top[0].raw)
            && (forall i, j :: 0 <= i < j < |top| ==> top[i].raw >= top[j].raw)
  {
    var best := Best(s, now);
    if best > 0.0 {
      Ranked(s, now, best, power, pow);
      var i :| 0 <= i < |s| && RawScore(s[i], now) == best;
      WeightGrows(best, best, best, power, pow);
      FirstHasTheBest(SortBy(Weigh(s, now, best, power, pow), WeightedKey), Weighted(s[i], 1.0, best), best);
    }
  }

  lemma {:induction false} FirstHasTheBest(ranked: seq<Weighted>, w: Weighted, best: real)
    requires w in ranked && w.raw == best && forall v :: v in ranked ==> v.raw <= best
    requires forall i, j :: 0 <= i < j < |ranked| ==> ranked[i].raw >= ranked[j].raw
    ensures ranked != [] && ranked[0] in ranked && ranked[0].raw == best
  {
    var j :| 0 <= j < |ranked| && ranked[j] == w;
    assert j == 0 || ranked[0].raw >= ranked[j].raw;
  }

  /** The ranked list before the cut: its members, their weights, and its order. */
  lemma {:induction false} Ranked(s: seq<Account>, now: real, best: real, power: real, pow: (real, real) -> real)
    requires PowerLaws(pow) && best == Best(s, now) && best > 0.0
    ensures var ranked := SortBy(Weigh(s, now, best, power, pow), WeightedKey);
            && (forall w :: w in ranked <==>
                  && w.account in s && w.raw == RawScore(w.account, now)
                  && w.weight == Weight(w.raw, best, power, pow) && w.weight >= MIN_WEIGHT)
            && (forall w :: w in ranked ==> 0.0 <= w.raw <= best && w.weight <= 1.0)
            && (forall i, j :: 0 <= i < j < |ranked| ==> ranked[i].raw >= ranked[j].raw)
  {
    var weighed := Weigh(s, now, best, power, pow);
    var ranked := SortBy(weighed, WeightedKey);
    SortSorts(weighed, WeightedKey);
    forall w ensures w in ranked <==>
                && w.account in s && w.raw == RawScore(w.account, now)
                && w.weight == Weight(w.raw, best, power, pow) && w.weight >= MIN_WEIGHT {
      assert w in ranked <==> w in multiset(ranked);
      assert w in weighed <==> w in multiset(weighed);
      WeighMembers(s, now, best, power, pow, w);
    }
    forall w | w in ranked ensures 0.0 <= w.raw <= best && w.weight <= 1.0 {
      WeightGrows(w.raw, w.raw, best, power, pow);
    }
    forall i, j | 0 <= i < j < |ranked| ensures ranked[i].raw >= ranked[j].raw {
      assert ranked[i] in ranked && ranked[j] in ranked;
      RankFollowsScore(ranked[i], ranked[j], now, best, power, pow);
    }
  }

  /** Nothing that was cut scores above anything that was kept. */
  lemma {:induction false} KeptScoreAtLeastCut(s: seq<Account>, now: real, power: real, topK: int, pow: (real, real) -> real, kept: Weighted, cut: Account)
    requires PowerLaws(pow) && cut in s
    ensures var top := Candidates(s, now, power, topK, pow);
            kept in top && !Retained(top, cut) ==> RawScore(cut, now) <= kept.raw
  {
    var best := Best(s, now);
    var top := Candidates(s, now, power, topK, pow);
    if kept in top && !Retained(top, cut) {
      var ranked := SortBy(Weigh(s, now, best, power, pow), WeightedKey);
      Ranked(s, now, best, power, pow);
      var raw := RawScore(cut, now);
      var w := Weighted(cut, Weight(raw, best, power, pow), raw);
      if w in ranked {
        var j :| 0 <= j < |ranked| && ranked[j] == w;
        assert forall i :: 0 <= i < |top| ==> top[i] == ranked[i] && top[i] in top;
      } else if raw > kept.raw {
        WeightGrows(kept.raw, raw, best, power, pow);
      }
    }
  }
}
