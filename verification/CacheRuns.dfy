/** Short runs of the cache protocol, step by step. */
module CacheRuns {
  import opened CacheProtocol

  lemma {:induction false} RunTwo(s: System, e: Event, f: Event)
    ensures Run(s, [e, f]) == Step(Step(s, e), f)
  {
    assert [e, f][1..] == [f] && [f][1..] == [];
    assert Run(Step(s, e), [f]) == Step(Step(s, e), f);
  }

  lemma {:induction false} RunThree(s: System, e: Event, f: Event, g: Event)
    ensures Run(s, [e, f, g]) == Step(Step(Step(s, e), f), g)
  {
    assert [e, f, g][1..] == [f, g];
    RunTwo(Step(s, e), f, g);
  }

  lemma {:induction false} RunFour(s: System, e: Event, f: Event, g: Event, h: Event)
    ensures Run(s, [e, f, g, h]) == Step(Step(Step(Step(s, e), f), g), h)
  {
    assert [e, f, g, h][1..] == [f, g, h] && [f, g, h][1..] == [g, h] && [g, h][1..] == [h] && [h][1..] == [];
    var t := Step(Step(s, e), f);
    assert Run(t, [g, h]) == Run(Step(t, g), [h]) == Step(Step(t, g), h);
  }
}
