/** Putting runs of the plane together. */
module Runs {
  import opened Topology
  import opened EventPlane

  lemma OneStep(cfg: Config, s: State, a: Step)
    requires Enabled(cfg, s, a)
    ensures IsRun(cfg, s, [a]) && After(cfg, s, [a]) == Do(cfg, s, a)
  { }

  lemma TwoSteps(cfg: Config, s: State, a: Step, b: Step)
    requires Enabled(cfg, s, a) && Enabled(cfg, Do(cfg, s, a), b)
    ensures IsRun(cfg, s, [a, b]) && After(cfg, s, [a, b]) == Do(cfg, Do(cfg, s, a), b)
  {
    assert [a, b][1..] == [b];
    OneStep(cfg, Do(cfg, s, a), b);
  }

  lemma ThreeSteps(cfg: Config, s: State, a: Step, b: Step, c: Step)
    requires Enabled(cfg, s, a) && Enabled(cfg, Do(cfg, s, a), b)
    requires Enabled(cfg, Do(cfg, Do(cfg, s, a), b), c)
    ensures IsRun(cfg, s, [a, b, c]) && After(cfg, s, [a, b, c]) == Do(cfg, Do(cfg, Do(cfg, s, a), b), c)
  {
    assert [a, b, c][1..] == [b, c];
    TwoSteps(cfg, Do(cfg, s, a), b, c);
  }

  lemma FirstStep(cfg: Config, s: State, first: Step, rest: seq<Step>)
    requires Enabled(cfg, s, first) && IsRun(cfg, Do(cfg, s, first), rest)
    ensures IsRun(cfg, s, [first] + rest) && After(cfg, s, [first] + rest) == After(cfg, Do(cfg, s, first), rest)
  {
    assert ([first] + rest)[1..] == rest;
  }

  lemma {:induction false} RunConcat(cfg: Config, s: State, first: seq<Step>, second: seq<Step>)
    requires IsRun(cfg, s, first) && IsRun(cfg, After(cfg, s, first), second)
    ensures IsRun(cfg, s, first + second)
    ensures After(cfg, s, first + second) == After(cfg, After(cfg, s, first), second)
    decreases |first|
  {
    if first == [] {
      assert first + second == second;
    } else {
      assert (first + second)[1..] == first[1..] + second;
      RunConcat(cfg, Do(cfg, s, first[0]), first[1..], second);
    }
  }
}
