/** Runs with the interrupt wires low, and the plain interpreter. */
module QuietRuns {
  import opened Uarch
  import opened Core
  import opened ExecCorrect
  import opened Refine
  import opened Runs
  import Isa

  predicate QuietInput(input: Inputs) { !input.msip && !input.mtip && !input.meip }

  /** The plain interpreter: `n` steps that see no interrupt. */
  function Steps(n: nat): (r: seq<Isa.Sample>)
    ensures |r| == n
  {
    if n == 0 then [] else Steps(n - 1) + [Isa.Quiet]
  }

  predicate IsQuiet(s: Isa.Sample) { s.mipRead == 0 && s.mipTake == 0 }

  /** What was sent or answered matters only to an interrupt. */
  lemma QuietStep(env: Isa.Env, a: Isa.Arch, s: Isa.Sample)
    requires IsQuiet(s)
    ensures Isa.Step(env, a, s) == Isa.Step(env, a, Isa.Quiet)
    ensures Isa.Report(env, a, s) == Isa.Report(env, a, Isa.Quiet)
  {
    hide Isa.Decode, Isa.EarlyHalt, Isa.CsrsAfter, Isa.Perform, Isa.PendingInterrupt, Isa.Transaction, HaltExitCode;
    QuietWires(Isa.CsrsAfter(a, InstrAt(env, a.pc), 0));
    QuietPerform(env, a, InstrAt(env, a.pc), s);
  }

  lemma QuietPerform(env: Isa.Env, a: Isa.Arch, i: Isa.Instr, s: Isa.Sample)
    requires IsQuiet(s)
    ensures Isa.Perform(env, a, i, s) == Isa.Perform(env, a, i, Isa.Quiet)
  {
    hide Isa.CsrsAfter, Isa.Result, Isa.DataAddress, Isa.Lanes, Isa.Width, Isa.Transaction, Isa.NextPc;
  }

  lemma {:induction false} QuietSamples(env: Isa.Env, a: Isa.Arch, samples: seq<Isa.Sample>)
    requires forall k :: 0 <= k < |samples| ==> IsQuiet(samples[k])
    ensures Isa.Run(env, a, samples) == Isa.Run(env, a, Steps(|samples|))
    ensures Isa.Reports(env, a, samples) == Isa.Reports(env, a, Steps(|samples|))
    decreases |samples|
  {
    hide Isa.Step, Isa.Report;
    if samples != [] {
      var n := |samples| - 1;
      QuietSamples(env, a, samples[..n]);
      assert Steps(n + 1)[..n] == Steps(n);
      QuietStep(env, Isa.Run(env, a, samples[..n]), samples[n]);
    }
  }

  ghost predicate QuietWorld(w: World) {
    && w.memMip == 0 && IsQuiet(w.wbSample)
    && forall k :: 0 <= k < |w.samples| ==> IsQuiet(w.samples[k])
  }

  ghost predicate QuietRun(inputs: seq<Inputs>) { forall k :: 0 <= k < |inputs| ==> QuietInput(inputs[k]) }

  lemma QuietCycle(cfg: Config, w: World, input: Inputs)
    requires QuietWorld(w) && QuietInput(input)
    ensures QuietWorld(Cycle(cfg, w, input))
  {
    hide Step, MemStall, DmemRequest, EventOf, CommitOf;
    QuietWires(Isa.ResetCsrs);
  }

  lemma {:induction false} QuietWatch(cfg: Config, inputs: seq<Inputs>)
    requires QuietRun(inputs)
    ensures QuietWorld(Watch(cfg, inputs))
    decreases |inputs|
  {
    hide Cycle, QuietInput;
    if inputs != [] {
      QuietWatch(cfg, inputs[..|inputs| - 1]);
      QuietCycle(cfg, Watch(cfg, inputs[..|inputs| - 1]), inputs[|inputs| - 1]);
    }
  }

  lemma {:induction false} ReportsPrefix(env: Isa.Env, a: Isa.Arch, m: nat, n: nat)
    requires m <= n
    ensures Isa.Reports(env, a, Steps(m)) == Isa.Reports(env, a, Steps(n))[..m]
    decreases n
  {
    hide Isa.Report, Isa.Run, Isa.Reports;
    if m < n {
      ReportsPrefix(env, a, m, n - 1);
      RunExtends(env, a, Steps(n - 1), Isa.Quiet);
    }
  }

  lemma {:induction false} StepsPrefix(n: nat, k: nat)
    requires k <= n
    ensures Steps(n)[..k] == Steps(k)
  {
    if k < n {
      StepsPrefix(n - 1, k);
    }
  }
}
