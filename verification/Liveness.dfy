/** Prompt memories make the hardware run the whole program. */
module Liveness {
  import opened Uarch
  import opened Core
  import opened CoreInv
  import opened Progress
  import opened Refine
  import opened Runs
  import opened HardwareRuns
  import opened Wrap
  import opened QuietRuns
  import Traps
  import Isa

  function Waiting(cfg: Config, inputs: seq<Inputs>): Waits {
    if inputs == [] then Waits(0, 0)
    else
      var before := inputs[..|inputs| - 1];
      WaitsNext(cfg, Watch(cfg, before).cpu, inputs[|inputs| - 1], Waiting(cfg, before))
  }

  /** In the whole run no memory request, accepted or not, is kept waiting for `n` cycles. */
  ghost predicate PromptMemories(cfg: Config, n: nat, inputs: seq<Inputs>) {
    && Prompt(n, Waiting(cfg, inputs))
    && (inputs == [] || PromptMemories(cfg, n, inputs[..|inputs| - 1]))
  }

  // ---- the idealised core ----------------------------------------------------------------------

  /** Cycles, and the distance still to go, are paid for by commits. */
  ghost predicate Paid(cfg: Config, n: nat, w: World, cycles: nat, waits: Waits) {
    Stopped(w.commits) || cycles + Distance(cfg, n, w.cpu, waits) <= (Bound(cfg, n) + 1) * |w.commits| + Bound(cfg, n)
  }

  lemma PaidNext(cfg: Config, n: nat, w: World, cycles: nat, waits: Waits, input: Inputs)
    requires Inv(cfg, w.cpu) && cfg.ids.Unbounded? && Paid(cfg, n, w, cycles, waits)
    requires Prompt(n, waits) && Prompt(n, WaitsNext(cfg, w.cpu, input, waits))
    ensures Paid(cfg, n, Cycle(cfg, w, input), cycles + 1, WaitsNext(cfg, w.cpu, input, waits))
  {
    hide Cycle, Step, Inv, WaitsNext, Bound, CommitOf, Distance;
    CycleLogs(cfg, w, input);
    var next, waits' := Step(cfg, w.cpu, input), WaitsNext(cfg, w.cpu, input, waits);
    InvStep(cfg, w.cpu, input);
    DistanceBound(cfg, n, w.cpu, waits);
    DistanceBound(cfg, n, next, waits');
    if !Stopped(w.commits) {
      if w.cpu.be.wb.Alive() {
        PaidFor(Bound(cfg, n), |w.commits|);
      } else {
        DistanceFalls(cfg, n, w.cpu, input, waits);
      }
    }
  }

  lemma {:induction false} PaidRun(cfg: Config, n: nat, inputs: seq<Inputs>)
    requires cfg.Valid() && cfg.ids.Unbounded? && PromptMemories(cfg, n, inputs)
    ensures Paid(cfg, n, Watch(cfg, inputs), |inputs|, Waiting(cfg, inputs))
    decreases |inputs|
  {
    hide Cycle, Inv, Paid, WaitsNext, Start;
    if inputs == [] {
      PaidStart(cfg, n);
    } else {
      var before, input := inputs[..|inputs| - 1], inputs[|inputs| - 1];
      PaidRun(cfg, n, before);
      InvRun(cfg, before);
      PaidNext(cfg, n, Watch(cfg, before), |before|, Waiting(cfg, before), input);
    }
  }

  lemma PaidStart(cfg: Config, n: nat)
    requires cfg.Valid() && Prompt(n, Waits(0, 0))
    ensures Paid(cfg, n, Start(cfg), 0, Waits(0, 0))
  {
    InvReset(cfg);
    hide Reset, Distance, Bound, Inv;
    DistanceBound(cfg, n, Start(cfg).cpu, Waits(0, 0));
  }

  // ---- the hardware ----------------------------------------------------------------------------------

  lemma WaitsNarrow(cfg: Config, s: Cpu, input: Inputs, waits: Waits)
    ensures WaitsNext(Hardware(cfg), Narrow(s), input, waits) == WaitsNext(Ideal(cfg), s, input, waits)
  {
    hide NarrowToken, NarrowRows, NarrowEpoch, NarrowSeq, NarrowPkt, MemStall, DmemRequest, KillOf, ImemReqValid;
    SignalsNarrow(s.be, input);
    PortsNarrow(cfg, s.fe, Redirect(s.be, input));
  }

  lemma {:induction false} WaitingIdeal(cfg: Config, inputs: seq<Inputs>)
    requires cfg.Valid()
    ensures Waiting(Hardware(cfg), inputs) == Waiting(Ideal(cfg), inputs)
    decreases |inputs|
  {
    hide Watch, WaitsNext, Narrow;
    if inputs != [] {
      var before := inputs[..|inputs| - 1];
      WaitingIdeal(cfg, before);
      HardwareIsIdeal(cfg, before);
      WaitsNarrow(cfg, Watch(Ideal(cfg), before).cpu, inputs[|inputs| - 1], Waiting(Ideal(cfg), before));
    }
  }

  lemma {:induction false} PromptIdeal(cfg: Config, n: nat, inputs: seq<Inputs>)
    requires cfg.Valid() && PromptMemories(Hardware(cfg), n, inputs)
    ensures PromptMemories(Ideal(cfg), n, inputs)
    decreases |inputs|
  {
    hide Waiting;
    WaitingIdeal(cfg, inputs);
    if inputs != [] {
      PromptIdeal(cfg, n, inputs[..|inputs| - 1]);
    }
  }

  lemma IdealThroughput(cfg: Config, n: nat, inputs: seq<Inputs>)
    requires cfg.Valid() && cfg.ids.Unbounded? && PromptMemories(cfg, n, inputs)
    ensures var w := Watch(cfg, inputs);
      Stopped(w.commits) || |inputs| < (Bound(cfg, n) + 1) * (|w.commits| + 1)
  {
    hide Watch, PromptMemories, Bound, Distance, Waiting;
    PaidRun(cfg, n, inputs);
    InvRun(cfg, inputs);
    PromptNow(cfg, n, inputs);
    var w := Watch(cfg, inputs);
    DistanceBound(cfg, n, w.cpu, Waiting(cfg, inputs));
    PaidFor(Bound(cfg, n), |w.commits|);
  }

  lemma PaidFor(b: nat, c: nat)
    ensures (b + 1) * (c + 1) == (b + 1) * c + b + 1
  {}

  lemma SameBound(cfg: Config, n: nat)
    ensures Bound(Ideal(cfg), n) == Bound(cfg, n)
  {}

  lemma PromptNow(cfg: Config, n: nat, inputs: seq<Inputs>)
    requires PromptMemories(cfg, n, inputs)
    ensures Prompt(n, Waiting(cfg, inputs))
  {}

  // ---- from every state of a run ---------------------------------------------------------------------

  lemma {:induction false} ThenIsWatch(cfg: Config, xs: seq<Inputs>, ys: seq<Inputs>)
    ensures Then(cfg, Watch(cfg, xs).cpu, ys) == Watch(cfg, xs + ys).cpu
    decreases |ys|
  {
    hide Step, Cycle, Start;
    if ys == [] {
      assert xs + ys == xs;
    } else {
      assert (xs + [ys[0]])[..|xs|] == xs;
      CycleLogs(cfg, Watch(cfg, xs), ys[0]);
      ThenIsWatch(cfg, xs + [ys[0]], ys[1..]);
      assert xs + [ys[0]] + ys[1..] == xs + ys;
    }
  }

  lemma {:induction false} PromptBefore(cfg: Config, n: nat, inputs: seq<Inputs>, k: nat)
    requires PromptMemories(cfg, n, inputs) && k <= |inputs|
    ensures PromptMemories(cfg, n, inputs[..k])
    decreases |inputs|
  {
    hide Waiting;
    if k == |inputs| {
      assert inputs[..k] == inputs;
    } else {
      PromptBefore(cfg, n, inputs[..|inputs| - 1], k);
      assert inputs[..|inputs| - 1][..k] == inputs[..k];
    }
  }

  lemma {:induction false} PromptFrom(cfg: Config, n: nat, inputs: seq<Inputs>, k: nat)
    requires PromptMemories(cfg, n, inputs) && k <= |inputs|
    ensures PromptRun(cfg, n, Watch(cfg, inputs[..k]).cpu, inputs[k..], Waiting(cfg, inputs[..k]))
    decreases |inputs| - k
  {
    hide Step, Cycle, Start, WaitsNext;
    PromptBefore(cfg, n, inputs, k);
    if k < |inputs| {
      PromptFrom(cfg, n, inputs, k + 1);
      assert inputs[..k + 1][..k] == inputs[..k];
      CycleLogs(cfg, Watch(cfg, inputs[..k]), inputs[k]);
      assert inputs[k..][1..] == inputs[k + 1..];
    }
  }

  /** After any number of cycles the hardware commits within the bound. */
  lemma CommitsWithin(cfg: Config, n: nat, inputs: seq<Inputs>, k: nat) returns (j: nat)
    requires cfg.Valid() && cfg.ids.Wrapped? && PromptMemories(cfg, n, inputs) && k + Bound(cfg, n) <= |inputs|
    ensures k <= j <= k + Bound(cfg, n) && Watch(cfg, inputs[..j]).cpu.be.wb.Alive()
  {
    hide Watch, PromptMemories, Bound, PromptRun, Then, Waiting, NarrowFrontend, NarrowRows, Distance, Inv, NarrowToken;
    assert Hardware(cfg) == cfg;
    var ideal := Ideal(cfg);
    PromptIdeal(cfg, n, inputs);
    PromptFrom(ideal, n, inputs, k);
    InvRun(Ideal(cfg), inputs[..k]);
    SameBound(cfg, n);
    var s, waits := Watch(ideal, inputs[..k]).cpu, Waiting(ideal, inputs[..k]);
    PromptBefore(ideal, n, inputs, k);
    PromptNow(ideal, n, inputs[..k]);
    DistanceBound(ideal, n, s, waits);
    var d := CommitsSoon(ideal, n, s, inputs[k..], waits);
    ThenIsWatch(ideal, inputs[..k], inputs[k..][..d]);
    assert inputs[..k] + inputs[k..][..d] == inputs[..k + d];
    j := k + d;
    HardwareIsIdeal(cfg, inputs[..j]);
    PacketNarrow(Watch(ideal, inputs[..j]).cpu.be.wb, 0);
  }

  lemma {:induction false} HaltedStays(env: Isa.Env, a: Isa.Arch, m: nat, n: nat)
    requires m <= n && Isa.Run(env, a, Steps(m)).halted
    ensures Isa.Run(env, a, Steps(n)).halted
    decreases n
  {
    hide Isa.Step;
    if m < n {
      HaltedStays(env, a, m, n - 1);
      assert Steps(n)[..n - 1] == Steps(n - 1);
      HaltedStep(env, Isa.Run(env, a, Steps(n - 1)), Isa.Quiet);
    }
  }

  lemma HaltedStep(env: Isa.Env, a: Isa.Arch, s: Isa.Sample)
    requires a.halted
    ensures Isa.Step(env, a, s) == a
  {}

  lemma LongerTakesMore(b: nat, m: nat, n: nat)
    ensures m <= n ==> b * m <= b * n
  {}

  /** A commit log that is the plain interpreter's, ends with the first halt and has grown for so many
      cycles is the log of the whole program, if that halts after `h` steps. */
  lemma Completes(env: Isa.Env, start: Isa.Arch, commits: seq<Isa.Commit>, cycles: nat, b: nat, h: nat)
    requires commits == Isa.Reports(env, start, Steps(|commits|)) && !start.halted
    requires Stopped(commits) <==> Isa.Run(env, start, Steps(|commits|)).halted
    requires forall k :: 0 <= k < |commits| - 1 ==> !commits[k].halt.Halt?
    requires Stopped(commits) || cycles < b * (|commits| + 1)
    requires h > 0 && Isa.Run(env, start, Steps(h)).halted && !Isa.Run(env, start, Steps(h - 1)).halted
    requires cycles >= b * (h + 1)
    ensures |commits| == h
  {
    hide Isa.Run, Isa.Reports, Steps;
    var c := |commits|;
    if !Stopped(commits) {
      LongerTakesMore(b, c + 1, h + 1);
      HaltedStays(env, start, h, c);
      assert false;
    }
    assert c >= h by {
      if c < h {
        HaltedStays(env, start, c, h - 1);
      }
    }
    assert c <= h by {
      if c > h {
        Traps.StillRunning(env, start, Steps(c), h);
        StepsPrefix(c, h);
      }
    }
  }
}
