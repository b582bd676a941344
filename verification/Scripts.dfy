/** Particular programs on the core: what the sequential machine goes through is given, and the core
    is followed cycle by cycle from there. */
module Scripts {
  import opened Words
  import opened Uarch
  import opened Datapath
  import opened Core
  import opened CoreInv
  import opened ExecCorrect
  import opened Refine
  import opened Runs
  import opened Timing
  import opened Chains
  import DecodeCorrect
  import Decoder
  import Isa

  /** What matters of an instruction to the timing: it runs through, loads, or traps. */
  datatype Op = Plain | Load | Call

  function Seen(mip: Word): Isa.Sample { Isa.Sample(mip, mip, false, false) }

  ghost predicate Does(env: Isa.Env, a: Isa.Arch, op: Op, mip: Word) {
    var i := InstrAt(env, a.pc);
    && !a.halted && EarlyAt(env, a) == HaltNone && Isa.JumpTarget(a, i) == None && !i.Mret?
    && (op == Call <==> Wants(env, a, Seen(mip)))
    && (op == Load ==> i.Load?) && (op == Plain ==> !Isa.IsMemory(i))
  }

  /** With the wires at `mip` the sequential machine goes through the states `arch`, where its
      instructions are of the kinds `ops`. The data port returns zero, and no instruction reads a
      register other than x0. */
  ghost predicate Script(cfg: Config, env: Isa.Env, mip: Word, arch: seq<Isa.Arch>, ops: seq<Op>) {
    && |arch| == |ops| > 0 && arch[0] == Origin(cfg)
    && (forall k :: 0 <= k < |ops| ==> Does(env, arch[k], ops[k], mip))
    && (forall k, s: Isa.Sample :: 0 <= k < |ops| - 1 && s.mipRead == s.mipTake == mip ==>
          Isa.Step(env, arch[k], s) == arch[k + 1])
    && (forall pc :: Free(DecodeAt(env, pc)))
    && (forall bus :: env.reply(bus) == Isa.Reply(0, false))
  }

  lemma MemDoes(env: Isa.Env, m: Isa.Arch, w: World, input: Inputs, op: Op)
    requires w.cpu.be.mem.Alive() && RelMem(env, m, w) && RelCsrs(env, m, w)
    requires w.memMip == MipOf(input) && Does(env, m, op, w.memMip)
    ensures var be := w.cpu.be;
      && (TrapWanted(be.mem, be.csrs, MipOf(input)) <==> op == Call)
      && (MemStall(be, input) <==> op == Load && !(be.reqSent && input.dmemResp.valid))
      && be.mem.ir.pc == m.pc
  {
    hide InstrAt, Executed, Isa.CsrsAfter, AsyncCause, Isa.PendingInterrupt, EarlyAt, LsuMisaligned, AbsCsrs,
         Isa.JumpTarget, IllegalNow, MisalignedTarget, MtvecBase, Isa.DataAddress, Isa.Width;
    var be := w.cpu.be;
    ExecutedFields(env, m, w.memMip, be.mem);
    MemPreHalt(env, m, w.memMip, be.mem);
    NoEarlyHaltLegal(env, m);
    InterruptAgrees(be.csrs, MipOf(input));
  }

  /** An instruction of the script does not redirect the frontend from EXE. */
  lemma ExeStays(env: Isa.Env, e: Isa.Arch, t: Token, op: Op, mip: Word)
    requires Issued(env, e, t) && Does(env, e, op, mip)
    ensures !Transfers(t)
  {
    hide InstrAt, DecodeAt, EarlyAt, Isa.JumpTarget, Taken, ActualTarget, Operands, DecodeCorrect.Implements, Issued,
         Wants, Decoder.WellFormed, IllegalNow, MisalignedTarget;
    IssuedFields(env, e, t);
    NoEarlyHaltLegal(env, e);
    TransferAgrees(e, InstrAt(env, e.pc), t.ir, t);
    BranchClass(InstrAt(env, e.pc), t.ir);
  }

  // ---- one cycle ----------------------------------------------------------------------------------

  /** The core has committed `n` instructions of the script and is where `v` shows. */
  ghost predicate On(cfg: Config, env: Isa.Env, mip: Word, arch: seq<Isa.Arch>, w: World, v: View, n: nat) {
    && Follows(cfg, env, w) && n < |arch| && Isa.Run(env, Origin(cfg), w.samples) == arch[n]
    && |w.samples| == n && !Halting(w.cpu.be) && Shows(w.cpu, v)
    && (v.mem ==> w.memMip == mip)
    && (v.wb ==> w.wbSample.mipRead == w.wbSample.mipTake == mip)
  }

  function Next(ops: seq<Op>, v: View, n: nat, answer: bool): (View, nat) {
    var m := if v.wb then n + 1 else n;
    var stall := v.mem && m < |ops| && ops[m] == Load && !(v.sent && answer);
    (if v.mem && m < |ops| && ops[m] == Call then Traps(v) else Moves(v, stall), m)
  }

  /** The instructions up to EXE's belong to the script, or up to MEM's if that traps. */
  predicate InScript(ops: seq<Op>, v: View, n: nat) {
    var m := MemIndex(v, n);
    m < |ops| && (v.mem && ops[m] != Call ==> m + 1 < |ops|)
  }

  /** The script goes on behind a trap, which meets no fetch in progress. */
  predicate TrapsWell(ops: seq<Op>, v: View, n: nat) {
    TrapsNow(ops, v, n) ==> v.phase == Ask && MemIndex(v, n) + 1 < |ops|
  }

  /** The states behind WB and, without a trap, behind MEM. */
  lemma StatesOf(cfg: Config, env: Isa.Env, mip: Word, arch: seq<Isa.Arch>, ops: seq<Op>, w: World, v: View, n: nat)
    requires Script(cfg, env, mip, arch, ops) && On(cfg, env, mip, arch, w, v, n) && InScript(ops, v, n)
    ensures var m := if v.wb then n + 1 else n;
      && ArchMem(env, arch[n], w) == arch[m]
      && (v.mem && ops[m] != Call ==> ArchExe(env, arch[m], w) == arch[m + 1] && !arch[m + 1].lastTrap)
  {
    hide Does, Follows, Isa.Step, Isa.Run, Fetches, Free, DecodeAt, InstrAt;
    var m := if v.wb then n + 1 else n;
    if v.mem && ops[m] != Call {
      Unwanted(env, arch[m], ops[m], mip);
      assert Isa.Step(env, arch[m], Seen(mip)) == arch[m + 1];
    }
  }

  /** The state behind WB's instruction. */
  lemma BehindWb(cfg: Config, env: Isa.Env, mip: Word, arch: seq<Isa.Arch>, ops: seq<Op>, w: World, v: View, n: nat)
    requires Script(cfg, env, mip, arch, ops) && On(cfg, env, mip, arch, w, v, n) && v.wb && n + 1 < |arch|
    ensures ArchMem(env, arch[n], w) == arch[n + 1] && !arch[n].halted && Rel(env, arch[n], w) && !Stopped(w.commits)
  {
    hide EarlyAt, InstrAt, Wants, Isa.JumpTarget, Rel, Isa.Step, Isa.Run, Fetches, Free, DecodeAt, Isa.Reports, Stopped,
         CoreInv.Inv;
    assert Isa.Step(env, arch[n], w.wbSample) == arch[n + 1];
  }

  lemma Unwanted(env: Isa.Env, a: Isa.Arch, op: Op, mip: Word)
    requires Does(env, a, op, mip) && op != Call
    ensures Isa.Step(env, a, Undisturbed(mip)) == Isa.Step(env, a, Seen(mip))
    ensures !Isa.Step(env, a, Seen(mip)).lastTrap
  {
    hide EarlyAt, InstrAt, Isa.Step, Wants, Isa.Transaction, Isa.JumpTarget;
    UnwantedStep(env, a, Seen(mip));
  }

  function MemIndex(v: View, n: nat): nat { if v.wb then n + 1 else n }

  predicate TrapsNow(ops: seq<Op>, v: View, n: nat) {
    v.mem && MemIndex(v, n) < |ops| && ops[MemIndex(v, n)] == Call
  }

  lemma MemSignals(cfg: Config, env: Isa.Env, mip: Word, arch: seq<Isa.Arch>, ops: seq<Op>, w: World, v: View, n: nat, input: Inputs)
    requires Script(cfg, env, mip, arch, ops) && On(cfg, env, mip, arch, w, v, n) && InScript(ops, v, n)
    requires MipOf(input) == mip
    ensures TrapWanted(w.cpu.be.mem, w.cpu.be.csrs, MipOf(input)) <==> TrapsNow(ops, v, n)
    ensures MemStall(w.cpu.be, input) <==>
      v.mem && ops[MemIndex(v, n)] == Load && !(v.sent && input.dmemResp.valid)
    ensures w.cpu.be.lastTrap == arch[n].lastTrap
  {
    hide Does, Isa.Step, Isa.Run, Fetches, Free, DecodeAt, RelBus, RelFetch, RelCode, Executed, CoreInv.Inv, Stall, AbsCsrs,
         Isa.CsrsAfter, MtvecBase, AsyncCause, RelExe, Isa.Reports, Finished, TrapWanted, Stopped, ArchMem, ArchExe, RelMem,
         RelCsrs;
    var be := w.cpu.be;
    StatesOf(cfg, env, mip, arch, ops, w, v, n);
    StillOn(cfg, env, mip, arch, ops, w, v, n);
    if v.mem {
      MemDoes(env, arch[MemIndex(v, n)], w, input, ops[MemIndex(v, n)]);
    } else {
      NoMem(be, input);
    }
  }

  /** The relation, at the states of the script. */
  lemma StillOn(cfg: Config, env: Isa.Env, mip: Word, arch: seq<Isa.Arch>, ops: seq<Op>, w: World, v: View, n: nat)
    requires Script(cfg, env, mip, arch, ops) && On(cfg, env, mip, arch, w, v, n) && InScript(ops, v, n)
    ensures !arch[n].halted && !Stopped(w.commits) && Rel(env, arch[n], w) && CoreInv.Inv(cfg, w.cpu)
    ensures RelFlight(env, arch[MemIndex(v, n)], w)
  {
    hide Isa.Step, Isa.Run, Fetches, Free, DecodeAt, RelWb, RelFlight, RelCode, CoreInv.Inv, Isa.Reports, ArchMem, Stopped,
         EarlyAt, InstrAt, Wants, Isa.JumpTarget;
    StatesOf(cfg, env, mip, arch, ops, w, v, n);
  }

  lemma ExeSignals(cfg: Config, env: Isa.Env, mip: Word, arch: seq<Isa.Arch>, ops: seq<Op>, w: World, v: View, n: nat)
    requires Script(cfg, env, mip, arch, ops) && On(cfg, env, mip, arch, w, v, n) && InScript(ops, v, n)
    requires !TrapsNow(ops, v, n)
    ensures !Transfers(w.cpu.be.exe)
  {
    hide Does, Isa.Step, Isa.Run, Fetches, Free, DecodeAt, RelBus, RelFetch, RelCode, Executed, CoreInv.Inv, AbsCsrs,
         RelMem, RelCsrs, Issued, Isa.Reports, Finished, Taken, Stopped, ArchMem, ArchExe;
    StatesOf(cfg, env, mip, arch, ops, w, v, n);
    StillOn(cfg, env, mip, arch, ops, w, v, n);
    var m := MemIndex(v, n);
    var e := if v.mem then m + 1 else m;
    if w.cpu.be.exe.valid {
      NotHalted(env, arch[e], ops[e], mip);
      assert ArchExe(env, arch[m], w) == arch[e] by {
        NoMemNoStep(env, arch[m], w);
      }
      ExeStays(env, arch[e], w.cpu.be.exe, ops[e], mip);
    }
  }

  lemma NoMemNoStep(env: Isa.Env, m: Isa.Arch, w: World)
    ensures !w.cpu.be.mem.Alive() ==> ArchExe(env, m, w) == m
  {}

  /** What MEM and EXE do in this cycle. */
  lemma Signals(cfg: Config, env: Isa.Env, mip: Word, arch: seq<Isa.Arch>, ops: seq<Op>, w: World, v: View, n: nat, input: Inputs)
    requires Script(cfg, env, mip, arch, ops) && On(cfg, env, mip, arch, w, v, n) && InScript(ops, v, n)
    requires MipOf(input) == mip && (TrapsNow(ops, v, n) ==> !arch[n].lastTrap)
    ensures MemStall(w.cpu.be, input) <==>
      v.mem && ops[MemIndex(v, n)] == Load && !(v.sent && input.dmemResp.valid)
    ensures TrapFlush(w.cpu.be, input) == TrapsNow(ops, v, n)
    ensures !TrapsNow(ops, v, n) ==> !Redirect(w.cpu.be, input)
    ensures FlagServes(w, input)
  {
    hide Script, On, InScript, TrapWanted, MtvecBase, MemStall, Transfers, TrapsNow, Stopped;
    MemSignals(cfg, env, mip, arch, ops, w, v, n, input);
    TrapsAre(ops, v, n);
    if !TrapsNow(ops, v, n) {
      ExeSignals(cfg, env, mip, arch, ops, w, v, n);
    }
  }

  lemma TrapsAre(ops: seq<Op>, v: View, n: nat)
    ensures TrapsNow(ops, v, n) ==> v.mem && MemIndex(v, n) < |ops| && ops[MemIndex(v, n)] == Call
  {}

  lemma NoMem(be: Backend, input: Inputs)
    requires !be.mem.Alive()
    ensures !MemStall(be, input) && !TrapWanted(be.mem, be.csrs, MipOf(input))
  {
    hide AsyncCause, PreHalt;
  }

  lemma NotHalted(env: Isa.Env, a: Isa.Arch, op: Op, mip: Word)
    requires Does(env, a, op, mip)
    ensures !a.halted
  {}

  lemma ProddedHonest(env: Isa.Env, w: World, answer: bool, msip: bool)
    requires forall bus :: env.reply(bus) == Isa.Reply(0, false)
    ensures Honest(env, w, Prodded(env, w.cpu, answer, msip))
  {}

  lemma Shown(cfg: Config, env: Isa.Env, mip: Word, arch: seq<Isa.Arch>, ops: seq<Op>, w: World, v: View, n: nat, input: Inputs)
    requires cfg.ids.Unbounded? && Script(cfg, env, mip, arch, ops) && On(cfg, env, mip, arch, w, v, n) && InScript(ops, v, n)
    requires MipOf(input) == mip && (TrapsNow(ops, v, n) ==> !arch[n].lastTrap)
    requires v.stale + v.current < cfg.queueDepth && TrapsWell(ops, v, n)
    requires input.imemReady && input.imemResp.valid && input.dmemReady
    ensures Shows(Step(cfg, w.cpu, input), Next(ops, v, n, input.dmemResp.valid).0)
  {
    hide Does, Isa.Step, Isa.Run, Fetches, Free, DecodeAt, RelWb, RelFlight, CoreInv.Inv, Isa.Reports, Core.Step, Stopped,
         MemStall, TrapFlush, Redirect, FlagServes, Moves, Traps;
    Signals(cfg, env, mip, arch, ops, w, v, n, input);
    StillOn(cfg, env, mip, arch, ops, w, v, n);
    if TrapsNow(ops, v, n) {
      Trapped(cfg, w.cpu, v, input);
    } else {
      HeadFree(env, w.cpu.fe, v);
      Flows(cfg, w.cpu, v, input);
    }
  }

  lemma HeadFree(env: Isa.Env, fe: Frontend, v: View)
    requires Fetches(fe, v) && RelCode(env, fe) && forall pc :: Free(DecodeAt(env, pc))
    ensures v.stale == 0 && v.current > 0 ==> Free(fe.queue[0].ir)
  {
    hide Free, DecodeAt;
  }

  /** What the observer has written down after the cycle. */
  lemma Logged(cfg: Config, env: Isa.Env, mip: Word, arch: seq<Isa.Arch>, ops: seq<Op>, w: World, v: View, n: nat, input: Inputs)
    requires cfg.ids.Unbounded? && Script(cfg, env, mip, arch, ops) && On(cfg, env, mip, arch, w, v, n) && InScript(ops, v, n)
    requires MipOf(input) == mip && (TrapsNow(ops, v, n) ==> !arch[n].lastTrap) && Honest(env, w, input)
    ensures var w', m := Cycle(cfg, w, input), MemIndex(v, n);
      && Follows(cfg, env, w') && |w'.samples| == m && Isa.Run(env, Origin(cfg), w'.samples) == arch[m]
  {
    hide Does, Isa.Step, Isa.Run, Shows, Free, DecodeAt, Follows, Core.Step, FlagServes, Cycle, Honest;
    Signals(cfg, env, mip, arch, ops, w, v, n, input);
    StillOn(cfg, env, mip, arch, ops, w, v, n);
    FollowsNext(cfg, env, w, input);
    CycleLogs(cfg, w, input);
    RunExtends(env, Origin(cfg), w.samples, w.wbSample);
    WbShown(w.cpu, v);
  }

  lemma WbShown(s: Cpu, v: View)
    requires Shows(s, v)
    ensures s.be.wb.Alive() == v.wb && s.be.mem.Alive() == v.mem && s.be.reqSent == v.sent
  {}

  /** One cycle along the script. */
  lemma OnNext(cfg: Config, env: Isa.Env, mip: Word, arch: seq<Isa.Arch>, ops: seq<Op>, w: World, v: View, n: nat,
               answer: bool, msip: bool)
    requires cfg.ids.Unbounded? && Script(cfg, env, mip, arch, ops) && On(cfg, env, mip, arch, w, v, n) && InScript(ops, v, n)
    requires Mip(msip, false, false) == mip && (TrapsNow(ops, v, n) ==> !arch[n].lastTrap)
    requires v.stale + v.current < cfg.queueDepth && TrapsWell(ops, v, n)
    ensures var (v', n') := Next(ops, v, n, answer);
      On(cfg, env, mip, arch, Cycle(cfg, w, Prodded(env, w.cpu, answer, msip)), v', n')
  {
    hide Does, Isa.Step, Isa.Run, Fetches, Free, DecodeAt, Follows, Core.Step, FlagServes, Honest, Cycle, MemStall,
         Traps, Moves, Mip, Redirect, TrapFlush;
    var input := Prodded(env, w.cpu, answer, msip);
    ProddedHonest(env, w, answer, msip);
    Shown(cfg, env, mip, arch, ops, w, v, n, input);
    Logged(cfg, env, mip, arch, ops, w, v, n, input);
    Signals(cfg, env, mip, arch, ops, w, v, n, input);
    WorldMoves(cfg, w, input);
    var (v', n') := Next(ops, v, n, answer);
    var w' := Cycle(cfg, w, input);
    NextStages(ops, v, n, answer);
    GoesOn(cfg, env, mip, arch, ops, w', v', n');
  }

  /** Whose token is where after the cycle. */
  lemma NextStages(ops: seq<Op>, v: View, n: nat, answer: bool)
    requires InScript(ops, v, n) && TrapsWell(ops, v, n)
    ensures var (v', n') := Next(ops, v, n, answer);
      var stall := v.mem && ops[MemIndex(v, n)] == Load && !(v.sent && answer);
      && n' == MemIndex(v, n) && n' < |ops| && (v'.wb ==> v.mem && !stall && n' + 1 < |ops|)
      && (v'.mem ==> (stall && v.mem) || !stall)
  {}

  lemma RelParts(env: Isa.Env, a: Isa.Arch, w: World)
    requires Rel(env, a, w)
    ensures RelWb(env, a, w)
  {}

  /** Nothing in the script halts. */
  lemma GoesOn(cfg: Config, env: Isa.Env, mip: Word, arch: seq<Isa.Arch>, ops: seq<Op>, w: World, v: View, n: nat)
    requires Script(cfg, env, mip, arch, ops) && Follows(cfg, env, w) && Shows(w.cpu, v) && n < |arch|
    requires Isa.Run(env, Origin(cfg), w.samples) == arch[n]
    requires v.wb ==> n + 1 < |arch| && w.wbSample.mipRead == w.wbSample.mipTake == mip
    ensures !Halting(w.cpu.be)
  {
    hide EarlyAt, InstrAt, Wants, Isa.JumpTarget, Isa.Step, Isa.Run, Fetches, Free, DecodeAt, RelFlight, RelCode, CoreInv.Inv,
         Isa.Reports, Finished, Does, Rel;
    NotHalted(env, arch[n], ops[n], mip);
    RelParts(env, arch[n], w);
    Committed(env, arch[n], w);
    if v.wb {
      NotHalted(env, arch[n + 1], ops[n + 1], mip);
      assert Isa.Step(env, arch[n], w.wbSample) == arch[n + 1];
    }
  }

  // ---- inputs --------------------------------------------------------------------------------------

  /** The inputs of the first `n` cycles; the data port answers in the cycles `answers`. */
  function Feed(cfg: Config, env: Isa.Env, answers: set<nat>, msip: bool, n: nat): (inputs: seq<Inputs>)
    ensures |inputs| == n
  {
    if n == 0 then []
    else
      var before := Feed(cfg, env, answers, msip, n - 1);
      before + [Prodded(env, Watch(cfg, before).cpu, n - 1 in answers, msip)]
  }

  lemma FeedPrefix(cfg: Config, env: Isa.Env, answers: set<nat>, msip: bool, n: nat)
    requires n > 0
    ensures var inputs, before := Feed(cfg, env, answers, msip, n), Feed(cfg, env, answers, msip, n - 1);
      inputs[..n - 1] == before && inputs[n - 1] == Prodded(env, Watch(cfg, before).cpu, n - 1 in answers, msip)
  {}

  lemma {:induction false} FeedIsHonest(cfg: Config, env: Isa.Env, answers: set<nat>, msip: bool, n: nat)
    requires forall bus :: env.reply(bus) == Isa.Reply(0, false)
    ensures HonestRun(cfg, env, Feed(cfg, env, answers, msip, n))
  {
    hide Watch, Honest, Prodded;
    if n > 0 {
      FeedIsHonest(cfg, env, answers, msip, n - 1);
      FeedPrefix(cfg, env, answers, msip, n);
      ProddedHonest(env, Watch(cfg, Feed(cfg, env, answers, msip, n - 1)), n - 1 in answers, msip);
    }
  }

  /** The script's trap, a cycle later: the instruction is in WB, with the trap pending. */
  lemma TrapArrives(cfg: Config, env: Isa.Env, mip: Word, arch: seq<Isa.Arch>, ops: seq<Op>, w: World, v: View, n: nat,
                    input: Inputs)
    requires cfg.ids.Unbounded? && Script(cfg, env, mip, arch, ops) && On(cfg, env, mip, arch, w, v, n)
    requires InScript(ops, v, n) && TrapsNow(ops, v, n) && !arch[n].lastTrap && !v.sent && MipOf(input) == mip && Honest(env, w, input)
    ensures var w', wb := Cycle(cfg, w, input), Cycle(cfg, w, input).cpu.be.wb;
      && Follows(cfg, env, w') && !Stopped(w'.commits) && |w'.samples| == MemIndex(v, n)
      && Isa.Run(env, Origin(cfg), w'.samples) == arch[MemIndex(v, n)]
      && w'.wbSample.mipRead == w'.wbSample.mipTake == mip
      && wb.Alive() && wb.trapPending && !wb.halt
  {
    hide Does, Isa.Step, Isa.Run, Fetches, Free, DecodeAt, Rel, Isa.Reports, Core.Step, FlagServes, Cycle, Honest, Stopped,
         Follows, KilledByEvent, TakeTrap;
    Signals(cfg, env, mip, arch, ops, w, v, n, input);
    StillOn(cfg, env, mip, arch, ops, w, v, n);
    Logged(cfg, env, mip, arch, ops, w, v, n, input);
    WorldMoves(cfg, w, input);
    TrapMoves(cfg, w.cpu, input);
    WbShown(w.cpu, v);
    NotHalted(env, arch[MemIndex(v, n)], ops[MemIndex(v, n)], mip);
    FollowsStops(cfg, env, Cycle(cfg, w, input));
  }

  lemma FollowsStops(cfg: Config, env: Isa.Env, w: World)
    requires Follows(cfg, env, w)
    ensures Stopped(w.commits) == Isa.Run(env, Origin(cfg), w.samples).halted
  {}

  lemma TrapMoves(cfg: Config, s: Cpu, input: Inputs)
    requires Inv(cfg, s) && cfg.ids.Unbounded? && TrapFlush(s.be, input) && !s.be.reqSent
    ensures !MemStall(s.be, input)
    ensures var wb := Step(cfg, s, input).be.wb; wb.Alive() && wb.trapPending && !wb.halt
  {
    hide Step, MemOut, AsyncCause, KillOf, KilledByEvent, EpochsOk, WbOk, TrapDrained,
         Chain, Stream, AlignDown, Plus, MemStall, TrapWanted, Mirrored;
    var be := s.be;
    TokensMove(cfg, s, input);
    StateMoves(cfg, s, input);
    KillsExactly(cfg, s, input);
    MemOutFields(be.mem, be.csrs, MipOf(input), be.lastTrap, be.reqSent, input.dmemResp);
    NoPreHalt(be.mem, be.csrs, MipOf(input));
    TrapNoStall(be, input);
  }

  lemma TrapNoStall(be: Backend, input: Inputs)
    requires TrapFlush(be, input)
    ensures !MemStall(be, input)
  {}

  lemma NoPreHalt(t: Token, c: CsrRegs, mip: Word)
    requires TrapWanted(t, c, mip)
    ensures !t.halt && !PreHalt(t)
  {}
}
