/** Runs of the hardware, with its 2-bit epochs and 8-bit sequence identifiers, are runs of the
    idealised core, seen through `Narrow`. */
module HardwareRuns {
  import opened Words
  import opened Uarch
  import opened Datapath
  import opened Core
  import opened CoreInv
  import opened Wrap
  import opened Refine
  import opened Runs
  import ExecCorrect
  import Isa

  function NarrowWorld(w: World): World { w.(cpu := Narrow(w.cpu)) }

  lemma PacketNarrow(t: Token, x10: Word)
    ensures Packet(NarrowToken(t), x10) == Packet(t, x10)
    ensures NarrowToken(t).Alive() == t.Alive()
  {
    hide NarrowEpoch, NarrowSeq, HaltExitCode;
  }

  lemma CycleNarrow(cfg: Config, w: World, input: Inputs)
    requires Inv(Ideal(cfg), w.cpu)
    ensures Cycle(Hardware(cfg), NarrowWorld(w), input) == NarrowWorld(Cycle(Ideal(cfg), w, input))
  {
    hide Step, NarrowFrontend, NarrowToken, NarrowRows, MemStall, DmemRequest, Packet, ExecCorrect.Observe, Inv;
    StepNarrow(cfg, w.cpu, input);
    SignalsNarrow(w.cpu.be, input);
    PacketNarrow(w.cpu.be.wb, w.cpu.be.regs[10]);
  }

  lemma HonestNarrow(env: Isa.Env, w: World, input: Inputs)
    ensures Honest(env, NarrowWorld(w), input) == Honest(env, w, input)
  {
    hide NarrowToken, NarrowRows, NarrowEpoch, NarrowSeq, NarrowPkt;
  }

  /** Whatever its inputs, the hardware shows the same as the core whose identities never wrap. */
  lemma {:induction false} HardwareIsIdeal(cfg: Config, inputs: seq<Inputs>)
    requires cfg.Valid()
    ensures Watch(Hardware(cfg), inputs) == NarrowWorld(Watch(Ideal(cfg), inputs))
    decreases |inputs|
  {
    hide Cycle, Inv, Narrow, Reset;
    if inputs == [] {
      NarrowReset(cfg);
      ResetSame(cfg);
    } else {
      var before, input := inputs[..|inputs| - 1], inputs[|inputs| - 1];
      InvRun(Ideal(cfg), before);
      HardwareIsIdeal(cfg, before);
      CycleNarrow(cfg, Watch(Ideal(cfg), before), input);
    }
  }

  lemma ResetSame(cfg: Config)
    ensures Reset(Ideal(cfg)) == Reset(cfg) && Reset(Hardware(cfg)) == Reset(cfg)
  {}

  lemma {:induction false} HonestIdeal(cfg: Config, env: Isa.Env, inputs: seq<Inputs>)
    requires cfg.Valid() && HonestRun(Hardware(cfg), env, inputs)
    ensures HonestRun(Ideal(cfg), env, inputs)
    decreases |inputs|
  {
    hide Cycle, Honest, Start, NarrowWorld, Watch;
    if inputs != [] {
      var before, input := inputs[..|inputs| - 1], inputs[|inputs| - 1];
      HonestIdeal(cfg, env, before);
      HardwareIsIdeal(cfg, before);
      HonestNarrow(env, Watch(Ideal(cfg), before), input);
    }
  }

  lemma ServesNarrow(w: World, input: Inputs)
    ensures FlagServes(NarrowWorld(w), input) == FlagServes(w, input)
  {
    hide NarrowToken, NarrowRows, NarrowEpoch, NarrowSeq, PreHalt, AsyncCause, AlignDown, NarrowFrontend;
    PacketNarrow(w.cpu.be.wb, 0);
    PacketNarrow(w.cpu.be.mem, 0);
    TokenFieldsNarrow(w.cpu.be.wb);
    TokenFieldsNarrow(w.cpu.be.mem);
    WantedNarrow(w.cpu.be.mem, w.cpu.be.csrs, MipOf(input));
  }

  lemma WantedNarrow(t: Token, c: CsrRegs, mip: Word)
    ensures TrapWanted(NarrowToken(t), c, mip) == TrapWanted(t, c, mip)
  {
    hide AsyncCause, LsuMisaligned, NarrowEpoch, NarrowSeq;
  }

  lemma {:induction false} ServedIdeal(cfg: Config, inputs: seq<Inputs>)
    requires cfg.Valid()
    ensures ServedRun(Hardware(cfg), inputs) == ServedRun(Ideal(cfg), inputs)
    decreases |inputs|
  {
    hide Cycle, FlagServes, Start, NarrowWorld, Watch;
    if inputs != [] {
      var before, input := inputs[..|inputs| - 1], inputs[|inputs| - 1];
      ServedIdeal(cfg, before);
      HardwareIsIdeal(cfg, before);
      ServesNarrow(Watch(Ideal(cfg), before), input);
    }
  }

  /** What the hardware has committed in an honest run that the flag serves, and the relation of its
      idealised twin to the sequential machine. */
  lemma TwinFollows(cfg: Config, env: Isa.Env, inputs: seq<Inputs>)
    requires cfg.Valid() && cfg.ids.Wrapped? && HonestRun(cfg, env, inputs) && ServedRun(cfg, inputs)
    ensures Follows(Ideal(cfg), env, Watch(Ideal(cfg), inputs))
    ensures Watch(cfg, inputs) == NarrowWorld(Watch(Ideal(cfg), inputs))
    ensures Origin(Ideal(cfg)) == Origin(cfg)
  {
    hide Watch, HonestRun, ServedRun, Follows, Narrow;
    assert Hardware(cfg) == cfg;
    HardwareIsIdeal(cfg, inputs);
    HonestIdeal(cfg, env, inputs);
    ServedIdeal(cfg, inputs);
    IdealFollows(Ideal(cfg), env, inputs);
  }
}
