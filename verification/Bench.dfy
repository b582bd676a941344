/** The testbench of tb/tb_top.sv around the core: memories that are always ready and answer in the
    next cycle. Its runs meet every hypothesis of the refinement theorems. */
module Bench {
  import opened Words
  import opened Uarch
  import opened Datapath
  import opened Core
  import opened Refine
  import opened Runs
  import opened Progress
  import opened Liveness
  import opened QuietRuns
  import ExecCorrect
  import Isa

  datatype Wires = Wires(msip: bool, mtip: bool, meip: bool)

  /** The response registers. */
  datatype Ports = Ports(imem: MemResp, dmem: MemResp)

  const Idle := Ports(MemResp(false, 0, false), MemResp(false, 0, false))

  function Answer(f: Isa.Fetched): MemResp { MemResp(true, f.inst, f.error) }
  function Reply(r: Isa.Reply): MemResp { MemResp(true, r.rdata, r.error) }

  function PortsNext(cfg: Config, env: Isa.Env, w: World, input: Inputs): Ports {
    Ports(if ImemReqValid(cfg, w.cpu.fe, Redirect(w.cpu.be, input)) then Answer(env.code(w.cpu.fe.fetch.pc))
          else MemResp(false, 0, false),
          if Fires(w.cpu.be, input) then Reply(env.reply(w.bus + [ExecCorrect.EventOf(DmemRequest(w.cpu.be, input))]))
          else MemResp(false, 0, false))
  }

  function InputOf(ports: Ports, wires: Wires): Inputs {
    Inputs(true, ports.imem, true, ports.dmem, wires.msip, wires.mtip, wires.meip)
  }

  /** What the testbench feeds the core, given what the devices do with the interrupt wires. */
  function Feed(cfg: Config, env: Isa.Env, wires: seq<Wires>): (inputs: seq<Inputs>)
    ensures |inputs| == |wires|
    decreases wires
  {
    if wires == [] then []
    else
      var before := Feed(cfg, env, wires[..|wires| - 1]);
      before + [InputOf(PortsAfter(cfg, env, before), wires[|wires| - 1])]
  }

  function PortsAfter(cfg: Config, env: Isa.Env, inputs: seq<Inputs>): Ports {
    if inputs == [] then Idle
    else PortsNext(cfg, env, Watch(cfg, inputs[..|inputs| - 1]), inputs[|inputs| - 1])
  }

  /** A request that is out is answered now, and by the right memory. */
  ghost predicate Answered(env: Isa.Env, w: World, ports: Ports) {
    && (w.cpu.fe.fetch.outstanding ==> ports.imem == Answer(env.code(w.cpu.fe.fetch.reqPc)))
    && (w.cpu.be.reqSent ==> ports.dmem == Reply(env.reply(w.bus)))
  }

  lemma AnsweredNext(cfg: Config, env: Isa.Env, w: World, ports: Ports, wires: Wires)
    requires Answered(env, w, ports)
    ensures Answered(env, Cycle(cfg, w, InputOf(ports, wires)), PortsNext(cfg, env, w, InputOf(ports, wires)))
  {
    var input := InputOf(ports, wires);
    FetchAnswered(cfg, env, w, ports, wires);
    hide Step, Cycle, KillOf, FrontendNext, BackendNext, MemStall, DmemRequest, ImemReqValid, ExecCorrect.EventOf;
    WorldMoves(cfg, w, input);
    SentNow(cfg, w.cpu, input);
  }

  lemma FetchAnswered(cfg: Config, env: Isa.Env, w: World, ports: Ports, wires: Wires)
    requires Answered(env, w, ports)
    ensures var input := InputOf(ports, wires);
      var f := Step(cfg, w.cpu, input).fe.fetch;
      f.outstanding ==> ImemReqValid(cfg, w.cpu.fe, Redirect(w.cpu.be, input)) && f.reqPc == w.cpu.fe.fetch.pc
  {
    hide KillOf, BackendNext, Plus, RedirectPc, QueueNext, Issues, NextEpoch, NextSeq;
  }

  lemma SentNow(cfg: Config, s: Cpu, input: Inputs)
    requires s.be.reqSent ==> input.dmemResp.valid
    ensures Step(cfg, s, input).be.reqSent ==> Fires(s.be, input)
  {
    hide FrontendNext, KillOf, RowsNext, CsrsNext, RegsNext, MemNext, WbNext, IssueToken, Accesses, LsuBe, LsuWdata;
  }

  lemma {:induction false} FeedAnswers(cfg: Config, env: Isa.Env, wires: seq<Wires>)
    ensures var inputs := Feed(cfg, env, wires);
      Answered(env, Watch(cfg, inputs), PortsAfter(cfg, env, inputs))
    decreases |wires|
  {
    hide Cycle, PortsNext, Answered;
    if wires == [] {
      AnsweredStart(cfg, env);
    } else {
      var before := Feed(cfg, env, wires[..|wires| - 1]);
      FeedAnswers(cfg, env, wires[..|wires| - 1]);
      AnsweredNext(cfg, env, Watch(cfg, before), PortsAfter(cfg, env, before), wires[|wires| - 1]);
      assert Feed(cfg, env, wires)[..|wires| - 1] == before;
    }
  }

  lemma AnsweredStart(cfg: Config, env: Isa.Env)
    ensures Answered(env, Start(cfg), Idle)
  {}

  /** The testbench keeps the promises of the memories. */
  lemma {:induction false} FeedIsHonest(cfg: Config, env: Isa.Env, wires: seq<Wires>)
    ensures HonestRun(cfg, env, Feed(cfg, env, wires))
    decreases |wires|
  {
    hide Watch, PortsAfter;
    if wires != [] {
      var before := Feed(cfg, env, wires[..|wires| - 1]);
      FeedIsHonest(cfg, env, wires[..|wires| - 1]);
      FeedAnswers(cfg, env, wires[..|wires| - 1]);
      assert Feed(cfg, env, wires)[..|wires| - 1] == before;
    }
  }

  lemma NothingWaits(cfg: Config, env: Isa.Env, w: World, ports: Ports, wires: Wires, waits: Waits)
    requires Answered(env, w, ports)
    ensures WaitsNext(cfg, w.cpu, InputOf(ports, wires), waits) == Waits(0, 0)
  {
    hide KillOf, Plus, AsyncCause, PreHalt, LsuBe, LsuWdata, LsuMisaligned;
  }

  /** No request ever waits a cycle. */
  lemma {:induction false} FeedIsPrompt(cfg: Config, env: Isa.Env, wires: seq<Wires>)
    ensures PromptMemories(cfg, 1, Feed(cfg, env, wires)) && Waiting(cfg, Feed(cfg, env, wires)) == Waits(0, 0)
    decreases |wires|
  {
    hide Watch, PortsAfter;
    if wires != [] {
      var before := Feed(cfg, env, wires[..|wires| - 1]);
      FeedIsPrompt(cfg, env, wires[..|wires| - 1]);
      FeedAnswers(cfg, env, wires[..|wires| - 1]);
      assert Feed(cfg, env, wires)[..|wires| - 1] == before;
      NothingWaits(cfg, env, Watch(cfg, before), PortsAfter(cfg, env, before), wires[|wires| - 1], Waits(0, 0));
    }
  }

  ghost predicate WiresLow(wires: seq<Wires>) { forall k :: 0 <= k < |wires| ==> wires[k] == Wires(false, false, false) }

  lemma {:induction false} FeedIsQuiet(cfg: Config, env: Isa.Env, wires: seq<Wires>)
    requires WiresLow(wires)
    ensures QuietRun(Feed(cfg, env, wires))
    decreases |wires|
  {
    hide PortsAfter;
    if wires != [] {
      FeedIsQuiet(cfg, env, wires[..|wires| - 1]);
    }
  }

  /** The interrupt wires reach the core as they are, each in its own cycle, and both ports are ready. */
  lemma {:induction false} WiresPass(cfg: Config, env: Isa.Env, wires: seq<Wires>, k: nat)
    requires k < |wires|
    ensures var input := Feed(cfg, env, wires)[k];
      && input.msip == wires[k].msip && input.mtip == wires[k].mtip && input.meip == wires[k].meip
      && input.imemReady && input.dmemReady
    decreases |wires|
  {
    hide PortsAfter;
    if k < |wires| - 1 {
      WiresPass(cfg, env, wires[..|wires| - 1], k);
    }
  }
}
