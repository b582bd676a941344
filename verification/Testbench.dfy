/** The loop of tb/tb_top.sv, clocking the core until it halts or the cycles run out. */
module Testbench {
  import opened Uarch
  import opened Core
  import opened Refine
  import opened Runs
  import opened Bench
  import opened Machine
  import ExecCorrect
  import Isa

  /** `wires` holds the interrupt wires of each cycle; its length is the cycle limit. */
  method RunCore(cfg: Config, env: Isa.Env, wires: seq<Wires>)
    returns (commits: seq<Isa.Commit>, done: bool, cycles: nat)
    requires cfg.Valid()
    ensures cycles <= |wires| && (cycles == |wires| || done)
    ensures commits == Watch(cfg, Feed(cfg, env, wires[..cycles])).commits
    ensures done == Stopped(commits)
    ensures done ==> cycles > 0 && !Stopped(Watch(cfg, Feed(cfg, env, wires[..cycles - 1])).commits)
  {
    hide Watch, Cycle, Feed, PortsNext, Core.Step, Core.Reset, PortsAfter, DmemRequest, CommitOf, ImemReqValid, Redirect,
         ExecCorrect.EventOf;
    var top := new Top(cfg);
    var imemResp, dmemResp := Idle.imem, Idle.dmem;
    ghost var w := Start(cfg);
    var bus: seq<Isa.BusEvent> := [];
    commits, done, cycles := [], false, 0;
    Begins(cfg, env);
    assert wires[..0] == [];
    while cycles < |wires| && !done
      invariant cycles <= |wires|
      invariant top.Valid() && top.cfg == cfg && top.State() == w.cpu
      invariant w == Watch(cfg, Feed(cfg, env, wires[..cycles]))
      invariant Ports(imemResp, dmemResp) == PortsAfter(cfg, env, Feed(cfg, env, wires[..cycles]))
      invariant w.bus == bus && w.commits == commits && done == Stopped(commits)
      invariant done ==> cycles > 0 && !Stopped(Watch(cfg, Feed(cfg, env, wires[..cycles - 1])).commits)
      invariant fresh(top.frontend) && fresh(top.frontend.stage) && fresh(top.frontend.queue) && fresh(top.frontend.queue.mem)
      invariant fresh(top.backend) && fresh(top.backend.rows) && fresh(top.backend.regs.data)
      invariant fresh(top.backend.csrs) && fresh(top.backend.port)
    {
      var input := InputOf(Ports(imemResp, dmemResp), wires[cycles]);
      var be := top.backend.State();
      var req := DmemRequest(be, input);
      var fetches := top.frontend.Requests(cfg, Redirect(be, input));
      var pc := top.frontend.stage.pc;
      if be.wb.Alive() {
        commits := commits + [CommitOf(be)];
        done := commits[|commits| - 1].halt.Halt?;
      }
      imemResp := if fetches then Answer(env.code(pc)) else MemResp(false, 0, false);
      if req.valid {
        bus := bus + [ExecCorrect.EventOf(req)];
        dmemResp := Reply(env.reply(bus));
      } else {
        dmemResp := MemResp(false, 0, false);
      }
      top.Clock(input);
      Unfolds(cfg, env, wires, cycles);
      CyclePorts(cfg, env, w, input);
      w := Cycle(cfg, w, input);
      cycles := cycles + 1;
    }
  }

  lemma Begins(cfg: Config, env: Isa.Env)
    ensures Feed(cfg, env, []) == [] && Watch(cfg, []) == Start(cfg) && PortsAfter(cfg, env, []) == Idle
    ensures Start(cfg).cpu == Reset(cfg) && Start(cfg).commits == [] && Start(cfg).bus == []
  {}

  lemma Unfolds(cfg: Config, env: Isa.Env, wires: seq<Wires>, k: nat)
    requires k < |wires|
    ensures var before := Feed(cfg, env, wires[..k]);
      var input := InputOf(PortsAfter(cfg, env, before), wires[k]);
      && Watch(cfg, Feed(cfg, env, wires[..k + 1])) == Cycle(cfg, Watch(cfg, before), input)
      && PortsAfter(cfg, env, Feed(cfg, env, wires[..k + 1])) == PortsNext(cfg, env, Watch(cfg, before), input)
  {
    hide Cycle, PortsNext;
    assert wires[..k + 1][..k] == wires[..k];
    var before := Feed(cfg, env, wires[..k]);
    assert Feed(cfg, env, wires[..k + 1])[..k] == before;
  }

  lemma CyclePorts(cfg: Config, env: Isa.Env, w: World, input: Inputs)
    requires input.dmemReady
    ensures var next, req := Cycle(cfg, w, input), DmemRequest(w.cpu.be, input);
      && next.cpu == Step(cfg, w.cpu, input)
      && next.bus == (if req.valid then w.bus + [ExecCorrect.EventOf(req)] else w.bus)
      && next.commits == (if w.cpu.be.wb.Alive() && !Stopped(w.commits) then w.commits + [CommitOf(w.cpu.be)] else w.commits)
      && PortsNext(cfg, env, w, input) ==
         Ports(if ImemReqValid(cfg, w.cpu.fe, Redirect(w.cpu.be, input)) then Answer(env.code(w.cpu.fe.fetch.pc))
               else MemResp(false, 0, false),
               if req.valid then Reply(env.reply(next.bus)) else MemResp(false, 0, false))
  {
    hide Step, MemStall, DmemRequest, ExecCorrect.EventOf, CommitOf, ImemReqValid, Redirect;
  }
}
