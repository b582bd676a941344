/** The pipeline against the sequential machine: a run of the core, watched at its three ports,
    and the relation that ties every stage of it to a state of the sequential machine. */
module Refine {
  import opened Words
  import opened Uarch
  import opened Datapath
  import opened Core
  import opened CoreInv
  import opened FrontendInv
  import opened ExecCorrect
  import opened Chains
  import DecodeCorrect
  import Decoder
  import Isa

  // ---- a watched run ------------------------------------------------------------------------

  /** The core and what an observer has written down. `bus` holds every accepted data request.
      `commits` holds what the commit port has shown, up to and including the first halt; beside
      each commit, `samples` holds what its instruction saw of the interrupt wires (in EXE, kept
      in `memMip` while it is in MEM, and in MEM, kept in `wbSample` while it is in WB). */
  datatype World = World(cpu: Cpu, bus: seq<Isa.BusEvent>, memMip: Word, wbSample: Isa.Sample,
                         commits: seq<Isa.Commit>, samples: seq<Isa.Sample>)

  function Start(cfg: Config): World { World(Reset(cfg), [], 0, Isa.Quiet, [], []) }

  predicate Stopped(commits: seq<Isa.Commit>) { commits != [] && commits[|commits| - 1].halt.Halt? }

  predicate Fires(be: Backend, input: Inputs) { DmemRequest(be, input).valid && input.dmemReady }

  function CommitOf(be: Backend): Isa.Commit { Observe(Packet(be.wb, be.regs[10])) }

  /** One clock cycle of the core and of its observer. */
  function Cycle(cfg: Config, w: World, input: Inputs): World {
    var be := w.cpu.be;
    var stall := MemStall(be, input);
    var logs := be.wb.Alive() && !Stopped(w.commits);
    World(Step(cfg, w.cpu, input),
          if Fires(be, input) then w.bus + [EventOf(DmemRequest(be, input))] else w.bus,
          if stall then w.memMip else MipOf(input),
          if stall then w.wbSample else SampleOf(w.memMip, MipOf(input), be.reqSent, input.dmemResp),
          if logs then w.commits + [CommitOf(be)] else w.commits,
          if logs then w.samples + [w.wbSample] else w.samples)
  }

  /** What the memories promise: an instruction fetch returns the word of the requested address,
      and a data response in answer to a request is the device's reply to the transactions so far.
      They may take any time to accept and to answer. */
  ghost predicate Honest(env: Isa.Env, w: World, input: Inputs) {
    && (w.cpu.fe.fetch.outstanding && input.imemResp.valid ==>
          Isa.Fetched(input.imemResp.rdata, input.imemResp.error) == env.code(w.cpu.fe.fetch.reqPc))
    && (w.cpu.be.reqSent && input.dmemResp.valid ==>
          Isa.Reply(input.dmemResp.rdata, input.dmemResp.error) == env.reply(w.bus))
  }

  // ---- the relation ---------------------------------------------------------------------------

  /** A halting instruction is about to commit. */
  ghost predicate Halting(be: Backend) { be.wb.Alive() && be.wb.halt }

  /** The state that MEM's instruction starts from, when `a` is the committed state. */
  function ArchMem(env: Isa.Env, a: Isa.Arch, w: World): Isa.Arch {
    if w.cpu.be.wb.Alive() then Isa.Step(env, a, w.wbSample) else a
  }

  /** The state that EXE's instruction starts from, unless MEM's instruction traps or halts. */
  function ArchExe(env: Isa.Env, m: Isa.Arch, w: World): Isa.Arch {
    if w.cpu.be.mem.Alive() then Isa.Step(env, m, Undisturbed(w.memMip)) else m
  }

  ghost predicate Diverted(e: Isa.Arch, w: World) { w.cpu.be.mem.Alive() && (e.halted || e.lastTrap) }

  ghost predicate RelWb(env: Isa.Env, a: Isa.Arch, w: World) {
    var be := w.cpu.be;
    && !a.halted && be.regs == a.regs && be.lastTrap == a.lastTrap
    && (be.wb.Alive() ==> Finished(env, a, w.wbSample, be.wb))
  }

  ghost predicate RelCode(env: Isa.Env, fe: Frontend) {
    && (fe.fetch.out.valid ==> Isa.Fetched(fe.fetch.out.inst, fe.fetch.out.error) == env.code(fe.fetch.out.pc))
    && (forall k :: 0 <= k < |fe.queue| ==> fe.queue[k].ir == DecodeAt(env, fe.queue[k].ir.pc))
  }

  ghost predicate RelMem(env: Isa.Env, m: Isa.Arch, w: World) {
    w.cpu.be.mem.Alive() ==> Executed(env, m, w.memMip, w.cpu.be.mem)
  }

  function SentBy(m: Isa.Arch, i: Isa.Instr, sent: bool): seq<Isa.BusEvent>
    requires sent ==> Isa.IsMemory(i)
  {
    if sent then [Isa.Transaction(m, i)] else []
  }

  ghost predicate RelBus(env: Isa.Env, m: Isa.Arch, w: World) {
    var i, sent := InstrAt(env, m.pc), w.cpu.be.reqSent;
    && (sent ==> EarlyAt(env, m) == HaltNone && Isa.IsMemory(i))
    && w.bus == m.bus + SentBy(m, i, sent)
  }

  ghost predicate RelCsrs(env: Isa.Env, m: Isa.Arch, w: World) {
    if w.cpu.be.mem.Alive() then
      EarlyAt(env, m) == HaltNone ==>
        AbsCsrs(w.cpu.be.csrs) == Isa.CsrsAfter(m, InstrAt(env, m.pc), w.memMip)
    else AbsCsrs(w.cpu.be.csrs) == m.csrs
  }

  ghost predicate RelExe(env: Isa.Env, e: Isa.Arch, w: World) {
    w.cpu.be.exe.valid && !Diverted(e, w) ==> Issued(env, e, w.cpu.be.exe)
  }

  ghost predicate RelFetch(e: Isa.Arch, w: World) {
    !w.cpu.be.exe.valid && !Diverted(e, w) ==> HeadPc(FrontLinks(w.cpu.fe), w.cpu.fe.epoch) == e.pc
  }

  /** The stages in front of WB, given the state `m` that MEM's instruction starts from. */
  ghost predicate RelFlight(env: Isa.Env, m: Isa.Arch, w: World) {
    var e := ArchExe(env, m, w);
    RelMem(env, m, w) && RelBus(env, m, w) && RelCsrs(env, m, w) && RelExe(env, e, w) && RelFetch(e, w)
  }

  /** `a` is the committed state, and every stage works on the instruction it should. */
  ghost predicate Rel(env: Isa.Env, a: Isa.Arch, w: World) {
    && RelWb(env, a, w) && RelCode(env, w.cpu.fe)
    && (!Halting(w.cpu.be) ==> RelFlight(env, ArchMem(env, a, w), w))
  }

  /** MEM consults the double-trap flag while the commit that would clear it is still in WB. */
  ghost predicate StaleFlag(be: Backend, input: Inputs) {
    && be.wb.Alive() && be.lastTrap
    && TrapWanted(be.mem, be.csrs, MipOf(input)) && be.mem.ir.pc == MtvecBase(be.csrs)
  }

  // ---- the sequential machine, undisturbed -------------------------------------------------------

  lemma UndisturbedFlow(env: Isa.Env, a: Isa.Arch, mip: Word)
    requires !a.halted
    ensures var n, i := Isa.Step(env, a, Undisturbed(mip)), InstrAt(env, a.pc);
      !n.halted && !n.lastTrap ==>
        && EarlyAt(env, a) == HaltNone
        && n.csrs == Isa.CsrsAfter(a, i, mip)
        && n.pc == Isa.NextPc(a, i)
  {
    hide Isa.Decode, Isa.EarlyHalt, Isa.CsrsAfter, Isa.Result, Isa.DataAddress, Isa.Lanes, Isa.Width, Isa.PendingInterrupt,
         Isa.JumpTarget, Isa.Transaction;
    QuietWires(Isa.CsrsAfter(a, InstrAt(env, a.pc), mip));
    if Isa.IsMemory(InstrAt(env, a.pc)) {
      MemoryIsNoJump(a, InstrAt(env, a.pc));
    }
  }

  lemma MemoryIsNoJump(a: Isa.Arch, i: Isa.Instr)
    requires Isa.IsMemory(i)
    ensures Isa.JumpTarget(a, i) == None
  {}

  /** A step that runs through changes no register but the destination. */
  lemma OnlyDestination(env: Isa.Env, a: Isa.Arch, mip: Word, r: RegIndex)
    requires !a.halted
    ensures var n, d := Isa.Step(env, a, Undisturbed(mip)), DecodeAt(env, a.pc);
      !n.halted && !n.lastTrap && !(Writes(d) && d.rd == r) ==> ReadReg(n.regs, r) == ReadReg(a.regs, r)
  {
    hide Isa.Decode, DecodeAt, Isa.EarlyHalt, Isa.CsrsAfter, Isa.Result, Isa.DataAddress, Isa.Lanes, Isa.Width,
         Isa.PendingInterrupt, Isa.JumpTarget, Isa.Transaction, ReadReg, WriteReg, DecodeCorrect.Implements;
    var i, d, n := InstrAt(env, a.pc), DecodeAt(env, a.pc), Isa.Step(env, a, Undisturbed(mip));
    DecodedAt(env, a.pc);
    UndisturbedFlow(env, a, mip);
    if !n.halted && !n.lastTrap && !(Writes(d) && d.rd == r) {
      NoEarlyHaltLegal(env, a);
      WritesDestination(env, a, mip);
      var rd, v :| n.regs == WriteReg(a.regs, rd, v) && rd == (if d.rdToWrite then d.rd else 0);
      ReadAfterWrite(a.regs, rd, v, r);
    }
  }

  lemma WritesDestination(env: Isa.Env, a: Isa.Arch, mip: Word)
    requires !a.halted && !InstrAt(env, a.pc).Illegal?
    ensures var n, d := Isa.Step(env, a, Undisturbed(mip)), DecodeAt(env, a.pc);
      !n.halted && !n.lastTrap ==>
        exists rd, v :: n.regs == WriteReg(a.regs, rd, v) && rd == (if d.rdToWrite then d.rd else 0)
  {
    hide Isa.Decode, DecodeAt, Isa.EarlyHalt, Isa.CsrsAfter, Isa.Result, Isa.DataAddress, Isa.Lanes, Isa.Width,
         Isa.PendingInterrupt, Isa.JumpTarget, Isa.Transaction, ReadReg, WriteReg, DecodeCorrect.Implements, Isa.NextPc;
    var i, d := InstrAt(env, a.pc), DecodeAt(env, a.pc);
    DecodedAt(env, a.pc);
    QuietWires(Isa.CsrsAfter(a, i, mip));
    ResultClass(a, i, d, mip, 0);
    if Isa.IsMemory(i) {
      ResultClass(a, i, d, mip, env.reply(a.bus + [Isa.Transaction(a, i)]).rdata);
    }
  }

  // ---- the head of the fetch stream ----------------------------------------------------------------

  lemma HeadPcFirst(xs: seq<Link>, now: nat)
    requires xs != [] && xs[0].epoch == now
    ensures HeadPc(xs, now) == xs[0].pc
  {}

  lemma TailHeadKept(fe: Frontend, move: TailMove)
    requires FetchOk(fe)
    requires move == DroppedStale ==> fe.fetch.outstanding && fe.fetch.reqEpoch != fe.epoch
    ensures TailAfter(fe, move) != []
    ensures HeadPc(TailAfter(fe, move), fe.epoch) == HeadPc(Tail(fe), fe.epoch)
  {
    hide Plus;
    match move
    case Same =>
    case Requested => HeadPcAppend(Tail(fe), [Link(fe.epoch, fe.nextSeq + 1, Plus(fe.fetch.pc, 4))], fe.epoch);
    case DroppedStale => HeadPcStale(FetchLinks(fe.fetch), [NextLink(fe)], fe.epoch);
  }

  /** Fetching, queueing and draining stale heads do not change what is next to execute. */
  lemma HeadKept(cfg: Config, fe: Frontend, input: Inputs)
    requires cfg.ids.Unbounded? && FetchOk(fe)
    ensures var next := FrontendNext(cfg, fe, input, None, false);
      next.epoch == fe.epoch && HeadPc(FrontLinks(next), fe.epoch) == HeadPc(FrontLinks(fe), fe.epoch)
  {
    hide Plus, FrontendNext, TailAfter, Tail, FetchLinks;
    var move := MoveOf(cfg, fe, input);
    StreamFlows(cfg, fe, input, false);
    EpochKept(cfg, fe, input, false);
    TailHeadKept(fe, move);
    TailEnds(fe);
    var q, p := QueueLinks(fe.queue), QueueLinks(Popped(fe, false));
    HeadPcPrefix(p, TailAfter(fe, move), Tail(fe), fe.epoch);
    if HeadStale(fe) {
      QueueLinksPop(fe.queue);
      assert q + Tail(fe) == [q[0]] + (p + Tail(fe));
      assert q[0] == LinkOf(fe.queue[0]) && [q[0]][0].epoch != fe.epoch;
      HeadPcStale([q[0]], p + Tail(fe), fe.epoch);
    }
  }

  lemma TailEnds(fe: Frontend)
    ensures Tail(fe) != [] && Tail(fe)[|Tail(fe)| - 1] == NextLink(fe)
  {}

  /** After a redirect the target is next to execute. */
  lemma HeadRedirected(cfg: Config, s: Cpu, input: Inputs, target: Word)
    requires Inv(cfg, s) && cfg.ids.Unbounded?
    ensures var next := FrontendNext(cfg, s.fe, input, Some(target), false);
      HeadPc(FrontLinks(next), next.epoch) == target
  {
    hide Plus, FrontendNext, Tail, FetchLinks, Chain, Mirrored, TokensOk, EpochsOk, WbOk, TrapDrained;
    var next := FrontendNext(cfg, s.fe, input, Some(target), false);
    StreamRedirected(cfg, s.fe, input, target);
    StreamEpochs(s);
    var z := Link(s.fe.epoch + 1, s.fe.nextSeq, target);
    var o := if next.fetch.outstanding then FetchLinks(s.fe.fetch) else [];
    var p := QueueLinks(next.queue);
    assert FrontLinks(next) == (p + o) + [z];
    OldEpochs(s);
    assert p == QueueLinks(Popped(s.fe, false));
    var before: seq<Link> := p + o;
    assert forall i :: 0 <= i < |before| ==> before[i].epoch <= s.fe.epoch;
    HeadPcStale(before, [z], next.epoch);
  }

  lemma OldEpochs(s: Cpu)
    requires Chain(Stream(s))
    ensures var p, o := QueueLinks(Popped(s.fe, false)), FetchLinks(s.fe.fetch);
      && (forall i :: 0 <= i < |p| ==> p[i].epoch <= s.fe.epoch)
      && (forall i :: 0 <= i < |o| ==> o[i].epoch <= s.fe.epoch)
  {
    hide Plus, Chain;
    StreamEpochs(s);
    var xs, n := Stream(s), |BackLinks(s.be)|;
    var q := QueueLinks(s.fe.queue);
    var p, o := QueueLinks(Popped(s.fe, false)), FetchLinks(s.fe.fetch);
    forall i | 0 <= i < |q|
      ensures q[i].epoch <= s.fe.epoch
    {
      assert xs[n + i] == q[i];
    }
    forall i | 0 <= i < |o|
      ensures o[i].epoch <= s.fe.epoch
    {
      assert xs[n + |q| + i] == o[i];
    }
  }

  /** Behind EXE's token comes the word after it. */
  lemma HeadAfterExe(cfg: Config, s: Cpu)
    requires Inv(cfg, s) && s.be.exe.valid
    ensures HeadPc(FrontLinks(s.fe), s.fe.epoch) == Plus(s.be.exe.ir.pc, 4)
  {
    hide Plus, Chain, Mirrored, WbOk, QueueOk, FetchOk, TrapDrained, FrontLinks;
    StreamEpochs(s);
    ChainSortedAll(Stream(s));
    var front := FrontLinks(s.fe);
    FrontNonempty(s.fe);
    var n := |BackLinks(s.be)|;
    assert BackLinks(s.be)[n - 1] == TokenLink(s.be.exe);
    ChainSplit(BackLinks(s.be), front);
    assert Stream(s)[n] == front[0];
    HeadPcFirst(front, s.fe.epoch);
  }

  lemma FrontNonempty(fe: Frontend)
    ensures FrontLinks(fe) != []
    ensures fe.queue != [] ==> FrontLinks(fe)[0] == LinkOf(fe.queue[0])
  {}

  // ---- one cycle: code, commit, MEM -----------------------------------------------------------------

  lemma DecodedFetch(env: Isa.Env, p: FetchPkt)
    requires Isa.Fetched(p.inst, p.error) == env.code(p.pc)
    ensures DecodeFetched(p).ir == DecodeAt(env, DecodeFetched(p).ir.pc)
  {
    hide Decoder.Decode;
    DecodeFetchedLink(p);
  }

  lemma CodeNext(cfg: Config, env: Isa.Env, w: World, input: Inputs, redirect: Option<Word>, issues: bool)
    requires RelCode(env, w.cpu.fe) && Honest(env, w, input)
    requires issues ==> w.cpu.fe.queue != []
    ensures RelCode(env, FrontendNext(cfg, w.cpu.fe, input, redirect, issues))
  {
    hide Plus, DecodeFetched, DecodeAt;
    if w.cpu.fe.fetch.out.valid {
      DecodedFetch(env, w.cpu.fe.fetch.out);
    }
  }

  /** WB commits the step of the sequential machine. */
  lemma Committed(env: Isa.Env, a: Isa.Arch, w: World)
    requires RelWb(env, a, w)
    ensures var be, m := w.cpu.be, ArchMem(env, a, w);
      && (be.wb.Alive() ==> CommitOf(be) == Isa.Report(env, a, w.wbSample) && be.wb.halt == m.halted)
      && (!Halting(be) ==>
            && !m.halted && RegsNext(be) == m.regs
            && m.lastTrap == (if be.wb.Alive() then be.wb.trapPending else be.lastTrap))
  {
    hide DecodeAt, Isa.Step, Isa.Report, Packet, Observe, WriteReg;
  }

  /** The double-trap flag that MEM reads is the architectural one, or is not looked at. */
  lemma FlagFresh(env: Isa.Env, a: Isa.Arch, w: World, input: Inputs)
    requires RelWb(env, a, w) && !Halting(w.cpu.be) && WbOk(w.cpu.be)
    requires w.cpu.be.mem.Alive() && !StaleFlag(w.cpu.be, input)
    ensures var be := w.cpu.be;
      TrapWanted(be.mem, be.csrs, MipOf(input)) && be.mem.ir.pc == MtvecBase(be.csrs) ==>
        be.lastTrap == ArchMem(env, a, w).lastTrap
  {
    hide TrapWanted, AlignDown, Plus, Isa.Step, Finished;
    Committed(env, a, w);
  }

  lemma MemReady(env: Isa.Env, a: Isa.Arch, w: World, input: Inputs)
    requires RelWb(env, a, w) && !Halting(w.cpu.be) && RelFlight(env, ArchMem(env, a, w), w)
    requires Honest(env, w, input) && WbOk(w.cpu.be)
    requires w.cpu.be.mem.Alive() && !StaleFlag(w.cpu.be, input)
    ensures var be := w.cpu.be;
      AtMem(env, ArchMem(env, a, w), be.mem, be.csrs, w.memMip, MipOf(input), be.lastTrap, be.reqSent, input.dmemResp)
  {
    hide TrapWanted, MtvecBase, Plus, Isa.Step, Finished, Executed, ArchMem, ArchExe, RelExe, RelFetch, WbOk, StaleFlag,
         EarlyAt, InstrAt, AbsCsrs, Isa.CsrsAfter, Isa.Transaction, MipOf;
    Committed(env, a, w);
    FlagFresh(env, a, w, input);
    var m := ArchMem(env, a, w);
    TokenOfInstr(env, m, w.memMip, w.cpu.be.mem);
  }

  // ---- one cycle: the stages in front of WB ------------------------------------------------------------

  /** The registers beside the tokens after a cycle. */
  lemma StateMoves(cfg: Config, s: Cpu, input: Inputs)
    ensures var next := Step(cfg, s, input).be;
      && next.regs == RegsNext(s.be) && next.csrs == CsrsNext(s.be, input)
      && next.lastTrap == (if s.be.wb.Alive() then s.be.wb.trapPending else s.be.lastTrap)
      && next.reqSent == (MemStall(s.be, input) && (s.be.reqSent || Fires(s.be, input)))
      && (!MemStall(s.be, input) ==>
            && next.mem == MemNext(cfg, s.be, input)
            && next.wb == WbNext(cfg, s.be, input))
  {
    hide MemStall, DmemRequest, RowsNext, CsrsNext, RegsNext, MemNext, WbNext, IssueToken, KillOf, FrontendNext;
  }

  lemma WorldMoves(cfg: Config, w: World, input: Inputs)
    ensures var next := Cycle(cfg, w, input);
      && next.cpu == Step(cfg, w.cpu, input)
      && next.bus == w.bus + (if Fires(w.cpu.be, input) then [EventOf(DmemRequest(w.cpu.be, input))] else [])
      && next.memMip == (if MemStall(w.cpu.be, input) then w.memMip else MipOf(input))
      && (!MemStall(w.cpu.be, input) ==>
            next.wbSample == SampleOf(w.memMip, MipOf(input), w.cpu.be.reqSent, input.dmemResp))
  {
    hide Step, MemStall, DmemRequest, EventOf, CommitOf, MipOf;
  }

  /** MEM sends a request only for an instruction that needs it, and only while it stalls. */
  lemma SendsOnce(env: Isa.Env, m: Isa.Arch, w: World, input: Inputs)
    requires RelMem(env, m, w) && RelBus(env, m, w)
    ensures Fires(w.cpu.be, input) ==>
      && w.cpu.be.mem.Alive() && MemStall(w.cpu.be, input) && !w.cpu.be.reqSent
      && EarlyAt(env, m) == HaltNone && Isa.IsMemory(InstrAt(env, m.pc))
      && EventOf(DmemRequest(w.cpu.be, input)) == Isa.Transaction(m, InstrAt(env, m.pc))
  {
    hide EarlyAt, InstrAt, Executed, Isa.Transaction, EventOf, AsyncCause, LsuBe, LsuWdata, LsuMisaligned;
    var be, mip := w.cpu.be, MipOf(input);
    if Fires(be, input) {
      MemPreHalt(env, m, w.memMip, be.mem);
      RequestAgrees(env, m, be.mem, be.csrs, w.memMip, mip, be.lastTrap, be.reqSent);
    }
  }

  lemma HeldFrontend(cfg: Config, s: Cpu, input: Inputs)
    requires Inv(cfg, s) && cfg.ids.Unbounded? && MemStall(s.be, input)
    ensures var next := Step(cfg, s, input);
      next.fe.epoch == s.fe.epoch && HeadPc(FrontLinks(next.fe), s.fe.epoch) == HeadPc(FrontLinks(s.fe), s.fe.epoch)
  {
    hide BackendNext, FrontendNext, Plus, MemStall, KillOf, IssueToken, FrontLinks, RedirectPc;
    TokensMove(cfg, s, input);
    IssueTokenShape(cfg, s, input);
    HeadKept(cfg, s.fe, input);
  }

  lemma FlightHeld(cfg: Config, env: Isa.Env, m: Isa.Arch, w: World, input: Inputs)
    requires Inv(cfg, w.cpu) && cfg.ids.Unbounded? && MemStall(w.cpu.be, input)
    requires RelFlight(env, m, w)
    ensures RelFlight(env, m, Cycle(cfg, w, input))
    ensures !Cycle(cfg, w, input).cpu.be.wb.Alive()
  {
    hide Step, Cycle, MemStall, Executed, Issued, EarlyAt, InstrAt, Isa.CsrsAfter, AbsCsrs, Inv, Isa.Step, HeadPc,
         FrontLinks, Isa.Transaction, Fires, DmemRequest, EventOf, RegsNext, MemNext, WbNext, TakeTrap;
    TokensMove(cfg, w.cpu, input);
    StateMoves(cfg, w.cpu, input);
    WorldMoves(cfg, w, input);
    SendsOnce(env, m, w, input);
    HeldFrontend(cfg, w.cpu, input);
  }

  /** Everything that the relation and the invariant say about a cycle that is about to happen,
      when no halt is committing in it. */
  ghost predicate Ready(cfg: Config, env: Isa.Env, a: Isa.Arch, w: World, input: Inputs) {
    && cfg.ids.Unbounded? && Inv(cfg, w.cpu) && Honest(env, w, input)
    && RelWb(env, a, w) && RelCode(env, w.cpu.fe)
    && !Halting(w.cpu.be) && RelFlight(env, ArchMem(env, a, w), w)
    && (w.cpu.be.mem.Alive() ==> !StaleFlag(w.cpu.be, input))
  }

  /** What MEM passes to WB has done its step. */
  lemma LeavesMem(cfg: Config, env: Isa.Env, a: Isa.Arch, w: World, input: Inputs)
    requires Ready(cfg, env, a, w, input) && !MemStall(w.cpu.be, input)
    ensures var next, m := Cycle(cfg, w, input), ArchMem(env, a, w);
      && next.cpu.be.wb.Alive() == w.cpu.be.mem.Alive()
      && (w.cpu.be.mem.Alive() ==> Finished(env, m, next.wbSample, next.cpu.be.wb))
      && ArchMem(env, m, next) == (if w.cpu.be.mem.Alive() then Isa.Step(env, m, next.wbSample) else m)
  {
    hide Step, Cycle, Finished, RelFlight, RelWb, RelCode, Honest, StaleFlag, MemOut, AtMem, Isa.Step, Stall, KillOf,
         KilledByEvent, Mirrored, TokensOk, EpochsOk, WbOk, TrapDrained, FetchOk, QueueOk, Chain, Stream, Halting, TakeTrap;
    var be := w.cpu.be;
    TokensMove(cfg, w.cpu, input);
    StateMoves(cfg, w.cpu, input);
    WorldMoves(cfg, w, input);
    KillsExactly(cfg, w.cpu, input);
    MemKeeps(be.mem, be.csrs, MipOf(input), be.lastTrap, be.reqSent, input.dmemResp);
    if be.mem.Alive() {
      MemReady(env, a, w, input);
      MemFinishes(env, ArchMem(env, a, w), be.mem, be.csrs, w.memMip, MipOf(input), be.lastTrap, be.reqSent, input.dmemResp);
    }
  }

  lemma TrapFrontend(cfg: Config, s: Cpu, input: Inputs)
    requires Inv(cfg, s) && cfg.ids.Unbounded? && TrapFlush(s.be, input)
    ensures var next := Step(cfg, s, input);
      && HeadPc(FrontLinks(next.fe), next.fe.epoch) == MtvecBase(s.be.csrs)
      && !next.be.exe.valid && !next.be.mem.Alive()
      && next.be.csrs == EnterTrap(s.be.csrs, TrapCause(s.be.csrs, MipOf(input)), s.be.mem.ir.pc, 0)
      && !next.be.reqSent && !Fires(s.be, input)
  {
    hide BackendNext, FrontendNext, Plus, MemStall, KillOf, IssueToken, FrontLinks, RedirectPc, AsyncCause, HeadPc,
         AlignDown, EnterTrap, TrapCause, PreHalt, LsuBe, LsuWdata, Mirrored, EpochsOk, WbOk, FetchOk, QueueOk, Stream,
         Chain;
    TokensMove(cfg, s, input);
    StateMoves(cfg, s, input);
    IssueTokenShape(cfg, s, input);
    FlushRedirects(s.be, input);
    HeadRedirected(cfg, s, input, RedirectPc(s.be, input));
  }

  /** After a trap everything in front of WB is at the handler, with nothing of the old stream left. */
  lemma FlightTrapped(cfg: Config, env: Isa.Env, a: Isa.Arch, w: World, input: Inputs)
    requires Ready(cfg, env, a, w, input) && TrapFlush(w.cpu.be, input)
    ensures var next, m := Cycle(cfg, w, input), ArchMem(env, a, w);
      var m' := ArchMem(env, m, next);
      !m'.halted ==> RelFlight(env, m', next)
  {
    hide Step, Cycle, Finished, RelWb, RelCode, Honest, StaleFlag, AtMem, Isa.Step, Stall, KillOf,
         Inv, Halting, TakeTrap, Fires, FrontLinks, HeadPc, Isa.Transaction, AbsCsrs, EnterTrap, TrapCause, Executed,
         RelCsrs, RelMem, RelExe, RelFetch, InstrAt, EarlyAt, DmemRequest, EventOf, MtvecBase, ArchMem;
    var be, m := w.cpu.be, ArchMem(env, a, w);
    TokensMove(cfg, w.cpu, input);
    LeavesMem(cfg, env, a, w, input);
    WorldMoves(cfg, w, input);
    TrapFrontend(cfg, w.cpu, input);
    MemReady(env, a, w, input) by {
      hide *;
      assert WbOk(w.cpu.be) by { InvParts(cfg, w.cpu); }
    }
    TrapState(env, m, be.mem, be.csrs, w.memMip, MipOf(input), be.lastTrap, be.reqSent, input.dmemResp);
    var next := Cycle(cfg, w, input);
    var m' := ArchMem(env, m, next);
    if !m'.halted {
      NothingBehind(env, m', next);
    }
  }

  lemma InvParts(cfg: Config, s: Cpu)
    requires Inv(cfg, s)
    ensures WbOk(s.be) && TrapDrained(s) && FetchOk(s.fe) && Mirrored(s.be) && TokensOk(s.be)
  {}

  lemma NothingBehind(env: Isa.Env, m: Isa.Arch, w: World)
    requires !w.cpu.be.mem.Alive() && !w.cpu.be.exe.valid && !w.cpu.be.reqSent
    requires w.bus == m.bus && AbsCsrs(w.cpu.be.csrs) == m.csrs
    requires HeadPc(FrontLinks(w.cpu.fe), w.cpu.fe.epoch) == m.pc
    ensures RelFlight(env, m, w)
  {}

  /** No trap, no stall: MEM's instruction has run through, and EXE's may rely on its state. */
  lemma FlowsOn(cfg: Config, env: Isa.Env, a: Isa.Arch, w: World, input: Inputs)
    requires Ready(cfg, env, a, w, input) && !MemStall(w.cpu.be, input) && !TrapFlush(w.cpu.be, input)
    ensures var next, m := Cycle(cfg, w, input), ArchMem(env, a, w);
      var m' := ArchMem(env, m, next);
      !m'.halted ==>
        && m' == ArchExe(env, m, w) && !Diverted(m', w)
        && AbsCsrs(w.cpu.be.csrs) == m'.csrs
        && next.bus == m'.bus && !next.cpu.be.reqSent
  {
    hide Step, Cycle, Finished, RelWb, RelCode, Honest, StaleFlag, AtMem, Isa.Step, KillOf, Inv, Halting, Fires,
         FrontLinks, HeadPc, Isa.Transaction, AbsCsrs, Executed, RelExe, RelFetch, InstrAt, EarlyAt, DmemRequest,
         EventOf, ArchMem, Isa.CsrsAfter, LsuMisaligned, PreHalt, AsyncCause;
    var be, m := w.cpu.be, ArchMem(env, a, w);
    LeavesMem(cfg, env, a, w, input);
    WorldMoves(cfg, w, input);
    StateMoves(cfg, w.cpu, input);
    Committed(env, a, w);
    InvParts(cfg, w.cpu);
    SendsOnce(env, m, w, input);
    if be.mem.Alive() {
      MemReady(env, a, w, input);
      FlowState(env, m, be.mem, be.csrs, w.memMip, MipOf(input), be.lastTrap, be.reqSent, input.dmemResp);
      UndisturbedFlow(env, m, w.memMip);
    }
  }

  /** EXE hands its token to MEM with its work done, and commits its effect on the CSRs. */
  lemma ExeAdvances(cfg: Config, env: Isa.Env, e: Isa.Arch, w: World, input: Inputs)
    requires cfg.ids.Unbounded? && Inv(cfg, w.cpu) && !MemStall(w.cpu.be, input) && !TrapFlush(w.cpu.be, input)
    requires AbsCsrs(w.cpu.be.csrs) == e.csrs
    requires w.cpu.be.exe.valid ==> Issued(env, e, w.cpu.be.exe)
    ensures var next := Cycle(cfg, w, input);
      && next.cpu.be.mem.Alive() == w.cpu.be.exe.valid
      && RelMem(env, e, next) && RelCsrs(env, e, next)
  {
    hide Step, Cycle, KillOf, Inv, AbsCsrs, Executed, Issued, InstrAt, EarlyAt, Isa.CsrsAfter, ExeOut, TakeTrap,
         CsrsAfterExe, KilledByEvent, FrontLinks, EnterTrap, TrapCause, IllegalNow;
    var be, mip := w.cpu.be, MipOf(input);
    WorldMoves(cfg, w, input);
    StateMoves(cfg, w.cpu, input);
    TokensMove(cfg, w.cpu, input);
    KillsExactly(cfg, w.cpu, input);
    InvParts(cfg, w.cpu);
    ExeKeeps(be.exe, be.csrs, mip, false);
    if be.exe.valid {
      ExeExecutes(env, e, be.exe, be.csrs, mip);
      if EarlyAt(env, e) == HaltNone {
        NoEarlyHaltLegal(env, e);
        ExeCsrs(env, e, be.exe, be.csrs, mip);
      }
    } else {
      DeadExe(be.exe, be.csrs, mip);
    }
  }

  lemma DeadExe(t: Token, c: CsrRegs, mip: Word)
    requires !t.valid
    ensures CsrsAfterExe(t, c, mip) == c
  {
    hide WriteCsr, CsrNew, ReadCsr, CsrIllegal, LeaveTrap;
  }

  // ---- operands: what the scoreboard lets through is the architectural value ---------------------------------

  /** WB's result, or the register file. */
  lemma ValueBehindWb(env: Isa.Env, a: Isa.Arch, w: World, r: RegIndex)
    requires RelWb(env, a, w) && !Halting(w.cpu.be) && Mirrored(w.cpu.be)
    requires w.cpu.be.wb.Alive() ==> !w.cpu.be.wb.trapPending
    ensures var be := w.cpu.be;
      ReadReg(ArchMem(env, a, w).regs, r) == if RdMatch(be.rows.wb, true, r) then be.wb.rdValue else ReadReg(be.regs, r)
  {
    hide ReadReg, WriteReg, Isa.Step, Packet, Observe, Isa.Report, DecodeAt;
    var be := w.cpu.be;
    ReadAfterWrite(be.regs, be.wb.ir.rd, be.wb.rdValue, r);
  }

  /** MEM's result, once it is there, or what WB leaves. */
  lemma ValueBehindMem(cfg: Config, env: Isa.Env, a: Isa.Arch, w: World, input: Inputs, r: RegIndex)
    requires Ready(cfg, env, a, w, input) && !MemStall(w.cpu.be, input) && !TrapFlush(w.cpu.be, input)
    requires !ArchMem(env, ArchMem(env, a, w), Cycle(cfg, w, input)).halted
    ensures var be, m := w.cpu.be, ArchMem(env, a, w);
      var m' := ArchMem(env, m, Cycle(cfg, w, input));
      && (RdMatch(be.rows.mem, true, r) && be.rows.mem.rdReady ==> ReadReg(m'.regs, r) == be.mem.rdValue)
      && (!RdMatch(be.rows.mem, true, r) ==> ReadReg(m'.regs, r) == ReadReg(m.regs, r))
  {
    hide Step, Cycle, RelWb, RelCode, Honest, StaleFlag, Stall, KillOf, RelFlight, KilledByEvent, EpochsOk, WbOk,
         TrapDrained, FetchOk, QueueOk, Chain, Stream, Halting, TakeTrap, Isa.Step, ReadReg, WriteReg, Packet, Observe,
         Isa.Report, DecodeAt, MemOut, TokensOk;
    var be := w.cpu.be;
    var next := Cycle(cfg, w, input);
    LeavesMem(cfg, env, a, w, input);
    if be.mem.Alive() {
      MemPasses(cfg, w, input);
      ReadAfterWrite(ArchMem(env, a, w).regs, be.mem.ir.rd, next.cpu.be.wb.rdValue, r);
    }
  }

  lemma MemPasses(cfg: Config, w: World, input: Inputs)
    requires Inv(cfg, w.cpu) && cfg.ids.Unbounded? && w.cpu.be.mem.Alive()
    requires !MemStall(w.cpu.be, input) && !TrapFlush(w.cpu.be, input)
    ensures var x, t := Cycle(cfg, w, input).cpu.be.wb, w.cpu.be.mem;
      && x.ir == t.ir && !x.trapPending
      && (!IsLoad(t.ir) ==> x.rdValue == t.rdValue)
  {
    hide Step, Cycle, KillOf, KilledByEvent, EpochsOk, WbOk, Mirrored,
         TrapDrained, FetchOk, QueueOk, Chain, Stream, MemOut, Stall, TakeTrap;
    var be := w.cpu.be;
    WorldMoves(cfg, w, input);
    StateMoves(cfg, w.cpu, input);
    KillsExactly(cfg, w.cpu, input);
    MemOutFields(be.mem, be.csrs, MipOf(input), be.lastTrap, be.reqSent, input.dmemResp);
  }

  lemma ExeOnlyDestination(cfg: Config, env: Isa.Env, e: Isa.Arch, w: World, input: Inputs, r: RegIndex)
    requires Mirrored(w.cpu.be) && TokensOk(w.cpu.be) && !e.halted
    requires w.cpu.be.exe.valid ==> Issued(env, e, w.cpu.be.exe)
    requires Cycle(cfg, w, input).cpu.be.mem.Alive() == w.cpu.be.exe.valid
    requires !Diverted(ArchExe(env, e, Cycle(cfg, w, input)), Cycle(cfg, w, input))
    requires r != 0 && !RdMatch(w.cpu.be.rows.exe, true, r)
    ensures ReadReg(ArchExe(env, e, Cycle(cfg, w, input)).regs, r) == ReadReg(e.regs, r)
  {
    hide Cycle, Isa.Step, ReadReg, DecodeAt, Issued;
    if w.cpu.be.exe.valid {
      IssuedFields(env, e, w.cpu.be.exe);
      OnlyDestination(env, e, Cycle(cfg, w, input).memMip, r);
    }
  }

  /** An operand read without a hazard is the register's value after every older instruction. */
  lemma OperandIsCurrent(cfg: Config, env: Isa.Env, a: Isa.Arch, w: World, input: Inputs, r: RegIndex)
    requires Ready(cfg, env, a, w, input) && !MemStall(w.cpu.be, input) && !TrapFlush(w.cpu.be, input)
    requires w.cpu.be.wb.Alive() ==> !w.cpu.be.wb.trapPending
    requires SelectSource(cfg, w.cpu.be.rows, true, r) != Hazard
    requires var m' := ArchMem(env, ArchMem(env, a, w), Cycle(cfg, w, input));
      !m'.halted && !Diverted(ArchExe(env, m', Cycle(cfg, w, input)), Cycle(cfg, w, input))
    ensures var m' := ArchMem(env, ArchMem(env, a, w), Cycle(cfg, w, input));
      Operand(cfg, w.cpu.be, true, r) == ReadReg(ArchExe(env, m', Cycle(cfg, w, input)).regs, r)
  {
    hide Step, Cycle, Honest, StaleFlag, KillOf, EpochsOk, WbOk, QueueOk, Chain, Stream, Halting, TakeTrap, Isa.Step,
         ArchMem, ArchExe, RelWb, RelCode, RelMem, RelBus, RelCsrs, RelFetch, Issued, Diverted, Mirrored, TokensOk,
         MemStall, FrontLinks, RdMatch, TrapDrained, FetchOk, TrapFlush;
    if r == 0 {
      ZeroMatches(w.cpu.be.rows);
    } else {
      var m' := ArchMem(env, ArchMem(env, a, w), Cycle(cfg, w, input));
      FlowsOn(cfg, env, a, w, input);
      ExeAdvances(cfg, env, m', w, input);
      ExeOnlyDestination(cfg, env, m', w, input, r);
      ValueBehindMem(cfg, env, a, w, input, r);
      ValueBehindWb(env, a, w, r);
    }
  }

  lemma ZeroMatches(rows: Scoreboard)
    ensures !RdMatch(rows.exe, true, 0) && !RdMatch(rows.mem, true, 0) && !RdMatch(rows.wb, true, 0)
  {}

  // ---- the next instruction --------------------------------------------------------------------------------------

  lemma ExeSuccessor(env: Isa.Env, e: Isa.Arch, t: Token, c: CsrRegs, mip: Word)
    requires Issued(env, e, t) && AbsCsrs(c) == e.csrs && !e.halted
    ensures var n := Isa.Step(env, e, Undisturbed(mip));
      !n.halted && !n.lastTrap ==> n.pc == if Transfers(t) then TransferTarget(t, c) else Plus(t.ir.pc, 4)
  {
    hide Isa.Step, Issued, AbsCsrs, Plus, Transfers, TransferTarget, InstrAt, EarlyAt, Isa.NextPc, Isa.CsrsAfter;
    UndisturbedFlow(env, e, mip);
    IssuedFields(env, e, t);
    var n := Isa.Step(env, e, Undisturbed(mip));
    if !n.halted && !n.lastTrap {
      NoEarlyHaltLegal(env, e);
      ExeNextPc(env, e, t, c);
    }
  }

  /** The architectural successor is what EXE redirects to, or what heads the fetch stream. */
  lemma PcAhead(cfg: Config, env: Isa.Env, e: Isa.Arch, w: World, input: Inputs)
    requires cfg.ids.Unbounded? && Inv(cfg, w.cpu) && !MemStall(w.cpu.be, input) && !TrapFlush(w.cpu.be, input)
    requires AbsCsrs(w.cpu.be.csrs) == e.csrs && !e.halted && !Diverted(e, w)
    requires w.cpu.be.exe.valid ==> Issued(env, e, w.cpu.be.exe)
    requires RelFetch(e, w)
    requires Cycle(cfg, w, input).cpu.be.mem.Alive() == w.cpu.be.exe.valid
    ensures var next := Cycle(cfg, w, input);
      var e' := ArchExe(env, e, next);
      !Diverted(e', next) ==>
        e'.pc == if ExeRedirect(w.cpu.be, input) then TransferTarget(w.cpu.be.exe, w.cpu.be.csrs)
                 else HeadPc(FrontLinks(w.cpu.fe), w.cpu.fe.epoch)
  {
    hide Cycle, Isa.Step, Issued, AbsCsrs, Plus, Taken, TransferTarget, FrontLinks, HeadPc, Inv, MemStall, TakeTrap;
    InvParts(cfg, w.cpu);
    if w.cpu.be.exe.valid {
      ExeSuccessor(env, e, w.cpu.be.exe, w.cpu.be.csrs, Cycle(cfg, w, input).memMip);
      HeadAfterExe(cfg, w.cpu);
    }
  }

  lemma HeadMoves(cfg: Config, s: Cpu, input: Inputs)
    requires Inv(cfg, s) && cfg.ids.Unbounded? && !MemStall(s.be, input) && !TrapFlush(s.be, input)
    requires !Issues(cfg, s, input)
    ensures var next := Step(cfg, s, input).fe;
      HeadPc(FrontLinks(next), next.epoch) ==
        if ExeRedirect(s.be, input) then TransferTarget(s.be.exe, s.be.csrs)
        else HeadPc(FrontLinks(s.fe), s.fe.epoch)
  {
    hide BackendNext, FrontendNext, Plus, MemStall, IssueToken, FrontLinks, TakeTrap, HeadPc, Transfers, TransferTarget,
         MtvecBase, Issues, FetchOk, QueueOk, Mirrored, EpochsOk, WbOk, TokensOk, TrapDrained, Stream, Chain;
    if Redirect(s.be, input) {
      HeadRedirected(cfg, s, input, RedirectPc(s.be, input));
    } else {
      HeadKept(cfg, s.fe, input);
    }
  }

  lemma IssuedHead(cfg: Config, s: Cpu, input: Inputs)
    requires Inv(cfg, s) && cfg.ids.Unbounded? && Issues(cfg, s, input)
    ensures s.fe.queue != [] && HeadPc(FrontLinks(s.fe), s.fe.epoch) == s.fe.queue[0].ir.pc
    ensures !Redirect(s.be, input) && (s.be.wb.Alive() ==> !s.be.wb.trapPending)
  {
    hide BackendNext, FrontendNext, Plus, MemStall, IssueToken, FrontLinks, NoHazard, HeadPc,
         FetchOk, QueueOk, Mirrored, EpochsOk, WbOk, TokensOk, Stream, Chain, KillOf;
    FrontNonempty(s.fe);
    HeadPcFirst(FrontLinks(s.fe), s.fe.epoch);
  }

  /** What is issued is the instruction that the sequential machine executes next, with its operands. */
  lemma IssuesRight(cfg: Config, env: Isa.Env, a: Isa.Arch, w: World, input: Inputs)
    requires Ready(cfg, env, a, w, input) && Issues(cfg, w.cpu, input) && !TrapFlush(w.cpu.be, input)
    requires !MemStall(w.cpu.be, input)
    requires var m' := ArchMem(env, ArchMem(env, a, w), Cycle(cfg, w, input));
      && !m'.halted && !Diverted(ArchExe(env, m', Cycle(cfg, w, input)), Cycle(cfg, w, input))
      && ArchExe(env, m', Cycle(cfg, w, input)).pc == w.cpu.fe.queue[0].ir.pc
    ensures var m' := ArchMem(env, ArchMem(env, a, w), Cycle(cfg, w, input));
      Issued(env, ArchExe(env, m', Cycle(cfg, w, input)), IssueToken(cfg, w.cpu, input))
  {
    hide Cycle, Step, ArchMem, ArchExe, MemStall, TrapFlush, Diverted, Operand, SelectSource, ReadReg, DecodeAt,
         RelFlight, RelWb, Inv, Honest, StaleFlag, KillOf, Halting;
    IssuedHead(cfg, w.cpu, input);
    var ir := w.cpu.fe.queue[0].ir;
    if ir.rs1Use {
      OperandIsCurrent(cfg, env, a, w, input, ir.rs1);
    }
    if ir.rs2Use {
      OperandIsCurrent(cfg, env, a, w, input, ir.rs2);
    }
    var v1, v2 := Operand(cfg, w.cpu.be, ir.rs1Use, ir.rs1), Operand(cfg, w.cpu.be, ir.rs2Use, ir.rs2);
    FreshFields(w.cpu.fe.queue[0].epoch, w.cpu.fe.queue[0].seqId, ir, v1, v2);
  }

  lemma FreshFields(epoch: nat, seqId: nat, ir: DecodedIr, v1: Word, v2: Word)
    ensures var t := FreshToken(epoch, seqId, ir, v1, v2);
      t.epoch == epoch && t.seqId == seqId && t.ir == ir && t.rs1Val == v1 && t.rs2Val == v2
  {}

  /** The stages in front of WB after a cycle in which they move and nothing traps. */
  lemma FlightFlows(cfg: Config, env: Isa.Env, a: Isa.Arch, w: World, input: Inputs)
    requires Ready(cfg, env, a, w, input) && !MemStall(w.cpu.be, input) && !TrapFlush(w.cpu.be, input)
    ensures var next, m := Cycle(cfg, w, input), ArchMem(env, a, w);
      var m' := ArchMem(env, m, next);
      !m'.halted ==> RelFlight(env, m', next)
  {
    hide Step, Cycle, Honest, StaleFlag, KillOf, Inv, Halting, TakeTrap, Isa.Step,
         ArchMem, ArchExe, RelWb, RelCode, RelMem, RelCsrs, Issued, Diverted, MemStall, FrontLinks, TrapFlush,
         IssueToken, HeadPc, Isa.Transaction, TransferTarget, EarlyAt, InstrAt, ExeRedirect, Issues, AbsCsrs,
         Fires, DmemRequest, EventOf, MipOf, SampleOf, Redirect, HeadStale, RelBus;
    var next, m := Cycle(cfg, w, input), ArchMem(env, a, w);
    var m' := ArchMem(env, m, next);
    if !m'.halted {
      FlowsOn(cfg, env, a, w, input);
      ExeAdvances(cfg, env, m', w, input);
      PcAhead(cfg, env, m', w, input);
      WorldMoves(cfg, w, input);
      TokensMove(cfg, w.cpu, input);
      IssueTokenShape(cfg, w.cpu, input);
      NothingSent(env, m', next);
      var e' := ArchExe(env, m', next);
      if !Diverted(e', next) {
        if Issues(cfg, w.cpu, input) {
          IssuedHead(cfg, w.cpu, input);
          NoRedirect(w.cpu.be, input);
          IssuesRight(cfg, env, a, w, input);
        } else {
          HeadMoves(cfg, w.cpu, input);
        }
      }
    }
  }

  lemma NothingSent(env: Isa.Env, m: Isa.Arch, w: World)
    requires !w.cpu.be.reqSent && w.bus == m.bus
    ensures RelBus(env, m, w)
  {}

  lemma NoRedirect(be: Backend, input: Inputs)
    requires !Redirect(be, input)
    ensures !ExeRedirect(be, input) && !TrapFlush(be, input)
  {
    hide MemStall, TakeTrap, Transfers;
  }

  // ---- one cycle, whole ----------------------------------------------------------------------------------------------

  lemma CommitNext(cfg: Config, env: Isa.Env, a: Isa.Arch, w: World, input: Inputs)
    requires Ready(cfg, env, a, w, input)
    ensures var next, m := Cycle(cfg, w, input), ArchMem(env, a, w);
      && RelWb(env, m, next)
      && (MemStall(w.cpu.be, input) ==> ArchMem(env, m, next) == m)
      && Halting(next.cpu.be) == ArchMem(env, m, next).halted
  {
    hide Step, Cycle, Finished, RelFlight, RelCode, Honest, StaleFlag, Isa.Step, Stall, Inv, RegsNext, Fires, CsrsNext,
         MemNext, WbNext;
    Committed(env, a, w);
    StateMoves(cfg, w.cpu, input);
    TokensMove(cfg, w.cpu, input);
    var m := ArchMem(env, a, w);
    if !MemStall(w.cpu.be, input) {
      LeavesMem(cfg, env, a, w, input);
      WorldMoves(cfg, w, input);
    }
    WorldMoves(cfg, w, input);
    Committed(env, m, Cycle(cfg, w, input));
  }

  /** The relation survives a cycle; the sequential machine moves by what WB commits. */
  lemma RelNext(cfg: Config, env: Isa.Env, a: Isa.Arch, w: World, input: Inputs)
    requires Ready(cfg, env, a, w, input)
    ensures Rel(env, ArchMem(env, a, w), Cycle(cfg, w, input))
  {
    hide Step, Cycle, RelWb, Stall, Inv, RelCode, Honest, StaleFlag, Halting, RelFlight, Isa.Step, TrapFlush, MemStall,
         ArchMem, RedirectOf, Issues;
    CommitNext(cfg, env, a, w, input);
    WorldMoves(cfg, w, input);
    FrontendOf(cfg, w.cpu, input);
    CodeNext(cfg, env, w, input, RedirectOf(w.cpu.be, input), Issues(cfg, w.cpu, input));
    if MemStall(w.cpu.be, input) {
      FlightHeld(cfg, env, ArchMem(env, a, w), w, input);
    } else if TrapFlush(w.cpu.be, input) {
      FlightTrapped(cfg, env, a, w, input);
    } else {
      FlightFlows(cfg, env, a, w, input);
    }
  }

  lemma FrontendOf(cfg: Config, s: Cpu, input: Inputs)
    ensures Issues(cfg, s, input) ==> s.fe.queue != []
    ensures Step(cfg, s, input).fe == FrontendNext(cfg, s.fe, input, RedirectOf(s.be, input), Issues(cfg, s, input))
  {
    hide BackendNext, FrontendNext, KillOf, NoHazard, MemStall;
  }
}
