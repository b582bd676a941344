/** The core as clocked objects that update their registers in place, one class a module with state
    of its own. Every `Clock` is one clock edge, proved against the functions of `Core`. */
module Machine {
  import opened Words
  import opened Uarch
  import opened Datapath
  import opened Core
  import opened Fifo

  /** src/if_stage.sv */
  class IfStage {
    var pc: Word
    var reqPc: Word
    var reqEpoch: nat
    var reqSeq: nat
    var outstanding: bool
    var drop: bool
    var out: FetchPkt

    function State(): FetchRegs
      reads this
    {
      FetchRegs(pc, reqPc, reqEpoch, reqSeq, outstanding, drop, out)
    }

    constructor (resetPc: Word)
      ensures State() == FetchRegs(resetPc, resetPc, 0, 0, false, false, NoFetch)
    {
      pc, reqPc, reqEpoch, reqSeq, outstanding, drop, out := resetPc, resetPc, 0, 0, false, false, NoFetch;
    }

    predicate ReqValid(flush: bool, ready: bool)
      reads this
    {
      !flush && !outstanding && !out.valid && ready
    }

    method Clock(cfg: Config, input: Inputs, redirect: Option<Word>, ready: bool, epoch: nat, nextSeq: nat,
                 ghost queue: seq<QueueEntry>)
      requires ready == FetchReady(cfg, Core.Frontend(State(), epoch, nextSeq, queue), redirect.Some?)
      modifies this
      ensures State() == FetchNext(cfg, Core.Frontend(old(State()), epoch, nextSeq, queue), input, redirect)
    {
      var answered := outstanding && input.imemResp.valid;
      var stale := drop || redirect.Some? || reqEpoch != epoch;
      var answer := FetchPkt(true, reqEpoch, reqSeq, reqPc, input.imemResp.rdata, input.imemResp.error);
      if redirect.Some? {
        pc := redirect.value;
        out := NoFetch;
        drop := outstanding;
      } else {
        var handOver := out.valid && ready;
        if ReqValid(false, ready) && input.imemReady {
          reqPc, reqEpoch, reqSeq := pc, epoch, nextSeq;
          pc := Plus(pc, 4);
          outstanding := true;
        }
        if handOver {
          out := NoFetch;
        }
      }
      if answered {
        outstanding := false;
        if stale {
          drop := false;
        } else {
          out := answer;
        }
      }
    }
  }

  /** src/frontend.sv */
  class FrontendUnit {
    const stage: IfStage
    const queue: Buffer<QueueEntry>
    var epoch: nat
    var nextSeq: nat

    ghost predicate Valid(cfg: Config)
      reads this, queue, queue.mem
    {
      queue.Valid() && queue.mem.Length == cfg.queueDepth
    }

    ghost function State(cfg: Config): Core.Frontend
      requires Valid(cfg)
      reads this, stage, queue, queue.mem
    {
      Core.Frontend(stage.State(), epoch, nextSeq, queue.Contents())
    }

    constructor (cfg: Config)
      requires cfg.Valid()
      ensures Valid(cfg) && State(cfg) == Core.Reset(cfg).fe
      ensures fresh(stage) && fresh(queue) && fresh(queue.mem)
    {
      stage := new IfStage(cfg.resetPc);
      queue := new Buffer(cfg.queueDepth, QueueEntry(0, 0, NoIr));
      epoch, nextSeq := 0, 0;
    }

    /** `queue_stale` */
    predicate Stale(cfg: Config)
      requires Valid(cfg)
      reads this, queue, queue.mem
      ensures Stale(cfg) == (queue.Contents() != [] && queue.Contents()[0].epoch != epoch)
    {
      queue.OutValid(false) && queue.OutData().epoch != epoch
    }

    /** `ir_valid_o` and `ir_o` */
    function Head(cfg: Config, flush: bool): (h: Option<QueueEntry>)
      requires Valid(cfg)
      reads this, stage, queue, queue.mem
      ensures h == if IrValid(State(cfg), flush) then Some(State(cfg).queue[0]) else None
    {
      if queue.OutValid(false) && !flush && !Stale(cfg) then Some(queue.OutData()) else None
    }

    /** `imem_req_o.req_valid` */
    predicate Requests(cfg: Config, flush: bool)
      requires Valid(cfg)
      reads this, stage, queue, queue.mem
      ensures Requests(cfg, flush) == ImemReqValid(cfg, State(cfg), flush)
    {
      stage.ReqValid(flush, queue.InReady() || flush)
    }

    method Clock(cfg: Config, input: Inputs, redirect: Option<Word>, issues: bool)
      requires Valid(cfg) && (issues ==> State(cfg).queue != [])
      modifies this, stage, queue, queue.mem
      ensures Valid(cfg)
      ensures State(cfg) == FrontendNext(cfg, old(State(cfg)), input, redirect, issues)
    {
      hide FetchNext, DecodeFetched, NextEpoch, NextSeq, Buffer.Contents;
      var flush := redirect.Some?;
      var ready := queue.InReady() || flush;
      var fetched := stage.out.valid && !flush;
      var entry := DecodeFetched(stage.out);
      var sent := stage.ReqValid(flush, ready) && input.imemReady;
      var pops := issues || Stale(cfg);
      stage.Clock(cfg, input, redirect, ready, epoch, nextSeq, queue.Contents());
      queue.Clock(false, fetched, entry, pops);
      if flush {
        epoch := NextEpoch(cfg.ids, epoch);
      }
      if sent {
        nextSeq := NextSeq(cfg.ids, nextSeq);
      }
    }
  }

  /** src/regfile.sv */
  class RegisterFile {
    const data: array<Word>

    ghost predicate Valid() { data.Length == 32 }

    function State(): Regs
      requires Valid()
      reads this, data
    {
      data[..]
    }

    constructor ()
      ensures Valid() && State() == ZeroRegs() && fresh(data)
    {
      data := new Word[32](_ => 0);
      new;
      assert data[..] == ZeroRegs();
    }

    function Read(r: RegIndex): (v: Word)
      requires Valid()
      reads this, data
      ensures v == ReadReg(State(), r)
    {
      if r == 0 then 0 else data[r as nat]
    }

    method Clock(we: bool, rd: RegIndex, value: Word)
      requires Valid()
      modifies data
      ensures State() == if we then WriteReg(old(State()), rd, value) else old(State())
    {
      if we && rd != 0 {
        data[rd as nat] := value;
      }
    }
  }

  /** src/scoreboard.sv */
  class ScoreboardUnit {
    var exe: Row
    var mem: Row
    var wb: Row

    function State(): Core.Scoreboard
      reads this
    {
      Core.Scoreboard(exe, mem, wb)
    }

    constructor ()
      ensures State() == Core.Scoreboard(NoRow, NoRow, NoRow)
    {
      exe, mem, wb := NoRow, NoRow, NoRow;
    }

    /** The rows shift, unless MEM stalls; `issued` enters. */
    method Clock(ids: IdMode, kill: KillEvent, stall: bool, issued: Option<QueueEntry>, exeReady: bool, memReady: bool)
      modifies this
      ensures wb == if stall then NoRow
                    else KillRowIfYounger(ids, old(mem), kill).(rdReady := old(mem).rdReady || memReady)
      ensures mem == if stall then KillRowIfYounger(ids, old(mem), kill)
                     else KillRowIfYounger(ids, old(exe), kill).(rdReady := old(exe).rdReady || exeReady)
      ensures exe == if stall then KillRowIfYounger(ids, old(exe), kill)
                     else if issued.Some? then KillRowIfYounger(ids, RowFromIr(issued.value), kill) else NoRow
    {
      if stall {
        exe := KillRowIfYounger(ids, exe, kill);
        mem := KillRowIfYounger(ids, mem, kill);
        wb := NoRow;
      } else {
        wb := KillRowIfYounger(ids, mem, kill).(rdReady := mem.rdReady || memReady);
        mem := KillRowIfYounger(ids, exe, kill).(rdReady := exe.rdReady || exeReady);
        exe := if issued.Some? then KillRowIfYounger(ids, RowFromIr(issued.value), kill) else NoRow;
      }
    }
  }

  /** src/CSRFile.sv */
  class CsrUnit {
    var mstatus: Word
    var mie: Word
    var mtvec: Word
    var mscratch: Word
    var mepc: Word
    var mcause: Word
    var mtval: Word

    function State(): CsrRegs
      reads this
    {
      CsrRegs(mstatus, mie, mtvec, mscratch, mepc, mcause, mtval)
    }

    constructor ()
      ensures State() == ResetCsrRegs
    {
      mstatus, mie, mtvec, mscratch, mepc, mcause, mtval := 0, 0, 0, 0, 0, 0, 0;
    }

    method Write(addr: bv12, v: Word)
      modifies this
      ensures State() == WriteCsr(old(State()), addr, v)
    {
      match addr
      case 0x300 => mstatus := Keep(v, MSTATUS_MASK);
      case 0x304 => mie := Keep(v, MIE_MASK);
      case 0x305 => mtvec := AlignDown(v);
      case 0x340 => mscratch := v;
      case 0x341 => mepc := AlignDown(v);
      case 0x342 => mcause := v;
      case 0x343 => mtval := v;
      case _ =>
    }

    /** A trap entry wins; otherwise EXE's access `t` commits if `commit`, and MRET after it. */
    method Clock(t: Token, commit: bool, mip: Word, trap: bool, cause: Word, epc: Word)
      modifies this
      ensures State() == if trap then EnterTrap(old(State()), cause, epc, 0)
                         else if commit then CsrsAfterExe(t, old(State()), mip) else old(State())
    {
      hide Keep, AlignDown, Flag, CsrNew, ReadCsr, CsrIllegal, WriteCsr;
      if trap {
        mepc, mcause, mtval := AlignDown(epc), cause, 0;
        mstatus := if Flag(mstatus, MSTATUS_MIE) then MSTATUS_MPIE else 0;
      } else if commit {
        var before := State();
        if t.Alive() && t.ir.fu == FuCsr && t.ir.csrWrites && !CsrIllegal(t.ir.csrAddr, t.ir.csrWrites) {
          Write(t.ir.csrAddr, CsrNew(t.ir.sysKind, ReadCsr(before, mip, t.ir.csrAddr), CsrSource(t)));
        }
        if t.Alive() && t.ir.sysKind == SysMret {
          mstatus := LeaveTrap(before).mstatus;
        }
      }
    }
  }

  /** The state of src/mem_stage.sv: whether its request has been accepted. */
  class MemUnit {
    var reqSent: bool

    constructor ()
      ensures !reqSent
    {
      reqSent := false;
    }

    method Clock(advance: bool, fire: bool)
      modifies this
      ensures reqSent == (!advance && (old(reqSent) || fire))
    {
      if advance {
        reqSent := false;
      } else if fire {
        reqSent := true;
      }
    }
  }

  /** src/backend.sv */
  class BackendUnit {
    var exe: Token
    var mem: Token
    var wb: Token
    var lastTrap: bool
    const rows: ScoreboardUnit
    const regs: RegisterFile
    const csrs: CsrUnit
    const port: MemUnit

    ghost predicate Valid()
      reads this
    {
      regs.Valid()
    }

    function State(): Core.Backend
      requires Valid()
      reads this, rows, regs, regs.data, csrs, port
    {
      Core.Backend(exe, mem, wb, rows.State(), regs.State(), csrs.State(), port.reqSent, lastTrap)
    }

    constructor ()
      ensures Valid() && State() == Core.Reset(Config(false, false, 1, 0, Wrapped)).be
      ensures fresh(rows) && fresh(regs) && fresh(regs.data) && fresh(csrs) && fresh(port)
    {
      exe, mem, wb, lastTrap := Bubble, Bubble, Bubble, false;
      rows := new ScoreboardUnit();
      regs := new RegisterFile();
      csrs := new CsrUnit();
      port := new MemUnit();
    }

    /** The issue packet: the head of the IR queue with its operands, if nothing holds it up. */
    method Issue(cfg: Config, head: Option<QueueEntry>, input: Inputs, ghost fe: Core.Frontend)
      returns (issues: bool, token: Token)
      requires Valid()
      requires head == if IrValid(fe, Redirect(State(), input)) then Some(fe.queue[0]) else None
      ensures issues == Issues(cfg, Cpu(fe, State()), input) && (issues ==> head.Some?)
      ensures token == IssueToken(cfg, Cpu(fe, State()), input)
    {
      hide MemStall, KillOf, Operand, NoHazard, Redirect;
      var be := State();
      issues := head.Some? && !MemStall(be, input) && NoHazard(cfg, be.rows, head.value.ir);
      token := Bubble;
      if issues {
        var e := head.value;
        token := FreshToken(e.epoch, e.seqId, e.ir,
                            Operand(cfg, be, e.ir.rs1Use, e.ir.rs1), Operand(cfg, be, e.ir.rs2Use, e.ir.rs2));
      }
    }

    /** The units with state of their own take their clock edge. */
    method ClockUnits(cfg: Config, issued: Option<QueueEntry>, input: Inputs, ghost fe: Core.Frontend)
      requires Valid()
      requires issued == if Issues(cfg, Cpu(fe, State()), input) then Some(fe.queue[0]) else None
      modifies rows, regs.data, csrs, port
      ensures rows.State() == RowsNext(cfg, Cpu(fe, old(State())), input)
      ensures regs.State() == RegsNext(old(State()))
      ensures csrs.State() == CsrsNext(old(State()), input)
      ensures port.reqSent ==
        (MemStall(old(State()), input) &&
         (old(port.reqSent) || (DmemRequest(old(State()), input).valid && input.dmemReady)))
    {
      hide MemStall, TakeTrap, KillOf, CsrsAfterExe, EnterTrap, TrapCause, Issues, KillRowIfYounger, DmemRequest, WriteReg,
           MemRdReady, ExeRdReady, RowFromIr, RfWe;
      var be := State();
      var stall, mip := MemStall(be, input), MipOf(input);
      var takes := TakeTrap(be.mem, be.csrs, mip, be.lastTrap);
      regs.Clock(RfWe(wb), wb.ir.rd, wb.rdValue);
      rows.Clock(cfg.ids, KillOf(be, input), stall, issued, ExeRdReady(exe), MemRdReady(be, input));
      csrs.Clock(exe, !stall && !takes, mip, TrapFlush(be, input), TrapCause(be.csrs, mip), mem.ir.pc);
      port.Clock(!stall, DmemRequest(be, input).valid && input.dmemReady);
    }

    /** `head` is the valid head of the IR queue; the result is `ir_ready_o`. */
    method Clock(cfg: Config, head: Option<QueueEntry>, input: Inputs, ghost fe: Core.Frontend) returns (issues: bool)
      requires Valid()
      requires head == if IrValid(fe, Redirect(State(), input)) then Some(fe.queue[0]) else None
      modifies this, rows, regs.data, csrs, port
      ensures Valid()
      ensures issues == Issues(cfg, Cpu(fe, old(State())), input)
      ensures State() == BackendNext(cfg, Cpu(fe, old(State())), input)
    {
      hide MemStall, KillOf, Issues, IssueToken, KillTokenIfYounger, DmemRequest, WbNext, MemNext, RowsNext, RegsNext,
           CsrsNext, Redirect, IrValid;
      var be := State();
      var token;
      issues, token := Issue(cfg, head, input, fe);
      IssuesHead(cfg, Cpu(fe, be), input);
      ClockUnits(cfg, if issues then head else None, input, fe);
      if wb.Alive() {
        lastTrap := wb.trapPending;
      }
      if MemStall(be, input) {
        wb := Bubble;
      } else {
        wb := WbNext(cfg, be, input);
        mem := MemNext(cfg, be, input);
        exe := KillTokenIfYounger(cfg.ids, token, KillOf(be, input));
      }
    }
  }

  lemma IssuesHead(cfg: Config, s: Cpu, input: Inputs)
    ensures Issues(cfg, s, input) ==> s.fe.queue != [] && IrValid(s.fe, Redirect(s.be, input))
  {}

  /** src/Top.sv: the frontend and the backend, with the backend's redirect wired to both the flush
      and the redirect input of the frontend. */
  class Top {
    const cfg: Config
    const frontend: FrontendUnit
    const backend: BackendUnit

    ghost predicate Valid()
      reads this, frontend, frontend.queue, frontend.queue.mem, backend
    {
      && frontend.Valid(cfg) && backend.Valid()
      && {frontend.queue.mem as object} !! {backend.regs.data as object}
    }

    ghost function State(): Cpu
      requires Valid()
      reads this, frontend, frontend.stage, frontend.queue, frontend.queue.mem
      reads backend, backend.rows, backend.regs, backend.regs.data, backend.csrs, backend.port
    {
      Cpu(frontend.State(cfg), backend.State())
    }

    constructor (cfg: Config)
      requires cfg.Valid()
      ensures Valid() && this.cfg == cfg && State() == Core.Reset(cfg)
      ensures fresh(frontend) && fresh(frontend.stage) && fresh(frontend.queue) && fresh(frontend.queue.mem)
      ensures fresh(backend) && fresh(backend.rows) && fresh(backend.regs) && fresh(backend.regs.data)
      ensures fresh(backend.csrs) && fresh(backend.port)
    {
      this.cfg := cfg;
      frontend := new FrontendUnit(cfg);
      backend := new BackendUnit();
      new;
      assert backend.State() == Core.Reset(cfg).be;
      assert frontend.State(cfg) == Core.Reset(cfg).fe;
    }

    method Clock(input: Inputs)
      requires Valid()
      modifies frontend, frontend.stage, frontend.queue, frontend.queue.mem
      modifies backend, backend.rows, backend.regs.data, backend.csrs, backend.port
      ensures Valid() && State() == Core.Step(cfg, old(State()), input)
    {
      hide FrontendNext, BackendNext, Issues, KillOf, RedirectPc;
      var redirect := RedirectOf(backend.State(), input);
      var head := frontend.Head(cfg, redirect.Some?);
      ghost var s := State();
      IssuesHead(cfg, s, input);
      var issues := backend.Clock(cfg, head, input, frontend.State(cfg));
      frontend.Clock(cfg, input, redirect, issues);
    }
  }
}
