/** The whole core as one clocked state machine: src/frontend.sv, src/if_stage.sv,
    src/id_stage.sv, src/scoreboard.sv, src/backend.sv and src/Top.sv. A clock cycle is a call
    of `Step`; combinational signals are functions of the registers and the inputs. */
module Core {
  import opened Words
  import opened Uarch
  import opened Datapath
  import Decoder

  datatype Config = Config(memForwarding: bool, wbForwarding: bool, queueDepth: nat, resetPc: Word, ids: IdMode)
  {
    ghost predicate Valid() { queueDepth >= 1 }
  }

  datatype Inputs = Inputs(imemReady: bool, imemResp: MemResp, dmemReady: bool, dmemResp: MemResp,
                           msip: bool, mtip: bool, meip: bool)

  // ---- registers ------------------------------------------------------------------------

  datatype FetchRegs = FetchRegs(pc: Word, reqPc: Word, reqEpoch: nat, reqSeq: nat,
                                 outstanding: bool, drop: bool, out: FetchPkt)

  /** The IR queue holds its entries in order; `Fifo` shows that the circular buffer does that. */
  datatype Frontend = Frontend(fetch: FetchRegs, epoch: nat, nextSeq: nat, queue: seq<QueueEntry>)

  datatype Scoreboard = Scoreboard(exe: Row, mem: Row, wb: Row)

  datatype Backend = Backend(exe: Token, mem: Token, wb: Token, rows: Scoreboard,
                             regs: Regs, csrs: CsrRegs, reqSent: bool, lastTrap: bool)

  datatype Cpu = Cpu(fe: Frontend, be: Backend)

  function Reset(cfg: Config): Cpu {
    Cpu(Frontend(FetchRegs(cfg.resetPc, cfg.resetPc, 0, 0, false, false, NoFetch), 0, 0, []),
        Backend(Bubble, Bubble, Bubble, Scoreboard(NoRow, NoRow, NoRow), ZeroRegs(), ResetCsrRegs, false, false))
  }

  // ---- backend signals that do not depend on the frontend -----------------------------------

  function MipOf(input: Inputs): Word { Mip(input.msip, input.mtip, input.meip) }

  predicate MemStall(be: Backend, input: Inputs) {
    Stall(be.mem, be.csrs, MipOf(input), be.lastTrap, be.reqSent, input.dmemResp)
  }

  /** `backend_flush`: MEM takes a trap (which excludes a stall). */
  predicate TrapFlush(be: Backend, input: Inputs) {
    TakeTrap(be.mem, be.csrs, MipOf(input), be.lastTrap) && !MemStall(be, input)
  }

  predicate ExeRedirect(be: Backend, input: Inputs) {
    Transfers(be.exe) && !MemStall(be, input) && !TakeTrap(be.mem, be.csrs, MipOf(input), be.lastTrap)
  }

  function KillOf(be: Backend, input: Inputs): KillEvent {
    if TrapFlush(be, input) then Kill(be.mem.epoch, be.mem.seqId)
    else if ExeRedirect(be, input) then Kill(be.exe.epoch, be.exe.seqId)
    else NoKill
  }

  /** `redirect_valid_o`; Top wires it to both the redirect and the flush input of the frontend. */
  predicate Redirect(be: Backend, input: Inputs) { KillOf(be, input).Kill? }

  function RedirectPc(be: Backend, input: Inputs): Word {
    if TrapFlush(be, input) then MtvecBase(be.csrs) else TransferTarget(be.exe, be.csrs)
  }

  function DmemRequest(be: Backend, input: Inputs): MemReq {
    DmemReq(be.mem, be.csrs, MipOf(input), be.lastTrap, be.reqSent)
  }

  // ---- scoreboard ------------------------------------------------------------------------------

  predicate RdMatch(row: Row, srcUse: bool, idx: RegIndex) {
    row.valid && !row.killed && row.rdToWrite && srcUse && idx != 0 && row.rd == idx
  }

  datatype Source = Hazard | FromMem | FromWb | FromRegs

  function SelectSource(cfg: Config, rows: Scoreboard, srcUse: bool, idx: RegIndex): Source {
    if RdMatch(rows.exe, srcUse, idx) then Hazard
    else if RdMatch(rows.mem, srcUse, idx) then
      if cfg.memForwarding && rows.mem.rdReady then FromMem else Hazard
    else if RdMatch(rows.wb, srcUse, idx) then
      if cfg.wbForwarding && rows.wb.rdReady then FromWb else Hazard
    else FromRegs
  }

  function Operand(cfg: Config, be: Backend, srcUse: bool, idx: RegIndex): Word {
    match SelectSource(cfg, be.rows, srcUse, idx)
    case FromMem => be.mem.rdValue
    case FromWb => be.wb.rdValue
    case _ => ReadReg(be.regs, idx)
  }

  predicate NoHazard(cfg: Config, rows: Scoreboard, ir: DecodedIr) {
    SelectSource(cfg, rows, ir.rs1Use, ir.rs1) != Hazard && SelectSource(cfg, rows, ir.rs2Use, ir.rs2) != Hazard
  }

  function RowFromIr(e: QueueEntry): Row {
    Row(true, e.epoch, e.seqId, false, Writes(e.ir), e.ir.rd, false)
  }

  predicate ExeRdReady(t: Token) { t.Alive() && t.ir.rdToWrite && !IsLoad(t.ir) }

  predicate MemRdReady(be: Backend, input: Inputs) {
    be.mem.Alive() && (!IsLoad(be.mem.ir) || (be.reqSent && input.dmemResp.valid))
  }

  // ---- issue -----------------------------------------------------------------------------------------

  predicate HeadStale(fe: Frontend) { fe.queue != [] && fe.queue[0].epoch != fe.epoch }

  predicate IrValid(fe: Frontend, flush: bool) { fe.queue != [] && !flush && !HeadStale(fe) }

  /** `issue_valid`, which is also `ir_ready_o`. */
  predicate Issues(cfg: Config, s: Cpu, input: Inputs) {
    && IrValid(s.fe, Redirect(s.be, input))
    && !MemStall(s.be, input)
    && NoHazard(cfg, s.be.rows, s.fe.queue[0].ir)
  }

  /** An invalid issue packet carries no meaning; it is modelled as the bubble. */
  function IssueToken(cfg: Config, s: Cpu, input: Inputs): Token {
    if Issues(cfg, s, input) then
      var e := s.fe.queue[0];
      FreshToken(e.epoch, e.seqId, e.ir,
                 Operand(cfg, s.be, e.ir.rs1Use, e.ir.rs1), Operand(cfg, s.be, e.ir.rs2Use, e.ir.rs2))
    else Bubble
  }

  // ---- frontend registers ------------------------------------------------------------------------------

  predicate QueueReady(cfg: Config, fe: Frontend) { |fe.queue| < cfg.queueDepth }

  /** The decoder hands back-pressure through, except during a flush. */
  predicate FetchReady(cfg: Config, fe: Frontend, flush: bool) { QueueReady(cfg, fe) || flush }

  predicate ImemReqValid(cfg: Config, fe: Frontend, flush: bool) {
    !flush && !fe.fetch.outstanding && !fe.fetch.out.valid && FetchReady(cfg, fe, flush)
  }

  predicate Pushes(cfg: Config, fe: Frontend, flush: bool) {
    fe.fetch.out.valid && !flush && QueueReady(cfg, fe)
  }

  predicate Pops(fe: Frontend, issues: bool) { issues || HeadStale(fe) }

  function DecodeFetched(p: FetchPkt): QueueEntry {
    QueueEntry(p.epoch, p.seqId, Decoder.Decode(p.pc, p.inst, p.error))
  }

  function QueueNext(cfg: Config, fe: Frontend, flush: bool, issues: bool): seq<QueueEntry>
    requires issues ==> fe.queue != []
  {
    (if Pops(fe, issues) then fe.queue[1..] else fe.queue) +
    (if Pushes(cfg, fe, flush) then [DecodeFetched(fe.fetch.out)] else [])
  }

  /** The first half of the `always_ff` block of if_stage.sv: redirect, or request and hand-over. */
  function FetchAdvance(cfg: Config, fe: Frontend, input: Inputs, redirect: Option<Word>): FetchRegs {
    var f := fe.fetch;
    if redirect.Some? then f.(pc := redirect.value, out := NoFetch, drop := f.outstanding)
    else
      var g := if ImemReqValid(cfg, fe, false) && input.imemReady
               then f.(reqPc := f.pc, reqEpoch := fe.epoch, reqSeq := fe.nextSeq, pc := Plus(f.pc, 4), outstanding := true)
               else f;
      if f.out.valid && FetchReady(cfg, fe, false) then g.(out := NoFetch) else g
  }

  /** The second half: a response to the request that was outstanding when the cycle began. */
  function FetchResponse(fe: Frontend, g: FetchRegs, input: Inputs, redirect: bool): FetchRegs {
    var f := fe.fetch;
    if !f.outstanding || !input.imemResp.valid then g
    else if f.drop || redirect || f.reqEpoch != fe.epoch then g.(outstanding := false, drop := false)
    else g.(outstanding := false,
            out := FetchPkt(true, f.reqEpoch, f.reqSeq, f.reqPc, input.imemResp.rdata, input.imemResp.error))
  }

  function FetchNext(cfg: Config, fe: Frontend, input: Inputs, redirect: Option<Word>): FetchRegs {
    FetchResponse(fe, FetchAdvance(cfg, fe, input, redirect), input, redirect.Some?)
  }

  function FrontendNext(cfg: Config, fe: Frontend, input: Inputs, redirect: Option<Word>, issues: bool): Frontend
    requires issues ==> fe.queue != []
  {
    var flush := redirect.Some?;
    Frontend(FetchNext(cfg, fe, input, redirect),
             if flush then NextEpoch(cfg.ids, fe.epoch) else fe.epoch,
             if ImemReqValid(cfg, fe, flush) && input.imemReady then NextSeq(cfg.ids, fe.nextSeq) else fe.nextSeq,
             QueueNext(cfg, fe, flush, issues))
  }

  // ---- backend registers -------------------------------------------------------------------------------------

  function RowsNext(cfg: Config, s: Cpu, input: Inputs): Scoreboard {
    var kill := KillOf(s.be, input);
    var rows := s.be.rows;
    if MemStall(s.be, input) then
      Scoreboard(KillRowIfYounger(cfg.ids, rows.exe, kill), KillRowIfYounger(cfg.ids, rows.mem, kill), NoRow)
    else
      Scoreboard(if Issues(cfg, s, input) then KillRowIfYounger(cfg.ids, RowFromIr(s.fe.queue[0]), kill) else NoRow,
                 KillRowIfYounger(cfg.ids, rows.exe, kill).(rdReady := rows.exe.rdReady || ExeRdReady(s.be.exe)),
                 KillRowIfYounger(cfg.ids, rows.mem, kill).(rdReady := rows.mem.rdReady || MemRdReady(s.be, input)))
  }

  /** A trap entry overrides EXE, which commits nothing then. */
  function CsrsNext(be: Backend, input: Inputs): CsrRegs {
    var mip := MipOf(input);
    if TrapFlush(be, input) then EnterTrap(be.csrs, TrapCause(be.csrs, mip), be.mem.ir.pc, 0)
    else if MemStall(be, input) || TakeTrap(be.mem, be.csrs, mip, be.lastTrap) then be.csrs
    else CsrsAfterExe(be.exe, be.csrs, mip)
  }

  function RegsNext(be: Backend): Regs {
    if RfWe(be.wb) then WriteReg(be.regs, be.wb.ir.rd, be.wb.rdValue) else be.regs
  }

  function WbNext(cfg: Config, be: Backend, input: Inputs): Token {
    var out := MemOut(be.mem, be.csrs, MipOf(input), be.lastTrap, be.reqSent, input.dmemResp);
    KillTokenIfYounger(cfg.ids, out, KillOf(be, input))
  }

  function MemNext(cfg: Config, be: Backend, input: Inputs): Token {
    var out := ExeOut(be.exe, be.csrs, MipOf(input), TakeTrap(be.mem, be.csrs, MipOf(input), be.lastTrap));
    KillTokenIfYounger(cfg.ids, out, KillOf(be, input))
  }

  function BackendNext(cfg: Config, s: Cpu, input: Inputs): Backend {
    var be := s.be;
    var stall := MemStall(be, input);
    var fire := DmemRequest(be, input).valid && input.dmemReady;
    Backend(if stall then be.exe else KillTokenIfYounger(cfg.ids, IssueToken(cfg, s, input), KillOf(be, input)),
            if stall then be.mem else MemNext(cfg, be, input),
            if stall then Bubble else WbNext(cfg, be, input),
            RowsNext(cfg, s, input),
            RegsNext(be),
            CsrsNext(be, input),
            if stall then be.reqSent || fire else false,
            if be.wb.Alive() then be.wb.trapPending else be.lastTrap)
  }

  // ---- one clock cycle ----------------------------------------------------------------------------------------

  function RedirectOf(be: Backend, input: Inputs): Option<Word> {
    if Redirect(be, input) then Some(RedirectPc(be, input)) else None
  }

  function Step(cfg: Config, s: Cpu, input: Inputs): Cpu {
    Cpu(FrontendNext(cfg, s.fe, input, RedirectOf(s.be, input), Issues(cfg, s, input)),
        BackendNext(cfg, s, input))
  }
}
