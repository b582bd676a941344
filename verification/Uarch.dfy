/** The types of include/uarch.svh and its functions on identities: epochs, sequence
    identifiers, kill events. */
module Uarch {
  import opened Words

  // ---- identities ---------------------------------------------------------------

  /** `Wrapped` is the hardware: 2-bit epochs and 8-bit sequence identifiers.
      `Unbounded` is the idealised machine whose identities never repeat; every other
      rule of the pipeline is shared. */
  datatype IdMode = Wrapped | Unbounded

  function NextEpoch(ids: IdMode, e: nat): nat {
    if ids.Wrapped? then (e + 1) % 4 else e + 1
  }

  function NextSeq(ids: IdMode, s: nat): nat {
    if ids.Wrapped? then (s + 1) % 256 else s + 1
  }

  /** In hardware: the 8-bit difference is non-zero and its top bit is clear. */
  predicate SeqAfter(ids: IdMode, lhs: nat, rhs: nat) {
    if ids.Wrapped? then 0 < (lhs - rhs) % 256 < 128 else lhs > rhs
  }

  datatype KillEvent = NoKill | Kill(epoch: nat, seqId: nat)

  predicate KilledByEvent(ids: IdMode, valid: bool, epoch: nat, seqId: nat, kill: KillEvent) {
    kill.Kill? && valid && epoch == kill.epoch && SeqAfter(ids, seqId, kill.seqId)
  }

  // ---- decoded instructions --------------------------------------------------------

  datatype FuType = FuInt | FuBranch | FuCsr | FuLoad | FuStore | FuSystem
  datatype AluOp = AluAdd | AluSll | AluSlt | AluSltu | AluXor | AluSrl | AluOr | AluAnd | AluSub | AluSra
  datatype Op1Sel = Op1Rs1 | Op1Pc | Op1Zero
  datatype Op2Sel = Op2Rs2 | Op2Imm
  datatype BranchOp = BrJump | BrEq | BrNe | BrLt | BrLtu | BrGe | BrGeu
  datatype MemLen = Len1 | Len2 | Len4
  datatype SysKind = SysNot | SysEcall | SysEbreak | SysMret | SysWfi | SysCsrRw | SysCsrRs | SysCsrRc
  datatype HaltKind =
    | HaltNone | HaltVoluntary | HaltIllegal | HaltBusErrorIf | HaltBusErrorLd | HaltBusErrorSt
    | HaltMisalignPc | HaltMisalignLd | HaltMisalignSt | HaltDoubleTrap

  /** `decoded_ir_t` without its identity, which travels in `QueueEntry` and `Token`. */
  datatype DecodedIr = DecodedIr(
    pc: Word, rawInst: Word, ifBusError: bool,
    fu: FuType, aluOp: AluOp, op1: Op1Sel, op2: Op2Sel, branchOp: BranchOp, sysKind: SysKind,
    memLen: MemLen, loadSignext: bool,
    rs1Use: bool, rs1: RegIndex, rs2Use: bool, rs2: RegIndex, rdToWrite: bool, rd: RegIndex,
    imm: Word, csrAddr: bv12, csrSourceImm: Word, csrSourceIsImm: bool, csrWrites: bool,
    illegal: bool)

  predicate IsLoad(ir: DecodedIr) { ir.fu == FuLoad }
  predicate IsStore(ir: DecodedIr) { ir.fu == FuStore }
  predicate IsMem(ir: DecodedIr) { IsLoad(ir) || IsStore(ir) }

  /** The destination a scoreboard row tracks: x0 never counts. */
  predicate Writes(ir: DecodedIr) { ir.rdToWrite && ir.rd != 0 }

  datatype QueueEntry = QueueEntry(epoch: nat, seqId: nat, ir: DecodedIr)

  datatype FetchPkt = FetchPkt(valid: bool, epoch: nat, seqId: nat, pc: Word, inst: Word, error: bool)
  const NoFetch := FetchPkt(false, 0, 0, 0, 0, false)

  // ---- tokens and scoreboard rows ------------------------------------------------------

  /** `inst_token_t`, without the copies that nothing reads back (`alu_result`, `csr_old`,
      `csr_new`, `csr_illegal`). */
  datatype Token = Token(
    valid: bool, epoch: nat, seqId: nat, ir: DecodedIr, rs1Val: Word, rs2Val: Word,
    rdValue: Word, memAddr: Word, storeAddr: Word, storeData: Word, storeStrb: bv4,
    killed: bool, trapPending: bool, trapCause: Word, trapTval: Word,
    halt: bool, haltKind: HaltKind)
  {
    predicate Alive() { valid && !killed }
  }

  const NoIr := DecodedIr(0, 0, false, FuInt, AluAdd, Op1Rs1, Op2Rs2, BrJump, SysNot, Len1, false,
                          false, 0, false, 0, false, 0, 0, 0, 0, false, false, false)

  function FreshToken(epoch: nat, seqId: nat, ir: DecodedIr, rs1Val: Word, rs2Val: Word): Token {
    Token(true, epoch, seqId, ir, rs1Val, rs2Val, 0, 0, 0, 0, 0, false, false, 0, 0, false, HaltNone)
  }

  const Bubble: Token :=
    Token(false, 0, 0, NoIr, 0, 0, 0, 0, 0, 0, 0, false, false, 0, 0, false, HaltNone)

  function KillTokenIfYounger(ids: IdMode, t: Token, kill: KillEvent): Token {
    if !t.killed && KilledByEvent(ids, t.valid, t.epoch, t.seqId, kill) then t.(killed := true) else t
  }

  /** `scoreboard_row_t`, without its RS debug fields and the constant `rd_written_back`. */
  datatype Row = Row(valid: bool, epoch: nat, seqId: nat, killed: bool,
                     rdToWrite: bool, rd: RegIndex, rdReady: bool)
  const NoRow := Row(false, 0, 0, false, false, 0, false)

  function KillRowIfYounger(ids: IdMode, row: Row, kill: KillEvent): Row {
    if !row.killed && KilledByEvent(ids, row.valid, row.epoch, row.seqId, kill) then row.(killed := true) else row
  }

  // ---- memory ports ------------------------------------------------------------------------

  datatype MemReq = MemReq(valid: bool, addr: Word, we: bool, be: bv4, wdata: Word)
  datatype MemResp = MemResp(valid: bool, rdata: Word, error: bool)

  function HaltExitCode(kind: HaltKind, a0: Word): bv8 {
    match kind
    case HaltVoluntary => (a0 & 0xff) as bv8
    case HaltIllegal => 130
    case HaltBusErrorIf => 131
    case HaltBusErrorLd => 132
    case HaltBusErrorSt => 133
    case HaltMisalignPc => 134
    case HaltMisalignLd => 134
    case HaltMisalignSt => 134
    case HaltDoubleTrap => 135
    case HaltNone => 1
  }

  // ---- what the hardware keeps of an unbounded identity -----------------------------------

  function NarrowEpoch(e: nat): nat { e % 4 }
  function NarrowSeq(s: nat): nat { s % 256 }

  /** Epochs that lag each other by less than four stay distinct in two bits. */
  lemma EpochsDoNotAlias(e: nat, now: nat)
    requires e <= now < e + 4
    ensures NarrowEpoch(e) == NarrowEpoch(now) <==> e == now
  {}

  lemma NarrowNext(e: nat, s: nat)
    ensures NextEpoch(Wrapped, NarrowEpoch(e)) == NarrowEpoch(NextEpoch(Unbounded, e))
    ensures NextSeq(Wrapped, NarrowSeq(s)) == NarrowSeq(NextSeq(Unbounded, s))
  {}

  /** `seq_after` is the true age order on identifiers less than 128 apart. */
  lemma SeqAfterExact(a: nat, b: nat)
    requires -128 < a - b < 128
    ensures SeqAfter(Wrapped, NarrowSeq(a), NarrowSeq(b)) <==> SeqAfter(Unbounded, a, b)
  {
    var d := a - b;
    var r := a % 256 - b % 256;
    assert -256 < r < 256;
    assert r == d || r == d - 256 || r == d + 256;
  }
}
