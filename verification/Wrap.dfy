/** The 2-bit epochs and 8-bit sequence identifiers of the hardware lose nothing: on reachable
    states the hardware behaves exactly like the machine whose identities never repeat. */
module Wrap {
  import opened Words
  import opened Uarch
  import opened Datapath
  import opened Core
  import opened CoreInv
  import opened FrontendInv
  import Chains
  import Decoder

  function NarrowToken(t: Token): Token { t.(epoch := NarrowEpoch(t.epoch), seqId := NarrowSeq(t.seqId)) }
  function NarrowRow(r: Row): Row { r.(epoch := NarrowEpoch(r.epoch), seqId := NarrowSeq(r.seqId)) }
  function NarrowEntry(e: QueueEntry): QueueEntry { e.(epoch := NarrowEpoch(e.epoch), seqId := NarrowSeq(e.seqId)) }
  function NarrowPkt(p: FetchPkt): FetchPkt { p.(epoch := NarrowEpoch(p.epoch), seqId := NarrowSeq(p.seqId)) }
  function NarrowKill(k: KillEvent): KillEvent {
    match k case NoKill => NoKill case Kill(e, s) => Kill(NarrowEpoch(e), NarrowSeq(s))
  }

  function NarrowQueue(q: seq<QueueEntry>): (r: seq<QueueEntry>)
    ensures |r| == |q| && forall i :: 0 <= i < |q| ==> r[i] == NarrowEntry(q[i])
  {
    if q == [] then [] else [NarrowEntry(q[0])] + NarrowQueue(q[1..])
  }

  function NarrowFetch(f: FetchRegs): FetchRegs {
    f.(reqEpoch := NarrowEpoch(f.reqEpoch), reqSeq := NarrowSeq(f.reqSeq), out := NarrowPkt(f.out))
  }

  function NarrowFrontend(fe: Frontend): Frontend {
    Frontend(NarrowFetch(fe.fetch), NarrowEpoch(fe.epoch), NarrowSeq(fe.nextSeq), NarrowQueue(fe.queue))
  }

  function NarrowRows(rows: Scoreboard): Scoreboard {
    Scoreboard(NarrowRow(rows.exe), NarrowRow(rows.mem), NarrowRow(rows.wb))
  }

  function NarrowBackend(be: Backend): Backend {
    be.(exe := NarrowToken(be.exe), mem := NarrowToken(be.mem), wb := NarrowToken(be.wb), rows := NarrowRows(be.rows))
  }

  /** What the hardware's registers hold of an ideal state. */
  function Narrow(s: Cpu): Cpu { Cpu(NarrowFrontend(s.fe), NarrowBackend(s.be)) }

  function Hardware(cfg: Config): Config { cfg.(ids := Wrapped) }
  function Ideal(cfg: Config): Config { cfg.(ids := Unbounded) }

  lemma NarrowReset(cfg: Config)
    ensures Narrow(Reset(cfg)) == Reset(Hardware(cfg))
  {}

  // ---- identities do not influence the other signals ------------------------------------------

  lemma ExeNarrow(t: Token, c: CsrRegs, mip: Word, trap: bool)
    ensures ExeOut(NarrowToken(t), c, mip, trap) == NarrowToken(ExeOut(t, c, mip, trap))
  {
    hide Plus, ClearBit0, Flag, ReadCsr, Alu, BranchTaken, CsrIllegal, Opcode, NarrowEpoch, NarrowSeq;
  }

  lemma CsrsNarrow(t: Token, c: CsrRegs, mip: Word)
    ensures CsrsAfterExe(NarrowToken(t), c, mip) == CsrsAfterExe(t, c, mip)
  {
    hide NarrowToken, ReadCsr, CsrIllegal, WriteCsr, CsrNew, LeaveTrap;
    TokenFieldsNarrow(t);
  }

  lemma TransferNarrow(t: Token, c: CsrRegs)
    ensures Transfers(NarrowToken(t)) == Transfers(t)
    ensures TransferTarget(NarrowToken(t), c) == TransferTarget(t, c)
  {
    hide Plus, ClearBit0, BranchTaken, Opcode, NarrowEpoch, NarrowSeq, AlignDown;
  }

  lemma MemDecisionsNarrow(t: Token, c: CsrRegs, mip: Word, lastTrap: bool)
    ensures TakeTrap(NarrowToken(t), c, mip, lastTrap) == TakeTrap(t, c, mip, lastTrap)
    ensures TakeHalt(NarrowToken(t), c, mip, lastTrap) == TakeHalt(t, c, mip, lastTrap)
    ensures DoubleTrap(NarrowToken(t), c, mip, lastTrap) == DoubleTrap(t, c, mip, lastTrap)
    ensures Accesses(NarrowToken(t), c, mip, lastTrap) == Accesses(t, c, mip, lastTrap)
    ensures PreHaltKind(NarrowToken(t)) == PreHaltKind(t)
  {
    hide AsyncCause, LsuMisaligned, MtvecBase, NarrowEpoch, NarrowSeq;
  }

  lemma MemNarrow(t: Token, c: CsrRegs, mip: Word, lastTrap: bool, reqSent: bool, resp: MemResp)
    ensures MemOut(NarrowToken(t), c, mip, lastTrap, reqSent, resp) == NarrowToken(MemOut(t, c, mip, lastTrap, reqSent, resp))
    ensures Stall(NarrowToken(t), c, mip, lastTrap, reqSent, resp) == Stall(t, c, mip, lastTrap, reqSent, resp)
    ensures DmemReq(NarrowToken(t), c, mip, lastTrap, reqSent) == DmemReq(t, c, mip, lastTrap, reqSent)
  {
    hide TakeTrap, TakeHalt, DoubleTrap, Accesses, PreHaltKind, LsuBe, LsuWdata, LoadValue, TrapCause, NarrowEpoch,
         NarrowSeq;
    MemDecisionsNarrow(t, c, mip, lastTrap);
  }

  lemma SignalsNarrow(be: Backend, input: Inputs)
    ensures var nb := NarrowBackend(be);
      && MemStall(nb, input) == MemStall(be, input)
      && TrapFlush(nb, input) == TrapFlush(be, input)
      && ExeRedirect(nb, input) == ExeRedirect(be, input)
      && KillOf(nb, input) == NarrowKill(KillOf(be, input))
      && RedirectOf(nb, input) == RedirectOf(be, input)
      && DmemRequest(nb, input) == DmemRequest(be, input)
      && TakeTrap(nb.mem, be.csrs, MipOf(input), be.lastTrap) == TakeTrap(be.mem, be.csrs, MipOf(input), be.lastTrap)
  {
    hide NarrowToken, TakeTrap, Stall, Transfers, TransferTarget, DmemReq, NarrowEpoch, NarrowSeq, AlignDown;
    MemNarrow(be.mem, be.csrs, MipOf(input), be.lastTrap, be.reqSent, input.dmemResp);
    MemDecisionsNarrow(be.mem, be.csrs, MipOf(input), be.lastTrap);
    TransferNarrow(be.exe, be.csrs);
    TokenFieldsNarrow(be.mem);
    TokenFieldsNarrow(be.exe);
  }

  lemma StateNarrow(be: Backend, input: Inputs)
    ensures CsrsNext(NarrowBackend(be), input) == CsrsNext(be, input)
    ensures RegsNext(NarrowBackend(be)) == RegsNext(be)
  {
    hide NarrowToken, TakeTrap, MemStall, TrapFlush, NarrowEpoch, NarrowSeq, CsrsAfterExe, EnterTrap, TrapCause, WriteReg;
    SignalsNarrow(be, input);
    CsrsNarrow(be.exe, be.csrs, MipOf(input));
    TokenFieldsNarrow(be.mem);
    TokenFieldsNarrow(be.wb);
  }

  lemma TokenFieldsNarrow(t: Token)
    ensures var n := NarrowToken(t);
      && n.valid == t.valid && n.killed == t.killed && n.ir == t.ir && n.rdValue == t.rdValue
      && n.trapPending == t.trapPending && n.halt == t.halt && n.rs1Val == t.rs1Val && n.rs2Val == t.rs2Val
      && n.epoch == NarrowEpoch(t.epoch) && n.seqId == NarrowSeq(t.seqId)
  {}

  // ---- issue -----------------------------------------------------------------------------------

  lemma IssueNarrow(cfg: Config, s: Cpu, input: Inputs)
    requires Inv(Ideal(cfg), s)
    ensures HeadStale(NarrowFrontend(s.fe)) == HeadStale(s.fe)
    ensures Issues(Hardware(cfg), Narrow(s), input) == Issues(Ideal(cfg), s, input)
    ensures IssueToken(Hardware(cfg), Narrow(s), input) == NarrowToken(IssueToken(Ideal(cfg), s, input))
  {
    hide NarrowToken, NarrowRows, SelectSource, Operand, NoHazard, MemStall, KillOf, Inv, FreshToken, NarrowEpoch, NarrowSeq;
    HeadStaleNarrow(Ideal(cfg), s);
    IssuesNarrow(cfg, s, input);
    NarrowBubble();
    if s.fe.queue != [] {
      var e := s.fe.queue[0];
      OperandNarrow(cfg, s.be, e.ir.rs1Use, e.ir.rs1);
      OperandNarrow(cfg, s.be, e.ir.rs2Use, e.ir.rs2);
      FreshNarrow(e, Operand(Ideal(cfg), s.be, e.ir.rs1Use, e.ir.rs1), Operand(Ideal(cfg), s.be, e.ir.rs2Use, e.ir.rs2));
    }
  }

  lemma IssuesNarrow(cfg: Config, s: Cpu, input: Inputs)
    requires HeadStale(NarrowFrontend(s.fe)) == HeadStale(s.fe)
    ensures Issues(Hardware(cfg), Narrow(s), input) == Issues(Ideal(cfg), s, input)
  {
    hide NarrowToken, NarrowRows, SelectSource, MemStall, KillOf, NarrowEpoch, NarrowSeq;
    SignalsNarrow(s.be, input);
    if s.fe.queue != [] {
      var ir := s.fe.queue[0].ir;
      SourceNarrow(cfg, s.be.rows, ir.rs1Use, ir.rs1);
      SourceNarrow(cfg, s.be.rows, ir.rs2Use, ir.rs2);
    }
  }

  lemma NarrowBubble()
    ensures NarrowToken(Bubble) == Bubble
  {}

  lemma FreshNarrow(e: QueueEntry, v1: Word, v2: Word)
    ensures NarrowToken(FreshToken(e.epoch, e.seqId, e.ir, v1, v2)) ==
            FreshToken(NarrowEpoch(e.epoch), NarrowSeq(e.seqId), e.ir, v1, v2)
  {}

  lemma SourceNarrow(cfg: Config, rows: Scoreboard, srcUse: bool, idx: RegIndex)
    ensures SelectSource(Hardware(cfg), NarrowRows(rows), srcUse, idx) == SelectSource(Ideal(cfg), rows, srcUse, idx)
  {
    hide NarrowRow, RdMatch;
    RowNarrow(rows.exe, srcUse, idx);
    RowNarrow(rows.mem, srcUse, idx);
    RowNarrow(rows.wb, srcUse, idx);
  }

  lemma OperandNarrow(cfg: Config, be: Backend, srcUse: bool, idx: RegIndex)
    ensures Operand(Hardware(cfg), NarrowBackend(be), srcUse, idx) == Operand(Ideal(cfg), be, srcUse, idx)
    ensures SelectSource(Hardware(cfg), NarrowRows(be.rows), srcUse, idx) == SelectSource(Ideal(cfg), be.rows, srcUse, idx)
  {
    hide ReadReg, NarrowToken, NarrowRows, SelectSource;
    TokenFieldsNarrow(be.mem);
    TokenFieldsNarrow(be.wb);
    SourceNarrow(cfg, be.rows, srcUse, idx);
  }

  lemma RowNarrow(r: Row, srcUse: bool, idx: RegIndex)
    ensures RdMatch(NarrowRow(r), srcUse, idx) == RdMatch(r, srcUse, idx)
    ensures NarrowRow(r).rdReady == r.rdReady && NarrowRow(r).valid == r.valid && NarrowRow(r).killed == r.killed
  {
    hide NarrowEpoch, NarrowSeq;
  }

  lemma HeadStaleNarrow(cfg: Config, s: Cpu)
    requires Inv(cfg, s)
    ensures HeadStale(NarrowFrontend(s.fe)) == HeadStale(s.fe)
  {
    hide Plus;
    StreamEpochs(s);
    if s.fe.queue != [] {
      assert Stream(s)[|BackLinks(s.be)|] == LinkOf(s.fe.queue[0]);
      EpochsDoNotAlias(s.fe.queue[0].epoch, s.fe.epoch);
    }
  }

  // ---- kill events: the 8-bit comparison is exact where it matters ------------------------------------

  /** Every comparison a kill makes: the two identities are in the same epoch only if their
      sequence identifiers are close. */
  ghost predicate Comparable(epoch: nat, seqId: nat, kill: KillEvent) {
    kill.Kill? ==>
      && -4 < epoch - kill.epoch < 4
      && (epoch == kill.epoch ==> -128 < seqId - kill.seqId < 128)
  }

  lemma KilledNarrow(valid: bool, epoch: nat, seqId: nat, kill: KillEvent)
    requires valid ==> Comparable(epoch, seqId, kill)
    ensures KilledByEvent(Wrapped, valid, NarrowEpoch(epoch), NarrowSeq(seqId), NarrowKill(kill)) ==
            KilledByEvent(Unbounded, valid, epoch, seqId, kill)
  {
    hide SeqAfter, NarrowSeq;
    if valid && kill.Kill? {
      if epoch == kill.epoch {
        SeqAfterExact(seqId, kill.seqId);
      } else {
        EpochsDiffer(epoch, kill.epoch);
      }
    }
  }

  lemma EpochsDiffer(a: nat, b: nat)
    requires a != b && -4 < a - b < 4
    ensures NarrowEpoch(a) != NarrowEpoch(b)
  {}

  lemma KillNarrow(t: Token, kill: KillEvent)
    requires t.Alive() ==> Comparable(t.epoch, t.seqId, kill)
    ensures KillTokenIfYounger(Wrapped, NarrowToken(t), NarrowKill(kill)) == NarrowToken(KillTokenIfYounger(Unbounded, t, kill))
  {
    hide KilledByEvent, Comparable, NarrowEpoch, NarrowSeq, NarrowKill;
    if t.Alive() {
      KilledNarrow(true, t.epoch, t.seqId, kill);
    } else if !t.valid {
      KilledNarrow(false, t.epoch, t.seqId, kill);
    }
  }

  lemma KillRowNarrow(r: Row, kill: KillEvent)
    requires r.valid && !r.killed ==> Comparable(r.epoch, r.seqId, kill)
    ensures KillRowIfYounger(Wrapped, NarrowRow(r), NarrowKill(kill)) == NarrowRow(KillRowIfYounger(Unbounded, r, kill))
  {
    hide KilledByEvent, Comparable, NarrowEpoch, NarrowSeq, NarrowKill;
    if r.valid && !r.killed {
      KilledNarrow(true, r.epoch, r.seqId, kill);
    } else if !r.valid {
      KilledNarrow(false, r.epoch, r.seqId, kill);
    }
  }

  lemma KillsComparable(cfg: Config, s: Cpu, input: Inputs)
    requires Inv(Ideal(cfg), s)
    ensures var kill := KillOf(s.be, input);
      && (s.be.mem.Alive() ==> Comparable(s.be.mem.epoch, s.be.mem.seqId, kill))
      && (s.be.exe.valid ==> Comparable(s.be.exe.epoch, s.be.exe.seqId, kill))
      && (Issues(Ideal(cfg), s, input) ==> kill == NoKill)
  {
    hide Plus, Mirrored, QueueOk, FetchOk, Stream, TakeTrap, MemStall, BranchTaken, NoHazard;
    FlushRedirects(s.be, input);
    KillShape(s.be, input);
    StreamEpochs(s);
    assert s.be.mem.Alive() ==> s.be.mem.epoch <= s.fe.epoch by {
      if s.be.mem.Alive() {
        StreamHead(s);
      }
    }
    if s.be.mem.Alive() && s.be.exe.valid {
      MemThenExe(Ideal(cfg), s);
    }
  }

  lemma StreamHead(s: Cpu)
    requires s.be.mem.Alive()
    ensures Stream(s) != [] && Stream(s)[0] == TokenLink(s.be.mem)
  {}

  lemma KillShape(be: Backend, input: Inputs)
    ensures KillOf(be, input).Kill? ==>
      || (be.mem.Alive() && KillOf(be, input) == Kill(be.mem.epoch, be.mem.seqId))
      || (be.exe.Alive() && KillOf(be, input) == Kill(be.exe.epoch, be.exe.seqId))
  {
    hide MemStall, AsyncCause, PreHalt, Taken;
  }

  // ---- one cycle ---------------------------------------------------------------------------------------

  lemma QueueNarrow(q: seq<QueueEntry>, e: QueueEntry)
    ensures NarrowQueue(q + [e]) == NarrowQueue(q) + [NarrowEntry(e)]
    ensures q != [] ==> NarrowQueue(q[1..]) == NarrowQueue(q)[1..]
  {
    hide NarrowEntry;
    assert NarrowQueue(q + [e]) == NarrowQueue(q) + [NarrowEntry(e)];
    if q != [] {
      assert NarrowQueue(q[1..]) == NarrowQueue(q)[1..];
    }
  }

  lemma DecodeNarrow(p: FetchPkt)
    ensures DecodeFetched(NarrowPkt(p)) == NarrowEntry(DecodeFetched(p))
  {
    hide NarrowEpoch, NarrowSeq, Decoder.Decode;
    assert NarrowPkt(p).pc == p.pc && NarrowPkt(p).inst == p.inst && NarrowPkt(p).error == p.error;
  }

  lemma NarrowNoFetch()
    ensures NarrowPkt(NoFetch) == NoFetch
  {}

  lemma PortsNarrow(cfg: Config, fe: Frontend, flush: bool)
    ensures ImemReqValid(Hardware(cfg), NarrowFrontend(fe), flush) == ImemReqValid(Ideal(cfg), fe, flush)
    ensures Pushes(Hardware(cfg), NarrowFrontend(fe), flush) == Pushes(Ideal(cfg), fe, flush)
  {
    hide NarrowEpoch, NarrowSeq;
  }

  lemma FetchAdvanceNarrow(cfg: Config, fe: Frontend, input: Inputs, redirect: Option<Word>)
    ensures FetchAdvance(Hardware(cfg), NarrowFrontend(fe), input, redirect) == NarrowFetch(FetchAdvance(Ideal(cfg), fe, input, redirect))
  {
    NarrowNoFetch();
    hide Plus, NarrowSeq, NarrowEpoch, ImemReqValid, NarrowPkt;
    PortsNarrow(cfg, fe, false);
    assert NarrowPkt(fe.fetch.out).valid == fe.fetch.out.valid by {
      PktValidNarrow(fe.fetch.out);
    }
  }

  lemma PktValidNarrow(p: FetchPkt)
    ensures NarrowPkt(p).valid == p.valid
  {}

  lemma FetchResponseNarrow(fe: Frontend, g: FetchRegs, input: Inputs, redirect: bool)
    requires fe.fetch.outstanding ==> fe.fetch.reqEpoch <= fe.epoch <= fe.fetch.reqEpoch + 2
    ensures FetchResponse(NarrowFrontend(fe), NarrowFetch(g), input, redirect) == NarrowFetch(FetchResponse(fe, g, input, redirect))
  {
    hide NarrowSeq, NarrowEpoch;
    if fe.fetch.outstanding {
      EpochsDoNotAlias(fe.fetch.reqEpoch, fe.epoch);
    }
  }

  lemma FetchNarrow(cfg: Config, fe: Frontend, input: Inputs, redirect: Option<Word>)
    requires fe.fetch.outstanding ==> fe.fetch.reqEpoch <= fe.epoch <= fe.fetch.reqEpoch + 2
    ensures FetchNext(Hardware(cfg), NarrowFrontend(fe), input, redirect) == NarrowFetch(FetchNext(Ideal(cfg), fe, input, redirect))
  {
    hide FetchAdvance, FetchResponse, NarrowFetch;
    FetchAdvanceNarrow(cfg, fe, input, redirect);
    FetchResponseNarrow(fe, FetchAdvance(Ideal(cfg), fe, input, redirect), input, redirect.Some?);
  }

  lemma QueueNextNarrow(cfg: Config, fe: Frontend, flush: bool, issues: bool)
    requires issues ==> fe.queue != []
    requires HeadStale(NarrowFrontend(fe)) == HeadStale(fe)
    ensures QueueNext(Hardware(cfg), NarrowFrontend(fe), flush, issues) == NarrowQueue(QueueNext(Ideal(cfg), fe, flush, issues))
  {
    hide NarrowEpoch, NarrowSeq, DecodeFetched, Pushes, NarrowPkt, NarrowEntry;
    PortsNarrow(cfg, fe, flush);
    DecodeNarrow(fe.fetch.out);
    var p := Popped(fe, issues);
    QueueNarrow(p, DecodeFetched(fe.fetch.out));
    QueueNarrow(fe.queue, DecodeFetched(fe.fetch.out));
    assert Popped(NarrowFrontend(fe), issues) == NarrowQueue(p);
    if !Pushes(Ideal(cfg), fe, flush) {
      assert QueueNext(Ideal(cfg), fe, flush, issues) == p;
      assert QueueNext(Hardware(cfg), NarrowFrontend(fe), flush, issues) == NarrowQueue(p);
    }
  }

  lemma FrontendNarrow(cfg: Config, s: Cpu, input: Inputs)
    requires Inv(Ideal(cfg), s)
    ensures Step(Hardware(cfg), Narrow(s), input).fe == NarrowFrontend(Step(Ideal(cfg), s, input).fe)
  {
    hide BackendNext, IssueToken, FetchNext, NarrowBackend, RedirectOf, NarrowEpoch, NarrowSeq, NextEpoch, NextSeq,
         DecodeFetched, HeadStale, Inv, QueueNext, ImemReqValid, NarrowQueue, NarrowFetch;
    SignalsNarrow(s.be, input);
    IssueNarrow(cfg, s, input);
    RequestLag(Ideal(cfg), s);
    FetchNarrow(cfg, s.fe, input, RedirectOf(s.be, input));
    NarrowNext(s.fe.epoch, s.fe.nextSeq);
    PortsNarrow(cfg, s.fe, RedirectOf(s.be, input).Some?);
    IssueTokenShape(Ideal(cfg), s, input);
    QueueNextNarrow(cfg, s.fe, RedirectOf(s.be, input).Some?, Issues(Ideal(cfg), s, input));
  }

  lemma RequestLag(cfg: Config, s: Cpu)
    requires Inv(cfg, s)
    ensures s.fe.fetch.outstanding ==> s.fe.fetch.reqEpoch <= s.fe.epoch <= s.fe.fetch.reqEpoch + 2
  {
    hide Plus;
    StreamEpochs(s);
    if s.fe.fetch.outstanding {
      assert Stream(s)[|Stream(s)| - 2] == Chains.Link(s.fe.fetch.reqEpoch, s.fe.fetch.reqSeq, s.fe.fetch.reqPc);
    }
  }

  lemma NewRowNarrow(e: QueueEntry)
    ensures KillRowIfYounger(Wrapped, RowFromIr(NarrowEntry(e)), NoKill) ==
            NarrowRow(KillRowIfYounger(Unbounded, RowFromIr(e), NoKill))
    ensures NarrowRow(NoRow) == NoRow
  {}

  lemma ReadyNarrow(r: Row, ready: bool)
    ensures NarrowRow(r).(rdReady := ready) == NarrowRow(r.(rdReady := ready))
    ensures NarrowRow(r).rdReady == r.rdReady
  {}

  lemma RdReadyNarrow(be: Backend, input: Inputs)
    ensures var nb := NarrowBackend(be);
      ExeRdReady(nb.exe) == ExeRdReady(be.exe) && MemRdReady(nb, input) == MemRdReady(be, input)
  {
    hide NarrowToken, NarrowRows;
    TokenFieldsNarrow(be.mem);
    TokenFieldsNarrow(be.exe);
  }

  lemma ShiftedRowNarrow(r: Row, kill: KillEvent, ready: bool)
    requires r.valid && !r.killed ==> Comparable(r.epoch, r.seqId, kill)
    ensures KillRowIfYounger(Wrapped, NarrowRow(r), NarrowKill(kill)).(rdReady := NarrowRow(r).rdReady || ready) ==
            NarrowRow(KillRowIfYounger(Unbounded, r, kill).(rdReady := r.rdReady || ready))
  {
    hide NarrowRow, KillRowIfYounger, Comparable, NarrowKill;
    KillRowNarrow(r, kill);
    ReadyNarrow(KillRowIfYounger(Unbounded, r, kill), r.rdReady || ready);
    ReadyNarrow(r, true);
  }

  lemma RowsNarrow(cfg: Config, s: Cpu, input: Inputs)
    requires Inv(Ideal(cfg), s)
    ensures RowsNext(Hardware(cfg), Narrow(s), input) == NarrowRows(RowsNext(Ideal(cfg), s, input))
  {
    hide NarrowToken, NarrowRow, NarrowEntry, MemStall, KillOf, Comparable, KillRowIfYounger, Issues, Inv, IssueToken,
         RowFromIr, ExeRdReady, MemRdReady, NarrowKill;
    IssueTokenShape(Ideal(cfg), s, input);
    var kill := KillOf(s.be, input);
    NewRowNarrow(QueueEntry(0, 0, NoIr));
    RdReadyNarrow(s.be, input);
    SignalsNarrow(s.be, input);
    IssueNarrow(cfg, s, input);
    KillsComparable(cfg, s, input);
    RowsComparable(cfg, s, input);
    KillRowNarrow(s.be.rows.exe, kill);
    KillRowNarrow(s.be.rows.mem, kill);
    ShiftedRowNarrow(s.be.rows.exe, kill, ExeRdReady(s.be.exe));
    ShiftedRowNarrow(s.be.rows.mem, kill, MemRdReady(s.be, input));
    if s.fe.queue != [] {
      NewRowNarrow(s.fe.queue[0]);
    }
    NoKillStays();
  }

  lemma NoKillStays()
    ensures NarrowKill(NoKill) == NoKill
  {}

  lemma RowsComparable(cfg: Config, s: Cpu, input: Inputs)
    requires Inv(Ideal(cfg), s)
    ensures var rows, kill := s.be.rows, KillOf(s.be, input);
      && (rows.exe.valid && !rows.exe.killed ==> Comparable(rows.exe.epoch, rows.exe.seqId, kill))
      && (rows.mem.valid && !rows.mem.killed ==> Comparable(rows.mem.epoch, rows.mem.seqId, kill))
  {
    hide Comparable, KillOf, EpochsOk, Stream, Chains.Chain, WbOk, TokensOk, TrapDrained, FetchOk, QueueOk;
    KillsComparable(cfg, s, input);
  }

  lemma BackendNarrow(cfg: Config, s: Cpu, input: Inputs)
    requires Inv(Ideal(cfg), s)
    ensures Step(Hardware(cfg), Narrow(s), input).be == NarrowBackend(Step(Ideal(cfg), s, input).be)
  {
    hide FrontendNext, NarrowToken, NarrowRows, MemStall, KillOf, Comparable, KillTokenIfYounger, Issues, IssueToken,
         NarrowKill, RowsNext, CsrsNext, RegsNext, DmemRequest, Inv, MemNext, WbNext, NarrowFrontend;
    SignalsNarrow(s.be, input);
    StateNarrow(s.be, input);
    IssueNarrow(cfg, s, input);
    RowsNarrow(cfg, s, input);
    TokensNarrow(cfg, s, input);
    TokenFieldsNarrow(s.be.wb);
    NarrowBubble();
  }

  lemma TokensNarrow(cfg: Config, s: Cpu, input: Inputs)
    requires Inv(Ideal(cfg), s)
    ensures MemNext(Hardware(cfg), NarrowBackend(s.be), input) == NarrowToken(MemNext(Ideal(cfg), s.be, input))
    ensures WbNext(Hardware(cfg), NarrowBackend(s.be), input) == NarrowToken(WbNext(Ideal(cfg), s.be, input))
    ensures KillTokenIfYounger(Wrapped, NarrowToken(IssueToken(Ideal(cfg), s, input)), NarrowKill(KillOf(s.be, input))) ==
            NarrowToken(KillTokenIfYounger(Unbounded, IssueToken(Ideal(cfg), s, input), KillOf(s.be, input)))
  {
    hide NarrowToken, MemStall, KillOf, Comparable, KillTokenIfYounger, Issues, IssueToken, NarrowKill, ExeOut, MemOut,
         TakeTrap, EpochsOk, Stream, Chains.Chain, WbOk, Mirrored;
    var mip, trap := MipOf(input), TakeTrap(s.be.mem, s.be.csrs, MipOf(input), s.be.lastTrap);
    SignalsNarrow(s.be, input);
    KillsComparable(cfg, s, input);
    IssueTokenShape(Ideal(cfg), s, input);
    ExeKeeps(s.be.exe, s.be.csrs, mip, trap);
    MemKeeps(s.be.mem, s.be.csrs, mip, s.be.lastTrap, s.be.reqSent, input.dmemResp);
    ExeNarrow(s.be.exe, s.be.csrs, mip, trap);
    MemNarrow(s.be.mem, s.be.csrs, mip, s.be.lastTrap, s.be.reqSent, input.dmemResp);
    KillNarrow(ExeOut(s.be.exe, s.be.csrs, mip, trap), KillOf(s.be, input));
    KillNarrow(MemOut(s.be.mem, s.be.csrs, mip, s.be.lastTrap, s.be.reqSent, input.dmemResp), KillOf(s.be, input));
    NoKillComparable(IssueToken(Ideal(cfg), s, input));
    KillNarrow(IssueToken(Ideal(cfg), s, input), KillOf(s.be, input));
  }

  lemma NoKillComparable(t: Token)
    ensures Comparable(t.epoch, t.seqId, NoKill)
  {}

  /** One cycle of the hardware is one cycle of the machine with unbounded identities. */
  lemma StepNarrow(cfg: Config, s: Cpu, input: Inputs)
    requires Inv(Ideal(cfg), s)
    ensures Step(Hardware(cfg), Narrow(s), input) == Narrow(Step(Ideal(cfg), s, input))
  {
    hide Step, NarrowFrontend, NarrowBackend;
    FrontendNarrow(cfg, s, input);
    BackendNarrow(cfg, s, input);
  }
}
