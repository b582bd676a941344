/** What every reachable state of the core satisfies, whatever the program, the interrupt wires,
    the memory latencies and even the memory contents are. */
module CoreInv {
  import opened Words
  import opened Uarch
  import opened Datapath
  import opened Core
  import opened Chains
  import opened FrontendInv
  import Decoder

  function TokenLink(t: Token): Link { Link(t.epoch, t.seqId, t.ir.pc) }

  function TokenLinks(t: Token): seq<Link> { if t.Alive() then [TokenLink(t)] else [] }

  function BackLinks(be: Backend): seq<Link> { TokenLinks(be.mem) + TokenLinks(be.exe) }

  /** The live stream: MEM, EXE, the queue, the fetch in progress and the next request. */
  function Stream(s: Cpu): seq<Link> { BackLinks(s.be) + FrontLinks(s.fe) }

  // ---- the scoreboard mirrors the token registers ---------------------------------------------

  function MirrorExe(t: Token): Row {
    if t.valid then Row(true, t.epoch, t.seqId, t.killed, Writes(t.ir), t.ir.rd, false) else NoRow
  }

  /** In MEM the result is ready unless the token is a load. */
  function MirrorMem(t: Token): Row {
    if t.valid
    then Row(true, t.epoch, t.seqId, t.killed, Writes(t.ir), t.ir.rd, t.ir.rdToWrite && !IsLoad(t.ir))
    else NoRow
  }

  /** In WB the result of whatever neither trapped nor halted is ready. */
  ghost predicate MirrorsWb(row: Row, t: Token) {
    && row.valid == t.valid
    && (t.Alive() && !t.trapPending && !t.halt ==> row.rdReady)
    && (t.valid ==> row == Row(true, t.epoch, t.seqId, t.killed, Writes(t.ir), t.ir.rd, row.rdReady))
  }

  ghost predicate Mirrored(be: Backend) {
    && be.rows.exe == MirrorExe(be.exe)
    && be.rows.mem == MirrorMem(be.mem)
    && MirrorsWb(be.rows.wb, be.wb)
  }

  // ---- tokens ---------------------------------------------------------------------------------------

  /** Only MEM and WB can hold killed tokens; a request is only ever out for a live memory access. */
  ghost predicate TokensOk(be: Backend) {
    && (be.exe.valid ==> !be.exe.killed && !be.exe.trapPending && !be.exe.halt && be.exe.haltKind == HaltNone)
    && (be.exe.valid ==> Decoder.WellFormed(be.exe.ir))
    && (be.mem.valid ==> Decoder.WellFormed(be.mem.ir) && !be.mem.trapPending)
    && (be.reqSent ==> be.mem.Alive() && IsMem(be.mem.ir) && !PreHalt(be.mem))
  }

  /** How far the backend's epochs may lag: only a transfer that has just left EXE lags, and
      nothing follows it yet. */
  ghost predicate EpochsOk(s: Cpu) {
    var be, now := s.be, s.fe.epoch;
    && (be.exe.valid ==> be.exe.epoch == now)
    && (be.mem.Alive() ==> now <= be.mem.epoch + 1)
    && (be.mem.Alive() && be.mem.epoch != now ==> !be.exe.valid && !IsMem(be.mem.ir))
    && (forall i :: 0 <= i < |Stream(s)| ==> now <= Stream(s)[i].epoch + 2)
  }

  /** Behind a committing trap everything is dead; otherwise WB and MEM hold successive words. */
  ghost predicate WbOk(be: Backend) {
    && (be.wb.Alive() && be.wb.trapPending ==> !be.mem.Alive() && !be.exe.valid)
    && (be.wb.Alive() && be.mem.Alive() ==> Plus(be.wb.ir.pc, 4) == be.mem.ir.pc)
  }

  /** While a trap commits, the queue holds nothing of the handler yet. */
  ghost predicate TrapDrained(s: Cpu) {
    s.be.wb.Alive() && s.be.wb.trapPending ==>
      forall i :: 0 <= i < |s.fe.queue| ==> s.fe.queue[i].epoch != s.fe.epoch
  }

  ghost predicate Inv(cfg: Config, s: Cpu) {
    && cfg.Valid()
    && FetchOk(s.fe) && QueueOk(cfg, s.fe)
    && Mirrored(s.be) && TokensOk(s.be) && EpochsOk(s) && WbOk(s.be) && TrapDrained(s)
    && Chain(Stream(s))
  }

  lemma InvReset(cfg: Config)
    requires cfg.Valid()
    ensures Inv(cfg, Reset(cfg))
  {
    var s := Reset(cfg);
    assert Stream(s) == [Link(0, 0, cfg.resetPc)];
  }

  // ---- consequences --------------------------------------------------------------------------------------

  lemma StreamEnds(s: Cpu)
    ensures Stream(s) != [] && Stream(s)[|Stream(s)| - 1] == NextLink(s.fe)
  {}

  /** Nothing in the stream is ahead of the present epoch. */
  lemma StreamEpochs(s: Cpu)
    requires Chain(Stream(s))
    ensures forall i :: 0 <= i < |Stream(s)| ==> Stream(s)[i].epoch <= s.fe.epoch
    ensures s.fe.fetch.outstanding && !s.fe.fetch.out.valid ==> s.fe.fetch.reqEpoch <= s.fe.epoch
  {
    ChainSortedAll(Stream(s));
    StreamEnds(s);
    var xs := Stream(s);
    if s.fe.fetch.outstanding && !s.fe.fetch.out.valid {
      assert xs[|xs| - 2] == Link(s.fe.fetch.reqEpoch, s.fe.fetch.reqSeq, s.fe.fetch.reqPc);
    }
  }

  /** A live EXE token, and a live MEM token of the present epoch, are followed only by
      instructions of that epoch; in particular the queue head is then not stale. */
  lemma NoStaleBehind(cfg: Config, s: Cpu)
    requires Inv(cfg, s)
    requires s.be.exe.valid || (s.be.mem.Alive() && s.be.mem.epoch == s.fe.epoch)
    ensures !HeadStale(s.fe)
    ensures s.fe.fetch.outstanding ==> s.fe.fetch.reqEpoch == s.fe.epoch
  {
    hide Plus;
    StreamEpochs(s);
    ChainSortedAll(Stream(s));
    var xs := Stream(s);
    var n := |BackLinks(s.be)|;
    assert xs[n - 1].epoch == s.fe.epoch;
    if s.fe.queue != [] {
      assert xs[n] == LinkOf(s.fe.queue[0]);
    }
    if s.fe.fetch.outstanding {
      assert xs[|xs| - 2] == Link(s.fe.fetch.reqEpoch, s.fe.fetch.reqSeq, s.fe.fetch.reqPc);
    }
  }

  /** EXE and MEM, both live, hold successive instructions of the present epoch. */
  lemma MemThenExe(cfg: Config, s: Cpu)
    requires Inv(cfg, s) && s.be.mem.Alive() && s.be.exe.valid
    ensures Linked(TokenLink(s.be.mem), TokenLink(s.be.exe))
    ensures s.be.mem.epoch == s.be.exe.epoch && s.be.mem.seqId + 1 == s.be.exe.seqId
  {
    hide Plus, Mirrored, WbOk, TrapDrained, FetchOk, QueueOk, FrontLinks;
    assert Stream(s) == [TokenLink(s.be.mem)] + ([TokenLink(s.be.exe)] + FrontLinks(s.fe));
    ChainSplit([TokenLink(s.be.mem)], [TokenLink(s.be.exe)] + FrontLinks(s.fe));
  }

  /** A kill strikes exactly the token behind: MEM's trap kills EXE's token, EXE's redirect kills
      nothing, and an instruction being issued is never killed. */
  lemma KillsExactly(cfg: Config, s: Cpu, input: Inputs)
    requires Inv(cfg, s) && cfg.ids.Unbounded?
    ensures var kill := KillOf(s.be, input);
      && (s.be.mem.Alive() ==> !KilledByEvent(cfg.ids, true, s.be.mem.epoch, s.be.mem.seqId, kill))
      && (s.be.exe.valid ==>
            (KilledByEvent(cfg.ids, true, s.be.exe.epoch, s.be.exe.seqId, kill) <==> TrapFlush(s.be, input)))
      && (Issues(cfg, s, input) ==> kill == NoKill)
  {
    hide Plus, TransferTarget, NoHazard;
    if s.be.mem.Alive() && s.be.exe.valid {
      MemThenExe(cfg, s);
    }
  }

  // ---- one cycle: tokens ---------------------------------------------------------------------------------

  /** `x` is the same instruction as `t`, further down the pipeline. */
  ghost predicate SameInstr(x: Token, t: Token) {
    && x.valid == t.valid && x.epoch == t.epoch && x.seqId == t.seqId
    && x.ir.pc == t.ir.pc && x.ir.fu == t.ir.fu && x.ir.sysKind == t.ir.sysKind
    && x.ir.rd == t.ir.rd && x.ir.rdToWrite == t.ir.rdToWrite
  }

  lemma ExeKeeps(t: Token, c: CsrRegs, mip: Word, trap: bool)
    ensures SameInstr(ExeOut(t, c, mip, trap), t)
    ensures ExeOut(t, c, mip, trap).killed == t.killed && ExeOut(t, c, mip, trap).trapPending == t.trapPending
  {
    hide Plus, Flag, ReadCsr, AluResult, ActualTarget, Taken, CsrIllegal, Opcode;
  }

  lemma MemKeeps(t: Token, c: CsrRegs, mip: Word, lastTrap: bool, reqSent: bool, resp: MemResp)
    ensures var x := MemOut(t, c, mip, lastTrap, reqSent, resp);
      SameInstr(x, t) && x.killed == t.killed && x.trapPending == (t.trapPending || TakeTrap(t, c, mip, lastTrap))
  {
    hide LsuBe, LoadValue, TakeTrap, TakeHalt, TrapCause, DoubleTrap, PreHaltKind;
  }

  /** How tokens move: held by a stall, or one stage on, where a trap kills the one from EXE. */
  lemma TokensMove(cfg: Config, s: Cpu, input: Inputs)
    requires Inv(cfg, s) && cfg.ids.Unbounded?
    ensures var next := Step(cfg, s, input).be;
      if MemStall(s.be, input) then
        next.exe == s.be.exe && next.mem == s.be.mem && next.wb == Bubble && s.be.mem.Alive()
      else
        && next.exe == IssueToken(cfg, s, input)
        && SameInstr(next.mem, s.be.exe) && SameInstr(next.wb, s.be.mem)
        && (s.be.exe.valid ==> next.mem.killed == TrapFlush(s.be, input) && !next.mem.trapPending)
        && (s.be.mem.valid ==> next.wb.killed == s.be.mem.killed && next.wb.trapPending == TrapFlush(s.be, input))
    ensures MemStall(s.be, input) ==> KillOf(s.be, input) == NoKill
    ensures TrapFlush(s.be, input) ==> s.be.mem.Alive()
  {
    hide Plus, ExeOut, MemOut, IssueToken, TransferTarget, PreHalt, AsyncCause, CsrsNext, RowsNext, FrontendNext,
         RegsNext, DmemReq, Chain, Stream, Mirrored, QueueOk, FetchOk, TrapDrained, WbOk, MtvecBase, LsuMisaligned,
         Decoder.WellFormed, Taken, Issues;
    var mip, trap := MipOf(input), TakeTrap(s.be.mem, s.be.csrs, MipOf(input), s.be.lastTrap);
    ExeKeeps(s.be.exe, s.be.csrs, mip, trap);
    MemKeeps(s.be.mem, s.be.csrs, mip, s.be.lastTrap, s.be.reqSent, input.dmemResp);
    KillsExactly(cfg, s, input);
    IssueTokenShape(cfg, s, input);
  }

  lemma IssueTokenShape(cfg: Config, s: Cpu, input: Inputs)
    ensures var t := IssueToken(cfg, s, input);
      && t.valid == Issues(cfg, s, input)
      && !t.killed && !t.trapPending && !t.halt && t.haltKind == HaltNone
      && (t.valid ==> s.fe.queue != [] && s.fe.queue[0].epoch == s.fe.epoch &&
                      t.epoch == s.fe.queue[0].epoch && t.seqId == s.fe.queue[0].seqId && t.ir == s.fe.queue[0].ir)
      && (Redirect(s.be, input) || MemStall(s.be, input) ==> !t.valid)
  {
    hide Operand, NoHazard, MemStall, KillOf;
  }

  lemma TokensOkNext(cfg: Config, s: Cpu, input: Inputs)
    requires Inv(cfg, s) && cfg.ids.Unbounded?
    ensures TokensOk(Step(cfg, s, input).be)
  {
    hide Plus, ExeOut, MemOut, IssueToken, MirrorExe, MirrorMem, MirrorsWb, Chain, CsrsNext, RowsNext, FrontendNext,
         AsyncCause, LsuBe, LsuWdata, MemMisaligned, LsuMisaligned, KillOf, MemNext, WbNext;
    TokensMove(cfg, s, input);
    IssueTokenShape(cfg, s, input);
  }

  lemma WbOkNext(cfg: Config, s: Cpu, input: Inputs)
    requires Inv(cfg, s) && cfg.ids.Unbounded?
    ensures WbOk(Step(cfg, s, input).be)
  {
    hide Plus, Step, IssueToken, MirrorExe, MirrorMem, MirrorsWb, MemStall, TakeTrap, KillOf;
    TokensMove(cfg, s, input);
    IssueTokenShape(cfg, s, input);
    assert TrapFlush(s.be, input) ==> Redirect(s.be, input) by {
      FlushRedirects(s.be, input);
    }
    if s.be.mem.Alive() && s.be.exe.valid {
      MemThenExe(cfg, s);
    }
  }

  lemma FlushRedirects(be: Backend, input: Inputs)
    ensures TrapFlush(be, input) ==> Redirect(be, input) && RedirectPc(be, input) == MtvecBase(be.csrs)
    ensures Redirect(be, input) ==> TrapFlush(be, input) || ExeRedirect(be, input)
    ensures Redirect(be, input) ==> !MemStall(be, input)
  {
    hide MemStall, TakeTrap, AlignDown, Transfers, TransferTarget;
  }

  /** What leaves MEM without a trap or a halt leaves it with its result. */
  lemma LeavesWithResult(t: Token, c: CsrRegs, mip: Word, lastTrap: bool, reqSent: bool, resp: MemResp)
    requires t.Alive() && !Stall(t, c, mip, lastTrap, reqSent, resp)
    ensures var x := MemOut(t, c, mip, lastTrap, reqSent, resp);
      !x.trapPending && !x.halt && IsLoad(t.ir) ==> reqSent && resp.valid
  {
    hide AsyncCause, LsuMisaligned, LsuBe, LoadValue, MtvecBase, TrapCause, PreHaltKind;
  }

  lemma KillKeeps(ids: IdMode, t: Token, kill: KillEvent)
    ensures var x := KillTokenIfYounger(ids, t, kill);
      x.valid == t.valid && (x.Alive() ==> t.Alive()) && x.trapPending == t.trapPending && x.halt == t.halt
  {
    hide KilledByEvent;
  }

  lemma LeavesReady(cfg: Config, s: Cpu, input: Inputs)
    requires !MemStall(s.be, input)
    ensures var wb := Step(cfg, s, input).be.wb;
      wb.Alive() && !wb.trapPending && !wb.halt ==> MemRdReady(s.be, input)
  {
    hide CsrsNext, FrontendNext, RowsNext, RegsNext, MemNext, IssueToken, Stall, MemOut, KillTokenIfYounger, KillOf,
         DmemRequest;
    var be := s.be;
    var out := MemOut(be.mem, be.csrs, MipOf(input), be.lastTrap, be.reqSent, input.dmemResp);
    MemKeeps(be.mem, be.csrs, MipOf(input), be.lastTrap, be.reqSent, input.dmemResp);
    KillKeeps(cfg.ids, out, KillOf(be, input));
    if be.mem.Alive() {
      LeavesWithResult(be.mem, be.csrs, MipOf(input), be.lastTrap, be.reqSent, input.dmemResp);
    }
  }

  lemma MirroredNext(cfg: Config, s: Cpu, input: Inputs)
    requires Inv(cfg, s) && cfg.ids.Unbounded?
    ensures Mirrored(Step(cfg, s, input).be)
  {
    hide Plus, ExeOut, MemOut, Chain, CsrsNext, FrontendNext, TakeTrap, DmemReq, MemStall, TrapFlush, Issues, Operand,
         NoHazard, MemNext, WbNext, MemRdReady, Decoder.WellFormed;
    TokensMove(cfg, s, input);
    KillsExactly(cfg, s, input);
    if !MemStall(s.be, input) {
      LeavesReady(cfg, s, input);
    }
  }

  // ---- one cycle: the stream ---------------------------------------------------------------------------------

  /** The part of the stream that has left the fetch registers. */
  function Body(s: Cpu): seq<Link> { BackLinks(s.be) + QueueLinks(s.fe.queue) }

  lemma StreamParts(s: Cpu)
    ensures Stream(s) == Body(s) + Tail(s.fe)
  {}

  /** The body of the stream after the cycle, before a fetched instruction is appended. */
  function BodyAfter(cfg: Config, s: Cpu, input: Inputs): seq<Link> {
    BackLinks(Step(cfg, s, input).be) + QueueLinks(Popped(s.fe, Issues(cfg, s, input)))
  }

  lemma QueueHead(cfg: Config, s: Cpu, input: Inputs)
    ensures var q := QueueLinks(s.fe.queue);
      var issued := TokenLinks(IssueToken(cfg, s, input));
      var rest := QueueLinks(Popped(s.fe, Issues(cfg, s, input)));
      && (Issues(cfg, s, input) || !HeadStale(s.fe) ==> issued + rest == q)
      && (!Issues(cfg, s, input) && HeadStale(s.fe) ==> issued == [] && q != [] && rest == q[1..])
  {
    hide Plus, IssueToken, Issues;
    IssueTokenShape(cfg, s, input);
    if s.fe.queue != [] {
      QueueLinksPop(s.fe.queue);
    }
  }

  lemma BodyHeld(cfg: Config, s: Cpu, input: Inputs)
    requires Inv(cfg, s) && cfg.ids.Unbounded? && MemStall(s.be, input)
    ensures BodyAfter(cfg, s, input) == Body(s)
  {
    assert IsMem(s.be.mem.ir);
    hide Plus, Step, IssueToken, MirrorExe, MirrorMem, MirrorsWb, TakeTrap, KillOf, Issues, Decoder.WellFormed, Chain,
         MemStall;
    TokensMove(cfg, s, input);
    IssueTokenShape(cfg, s, input);
    NoStaleBehind(cfg, s);
    QueueHead(cfg, s, input);
  }

  lemma BackLinksMove(cfg: Config, s: Cpu, input: Inputs)
    requires Inv(cfg, s) && cfg.ids.Unbounded? && !MemStall(s.be, input)
    ensures BackLinks(Step(cfg, s, input).be) ==
            (if TrapFlush(s.be, input) then [] else TokenLinks(s.be.exe)) + TokenLinks(IssueToken(cfg, s, input))
    ensures TrapFlush(s.be, input) ==> TokenLinks(IssueToken(cfg, s, input)) == []
  {
    hide Plus, Step, IssueToken, MirrorExe, MirrorMem, MirrorsWb, TakeTrap, KillOf, Issues, Decoder.WellFormed, Chain,
         MemStall;
    TokensMove(cfg, s, input);
    IssueTokenShape(cfg, s, input);
    FlushRedirects(s.be, input);
    if TrapFlush(s.be, input) {
      assert TokenLinks(Step(cfg, s, input).be.mem) == [];
    } else {
      assert TokenLinks(Step(cfg, s, input).be.mem) == TokenLinks(s.be.exe);
    }
  }

  /** Tokens and queue entries move along the body of the stream, which only loses its front. */
  lemma BodyMoves(cfg: Config, s: Cpu, input: Inputs) returns (k: nat)
    requires Inv(cfg, s) && cfg.ids.Unbounded?
    ensures k <= |Body(s)|
    ensures BodyAfter(cfg, s, input) == Body(s)[k..]
    ensures ExeRedirect(s.be, input) ==> s.be.exe.valid && k == |TokenLinks(s.be.mem)|
    ensures MemStall(s.be, input) ==> k == 0
  {
    hide Plus, Step, IssueToken, MirrorExe, MirrorMem, MirrorsWb, TakeTrap, KillOf, Issues, Decoder.WellFormed, Chain,
         MemStall;
    hide BackLinks, Popped, HeadStale;
    IssueTokenShape(cfg, s, input);
    if MemStall(s.be, input) {
      BodyHeld(cfg, s, input);
      k := 0;
    } else {
      BackLinksMove(cfg, s, input);
      QueueHead(cfg, s, input);
      k := BodySuffix(TokenLinks(s.be.mem), TokenLinks(s.be.exe), QueueLinks(s.fe.queue),
                      TokenLinks(IssueToken(cfg, s, input)), QueueLinks(Popped(s.fe, Issues(cfg, s, input))),
                      TrapFlush(s.be, input)) by {
        if s.be.exe.valid {
          NoStaleBehind(cfg, s);
        }
      }
      BackIs(s.be);
    }
  }

  lemma BackIs(be: Backend)
    ensures BackLinks(be) == TokenLinks(be.mem) + TokenLinks(be.exe)
  {}

  /** The arithmetic of `BodyMoves`: `issued` and `rest` make up the queue, or lost its head. */
  lemma BodySuffix(mem: seq<Link>, exe: seq<Link>, q: seq<Link>, issued: seq<Link>, rest: seq<Link>, flush: bool)
    returns (k: nat)
    requires issued + rest == q || (exe == [] && issued == [] && q != [] && rest == q[1..])
    || (flush && issued == [] && q != [] && rest == q[1..])
    requires flush ==> issued == []
    ensures k <= |mem + exe + q|
    ensures ((if flush then [] else exe) + issued) + rest == (mem + exe + q)[k..]
    ensures !flush && exe != [] ==> k == |mem|
  {
    k := if issued + rest == q then |mem| + (if flush then |exe| else 0) else |mem| + |exe| + 1;
  }

  /** Behind any body, the tail stays a chain when it moves. */
  lemma ChainTail(xs: seq<Link>, fe: Frontend, move: TailMove)
    requires Chain(xs + Tail(fe)) && FetchOk(fe)
    requires move == DroppedStale ==> fe.fetch.outstanding && fe.fetch.reqEpoch < fe.epoch
    ensures Chain(xs + TailAfter(fe, move))
  {
    hide Plus;
    var z := NextLink(fe);
    match move
    case Same =>
    case Requested =>
      var z' := Link(fe.epoch, fe.nextSeq + 1, Plus(fe.fetch.pc, 4));
      ChainJoin(xs + Tail(fe), [z']);
      assert (xs + Tail(fe)) + [z'] == xs + TailAfter(fe, move);
    case DroppedStale =>
      assert xs + Tail(fe) == (xs + FetchLinks(fe.fetch)) + [z];
      ChainSplit(xs + FetchLinks(fe.fetch), [z]);
      ChainSortedAll(xs + FetchLinks(fe.fetch));
      ChainSplit(xs, FetchLinks(fe.fetch));
      if xs != [] {
        var ys := xs + FetchLinks(fe.fetch);
        assert ys[|xs| - 1].epoch <= ys[|xs|].epoch;
      }
      ChainFresh(xs, z);
  }

  lemma ChainSuffix(xs: seq<Link>, ys: seq<Link>, k: nat)
    requires k <= |xs| && Chain(xs + ys)
    ensures Chain(xs[k..] + ys)
  {
    assert xs + ys == xs[..k] + (xs[k..] + ys);
    ChainSplit(xs[..k], xs[k..] + ys);
  }

  /** The stream after a cycle, by parts: without a redirect its tail moves; a redirect ends it
      with the target in a new epoch. */
  lemma StreamAfter(cfg: Config, s: Cpu, input: Inputs)
    requires Inv(cfg, s) && cfg.ids.Unbounded?
    ensures var next := Step(cfg, s, input);
      if Redirect(s.be, input) then
        && next.fe.epoch == s.fe.epoch + 1
        && Stream(next) == BodyAfter(cfg, s, input) +
                           (if next.fe.fetch.outstanding then FetchLinks(s.fe.fetch) else []) +
                           [Link(s.fe.epoch + 1, s.fe.nextSeq, RedirectPc(s.be, input))]
      else
        && next.fe.epoch == s.fe.epoch
        && Stream(next) == BodyAfter(cfg, s, input) + TailAfter(s.fe, MoveOf(cfg, s.fe, input))
  {
    hide Plus, FrontendNext, BackendNext, Tail, TailAfter, MoveOf, BackLinks, FetchLinks, KillOf, RedirectPc, Issues,
         QueueLinks, Popped;
    IssueTokenShape(cfg, s, input);
    var issues := Issues(cfg, s, input);
    if Redirect(s.be, input) {
      StreamRedirected(cfg, s.fe, input, RedirectPc(s.be, input));
    } else {
      StreamFlows(cfg, s.fe, input, issues);
      EpochKept(cfg, s.fe, input, issues);
    }
  }

  lemma EpochKept(cfg: Config, fe: Frontend, input: Inputs, issues: bool)
    requires issues ==> fe.queue != []
    ensures FrontendNext(cfg, fe, input, None, issues).epoch == fe.epoch
  {
    hide FetchNext, QueueNext;
  }

  lemma StreamNext(cfg: Config, s: Cpu, input: Inputs)
    requires Inv(cfg, s) && cfg.ids.Unbounded?
    ensures Chain(Stream(Step(cfg, s, input)))
  {
    hide Plus, Step, BodyAfter, RedirectPc, Redirect, BackLinks, Mirrored, TokensOk, EpochsOk, WbOk, QueueOk;
    StreamAfter(cfg, s, input);
    var k := BodyMoves(cfg, s, input);
    StreamParts(s);
    StreamEpochs(s);
    ChainSuffix(Body(s), Tail(s.fe), k);
    var body := Body(s)[k..];
    if Redirect(s.be, input) {
      var z := Link(s.fe.epoch + 1, s.fe.nextSeq, RedirectPc(s.be, input));
      var o := if Step(cfg, s, input).fe.fetch.outstanding then FetchLinks(s.fe.fetch) else [];
      RedirectedChain(body, s.fe, o, z);
    } else {
      var move := MoveOf(cfg, s.fe, input);
      ChainTail(body, s.fe, move);
    }
  }

  lemma RedirectedChain(body: seq<Link>, fe: Frontend, o: seq<Link>, z: Link)
    requires Chain(body + Tail(fe)) && (o == FetchLinks(fe.fetch) || o == [])
    requires z.epoch == fe.epoch + 1
    ensures Chain(body + o + [z])
  {
    hide Plus;
    ChainSortedAll(body + Tail(fe));
    assert body + Tail(fe) == (body + FetchLinks(fe.fetch)) + [NextLink(fe)];
    ChainSplit(body + FetchLinks(fe.fetch), [NextLink(fe)]);
    ChainSplit(body, FetchLinks(fe.fetch));
    var ys := body + o;
    assert o == [] ==> ys == body;
    if ys != [] {
      assert (body + Tail(fe))[|ys| - 1] == ys[|ys| - 1];
    }
    ChainFresh(ys, z);
  }

  /** A lower bound on the epochs of what a redirect leaves in the stream. */
  lemma RedirectLag(cfg: Config, s: Cpu, input: Inputs, k: nat)
    requires Inv(cfg, s) && cfg.ids.Unbounded? && Redirect(s.be, input)
    requires k <= |Body(s)|
    requires ExeRedirect(s.be, input) ==> k == |TokenLinks(s.be.mem)|
    ensures forall i :: k <= i < |Stream(s)| ==> s.fe.epoch <= Stream(s)[i].epoch + 1
  {
    hide Plus, Step, Mirrored, WbOk, QueueOk, FrontLinks, MemStall, TakeTrap, KillOf;
    ChainSortedAll(Stream(s));
    FlushRedirects(s.be, input);
    TokensMove(cfg, s, input);
    if TrapFlush(s.be, input) {
      assert Stream(s)[0] == TokenLink(s.be.mem);
    } else {
      assert s.be.exe.Alive();
      assert Stream(s)[k] == TokenLink(s.be.exe);
    }
  }

  lemma EpochsOkNext(cfg: Config, s: Cpu, input: Inputs)
    requires Inv(cfg, s) && cfg.ids.Unbounded?
    ensures EpochsOk(Step(cfg, s, input))
  {
    TokenEpochsNext(cfg, s, input);
    StreamLagNext(cfg, s, input);
    hide Step, Stream, Inv;
    var next := Step(cfg, s, input);
    forall i | 0 <= i < |Stream(next)|
      ensures next.fe.epoch <= Stream(next)[i].epoch + 2
    {}
  }

  lemma TokenEpochsNext(cfg: Config, s: Cpu, input: Inputs)
    requires Inv(cfg, s) && cfg.ids.Unbounded?
    ensures var next := Step(cfg, s, input);
      var be, now := next.be, next.fe.epoch;
      && (be.exe.valid ==> be.exe.epoch == now)
      && (be.mem.Alive() ==> now <= be.mem.epoch + 1)
      && (be.mem.Alive() && be.mem.epoch != now ==> !be.exe.valid && !IsMem(be.mem.ir))
  {
    hide Plus, Step, Mirrored, WbOk, QueueOk, Stream, Chain, BodyAfter, TailAfter, MemStall, TakeTrap, KillOf,
         IssueToken, Issues, FetchOk, RedirectPc, BranchTaken;
    StreamAfter(cfg, s, input);
    TokensMove(cfg, s, input);
    IssueTokenShape(cfg, s, input);
    FlushRedirects(s.be, input);
  }

  ghost predicate NotBefore(xs: seq<Link>, epoch: int) {
    forall i :: 0 <= i < |xs| ==> epoch <= xs[i].epoch
  }

  lemma NotBeforeParts(xs: seq<Link>, ys: seq<Link>, epoch: int)
    ensures NotBefore(xs + ys, epoch) <==> NotBefore(xs, epoch) && NotBefore(ys, epoch)
  {
    if NotBefore(xs + ys, epoch) {
      assert forall i :: 0 <= i < |xs| ==> (xs + ys)[i] == xs[i];
      assert forall i :: 0 <= i < |ys| ==> (xs + ys)[|xs| + i] == ys[i];
    }
  }

  lemma TailNotBefore(fe: Frontend, move: TailMove, epoch: int)
    requires NotBefore(Tail(fe), epoch)
    ensures NotBefore(TailAfter(fe, move), epoch) && NotBefore(FetchLinks(fe.fetch), epoch) && epoch <= fe.epoch
  {
    hide Plus;
    assert Tail(fe)[|Tail(fe)| - 1] == NextLink(fe);
    assert FetchLinks(fe.fetch) != [] ==> Tail(fe)[0] == FetchLinks(fe.fetch)[0];
  }

  lemma StreamLagNext(cfg: Config, s: Cpu, input: Inputs)
    requires Inv(cfg, s) && cfg.ids.Unbounded?
    ensures var next := Step(cfg, s, input); NotBefore(Stream(next), next.fe.epoch - 2)
  {
    hide Plus, Step, BodyAfter, RedirectPc, BackLinks, Mirrored, TokensOk, WbOk, QueueOk, Redirect, MoveOf, ExeRedirect,
         NotBefore, Body, Tail, TailAfter, FetchLinks, Stream, Chain;
    StreamAfter(cfg, s, input);
    var k := BodyMoves(cfg, s, input);
    StreamParts(s);
    var bound := if Redirect(s.be, input) then s.fe.epoch - 1 else s.fe.epoch - 2;
    SuffixNotBefore(cfg, s, input, k, bound);
    NotBeforeParts(Body(s)[k..], Tail(s.fe), bound);
    TailNotBefore(s.fe, MoveOf(cfg, s.fe, input), bound);
    if Redirect(s.be, input) {
      var o := if Step(cfg, s, input).fe.fetch.outstanding then FetchLinks(s.fe.fetch) else [];
      var z := Link(s.fe.epoch + 1, s.fe.nextSeq, RedirectPc(s.be, input));
      EmptyNotBefore(z, bound);
      NotBeforeParts(Body(s)[k..], o, bound);
      NotBeforeParts(Body(s)[k..] + o, [z], bound);
    } else {
      NotBeforeParts(Body(s)[k..], TailAfter(s.fe, MoveOf(cfg, s.fe, input)), bound);
    }
  }

  lemma EmptyNotBefore(z: Link, epoch: int)
    ensures NotBefore([], epoch)
    ensures epoch <= z.epoch ==> NotBefore([z], epoch)
  {}

  lemma SuffixNotBefore(cfg: Config, s: Cpu, input: Inputs, k: nat, bound: int)
    requires Inv(cfg, s) && cfg.ids.Unbounded? && k <= |Body(s)|
    requires bound == if Redirect(s.be, input) then s.fe.epoch - 1 else s.fe.epoch - 2
    requires ExeRedirect(s.be, input) ==> k == |TokenLinks(s.be.mem)|
    ensures NotBefore(Body(s)[k..] + Tail(s.fe), bound)
  {
    hide Plus, Redirect, ExeRedirect, Tail, BackLinks, Mirrored, TokensOk, WbOk, QueueOk, Chain;
    StreamParts(s);
    assert Body(s)[k..] + Tail(s.fe) == Stream(s)[k..];
    if Redirect(s.be, input) {
      RedirectLag(cfg, s, input, k);
    }
  }

  lemma TrapDrainedNext(cfg: Config, s: Cpu, input: Inputs)
    requires Inv(cfg, s) && cfg.ids.Unbounded?
    ensures TrapDrained(Step(cfg, s, input))
  {
    hide Plus, Mirrored, WbOk, QueueOk, Chain, MemStall, KillOf, IssueToken, BackendNext, Issues, RedirectPc, BackLinks,
         Tail, TakeTrap;
    TokensMove(cfg, s, input);
    IssueTokenShape(cfg, s, input);
    FlushRedirects(s.be, input);
    if TrapFlush(s.be, input) {
      StreamEpochs(s);
      StreamRedirected(cfg, s.fe, input, RedirectPc(s.be, input));
      forall i | 0 <= i < |s.fe.queue|
        ensures s.fe.queue[i].epoch <= s.fe.epoch
      {
        assert Stream(s)[|BackLinks(s.be)| + i] == LinkOf(s.fe.queue[i]);
      }
    }
  }

  /** The invariant is kept by every cycle, whatever the inputs. */
  lemma InvStep(cfg: Config, s: Cpu, input: Inputs)
    requires Inv(cfg, s) && cfg.ids.Unbounded?
    ensures Inv(cfg, Step(cfg, s, input))
  {
    StreamNext(cfg, s, input);
    EpochsOkNext(cfg, s, input);
    WbOkNext(cfg, s, input);
    TokensOkNext(cfg, s, input);
    MirroredNext(cfg, s, input);
    TrapDrainedNext(cfg, s, input);
    StreamEpochs(s);
    IssueTokenShape(cfg, s, input);
    FetchOkNext(cfg, s.fe, input, RedirectOf(s.be, input), Issues(cfg, s, input));
    QueueOkNext(cfg, s.fe, input, RedirectOf(s.be, input), Issues(cfg, s, input));
    hide FrontendNext, BackendNext, Stream, Chain, FetchOk, QueueOk, Mirrored, TokensOk, EpochsOk, WbOk, TrapDrained, Issues, RedirectOf;
  }
}
