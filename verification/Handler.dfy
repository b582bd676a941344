/** How fast a trap handler can start. The double-trap flag of src/backend.sv is brought up to
    date when an instruction commits, but src/mem_stage.sv reads it one stage earlier. With a queue
    of at most five entries the flag is never out of date when it is read: the words that a trap
    leaves in the queue are drained one a cycle, and while that goes on the second word of the
    handler cannot catch up with the first. */
module Handler {
  import opened Words
  import opened Uarch
  import opened Datapath
  import opened Core
  import opened CoreInv
  import opened FrontendInv
  import opened Chains
  import opened Refine

  /** The queue holds nothing of the present epoch. */
  ghost predicate AllStale(fe: Frontend, n: nat)
    requires n <= |fe.queue|
  {
    forall i :: 0 <= i < n ==> fe.queue[i].epoch != fe.epoch
  }

  ghost predicate FirstQueued(fe: Frontend) {
    fe.queue != [] && fe.queue[|fe.queue| - 1].epoch == fe.epoch
  }

  /** The further the first word of the handler has come, the fewer old words are ahead of it. */
  ghost predicate FewStale(fe: Frontend) {
    var q, f := fe.queue, fe.fetch;
    if FirstQueued(fe) then
      && AllStale(fe, |q| - 1) && !f.out.valid
      && |q| - 1 <= (if f.outstanding then 0 else 1)
    else
      && AllStale(fe, |q|)
      && (f.out.valid ==> |q| <= 2)
      && (f.outstanding && f.reqEpoch == fe.epoch ==> |q| <= 3)
  }

  /** From the commit of a trap to the commit of the handler's first word. */
  ghost predicate HandlerTiming(s: Cpu) {
    var be := s.be;
    if be.wb.Alive() && be.wb.trapPending then FewStale(s.fe)
    else if !be.lastTrap then true
    else if be.wb.Alive() then !be.mem.Alive()
    else if be.mem.Alive() then !be.exe.valid
    else if be.exe.valid then s.fe.queue == []
    else FewStale(s.fe)
  }

  lemma FewStaleRedirected(cfg: Config, s: Cpu, input: Inputs, target: Word)
    requires Inv(cfg, s) && cfg.ids.Unbounded?
    ensures FewStale(FrontendNext(cfg, s.fe, input, Some(target), false))
  {
    hide Plus, FrontendNext, Tail, FetchLinks, Chain, Mirrored, TokensOk, EpochsOk, WbOk, TrapDrained;
    var next := FrontendNext(cfg, s.fe, input, Some(target), false);
    StreamRedirected(cfg, s.fe, input, target);
    StreamEpochs(s);
    forall i | 0 <= i < |s.fe.queue|
      ensures s.fe.queue[i].epoch <= s.fe.epoch
    {
      assert Stream(s)[|BackLinks(s.be)| + i] == LinkOf(s.fe.queue[i]);
    }
    RedirectedFetch(cfg, s, input, target);
  }

  lemma RedirectedFetch(cfg: Config, s: Cpu, input: Inputs, target: Word)
    requires Inv(cfg, s) && cfg.ids.Unbounded?
    ensures var next := FrontendNext(cfg, s.fe, input, Some(target), false);
      !next.fetch.out.valid && (next.fetch.outstanding ==> next.fetch.reqEpoch < next.epoch)
  {
    hide Plus, QueueNext, Chain, Mirrored, TokensOk, EpochsOk, WbOk, TrapDrained;
    StreamEpochs(s);
  }

  /** While the backend is empty the frontend keeps its pace. */
  lemma FewStaleDrains(cfg: Config, fe: Frontend, input: Inputs)
    requires cfg.queueDepth <= 5 && FewStale(fe) && QueueOk(cfg, fe) && FetchOk(fe)
    requires fe.queue == [] || HeadStale(fe)
    requires cfg.ids.Unbounded?
    ensures FewStale(FrontendNext(cfg, fe, input, None, false))
  {
    hide Plus, DecodeFetched;
    FetchedEpoch(fe.fetch.out);
  }

  lemma FetchedEpoch(p: FetchPkt)
    ensures DecodeFetched(p).epoch == p.epoch
  {}

  lemma FirstIssues(cfg: Config, fe: Frontend, input: Inputs)
    requires FewStale(fe) && fe.queue != [] && !HeadStale(fe)
    ensures FrontendNext(cfg, fe, input, None, true).queue == []
  {
    hide Plus, DecodeFetched;
  }

  lemma EmptyBackend(cfg: Config, s: Cpu, input: Inputs)
    requires Mirrored(s.be) && !s.be.mem.Alive() && !s.be.exe.valid
    ensures !Redirect(s.be, input) && !MemStall(s.be, input)
    ensures !s.be.wb.Alive() ==> (Issues(cfg, s, input) <==> s.fe.queue != [] && !HeadStale(s.fe))
  {
    hide AsyncCause, PreHalt, Taken, TransferTarget;
  }

  lemma OnlyExe(s: Cpu, input: Inputs)
    requires !s.be.mem.Alive()
    ensures !TrapFlush(s.be, input) && !MemStall(s.be, input)
  {
    hide AsyncCause, PreHalt;
  }

  lemma FlagMoves(cfg: Config, s: Cpu, input: Inputs)
    ensures Step(cfg, s, input).be.lastTrap == if s.be.wb.Alive() then s.be.wb.trapPending else s.be.lastTrap
  {
    hide MemStall, DmemRequest, RowsNext, CsrsNext, RegsNext, MemNext, WbNext, IssueToken, KillOf, FrontendNext;
  }

  /** With nothing in EXE and MEM the first word of the handler is on its way, or is issued. */
  lemma DrainStep(cfg: Config, s: Cpu, input: Inputs)
    requires Inv(cfg, s) && cfg.ids.Unbounded? && cfg.queueDepth <= 5
    requires FewStale(s.fe) && !s.be.mem.Alive() && !s.be.exe.valid
    requires s.be.wb.Alive() ==> s.be.wb.trapPending
    ensures HandlerTiming(Step(cfg, s, input))
  {
    hide Step, FrontendNext, Issues, RedirectOf, Redirect, KillOf, MemStall, FewStale, TakeTrap, Stream, Chain, EpochsOk, Plus;
    EmptyBackend(cfg, s, input);
    TokensMove(cfg, s, input);
    IssueTokenShape(cfg, s, input);
    FlagMoves(cfg, s, input);
    FrontendOf(cfg, s, input);
    assert RedirectOf(s.be, input) == None by {
      hide *;
      NoRedirectPc(s.be, input);
    }
    if Issues(cfg, s, input) {
      FirstIssues(cfg, s.fe, input);
    } else {
      FewStaleDrains(cfg, s.fe, input);
    }
  }

  lemma NoRedirectPc(be: Backend, input: Inputs)
    requires !Redirect(be, input)
    ensures RedirectOf(be, input) == None
  {}

  lemma TrapStep(cfg: Config, s: Cpu, input: Inputs)
    requires Inv(cfg, s) && cfg.ids.Unbounded? && TrapFlush(s.be, input)
    ensures HandlerTiming(Step(cfg, s, input))
  {
    hide Step, FrontendNext, Issues, Redirect, KillOf, MemStall, FewStale, TakeTrap, Stream, Chain, EpochsOk, Plus,
         RedirectPc;
    TokensMove(cfg, s, input);
    IssueTokenShape(cfg, s, input);
    FlushRedirects(s.be, input);
    FrontendOf(cfg, s, input);
    FewStaleRedirected(cfg, s, input, RedirectPc(s.be, input));
  }

  lemma HandlerTimingNext(cfg: Config, s: Cpu, input: Inputs)
    requires Inv(cfg, s) && cfg.ids.Unbounded? && cfg.queueDepth <= 5 && HandlerTiming(s)
    ensures HandlerTiming(Step(cfg, s, input))
  {
    hide Step, FrontendNext, Issues, Redirect, KillOf, MemStall, FewStale, TakeTrap, Stream, Chain, EpochsOk, Plus,
         TrapFlush, TrapDrained, FetchOk, QueueOk, Mirrored;
    TokensMove(cfg, s, input);
    IssueTokenShape(cfg, s, input);
    FlagMoves(cfg, s, input);
    if TrapFlush(s.be, input) {
      TrapStep(cfg, s, input);
    } else if !s.be.mem.Alive() && !s.be.exe.valid && (s.be.wb.Alive() ==> s.be.wb.trapPending) &&
              (s.be.lastTrap || s.be.wb.Alive()) {
      DrainStep(cfg, s, input);
    } else if !s.be.mem.Alive() {
      OnlyExe(s, input);
    }
  }

  /** So the flag is never looked at while a commit is about to change it. */
  lemma FlagNeverStale(cfg: Config, s: Cpu)
    requires Inv(cfg, s) && HandlerTiming(s) && s.be.wb.Alive() && s.be.mem.Alive()
    ensures !s.be.lastTrap && !s.be.wb.trapPending
  {
    hide Plus, FewStale;
  }
}
