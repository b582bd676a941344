/** The cycle-by-cycle timing of the core, apart from what its instructions compute: which stages are
    occupied, how far the fetch in progress has come, and how many queue entries are stale. It is used
    to follow particular runs. */
module Timing {
  import opened Words
  import opened Uarch
  import opened Datapath
  import opened Core
  import opened CoreInv
  import opened FrontendInv
  import opened Refine
  import Handler
  import Chains
  import Isa

  /** The fetch in progress: about to be requested, requested, or held for the queue. */
  datatype Phase = Ask | Wait | Held

  datatype View = View(wb: bool, mem: bool, exe: bool, sent: bool, phase: Phase, stale: nat, current: nat)

  ghost predicate Fetches(fe: Frontend, v: View) {
    && |fe.queue| == v.stale + v.current
    && (forall k :: 0 <= k < |fe.queue| ==> (fe.queue[k].epoch == fe.epoch <==> k >= v.stale))
    && (match v.phase
        case Ask => !fe.fetch.outstanding && !fe.fetch.out.valid
        case Wait => fe.fetch.outstanding && fe.fetch.reqEpoch == fe.epoch
        case Held => fe.fetch.out.valid)
  }

  ghost predicate Shows(s: Cpu, v: View) {
    && Fetches(s.fe, v)
    && s.be.wb.Alive() == v.wb && s.be.mem.Alive() == v.mem && s.be.exe.valid == v.exe && s.be.reqSent == v.sent
  }

  /** How the frontend goes on: a fetch takes three cycles, and stale heads drain one a cycle. */
  function Fetched(v: View, issues: bool): View
    requires issues ==> v.current > 0
  {
    var current := if issues then v.current - 1 else v.current;
    v.(phase := if v.phase == Ask then Wait else if v.phase == Wait then Held else Ask,
       stale := if v.stale > 0 then v.stale - 1 else 0,
       current := if v.phase == Held then current + 1 else current)
  }

  /** The next view, given whether MEM stalls. */
  function Moves(v: View, stall: bool): View {
    var issues := !stall && v.stale == 0 && v.current > 0;
    Fetched(v, issues).(wb := !stall && v.mem, mem := if stall then v.mem else v.exe,
                        exe := if stall then v.exe else issues, sent := stall)
  }

  /** The next view when MEM traps while no fetch is in progress. */
  function Traps(v: View): View {
    View(true, false, false, false, Ask, (if v.stale > 0 then v.stale - 1 else 0) + v.current, 0)
  }

  /** Inputs of memories that are always ready and answer each fetch at once, and of a data port that
      answers if told to. */
  function Prodded(env: Isa.Env, s: Cpu, answer: bool, msip: bool): Inputs {
    var f := env.code(s.fe.fetch.reqPc);
    Inputs(true, MemResp(true, f.inst, f.error), true, MemResp(answer, 0, false), msip, false, false)
  }

  lemma FetchMoves(cfg: Config, fe: Frontend, v: View, input: Inputs, issues: bool)
    requires cfg.ids.Unbounded? && FetchOk(fe) && Fetches(fe, v) && v.stale + v.current < cfg.queueDepth
    requires input.imemReady && input.imemResp.valid
    requires issues ==> v.stale == 0 && v.current > 0
    ensures Fetches(FrontendNext(cfg, fe, input, None, issues), Fetched(v, issues))
  {
    hide Plus, DecodeFetched;
    Handler.FetchedEpoch(fe.fetch.out);
  }

  lemma FetchFlushes(cfg: Config, s: Cpu, v: View, input: Inputs, target: Word)
    requires cfg.ids.Unbounded? && Inv(cfg, s) && Fetches(s.fe, v) && v.phase == Ask
    ensures Fetches(FrontendNext(cfg, s.fe, input, Some(target), false), Traps(v))
  {
    hide Plus, FrontendNext, Tail, FetchLinks, Chains.Chain, Mirrored, TokensOk, EpochsOk, WbOk, TrapDrained;
    var next := FrontendNext(cfg, s.fe, input, Some(target), false);
    StreamRedirected(cfg, s.fe, input, target);
    StreamEpochs(s);
    Handler.RedirectedFetch(cfg, s, input, target);
    forall k | 0 <= k < |s.fe.queue|
      ensures s.fe.queue[k].epoch <= s.fe.epoch
    {
      assert Stream(s)[|BackLinks(s.be)| + k] == LinkOf(s.fe.queue[k]);
    }
  }

  /** No operand of the instruction can be held up. */
  predicate Free(ir: DecodedIr) { (ir.rs1Use ==> ir.rs1 == 0) && (ir.rs2Use ==> ir.rs2 == 0) }

  lemma FreeIssues(cfg: Config, s: Cpu, v: View, input: Inputs)
    requires Shows(s, v) && !Redirect(s.be, input)
    requires v.stale == 0 && v.current > 0 ==> Free(s.fe.queue[0].ir)
    ensures Issues(cfg, s, input) <==> !MemStall(s.be, input) && v.stale == 0 && v.current > 0
  {
    hide MemStall, KillOf;
  }

  lemma StagesMove(cfg: Config, s: Cpu, input: Inputs)
    requires Inv(cfg, s) && cfg.ids.Unbounded? && input.dmemReady && !Redirect(s.be, input)
    ensures var be, stall := Step(cfg, s, input).be, MemStall(s.be, input);
      && be.wb.Alive() == (!stall && s.be.mem.Alive())
      && be.mem.Alive() == (if stall then s.be.mem.Alive() else s.be.exe.valid)
      && be.exe.valid == (if stall then s.be.exe.valid else Issues(cfg, s, input))
      && be.reqSent == stall
  {
    hide Step, MemStall, KillOf, Issues, IssueToken, TrapFlush, EpochsOk, WbOk, TrapDrained, Redirect,
         Mirrored, FetchOk, QueueOk, Stream, Chains.Chain, Plus, DmemRequest;
    TokensMove(cfg, s, input);
    IssueTokenShape(cfg, s, input);
    StateMoves(cfg, s, input);
    NoRedirect(s.be, input);
    if MemStall(s.be, input) {
      StallSends(s, input);
    }
  }

  lemma Flows(cfg: Config, s: Cpu, v: View, input: Inputs)
    requires Inv(cfg, s) && cfg.ids.Unbounded? && Shows(s, v) && v.stale + v.current < cfg.queueDepth
    requires input.imemReady && input.imemResp.valid && input.dmemReady
    requires !Redirect(s.be, input)
    requires v.stale == 0 && v.current > 0 ==> Free(s.fe.queue[0].ir)
    ensures Shows(Step(cfg, s, input), Moves(v, MemStall(s.be, input)))
  {
    hide Step, FrontendNext, MemStall, Fetches, Issues, EpochsOk, WbOk, TrapDrained, Mirrored, QueueOk, Stream,
         Chains.Chain, Redirect, TokensOk, FetchOk, Fetched;
    StagesMove(cfg, s, input);
    FreeIssues(cfg, s, v, input);
    FrontendOf(cfg, s, input);
    Handler.NoRedirectPc(s.be, input);
    FetchMoves(cfg, s.fe, v, input, Issues(cfg, s, input));
    var moved := Fetched(v, Issues(cfg, s, input));
    SameFetch(Step(cfg, s, input).fe, moved, Moves(v, MemStall(s.be, input)));
  }

  lemma SameFetch(fe: Frontend, v: View, v': View)
    requires v.phase == v'.phase && v.stale == v'.stale && v.current == v'.current
    ensures Fetches(fe, v) == Fetches(fe, v')
  {}

  lemma StallSends(s: Cpu, input: Inputs)
    requires s.be.mem.Alive() && MemStall(s.be, input) && input.dmemReady
    ensures s.be.reqSent || Fires(s.be, input)
  {
    hide AsyncCause, LsuBe, LsuWdata, LsuMisaligned, PreHalt;
  }

  lemma Trapped(cfg: Config, s: Cpu, v: View, input: Inputs)
    requires Inv(cfg, s) && cfg.ids.Unbounded? && Shows(s, v) && v.phase == Ask && TrapFlush(s.be, input)
    ensures Shows(Step(cfg, s, input), Traps(v))
  {
    hide Step, FrontendNext, MemStall, KillOf, Fetches, Issues, IssueToken, TrapFlush, EpochsOk, WbOk, TrapDrained,
         Mirrored, FetchOk, QueueOk, Stream, Chains.Chain, Plus, DmemRequest, RedirectPc, Redirect;
    TokensMove(cfg, s, input);
    IssueTokenShape(cfg, s, input);
    FlushRedirects(s.be, input);
    FrontendOf(cfg, s, input);
    FetchFlushes(cfg, s, v, input, RedirectPc(s.be, input));
    StateMoves(cfg, s, input);
  }
}
