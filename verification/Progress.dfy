/** The core always gets somewhere: if the memories accept and answer each request within `n`
    cycles, a measure falls in every cycle that commits nothing. */
module Progress {
  import opened Words
  import opened Uarch
  import opened Datapath
  import opened Core
  import opened CoreInv
  import opened FrontendInv
  import opened Handler
  import opened Refine
  import Chains

  // ---- prompt memories ------------------------------------------------------------------------

  /** For how many cycles the present request has been waiting, to be accepted or to be answered. */
  datatype Waits = Waits(fetch: nat, data: nat)

  predicate FetchWaits(cfg: Config, s: Cpu, input: Inputs) {
    if s.fe.fetch.outstanding then !input.imemResp.valid
    else ImemReqValid(cfg, s.fe, Redirect(s.be, input)) && !input.imemReady
  }

  predicate DataWaits(be: Backend, input: Inputs) { MemStall(be, input) && !Fires(be, input) }

  function WaitsNext(cfg: Config, s: Cpu, input: Inputs, waits: Waits): Waits {
    Waits(if FetchWaits(cfg, s, input) then waits.fetch + 1 else 0,
          if DataWaits(s.be, input) then waits.data + 1 else 0)
  }

  /** No request waits for `n` cycles. */
  predicate Prompt(n: nat, waits: Waits) { waits.fetch < n && waits.data < n }

  // ---- the measure --------------------------------------------------------------------------------

  /** The number of entries that are drained before the first current one. */
  function Lead(q: seq<QueueEntry>, now: nat): (k: nat)
    ensures k <= |q|
    ensures k < |q| ==> q[k].epoch == now
  {
    if q == [] || q[0].epoch == now then 0 else 1 + Lead(q[1..], now)
  }

  /** More than any distance within one phase of fetching. */
  function PhaseLength(cfg: Config, n: nat): nat { (cfg.queueDepth + 1) * (n + 1) }

  /** How far the frontend is from having a word to issue, when nothing holds up its queue. */
  function FetchDistance(cfg: Config, n: nat, fe: Frontend, waits: Waits): int {
    var f, q, phase := fe.fetch, fe.queue, PhaseLength(cfg, n);
    if Lead(q, fe.epoch) < |q| then Lead(q, fe.epoch)
    else if f.out.valid then phase + |q|
    else if f.outstanding && !f.drop then 2 * phase + (n - waits.fetch)
    else if !f.outstanding then 3 * phase + |q| * (n + 1) + (n - waits.fetch)
    else 4 * phase + (n - waits.fetch)
  }

  /** How far the core is from its next commit. */
  function Distance(cfg: Config, n: nat, s: Cpu, waits: Waits): int {
    if s.be.wb.Alive() then 0
    else if s.be.mem.Alive() then 1 + (if s.be.reqSent then n else 2 * n) - waits.data
    else if s.be.exe.valid then 2 + 2 * n
    else 3 + 2 * n + FetchDistance(cfg, n, s.fe, waits)
  }

  /** The longest time between commits. */
  function Bound(cfg: Config, n: nat): nat { 3 + 2 * n + 5 * PhaseLength(cfg, n) }

  lemma PhaseBounds(cfg: Config, n: nat, k: nat)
    requires k <= cfg.queueDepth
    ensures k < PhaseLength(cfg, n) && n < PhaseLength(cfg, n)
    ensures k * (n + 1) + n < PhaseLength(cfg, n)
    ensures k > 0 ==> (k - 1) * (n + 1) + n < k * (n + 1)
  {
    var d := cfg.queueDepth;
    assert PhaseLength(cfg, n) == d * (n + 1) + (n + 1);
    assert k * (n + 1) <= d * (n + 1);
    assert k <= k * (n + 1);
    assert (k - 1) * (n + 1) == k * (n + 1) - (n + 1);
  }

  lemma DistanceBound(cfg: Config, n: nat, s: Cpu, waits: Waits)
    requires Inv(cfg, s) && Prompt(n, waits)
    ensures 0 <= Distance(cfg, n, s, waits) <= Bound(cfg, n)
  {
    hide PhaseLength, Stream, Chains.Chain, Mirrored, TokensOk, EpochsOk, WbOk, TrapDrained;
    PhaseBounds(cfg, n, |s.fe.queue|);
  }

  // ---- one cycle ---------------------------------------------------------------------------------------

  lemma LeadOfStale(q: seq<QueueEntry>, now: nat)
    requires q != [] && q[0].epoch != now
    ensures Lead(q, now) == 1 + Lead(q[1..], now)
  {}

  lemma {:induction false} LeadAppend(q: seq<QueueEntry>, e: QueueEntry, now: nat)
    ensures Lead(q, now) < |q| ==> Lead(q + [e], now) == Lead(q, now)
    ensures e.epoch == now ==> Lead(q + [e], now) <= |q|
  {
    if q != [] && q[0].epoch != now {
      LeadAppend(q[1..], e, now);
      assert (q + [e])[1..] == q[1..] + [e];
    }
  }

  /** Nothing is redirected or issued, and stale heads drain. */
  ghost predicate Idle(cfg: Config, n: nat, fe: Frontend, input: Inputs, waits: Waits, waits': Waits) {
    && cfg.Valid() && cfg.ids.Unbounded? && FetchOk(fe) && QueueOk(cfg, fe)
    && (fe.queue == [] || HeadStale(fe))
    && Prompt(n, waits) && Prompt(n, waits')
    && waits'.fetch == (if (if fe.fetch.outstanding then !input.imemResp.valid
                            else ImemReqValid(cfg, fe, false) && !input.imemReady)
                        then waits.fetch + 1 else 0)
  }

  lemma QueueMoves(cfg: Config, fe: Frontend, input: Inputs)
    ensures var p := Popped(fe, false);
      FrontendNext(cfg, fe, input, None, false).queue ==
        if Pushes(cfg, fe, false) then p + [DecodeFetched(fe.fetch.out)] else p
    ensures FrontendNext(cfg, fe, input, None, false).epoch == fe.epoch
  {
    hide FetchNext, DecodeFetched;
  }

  /** A current entry gets nearer to the head. */
  lemma FetchDrains(cfg: Config, n: nat, fe: Frontend, input: Inputs, waits: Waits, waits': Waits)
    requires Idle(cfg, n, fe, input, waits, waits') && Lead(fe.queue, fe.epoch) < |fe.queue|
    ensures FetchDistance(cfg, n, FrontendNext(cfg, fe, input, None, false), waits') < FetchDistance(cfg, n, fe, waits)
  {
    hide Plus, DecodeFetched, PhaseLength, Lead, FrontendNext, FetchOk, QueueOk;
    QueueMoves(cfg, fe, input);
    LeadOfNothing(fe.epoch);
    assert fe.queue != [];
    LeadOfStale(fe.queue, fe.epoch);
    LeadAppend(Popped(fe, false), DecodeFetched(fe.fetch.out), fe.epoch);
  }

  /** A held packet is queued, or the full queue drains first. */
  lemma FetchQueues(cfg: Config, n: nat, fe: Frontend, input: Inputs, waits: Waits, waits': Waits)
    requires Idle(cfg, n, fe, input, waits, waits') && Lead(fe.queue, fe.epoch) == |fe.queue| && fe.fetch.out.valid
    ensures FetchDistance(cfg, n, FrontendNext(cfg, fe, input, None, false), waits') < FetchDistance(cfg, n, fe, waits)
  {
    hide Plus, DecodeFetched, PhaseLength, Lead, QueueNext;
    var q, p := fe.queue, Popped(fe, false);
    QueueMoves(cfg, fe, input);
    FetchedEpoch(fe.fetch.out);
    PhaseBounds(cfg, n, |q|);
    LeadWithin(p, fe.epoch);
    LeadAppend(p, DecodeFetched(fe.fetch.out), fe.epoch);
    if q != [] {
      LeadOfStale(q, fe.epoch);
    }
  }

  /** A request is answered, accepted, or waits a cycle less; one that the full queue keeps back
      sees that queue drain. */
  lemma FetchComes(cfg: Config, n: nat, fe: Frontend, input: Inputs, waits: Waits, waits': Waits)
    requires Idle(cfg, n, fe, input, waits, waits') && Lead(fe.queue, fe.epoch) == |fe.queue| && !fe.fetch.out.valid
    ensures FetchDistance(cfg, n, FrontendNext(cfg, fe, input, None, false), waits') < FetchDistance(cfg, n, fe, waits)
  {
    hide Plus, DecodeFetched, PhaseLength, Lead, QueueNext;
    var q, p := fe.queue, Popped(fe, false);
    QueueMoves(cfg, fe, input);
    PhaseBounds(cfg, n, |q|);
    PhaseBounds(cfg, n, |p|);
    LeadWithin(p, fe.epoch);
    LeadOfNothing(fe.epoch);
    if q != [] {
      LeadOfStale(q, fe.epoch);
    }
  }

  lemma LeadOfNothing(now: nat)
    ensures Lead([], now) == 0
  {}

  lemma LeadWithin(q: seq<QueueEntry>, now: nat)
    ensures Lead(q, now) <= |q|
  {}

  // ---- the whole core --------------------------------------------------------------------------------------

  lemma DataWaitsOnly(s: Cpu, input: Inputs)
    requires s.be.mem.Alive() && MemStall(s.be, input)
    ensures DmemRequest(s.be, input).valid == !s.be.reqSent
  {
    hide AsyncCause, LsuBe, LsuWdata, LsuMisaligned, PreHalt;
  }

  lemma SentMoves(cfg: Config, s: Cpu, input: Inputs)
    ensures MemStall(s.be, input) ==> Step(cfg, s, input).be.reqSent == (s.be.reqSent || Fires(s.be, input))
  {
    hide MemStall, DmemRequest, RowsNext, CsrsNext, RegsNext, MemNext, WbNext, IssueToken, KillOf, FrontendNext;
  }

  lemma EmptyAdvances(cfg: Config, n: nat, s: Cpu, input: Inputs, waits: Waits)
    requires Inv(cfg, s) && cfg.ids.Unbounded?
    requires Prompt(n, waits) && Prompt(n, WaitsNext(cfg, s, input, waits))
    requires !s.be.wb.Alive() && !s.be.mem.Alive() && !s.be.exe.valid
    ensures Distance(cfg, n, Step(cfg, s, input), WaitsNext(cfg, s, input, waits)) < Distance(cfg, n, s, waits)
  {
    hide Step, FrontendNext, Issues, KillOf, MemStall, TakeTrap, Stream, Chains.Chain, EpochsOk, Plus, PhaseLength,
         Lead, FetchOk, QueueOk, ImemReqValid, Redirect, FetchDistance;
    EmptyBackend(cfg, s, input);
    TokensMove(cfg, s, input);
    IssueTokenShape(cfg, s, input);
    FrontendOf(cfg, s, input);
    NoRedirectPc(s.be, input);
    DistanceBound(cfg, n, s, waits);
    FrontDistance(cfg, n, s.fe, waits);
    var waits' := WaitsNext(cfg, s, input, waits);
    if !Issues(cfg, s, input) {
      LeadWithin(s.fe.queue, s.fe.epoch);
      if Lead(s.fe.queue, s.fe.epoch) < |s.fe.queue| {
        FetchDrains(cfg, n, s.fe, input, waits, waits');
      } else if s.fe.fetch.out.valid {
        FetchQueues(cfg, n, s.fe, input, waits, waits');
      } else {
        FetchComes(cfg, n, s.fe, input, waits, waits');
      }
    }
  }

  lemma FrontDistance(cfg: Config, n: nat, fe: Frontend, waits: Waits)
    requires Prompt(n, waits)
    ensures FetchDistance(cfg, n, fe, waits) >= 0
  {
    hide PhaseLength;
  }

  /** In a cycle that commits nothing the core gets nearer to its next commit. */
  lemma DistanceFalls(cfg: Config, n: nat, s: Cpu, input: Inputs, waits: Waits)
    requires Inv(cfg, s) && cfg.ids.Unbounded? && !s.be.wb.Alive()
    requires Prompt(n, waits) && Prompt(n, WaitsNext(cfg, s, input, waits))
    ensures Distance(cfg, n, Step(cfg, s, input), WaitsNext(cfg, s, input, waits)) < Distance(cfg, n, s, waits)
  {
    hide Step, FrontendNext, Issues, KillOf, MemStall, TakeTrap, Stream, Chains.Chain, EpochsOk, Plus, FetchDistance,
         Mirrored, FetchOk, QueueOk, ImemReqValid, Redirect, DmemRequest;
    TokensMove(cfg, s, input);
    if !s.be.mem.Alive() && !s.be.exe.valid {
      EmptyAdvances(cfg, n, s, input, waits);
    } else if s.be.mem.Alive() {
      SentMoves(cfg, s, input);
      if MemStall(s.be, input) {
        DataWaitsOnly(s, input);
      }
    } else {
      OnlyExe(s, input);
    }
  }

  // ---- runs ----------------------------------------------------------------------------------------------------

  function Then(cfg: Config, s: Cpu, inputs: seq<Inputs>): Cpu
    decreases |inputs|
  {
    if inputs == [] then s else Then(cfg, Step(cfg, s, inputs[0]), inputs[1..])
  }

  /** No request waits for `n` cycles, all along the run. */
  ghost predicate PromptRun(cfg: Config, n: nat, s: Cpu, inputs: seq<Inputs>, waits: Waits)
    decreases |inputs|
  {
    Prompt(n, waits) &&
    (inputs == [] ||
     PromptRun(cfg, n, Step(cfg, s, inputs[0]), inputs[1..], WaitsNext(cfg, s, inputs[0], waits)))
  }

  /** From every reachable state, a run as long as the bound comes to a commit. */
  lemma {:induction false} CommitsSoon(cfg: Config, n: nat, s: Cpu, inputs: seq<Inputs>, waits: Waits) returns (k: nat)
    requires Inv(cfg, s) && cfg.ids.Unbounded?
    requires PromptRun(cfg, n, s, inputs, waits) && |inputs| >= Distance(cfg, n, s, waits)
    ensures k <= Distance(cfg, n, s, waits) <= Bound(cfg, n)
    ensures k <= |inputs|
    ensures Then(cfg, s, inputs[..k]).be.wb.Alive()
    decreases |inputs|
  {
    hide Step, Inv, Distance, WaitsNext, Bound;
    DistanceBound(cfg, n, s, waits);
    if s.be.wb.Alive() {
      k := 0;
    } else {
      DistanceFar(cfg, n, s, waits);
      var waits' := WaitsNext(cfg, s, inputs[0], waits);
      DistanceFalls(cfg, n, s, inputs[0], waits);
      InvStep(cfg, s, inputs[0]);
      k := CommitsSoon(cfg, n, Step(cfg, s, inputs[0]), inputs[1..], waits');
      k := k + 1;
      assert inputs[..k][1..] == inputs[1..][..k - 1];
    }
  }

  lemma DistanceFar(cfg: Config, n: nat, s: Cpu, waits: Waits)
    requires Inv(cfg, s) && Prompt(n, waits) && !s.be.wb.Alive()
    ensures Distance(cfg, n, s, waits) >= 1
  {
    FrontDistance(cfg, n, s.fe, waits);
  }
}
