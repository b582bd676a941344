/** Every issued instruction is accounted for: it commits exactly once, or a trap in front of it
    kills it, or it is still in the pipeline. */
module Ledger {
  import opened Words
  import opened Uarch
  import opened Datapath
  import opened Core
  import opened CoreInv
  import opened FrontendInv
  import opened Chains
  import opened Refine
  import opened Runs
  import Handler

  /** The instructions that the core has issued, committed and killed, in order. */
  datatype Log = Log(issued: seq<Link>, retired: seq<Link>, killed: seq<Link>)

  function LogNext(cfg: Config, s: Cpu, input: Inputs, log: Log): Log {
    Log(log.issued + TokenLinks(IssueToken(cfg, s, input)),
        log.retired + TokenLinks(s.be.wb),
        log.killed + (if TrapFlush(s.be, input) then TokenLinks(s.be.exe) else []))
  }

  function LogOf(cfg: Config, inputs: seq<Inputs>): Log {
    if inputs == [] then Log([], [], [])
    else
      var before := inputs[..|inputs| - 1];
      LogNext(cfg, Watch(cfg, before).cpu, inputs[|inputs| - 1], LogOf(cfg, before))
  }

  /** Issued, and neither committed nor killed. */
  function Flight(be: Backend): seq<Link> { TokenLinks(be.wb) + BackLinks(be) }

  // ---- age -------------------------------------------------------------------------------------

  predicate Before(a: Link, b: Link) { a.epoch < b.epoch || (a.epoch == b.epoch && a.seqId < b.seqId) }

  ghost predicate Increasing(xs: seq<Link>) { forall i, j :: 0 <= i < j < |xs| ==> Before(xs[i], xs[j]) }

  lemma IncreasingOnce(xs: seq<Link>, i: nat)
    requires Increasing(xs) && i < |xs|
    ensures multiset(xs)[xs[i]] == 1
  {
    var x := xs[i];
    assert xs == xs[..i] + [x] + xs[i + 1..];
    assert x !in xs[..i] && x !in xs[i + 1..];
    assert multiset(xs) == multiset(xs[..i]) + multiset([x]) + multiset(xs[i + 1..]);
  }

  lemma IncreasingAppend(xs: seq<Link>, y: Link)
    requires Increasing(xs) && forall x :: x in xs ==> Before(x, y)
    ensures Increasing(xs + [y])
  {}

  lemma IncreasingLess(xs: seq<Link>, y: Link)
    requires Increasing(xs) && (xs != [] ==> Before(xs[|xs| - 1], y))
    ensures forall x :: x in xs ==> Before(x, y)
  {}

  lemma Skip(xs: seq<Link>, ys: seq<Link>, zs: seq<Link>)
    requires Increasing(xs + ys + zs)
    ensures Increasing(xs + ys)
  {
    assert forall i :: 0 <= i < |xs + ys| ==> (xs + ys)[i] == (xs + ys + zs)[i];
  }

  // ---- the account --------------------------------------------------------------------------------

  /** What has been issued lies in front of what the frontend holds. */
  ghost predicate Behind(issued: seq<Link>, fe: Frontend) {
    issued != [] ==>
      var last := issued[|issued| - 1];
      last.epoch < fe.epoch || (last.epoch == fe.epoch && Chain([last] + FrontLinks(fe)))
  }

  ghost predicate Account(s: Cpu, log: Log) {
    && multiset(log.issued) == multiset(log.retired) + multiset(log.killed) + multiset(Flight(s.be))
    && Increasing(log.issued)
    && Increasing(log.retired + Flight(s.be))
    && Behind(log.issued, s.fe)
  }

  lemma Members(s: Cpu, log: Log)
    requires multiset(log.issued) == multiset(log.retired) + multiset(log.killed) + multiset(Flight(s.be))
    ensures forall x :: x in log.retired + Flight(s.be) ==> x in log.issued
  {
    forall x | x in log.retired + Flight(s.be)
      ensures x in log.issued
    {
      assert multiset(log.issued)[x] > 0;
    }
  }

  lemma FlightMoves(cfg: Config, s: Cpu, input: Inputs)
    requires Inv(cfg, s) && cfg.ids.Unbounded?
    ensures var iss, exe := TokenLinks(IssueToken(cfg, s, input)), TokenLinks(s.be.exe);
      && Flight(s.be) == TokenLinks(s.be.wb) + (TokenLinks(s.be.mem) + exe)
      && Flight(Step(cfg, s, input).be) ==
         (if TrapFlush(s.be, input) then TokenLinks(s.be.mem) else TokenLinks(s.be.mem) + exe + iss)
      && (TrapFlush(s.be, input) || MemStall(s.be, input) ==> iss == [])
  {
    hide Plus, Step, IssueToken, TokenLinks, MemStall, TrapFlush, Inv;
    LinksMove(cfg, s, input);
  }

  lemma Balance(issued: seq<Link>, retired: seq<Link>, killed: seq<Link>, wb: seq<Link>, mem: seq<Link>, exe: seq<Link>,
                iss: seq<Link>, flush: bool)
    requires multiset(issued) == multiset(retired) + multiset(killed) + multiset(wb + (mem + exe))
    requires flush ==> iss == []
    ensures multiset(issued + iss) == multiset(retired + wb) + multiset(killed + (if flush then exe else [])) +
                                      multiset(if flush then mem else mem + exe + iss)
  {}

  lemma LinksMove(cfg: Config, s: Cpu, input: Inputs)
    requires Inv(cfg, s) && cfg.ids.Unbounded?
    ensures var be := Step(cfg, s, input).be;
      if MemStall(s.be, input) then
        be.wb == Bubble && TokenLinks(be.wb) == [] && BackLinks(be) == BackLinks(s.be) &&
        TokenLinks(IssueToken(cfg, s, input)) == [] && !TrapFlush(s.be, input)
      else
        && TokenLinks(be.wb) == TokenLinks(s.be.mem)
        && BackLinks(be) == (if TrapFlush(s.be, input) then [] else TokenLinks(s.be.exe)) +
                            TokenLinks(IssueToken(cfg, s, input))
        && (TrapFlush(s.be, input) ==> TokenLinks(IssueToken(cfg, s, input)) == [])
  {
    hide Plus, Step, IssueToken, MirrorExe, MirrorMem, MirrorsWb, MemStall, TakeTrap, KillOf, Issues, Chain,
         EpochsOk, WbOk, TrapDrained, FetchOk, QueueOk, Mirrored;
    TokensMove(cfg, s, input);
    IssueTokenShape(cfg, s, input);
    FlushRedirects(s.be, input);
    if !MemStall(s.be, input) {
      BackLinksMove(cfg, s, input);
    }
  }

  // ---- one cycle ---------------------------------------------------------------------------------------

  lemma FrontAfter(cfg: Config, s: Cpu, input: Inputs)
    requires Inv(cfg, s) && cfg.ids.Unbounded? && !Redirect(s.be, input)
    ensures var next := Step(cfg, s, input).fe;
      next.epoch == s.fe.epoch &&
      FrontLinks(next) == QueueLinks(Popped(s.fe, Issues(cfg, s, input))) + TailAfter(s.fe, MoveOf(cfg, s.fe, input))
  {
    hide Plus, BackendNext, FrontendNext, Issues, Redirect, TailAfter, MoveOf, Popped, FrontLinks, Stream, Mirrored,
         TokensOk, EpochsOk, WbOk, TrapDrained, QueueOk, Chain;
    FrontendOf(cfg, s, input);
    StreamFlows(cfg, s.fe, input, Issues(cfg, s, input));
    EpochKept(cfg, s.fe, input, Issues(cfg, s, input));
    Handler.NoRedirectPc(s.be, input);
  }

  lemma EpochAfterRedirect(cfg: Config, s: Cpu, input: Inputs)
    requires Inv(cfg, s) && cfg.ids.Unbounded? && Redirect(s.be, input)
    ensures Step(cfg, s, input).fe.epoch == s.fe.epoch + 1 && TokenLinks(IssueToken(cfg, s, input)) == []
  {
    hide Plus, Step, IssueToken, Redirect, BodyAfter, Stream, Mirrored, TokensOk, EpochsOk, WbOk, TrapDrained, QueueOk, Chain;
    StreamAfter(cfg, s, input);
    IssueTokenShape(cfg, s, input);
  }

  /** The frontend's links stay a chain behind the last issued one. */
  lemma BehindKept(cfg: Config, s: Cpu, input: Inputs, last: Link)
    requires Inv(cfg, s) && cfg.ids.Unbounded? && !Redirect(s.be, input)
    requires Chain([last] + FrontLinks(s.fe)) && last.epoch == s.fe.epoch
    ensures Issues(cfg, s, input) ==>
      && TokenLinks(IssueToken(cfg, s, input)) == [LinkOf(s.fe.queue[0])]
      && s.fe.queue[0].epoch == s.fe.epoch && Before(last, LinkOf(s.fe.queue[0]))
    ensures !Issues(cfg, s, input) ==> Chain([last] + FrontLinks(Step(cfg, s, input).fe))
  {
    hide Plus, Step, IssueToken, Redirect, BodyAfter, Stream, Mirrored, TokensOk, EpochsOk, WbOk, TrapDrained, QueueOk, Issues,
         MoveOf, TailAfter, Tail, FetchLinks;
    IssueTokenShape(cfg, s, input);
    var front, tail := FrontLinks(s.fe), Tail(s.fe);
    ChainSortedAll([last] + front);
    if s.fe.queue != [] {
      assert ([last] + front)[1] == LinkOf(s.fe.queue[0]);
      HeadNotAhead(cfg, s);
    }
    if !Issues(cfg, s, input) {
      var p := QueueLinks(Popped(s.fe, false));
      assert !HeadStale(s.fe);
      assert [last] + front == ([last] + p) + tail;
      ChainTailMoves([last] + p, cfg, s, input);
      FrontAfter(cfg, s, input);
      assert [last] + FrontLinks(Step(cfg, s, input).fe) == ([last] + p) + TailAfter(s.fe, MoveOf(cfg, s.fe, input));
    }
  }

  lemma HeadNotAhead(cfg: Config, s: Cpu)
    requires Inv(cfg, s) && s.fe.queue != []
    ensures s.fe.queue[0].epoch <= s.fe.epoch
  {
    hide Plus, Mirrored, TokensOk, EpochsOk, WbOk, TrapDrained, QueueOk, FetchOk, Chain;
    StreamEpochs(s);
    assert Stream(s)[|BackLinks(s.be)|] == LinkOf(s.fe.queue[0]);
  }

  lemma ChainTailMoves(xs: seq<Link>, cfg: Config, s: Cpu, input: Inputs)
    requires Inv(cfg, s) && Chain(xs + Tail(s.fe))
    ensures Chain(xs + TailAfter(s.fe, MoveOf(cfg, s.fe, input)))
  {
    hide Plus, Mirrored, TokensOk, EpochsOk, WbOk, TrapDrained, QueueOk;
    StreamEpochs(s);
    ChainTail(xs, s.fe, MoveOf(cfg, s.fe, input));
  }

  /** What follows an issued head is a chain behind it. */
  lemma BehindIssued(cfg: Config, s: Cpu, input: Inputs)
    requires Inv(cfg, s) && cfg.ids.Unbounded? && Issues(cfg, s, input)
    ensures s.fe.queue != [] && TokenLinks(IssueToken(cfg, s, input)) == [LinkOf(s.fe.queue[0])]
    ensures s.fe.queue[0].epoch == s.fe.epoch && Step(cfg, s, input).fe.epoch == s.fe.epoch
    ensures Chain([LinkOf(s.fe.queue[0])] + FrontLinks(Step(cfg, s, input).fe))
  {
    hide Plus, Step, IssueToken, Redirect, BodyAfter, Mirrored, TokensOk, EpochsOk, WbOk, TrapDrained, QueueOk, Issues,
         MoveOf, TailAfter, Tail, FetchLinks, BackLinks;
    IssueTokenShape(cfg, s, input);
    var head := LinkOf(s.fe.queue[0]);
    var p := QueueLinks(Popped(s.fe, true));
    ChainSplit(BackLinks(s.be), FrontLinks(s.fe));
    assert FrontLinks(s.fe) == ([head] + p) + Tail(s.fe);
    ChainTailMoves([head] + p, cfg, s, input);
    FrontAfter(cfg, s, input);
    assert [head] + FrontLinks(Step(cfg, s, input).fe) == ([head] + p) + TailAfter(s.fe, MoveOf(cfg, s.fe, input));
  }

  lemma BehindNext(cfg: Config, s: Cpu, input: Inputs, log: Log)
    requires Inv(cfg, s) && cfg.ids.Unbounded? && Behind(log.issued, s.fe) && Increasing(log.issued)
    ensures var log' := LogNext(cfg, s, input, log);
      Behind(log'.issued, Step(cfg, s, input).fe) && Increasing(log'.issued)
    ensures forall x, y :: x in log.issued && y in TokenLinks(IssueToken(cfg, s, input)) ==> Before(x, y)
  {
    hide Plus, Step, IssueToken, Redirect, Inv, Issues, FrontLinks, TrapFlush, Chain;
    IssueTokenShape(cfg, s, input);
    var xs := log.issued;
    if Redirect(s.be, input) {
      EpochAfterRedirect(cfg, s, input);
    } else {
      if xs != [] && xs[|xs| - 1].epoch == s.fe.epoch {
        BehindKept(cfg, s, input, xs[|xs| - 1]);
      }
      if Issues(cfg, s, input) {
        BehindIssued(cfg, s, input);
        IncreasingLess(xs, LinkOf(s.fe.queue[0]));
        IncreasingAppend(xs, LinkOf(s.fe.queue[0]));
      } else {
        FrontAfter(cfg, s, input);
      }
    }
  }

  lemma OrderNext(cfg: Config, s: Cpu, input: Inputs, log: Log)
    requires Inv(cfg, s) && cfg.ids.Unbounded? && Account(s, log)
    ensures var next, log' := Step(cfg, s, input), LogNext(cfg, s, input, log);
      Increasing(log'.retired + Flight(next.be))
  {
    hide Plus, Step, IssueToken, Inv, Issues, TrapFlush, Behind, Before, Flight, Increasing, TokenLinks, Redirect, MemStall;
    var iss, mem, exe, wb := TokenLinks(IssueToken(cfg, s, input)), TokenLinks(s.be.mem), TokenLinks(s.be.exe), TokenLinks(s.be.wb);
    Members(s, log);
    FlightMoves(cfg, s, input);
    BehindNext(cfg, s, input, log);
    AtMostOne(IssueToken(cfg, s, input));
    var done := log.retired + wb;
    assert log.retired + Flight(s.be) == done + mem + exe;
    InOrder(done, mem, exe, iss, log.retired + Flight(s.be));
    assert done + (mem + exe + iss) == done + mem + exe + iss;
  }

  lemma AtMostOne(t: Token)
    ensures |TokenLinks(t)| <= 1
  {}

  lemma AccountNext(cfg: Config, s: Cpu, input: Inputs, log: Log)
    requires Inv(cfg, s) && cfg.ids.Unbounded? && Account(s, log)
    ensures Account(Step(cfg, s, input), LogNext(cfg, s, input, log))
  {
    hide Plus, Step, IssueToken, Inv, Issues, TrapFlush, Behind, Before, Flight, Increasing, TokenLinks, Redirect, MemStall;
    FlightMoves(cfg, s, input);
    BehindNext(cfg, s, input, log);
    OrderNext(cfg, s, input, log);
    Balance(log.issued, log.retired, log.killed, TokenLinks(s.be.wb), TokenLinks(s.be.mem), TokenLinks(s.be.exe),
            TokenLinks(IssueToken(cfg, s, input)), TrapFlush(s.be, input));
  }

  lemma InOrder(done: seq<Link>, mem: seq<Link>, exe: seq<Link>, iss: seq<Link>, all: seq<Link>)
    requires all == done + mem + exe && Increasing(all) && |iss| <= 1
    requires forall x, y :: x in all && y in iss ==> Before(x, y)
    ensures Increasing(done + mem)
    ensures Increasing(done + mem + exe + iss)
  {
    hide Before;
    Skip(done, mem, exe);
    if iss != [] {
      IncreasingAppend(all, iss[0]);
      assert iss == [iss[0]];
    } else {
      assert done + mem + exe + iss == all;
    }
  }

  // ---- every run ------------------------------------------------------------------------------------------

  lemma {:induction false} AccountRun(cfg: Config, inputs: seq<Inputs>)
    requires cfg.Valid() && cfg.ids.Unbounded?
    ensures Account(Watch(cfg, inputs).cpu, LogOf(cfg, inputs))
    decreases |inputs|
  {
    hide Cycle, Inv, Account, LogNext, Step;
    if inputs == [] {
      AccountStart(cfg);
    } else {
      var before, input := inputs[..|inputs| - 1], inputs[|inputs| - 1];
      AccountRun(cfg, before);
      InvRun(cfg, before);
      AccountNext(cfg, Watch(cfg, before).cpu, input, LogOf(cfg, before));
      CycleLogs(cfg, Watch(cfg, before), input);
    }
  }

  lemma AccountStart(cfg: Config)
    ensures Account(Start(cfg).cpu, Log([], [], []))
  {
    assert Flight(Reset(cfg).be) == [];
  }

  // ---- suppression --------------------------------------------------------------------------------------

  /** Nothing in `xs` is both of an epoch up to `epoch` and younger than `r`. */
  ghost predicate Spares(r: Link, epoch: nat, xs: seq<Link>) {
    forall k :: 0 <= k < |xs| ==> xs[k].epoch > epoch || !Before(r, xs[k])
  }

  /** The instruction that redirects the frontend in this cycle: MEM's if it traps, or EXE's. */
  function Redirecting(be: Backend, input: Inputs): Link {
    if TrapFlush(be, input) then TokenLink(be.mem) else TokenLink(be.exe)
  }

  /** After a redirect nothing that was fetched behind the redirecting instruction is in flight. */
  lemma RedirectSpares(cfg: Config, s: Cpu, input: Inputs)
    requires Inv(cfg, s) && cfg.ids.Unbounded? && Redirect(s.be, input)
    ensures var next := Step(cfg, s, input);
      next.fe.epoch == s.fe.epoch + 1 && Spares(Redirecting(s.be, input), s.fe.epoch, Flight(next.be))
  {
    hide Plus, Step, IssueToken, Redirect, MemStall, TakeTrap, Flight, Mirrored, EpochsOk, WbOk, TrapDrained, FetchOk,
         QueueOk, Stream, Chain;
    EpochAfterRedirect(cfg, s, input);
    FlightMoves(cfg, s, input);
    FlushRedirects(s.be, input);
    TokensMove(cfg, s, input);
    if s.be.mem.Alive() && s.be.exe.valid {
      MemThenExe(cfg, s);
    }
  }

  /** And nothing of that kind ever comes back. */
  lemma SparesNext(cfg: Config, s: Cpu, input: Inputs, r: Link, epoch: nat)
    requires Inv(cfg, s) && cfg.ids.Unbounded? && s.fe.epoch > epoch && Spares(r, epoch, Flight(s.be))
    ensures var next := Step(cfg, s, input);
      next.fe.epoch > epoch && Spares(r, epoch, Flight(next.be))
  {
    hide Plus, Step, IssueToken, Redirect, MemStall, TakeTrap, TrapFlush, Flight, Inv, Before, Issues;
    FlightMoves(cfg, s, input);
    IssueTokenShape(cfg, s, input);
    if Redirect(s.be, input) {
      EpochAfterRedirect(cfg, s, input);
    } else {
      FrontAfter(cfg, s, input);
    }
    PartsSpared(r, epoch, TokenLinks(s.be.wb), TokenLinks(s.be.mem), TokenLinks(s.be.exe),
                TokenLinks(IssueToken(cfg, s, input)));
  }

  lemma PartsSpared(r: Link, epoch: nat, wb: seq<Link>, mem: seq<Link>, exe: seq<Link>, iss: seq<Link>)
    requires Spares(r, epoch, wb + (mem + exe)) && forall k :: 0 <= k < |iss| ==> iss[k].epoch > epoch
    ensures Spares(r, epoch, mem) && Spares(r, epoch, mem + exe + iss)
  {
    hide Before;
    var xs := wb + (mem + exe);
    assert forall k :: 0 <= k < |mem + exe| ==> (mem + exe)[k] == xs[|wb| + k];
    assert forall k :: 0 <= k < |mem| ==> mem[k] == (mem + exe)[k];
  }
}
