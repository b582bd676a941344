/** What every reachable frontend satisfies, and how its part of the instruction stream moves in
    one cycle. Identities are unbounded here; `Wrap` shows that the hardware's few bits suffice. */
module FrontendInv {
  import opened Words
  import opened Uarch
  import opened Core
  import opened Chains
  import Decoder

  function LinkOf(e: QueueEntry): Link { Link(e.epoch, e.seqId, e.ir.pc) }

  function QueueLinks(q: seq<QueueEntry>): (links: seq<Link>)
    ensures |links| == |q|
    ensures forall i :: 0 <= i < |q| ==> links[i] == LinkOf(q[i])
  {
    if q == [] then [] else [LinkOf(q[0])] + QueueLinks(q[1..])
  }

  lemma QueueLinksAppend(q: seq<QueueEntry>, e: QueueEntry)
    ensures QueueLinks(q + [e]) == QueueLinks(q) + [LinkOf(e)]
  {}

  lemma QueueLinksPop(q: seq<QueueEntry>)
    requires q != []
    ensures QueueLinks(q) == [LinkOf(q[0])] + QueueLinks(q[1..])
  {}

  /** The fetched or requested instruction that has not reached the queue. */
  function FetchLinks(f: FetchRegs): seq<Link> {
    if f.out.valid then [Link(f.out.epoch, f.out.seqId, f.out.pc)]
    else if f.outstanding then [Link(f.reqEpoch, f.reqSeq, f.reqPc)]
    else []
  }

  /** The next instruction to request. */
  function NextLink(fe: Frontend): Link { Link(fe.epoch, fe.nextSeq, fe.fetch.pc) }

  function Tail(fe: Frontend): seq<Link> { FetchLinks(fe.fetch) + [NextLink(fe)] }

  function FrontLinks(fe: Frontend): seq<Link> { QueueLinks(fe.queue) + Tail(fe) }

  // ---- the fetch registers ---------------------------------------------------------------

  /** The fetch filters agree: a drop mark exists only for an outstanding request, and exactly
      when the request is of an earlier epoch; a held packet is current and excludes a request. */
  ghost predicate FetchOk(fe: Frontend) {
    var f := fe.fetch;
    && (f.drop ==> f.outstanding)
    && (f.outstanding ==> !f.out.valid && (f.drop <==> f.reqEpoch != fe.epoch))
    && (f.out.valid ==> f.out.epoch == fe.epoch)
  }

  ghost predicate QueueOk(cfg: Config, fe: Frontend) {
    && |fe.queue| <= cfg.queueDepth
    && (forall i :: 0 <= i < |fe.queue| ==> Decoder.WellFormed(fe.queue[i].ir))
  }

  lemma FetchOkNext(cfg: Config, fe: Frontend, input: Inputs, redirect: Option<Word>, issues: bool)
    requires cfg.ids.Unbounded? && FetchOk(fe)
    requires issues ==> fe.queue != []
    requires fe.fetch.outstanding ==> fe.fetch.reqEpoch <= fe.epoch
    ensures FetchOk(FrontendNext(cfg, fe, input, redirect, issues))
  {
    hide Plus, QueueNext, Decoder.Decode;
  }

  lemma QueueOkNext(cfg: Config, fe: Frontend, input: Inputs, redirect: Option<Word>, issues: bool)
    requires cfg.Valid() && QueueOk(cfg, fe)
    requires issues ==> fe.queue != []
    ensures QueueOk(cfg, FrontendNext(cfg, fe, input, redirect, issues))
  {
    hide Plus, FetchNext, Decoder.Decode, Decoder.WellFormed;
    Decoder.DecodeWellFormed(fe.fetch.out.pc, fe.fetch.out.inst, fe.fetch.out.error);
  }

  // ---- how the stream moves -------------------------------------------------------------------

  function Popped(fe: Frontend, issues: bool): seq<QueueEntry>
    requires issues ==> fe.queue != []
  {
    if Pops(fe, issues) then fe.queue[1..] else fe.queue
  }

  /** What the cycle does to the end of the stream when nothing redirects it. */
  datatype TailMove = Same | Requested | DroppedStale

  function MoveOf(cfg: Config, fe: Frontend, input: Inputs): TailMove {
    var f := fe.fetch;
    if ImemReqValid(cfg, fe, false) && input.imemReady then Requested
    else if f.outstanding && input.imemResp.valid && f.reqEpoch != fe.epoch then DroppedStale
    else Same
  }

  function TailAfter(fe: Frontend, move: TailMove): seq<Link> {
    match move
    case Same => Tail(fe)
    case Requested => Tail(fe) + [Link(fe.epoch, fe.nextSeq + 1, Plus(fe.fetch.pc, 4))]
    case DroppedStale => [NextLink(fe)]
  }

  lemma DecodeFetchedLink(p: FetchPkt)
    ensures LinkOf(DecodeFetched(p)) == Link(p.epoch, p.seqId, p.pc)
  {
    hide Decoder.Decode;
    Decoder.DecodeWellFormed(p.pc, p.inst, p.error);
  }

  lemma TailMoves(cfg: Config, fe: Frontend, input: Inputs, issues: bool)
    requires cfg.ids.Unbounded? && FetchOk(fe)
    requires issues ==> fe.queue != []
    ensures var next := FrontendNext(cfg, fe, input, None, issues);
      var kept := TailAfter(fe, MoveOf(cfg, fe, input));
      Tail(next) == if Pushes(cfg, fe, false) then kept[1..] else kept
    ensures Pushes(cfg, fe, false) ==>
      TailAfter(fe, MoveOf(cfg, fe, input))[0] == LinkOf(DecodeFetched(fe.fetch.out))
  {
    hide Plus, QueueNext, Decoder.Decode;
    DecodeFetchedLink(fe.fetch.out);
  }

  /** Without a redirect the stream loses its popped head, and its tail moves. */
  lemma StreamFlows(cfg: Config, fe: Frontend, input: Inputs, issues: bool)
    requires cfg.ids.Unbounded? && FetchOk(fe)
    requires issues ==> fe.queue != []
    ensures FrontLinks(FrontendNext(cfg, fe, input, None, issues)) ==
            QueueLinks(Popped(fe, issues)) + TailAfter(fe, MoveOf(cfg, fe, input))
  {
    hide Plus, FetchNext, DecodeFetched, Tail, TailAfter, MoveOf;
    TailMoves(cfg, fe, input, issues);
    QueueLinksAppend(Popped(fe, issues), DecodeFetched(fe.fetch.out));
    var kept := TailAfter(fe, MoveOf(cfg, fe, input));
    if Pushes(cfg, fe, false) {
      assert kept == [kept[0]] + kept[1..] by {
        PushKeepsTail(cfg, fe, input);
      }
    }
  }

  lemma PushKeepsTail(cfg: Config, fe: Frontend, input: Inputs)
    requires Pushes(cfg, fe, false)
    ensures TailAfter(fe, MoveOf(cfg, fe, input)) != []
  {
    hide Plus;
  }

  /** A redirect empties the fetch output and ends the stream with a link of a new epoch. */
  lemma StreamRedirected(cfg: Config, fe: Frontend, input: Inputs, target: Word)
    requires cfg.ids.Unbounded? && FetchOk(fe)
    ensures var next := FrontendNext(cfg, fe, input, Some(target), false);
      && next.queue == Popped(fe, false)
      && next.epoch == fe.epoch + 1
      && (next.fetch.outstanding ==> fe.fetch.outstanding)
      && Tail(next) == (if next.fetch.outstanding then FetchLinks(fe.fetch) else []) +
                       [Link(fe.epoch + 1, fe.nextSeq, target)]
  {
    hide Plus, Decoder.Decode;
  }
}
