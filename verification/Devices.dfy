/** The UART and the interrupt aggregator: devices/uart/src/uart.c, devices/irq_agg/src/irq_agg.c,
    and the tick order of snake_soc/src/snake_soc.c. */
module Devices {
  import opened Words
  import opened Dram

  // ---- registers as values ---------------------------------------------------------------------

  datatype UartState = UartState(rxByte: Byte, rxValid: bool)
  datatype AggState = AggState(pending: Word, enable: Word, edge: bool)

  const TX_DATA: nat := 0x0
  const STATUS: nat := 0x4
  const RX_DATA: nat := 0x8
  const RX_VALID: Word := 0x2

  const PENDING: nat := 0x0
  const ENABLE: nat := 0x4
  const VALID_MASK: Word := 0x1

  predicate PlainWidth(width: nat) { width == 1 || width == 2 || width == 4 }

  function UartRead(u: UartState, offset: nat, width: nat): (Resp, Word) {
    if !PlainWidth(width) then (SlvErr, 0)
    else if offset == STATUS then (Okay, if u.rxValid then RX_VALID else 0)
    else if offset == RX_DATA then (Okay, if u.rxValid then u.rxByte as Word else 0)
    else (SlvErr, 0)
  }

  /** The response, and the byte sent to the terminal if there is one. */
  function UartWrite(u: UartState, offset: nat, width: nat, value: Word, strb: bv8): (Resp, UartState, Option<Byte>) {
    if !PlainWidth(width) || (width == 4 && strb != 0xf) then (SlvErr, u, None)
    else if offset == TX_DATA then (Okay, u, Some(ByteOf(value, 0)))
    else if offset == STATUS then (Okay, if Flag(value, RX_VALID) then UartState(0, false) else u, None)
    else (SlvErr, u, None)
  }

  function AggRead(g: AggState, offset: nat, width: nat): (Resp, Word) {
    if width != 4 || offset % 4 != 0 then (SlvErr, 0)
    else if offset == PENDING then (Okay, Keep(g.pending, VALID_MASK))
    else if offset == ENABLE then (Okay, Keep(g.enable, VALID_MASK))
    else (SlvErr, 0)
  }

  function AggWrite(g: AggState, offset: nat, width: nat, value: Word, strb: bv8): (Resp, AggState) {
    if width != 4 || strb != 0xf || offset % 4 != 0 then (SlvErr, g)
    else if offset == PENDING then (Okay, g.(pending := BitClear(g.pending, Keep(value, VALID_MASK))))
    else if offset == ENABLE then (Okay, g.(enable := Keep(value, VALID_MASK)))
    else (SlvErr, g)
  }

  predicate Meip(g: AggState) { Flag(Keep(g.pending, g.enable), VALID_MASK) }

  /** A tick of the UART, where `ready` is what the terminal has to offer: a byte is taken only into
      an empty buffer, and then raises the edge wire. */
  function UartTick(u: UartState, g: AggState, ready: Option<Byte>): (UartState, AggState) {
    if !u.rxValid && ready.Some? then (UartState(ready.value, true), g.(edge := true)) else (u, g)
  }

  function AggTick(g: AggState): AggState {
    g.(pending := if g.edge then BitOr(g.pending, VALID_MASK) else g.pending, edge := false)
  }

  /** `Ticker_tick_all` in the order of registration: the UART before the aggregator. */
  function TickAll(u: UartState, g: AggState, ready: Option<Byte>): (UartState, AggState) {
    var (u', g') := UartTick(u, g, ready);
    (u', AggTick(g'))
  }

  // ---- bit 0 of the aggregator -----------------------------------------------------------------------

  predicate Bit(w: Word) { Flag(w, VALID_MASK) }

  lemma MeipBits(g: AggState)
    ensures Meip(g) <==> Bit(g.pending) && Bit(g.enable)
  {}

  lemma SampleBit(w: Word)
    ensures Bit(Keep(w, VALID_MASK)) == Bit(w)
  {}

  lemma SetBit(w: Word)
    ensures Bit(BitOr(w, VALID_MASK))
  {}

  /** Writing back what was sampled clears the bit if it was sampled, and nothing else. */
  lemma ClearSampled(w: Word, sampled: Word)
    ensures Bit(BitClear(w, Keep(Keep(sampled, VALID_MASK), VALID_MASK))) == (Bit(w) && !Bit(sampled))
  {}

  // ---- what an access does ----------------------------------------------------------------------------

  /** The bits of a word that the aggregator does not implement. */
  function Rest(w: Word): Word { Keep(w, 0xffff_fffe) }

  lemma ClearBit(w: Word, v: Word)
    ensures Bit(BitClear(w, Keep(v, VALID_MASK))) == (Bit(w) && !Bit(v))
  {}

  lemma ClearRest(w: Word, v: Word)
    ensures Rest(BitClear(w, Keep(v, VALID_MASK))) == Rest(w)
  {
    var one := v & 1;
    if one == 0 {
      assert !one == 0xffff_ffff;
    } else {
      assert one == 1 && !one == 0xffff_fffe;
    }
  }

  lemma SetRest(w: Word)
    ensures Rest(BitOr(w, VALID_MASK)) == Rest(w)
  {}

  /** The aggregator takes whole words at its two registers and refuses all else, which then changes
      nothing. A write to PENDING clears the valid bit exactly if it holds a one there; a write to ENABLE
      sets the enable as it is; neither touches another bit, the other register or the edge wire. */
  lemma AggWriteMeans(g: AggState, offset: nat, width: nat, value: Word, strb: bv8)
    ensures var (resp, g') := AggWrite(g, offset, width, value, strb);
      && (resp == Okay <==> width == 4 && strb == 0xf && (offset == PENDING || offset == ENABLE))
      && (resp != Okay ==> resp == SlvErr && g' == g)
      && (resp == Okay && offset == PENDING ==>
            && g'.enable == g.enable && g'.edge == g.edge
            && (Bit(g'.pending) <==> Bit(g.pending) && !Bit(value)) && Rest(g'.pending) == Rest(g.pending))
      && (resp == Okay && offset == ENABLE ==>
            && g'.pending == g.pending && g'.edge == g.edge
            && Bit(g'.enable) == Bit(value) && AggRead(g', ENABLE, 4) == (Okay, Keep(value, VALID_MASK)))
  {
    hide Keep, BitClear, Bit, Rest;
    ClearBit(g.pending, value);
    ClearRest(g.pending, value);
    SampleBit(value);
    KeepAgain(value);
  }

  lemma KeepAgain(w: Word)
    ensures Keep(Keep(w, VALID_MASK), VALID_MASK) == Keep(w, VALID_MASK)
  {}

  /** A tick makes an edge pending once. Clearing PENDING before the tick does not lose the edge; after
      it, that stops the interrupt until there is a new edge. */
  lemma AggTickMeans(g: AggState, value: Word, strb: bv8)
    ensures var g' := AggTick(g);
      && (Bit(g'.pending) <==> Bit(g.pending) || g.edge) && Rest(g'.pending) == Rest(g.pending)
      && g'.enable == g.enable && AggTick(g') == g'
    ensures g.edge ==> Bit(AggTick(AggWrite(g, PENDING, 4, value, strb).1).pending)
    ensures Bit(value) ==> !Meip(AggTick(AggWrite(AggTick(g), PENDING, 4, value, 0xf).1))
  {
    hide Keep, BitClear, BitOr, Bit, Rest, Meip;
    SetBit(g.pending);
    SetRest(g.pending);
    ClearBit(AggTick(g).pending, value);
    SetBit(AggWrite(g, PENDING, 4, value, strb).1.pending);
    MeipBits(AggTick(AggWrite(AggTick(g), PENDING, 4, value, 0xf).1));
  }

  /** The UART sends the low byte of what is written to TX_DATA, and sends nothing else. The only write
      that changes it is the pop: a one in the valid bit of STATUS, which leaves the buffer empty, so
      that the next tick takes a new byte. */
  lemma UartWriteMeans(u: UartState, offset: nat, width: nat, value: Word, strb: bv8, g: AggState, ready: Option<Byte>)
    ensures var (resp, u', sent) := UartWrite(u, offset, width, value, strb);
      var accepted := (width == 1 || width == 2 || (width == 4 && strb == 0xf)) && (offset == TX_DATA || offset == STATUS);
      && resp == (if accepted then Okay else SlvErr)
      && sent == (if accepted && offset == TX_DATA then Some(ByteOf(value, 0)) else None)
      && (if accepted && offset == STATUS && Flag(value, RX_VALID)
          then UartRead(u', STATUS, 4) == UartRead(u', RX_DATA, 4) == (Okay, 0) && UartTick(u', g, ready).0.rxValid == ready.Some?
          else u' == u)
  {
    hide Flag, ByteOf;
  }

  /** A read shows the valid bit in STATUS and the buffered byte, or zero, in RX_DATA, and refuses all else. */
  lemma UartReadMeans(u: UartState, offset: nat, width: nat)
    ensures var (resp, v) := UartRead(u, offset, width);
      && (resp == Okay <==> (width == 1 || width == 2 || width == 4) && (offset == STATUS || offset == RX_DATA))
      && (resp != Okay ==> resp == SlvErr && v == 0)
      && (resp == Okay && offset == STATUS ==> v == if u.rxValid then 2 else 0)
      && (resp == Okay && offset == RX_DATA ==> v < 0x100 && v as Byte == if u.rxValid then u.rxByte else 0)
  {}

  /** The aggregator shows the valid bit of its two registers, and refuses all but their whole words. */
  lemma AggReadMeans(g: AggState, offset: nat, width: nat)
    ensures var (resp, v) := AggRead(g, offset, width);
      && (resp == Okay <==> width == 4 && (offset == PENDING || offset == ENABLE))
      && (resp != Okay ==> resp == SlvErr && v == 0)
      && (resp == Okay ==> v == if Bit(if offset == PENDING then g.pending else g.enable) then 1 else 0)
  {
    ValidBitAlone(g.pending);
    ValidBitAlone(g.enable);
  }

  lemma ValidBitAlone(w: Word)
    ensures Keep(w, VALID_MASK) == if Bit(w) then 1 else 0
  {}

  // ---- the devices ---------------------------------------------------------------------------------------

  class Agg {
    var pending: Word
    var enable: Word
    var edge: bool

    function State(): AggState
      reads this
    {
      AggState(pending, enable, edge)
    }

    constructor ()
      ensures State() == AggState(0, 0, false)
    {
      pending, enable, edge := 0, 0, false;
    }

    method Write(offset: nat, width: nat, value: Word, strb: bv8) returns (resp: Resp)
      modifies this
      ensures (resp, State()) == AggWrite(old(State()), offset, width, value, strb)
    {
      hide Keep, BitClear;
      if width != 4 || strb != 0xf || offset % 4 != 0 {
        return SlvErr;
      }
      match offset
      case 0 =>
        pending := BitClear(pending, Keep(value, VALID_MASK));
        return Okay;
      case 4 =>
        enable := Keep(value, VALID_MASK);
        return Okay;
      case _ => return SlvErr;
    }

    method Tick()
      modifies this
      ensures State() == AggTick(old(State()))
    {
      hide BitOr;
      if edge {
        pending := BitOr(pending, VALID_MASK);
      }
      edge := false;
    }

    method SetEdge(e: bool)
      modifies this
      ensures State() == old(State()).(edge := e)
    {
      edge := e;
    }
  }

  class Uart {
    var rxByte: Byte
    var rxValid: bool

    function State(): UartState
      reads this
    {
      UartState(rxByte, rxValid)
    }

    constructor ()
      ensures State() == UartState(0, false)
    {
      rxByte, rxValid := 0, false;
    }

    method Write(offset: nat, width: nat, value: Word, strb: bv8) returns (resp: Resp, sent: Option<Byte>)
      modifies this
      ensures (resp, State(), sent) == UartWrite(old(State()), offset, width, value, strb)
    {
      hide Flag, ByteOf;
      if !PlainWidth(width) {
        return SlvErr, None;
      }
      if width == 4 && strb != 0xf {
        return SlvErr, None;
      }
      match offset
      case 0 => return Okay, Some(ByteOf(value, 0));
      case 4 =>
        if Flag(value, RX_VALID) {
          rxValid, rxByte := false, 0;
        }
        return Okay, None;
      case _ => return SlvErr, None;
    }

    /** Reads the terminal only when the buffer is empty; `taken` says that it did get a byte. */
    method Tick(irq: Agg, ready: Option<Byte>) returns (taken: bool)
      modifies this, irq
      ensures (State(), irq.State()) == UartTick(old(State()), old(irq.State()), ready)
      ensures taken == (!old(rxValid) && ready.Some?)
    {
      taken := false;
      if !rxValid && ready.Some? {
        rxByte, rxValid := ready.value, true;
        irq.SetEdge(true);
        taken := true;
      }
    }
  }

  /** One pass of the ticker over the two devices: a byte is taken only into an empty buffer, and is
      pending at once. */
  method TickDevices(uart: Uart, agg: Agg, ready: Option<Byte>) returns (taken: bool)
    modifies uart, agg
    ensures (uart.State(), agg.State()) == TickAll(old(uart.State()), old(agg.State()), ready)
    ensures taken == (!old(uart.rxValid) && ready.Some?)
    ensures taken ==> uart.rxValid && uart.rxByte == ready.value && Bit(agg.pending)
    ensures !taken ==> uart.State() == old(uart.State()) && (!old(agg.edge) ==> agg.State() == old(agg.State()))
  {
    hide BitOr, Bit;
    SetBit(agg.pending);
    taken := uart.Tick(agg, ready);
    agg.Tick();
  }

  /** `uart_try_getc`: check, peek, pop. The byte comes out exactly once. */
  method TryGetc(uart: Uart) returns (c: Option<Byte>)
    modifies uart
    ensures c == if old(uart.rxValid) then Some(old(uart.rxByte)) else None
    ensures !uart.rxValid
    ensures !old(uart.rxValid) ==> uart.State() == old(uart.State())
  {
    hide ByteOf, Flag;
    var status := UartRead(uart.State(), STATUS, 4).1;
    ValidFlag();
    if !Flag(status, RX_VALID) {
      return None;
    }
    var byte := ByteOf(UartRead(uart.State(), RX_DATA, 4).1, 0);
    LowByte(uart.rxByte);
    var _, _ := uart.Write(STATUS, 4, RX_VALID, 0xf);
    return Some(byte);
  }

  lemma ValidFlag()
    ensures Flag(RX_VALID, RX_VALID) && !Flag(0, RX_VALID)
  {}

  lemma LowByte(b: Byte)
    ensures ByteOf(b as Word, 0) == b
  {}
}
