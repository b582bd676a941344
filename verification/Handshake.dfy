/** The receive path as a concurrent protocol: device ticks, the interrupt handler of
    freertos_demo/port_glue/app_irq_handler.c and the receive task of freertos_demo/app/main.c,
    interleaved at single register accesses in every way. */
module Handshake {
  import opened Words
  import opened Dram
  import opened Devices

  /** Where the interrupt handler is. It runs to its end before the task goes on. */
  datatype Isr = Idle | Entered | Sampled(pending: Word) | Given(pending: Word)

  /** Where the receive task is: on the semaphore, or inside `uart_try_getc`. */
  datatype Task = Waiting | Checking | Peeking | Popping(byte: Byte)

  /** `terminal` holds the bytes that the terminal has yet to deliver. */
  datatype Soc = Soc(uart: UartState, agg: AggState, terminal: seq<Byte>, isr: Isr, task: Task, semaphore: bool,
                     received: seq<Byte>)

  /** `Tick(offers)`: the terminal may or may not have its next byte ready. */
  datatype Event = Tick(offers: bool) | TakeInterrupt | IsrStep | TaskStep

  function Offered(s: Soc, offers: bool): Option<Byte> {
    if offers && s.terminal != [] then Some(s.terminal[0]) else None
  }

  function TickNext(s: Soc, offers: bool): Soc {
    var ready := Offered(s, offers);
    var (u, g) := TickAll(s.uart, s.agg, ready);
    s.(uart := u, agg := g, terminal := if !s.uart.rxValid && ready.Some? then s.terminal[1..] else s.terminal)
  }

  function IsrNext(s: Soc): Option<Soc> {
    match s.isr
    case Idle => None
    case Entered => Some(s.(isr := Sampled(AggRead(s.agg, PENDING, 4).1)))
    case Sampled(w) => Some(s.(isr := Given(w), semaphore := s.semaphore || Bit(w)))
    case Given(w) => Some(s.(isr := Idle, agg := AggWrite(s.agg, PENDING, 4, w, 0xf).1))
  }

  function TaskNext(s: Soc): Option<Soc> {
    match s.task
    case Waiting => if s.semaphore then Some(s.(task := Checking, semaphore := false)) else None
    case Checking => Some(s.(task := if Flag(UartRead(s.uart, STATUS, 4).1, RX_VALID) then Peeking else Waiting))
    case Peeking => Some(s.(task := Popping(ByteOf(UartRead(s.uart, RX_DATA, 4).1, 0))))
    case Popping(b) =>
      Some(s.(task := Checking, uart := UartWrite(s.uart, STATUS, 4, RX_VALID, 0xf).1, received := s.received + [b]))
  }

  /** The state after an event, or nothing if the event cannot happen. */
  function Next(s: Soc, e: Event): Option<Soc> {
    match e
    case Tick(offers) => Some(TickNext(s, offers))
    case TakeInterrupt => if s.isr == Idle && Meip(s.agg) then Some(s.(isr := Entered)) else None
    case IsrStep => IsrNext(s)
    case TaskStep => if s.isr == Idle then TaskNext(s) else None
  }

  /** The source enabled, nothing pending, the buffer empty and the task on the semaphore. */
  predicate Begins(s: Soc) {
    && !s.uart.rxValid && !s.agg.edge && Bit(s.agg.enable)
    && s.isr == Idle && s.task == Waiting && s.received == []
  }

  // ---- what every reachable state satisfies ---------------------------------------------------------

  /** A byte in the buffer of a waiting task has left a trace that will wake it. */
  predicate WakeupPending(s: Soc) { s.uart.rxValid && s.task == Waiting ==> Bit(s.agg.pending) || s.semaphore }

  predicate HandlerOk(s: Soc) {
    match s.isr
    case Idle => true
    case Entered => Bit(s.agg.pending)
    case Sampled(w) => Bit(w) && w == Keep(w, VALID_MASK)
    case Given(w) => Bit(w) && w == Keep(w, VALID_MASK) && s.semaphore
  }

  predicate TaskOk(s: Soc) {
    match s.task
    case Waiting => true
    case Checking => true
    case Peeking => s.uart.rxValid
    case Popping(b) => s.uart.rxValid && s.uart.rxByte == b
  }

  predicate Wires(s: Soc) { !s.agg.edge && Bit(s.agg.enable) }

  function Buffered(u: UartState): seq<Byte> { if u.rxValid then [u.rxByte] else [] }

  /** `input` is all that the terminal delivers. */
  predicate Accounted(s: Soc, input: seq<Byte>) { input == s.received + Buffered(s.uart) + s.terminal }

  predicate Inv(s: Soc, input: seq<Byte>) {
    WakeupPending(s) && HandlerOk(s) && TaskOk(s) && Wires(s) && Accounted(s, input)
  }

  lemma TickKeeps(s: Soc, offers: bool, input: seq<Byte>)
    requires Inv(s, input)
    ensures Inv(TickNext(s, offers), input)
  {
    hide Keep, BitOr, Flag;
    SetBit(s.agg.pending);
  }

  lemma IsrKeeps(s: Soc, input: seq<Byte>)
    requires Inv(s, input) && IsrNext(s).Some?
    ensures Inv(IsrNext(s).value, input)
  {
    hide Keep, BitClear, Flag;
    SampleBit(s.agg.pending);
    KeepAgain(s.agg.pending);
  }

  lemma TaskKeeps(s: Soc, input: seq<Byte>)
    requires Inv(s, input) && TaskNext(s).Some? && s.isr == Idle
    ensures Inv(TaskNext(s).value, input)
  {
    hide Keep, Flag, ByteOf, Bit, UartRead, UartWrite, HandlerOk;
    ReceiveRegisters(s.uart);
    assert HandlerOk(TaskNext(s).value) by { IdleOk(TaskNext(s).value); }
  }

  lemma IdleOk(s: Soc)
    requires s.isr == Idle
    ensures HandlerOk(s)
  {}

  /** What the three accesses of `uart_try_getc` do. */
  lemma ReceiveRegisters(u: UartState)
    ensures Flag(UartRead(u, STATUS, 4).1, RX_VALID) == u.rxValid
    ensures u.rxValid ==> ByteOf(UartRead(u, RX_DATA, 4).1, 0) == u.rxByte
    ensures UartWrite(u, STATUS, 4, RX_VALID, 0xf).1 == UartState(0, false)
  {
    hide Flag, ByteOf;
    ValidFlag();
    LowByte(u.rxByte);
  }

  lemma InvNext(s: Soc, e: Event, input: seq<Byte>)
    requires Inv(s, input) && Next(s, e).Some?
    ensures Inv(Next(s, e).value, input)
  {
    hide Keep, Flag, BitOr, BitClear, ByteOf, TickNext, IsrNext, TaskNext;
    match e
    case Tick(offers) => TickKeeps(s, offers, input);
    case TakeInterrupt => MeipBits(s.agg);
    case IsrStep => IsrKeeps(s, input);
    case TaskStep => TaskKeeps(s, input);
  }

  // ---- runs ------------------------------------------------------------------------------------------------

  function Run(s: Soc, events: seq<Event>): Option<Soc>
    decreases |events|
  {
    if events == [] then Some(s)
    else
      match Next(s, events[0])
      case None => None
      case Some(s') => Run(s', events[1..])
  }

  lemma {:induction false} InvRun(s: Soc, events: seq<Event>, input: seq<Byte>)
    requires Inv(s, input) && Run(s, events).Some?
    ensures Inv(Run(s, events).value, input)
    decreases |events|
  {
    hide Inv, Next;
    if events != [] {
      InvNext(s, events[0], input);
      InvRun(Next(s, events[0]).value, events[1..], input);
    }
  }

  /** Under every interleaving the drained bytes are, in order and without loss or repetition, a
      prefix of what the terminal delivers; and a byte never waits for a task that nothing will wake. */
  lemma NoLostByteNoLostWakeup(s: Soc, events: seq<Event>)
    requires Begins(s) && Run(s, events).Some?
    ensures var s' := Run(s, events).value;
      && s.terminal == s'.received + Buffered(s'.uart) + s'.terminal
      && (s'.uart.rxValid && s'.task == Waiting ==> Bit(s'.agg.pending) || s'.semaphore)
  {
    hide Run;
    InvRun(s, events, s.terminal);
  }

  // ---- wakeups -----------------------------------------------------------------------------------------------

  /** The task goes on from the semaphore. */
  predicate Wakes(s: Soc, s': Soc) { s.task == Waiting && s'.task != Waiting }

  /** The processor enters the handler. */
  predicate Interrupts(s: Soc, s': Soc) { s.isr == Idle && s'.isr != Idle }

  /** The UART takes a byte from the terminal. */
  predicate Latches(s: Soc, s': Soc) { |s'.terminal| < |s.terminal| }

  function One(b: bool): nat { if b then 1 else 0 }

  /** How often each happens in a run. */
  datatype Tally = Tally(wakes: nat, gives: nat, interrupts: nat, latches: nat)

  /** A give is a handler step behind which the handler has given the semaphore. */
  predicate Gives(s: Soc, s': Soc) { !s.isr.Given? && s'.isr.Given? }

  function Count(s: Soc, events: seq<Event>): Tally
    requires Run(s, events).Some?
    decreases |events|
  {
    if events == [] then Tally(0, 0, 0, 0)
    else
      var s' := Next(s, events[0]).value;
      var t := Count(s', events[1..]);
      Tally(t.wakes + One(Wakes(s, s')), t.gives + One(Gives(s, s')), t.interrupts + One(Interrupts(s, s')),
            t.latches + One(Latches(s, s')))
  }

  function Semaphores(s: Soc): nat { One(s.semaphore) }

  /** Interrupts that the handler has yet to give the semaphore for. */
  function Owed(s: Soc): nat { One(s.isr.Entered? || s.isr.Sampled?) }

  /** An edge that the processor has yet to take an interrupt for. */
  function Edges(s: Soc): nat { One(s.isr == Idle && Bit(s.agg.pending)) }

  /** One event: what it adds to a tally, and what that leaves. */
  lemma TallyStep(s: Soc, e: Event, input: seq<Byte>)
    requires Inv(s, input) && Next(s, e).Some?
    ensures var s' := Next(s, e).value;
      && One(Wakes(s, s')) + Semaphores(s') <= One(Gives(s, s')) + Semaphores(s)
      && One(Gives(s, s')) + Owed(s') == One(Interrupts(s, s')) + Owed(s)
      && One(Interrupts(s, s')) + Edges(s') <= One(Latches(s, s')) + Edges(s)
  {
    hide Keep, Flag, ByteOf, BitClear, BitOr, Bit;
    MeipBits(s.agg);
    if s.isr.Given? {
      ClearedBit(s.agg.pending, s.isr.pending);
    }
  }

  /** In every run the task wakes at most once per give, the handler gives exactly once per interrupt, and
      the processor takes at most one interrupt per byte latched, beside what was there at the start. */
  lemma {:induction false} WakesPerByte(s: Soc, events: seq<Event>, input: seq<Byte>)
    requires Inv(s, input) && Run(s, events).Some?
    ensures var t, s' := Count(s, events), Run(s, events).value;
      && t.wakes + Semaphores(s') <= t.gives + Semaphores(s)
      && t.gives + Owed(s') == t.interrupts + Owed(s)
      && t.interrupts + Edges(s') <= t.latches + Edges(s)
    decreases |events|
  {
    hide Inv, Next, Wakes, Gives, Interrupts, Latches, Semaphores, Owed, Edges;
    if events != [] {
      TallyStep(s, events[0], input);
      InvNext(s, events[0], input);
      WakesPerByte(Next(s, events[0]).value, events[1..], input);
    }
  }

  // ---- delivery -------------------------------------------------------------------------------------------------

  predicate IsCpu(e: Event) { !e.Tick? }

  function CpuEvents(events: seq<Event>): nat {
    if events == [] then 0 else (if IsCpu(events[0]) then 1 else 0) + CpuEvents(events[1..])
  }

  /** How many processor events a buffered byte is from being drained, at most. */
  function Rank(s: Soc): nat {
    (match s.task
     case Waiting => if s.semaphore then 4 else 5
     case Checking => 3
     case Peeking => 2
     case Popping(_) => 1) +
    (match s.isr
     case Idle => if Bit(s.agg.pending) then 4 else 0
     case Entered => 3
     case Sampled(_) => 2
     case Given(_) => 1)
  }

  /** The processor is never stuck in front of a buffered byte. */
  lemma SomeCpuStep(s: Soc, input: seq<Byte>)
    requires Inv(s, input) && s.uart.rxValid
    ensures Next(s, TakeInterrupt).Some? || Next(s, IsrStep).Some? || Next(s, TaskStep).Some?
  {
    hide Keep, Flag, ByteOf, BitClear;
    MeipBits(s.agg);
  }

  /** Each of its steps takes it on, and a tick does not set it back. */
  lemma RankFalls(s: Soc, e: Event, input: seq<Byte>)
    requires Inv(s, input) && s.uart.rxValid && Next(s, e).Some?
    ensures var s' := Next(s, e).value;
      if IsCpu(e) then
        (s'.received == s.received && s'.uart.rxValid && Rank(s') < Rank(s)) ||
        (Rank(s) >= 1 && s'.received == s.received + [s.uart.rxByte])
      else s'.received == s.received && s'.uart.rxValid && Rank(s') <= Rank(s)
  {
    hide Keep, Flag, ByteOf, BitClear, BitOr;
    MeipBits(s.agg);
    ValidFlag();
    LowByte(s.uart.rxByte);
    if s.isr.Given? {
      ClearedBit(s.agg.pending, s.isr.pending);
    }
  }

  lemma ClearedBit(w: Word, sampled: Word)
    requires Bit(sampled) && sampled == Keep(sampled, VALID_MASK)
    ensures !Bit(BitClear(w, Keep(sampled, VALID_MASK)))
  {}

  lemma {:induction false} ReceivedGrows(s: Soc, events: seq<Event>)
    requires Run(s, events).Some?
    ensures s.received <= Run(s, events).value.received
    decreases |events|
  {
    hide TickNext, UartWrite, UartRead, AggRead, AggWrite, Flag, ByteOf, Meip;
    if events != [] {
      TickReceives(s);
      ReceivedGrows(Next(s, events[0]).value, events[1..]);
    }
  }

  lemma TickReceives(s: Soc)
    ensures forall offers :: TickNext(s, offers).received == s.received
  {}

  /** A buffered byte is drained once the processor has made nine steps, whatever happens between them. */
  lemma {:induction false} Delivered(s: Soc, events: seq<Event>, input: seq<Byte>)
    requires Inv(s, input) && s.uart.rxValid && Run(s, events).Some? && CpuEvents(events) >= Rank(s)
    ensures s.received + [s.uart.rxByte] <= Run(s, events).value.received
    ensures Rank(s) <= 9
    decreases |events|
  {
    hide Next, Inv;
    RankPositive(s);
    var s' := Next(s, events[0]).value;
    RankFalls(s, events[0], input);
    InvNext(s, events[0], input);
    if s'.received == s.received {
      ByteStays(s, events[0]);
      Delivered(s', events[1..], input);
    } else {
      ReceivedGrows(s', events[1..]);
    }
  }

  lemma RankPositive(s: Soc)
    ensures 1 <= Rank(s) <= 9
  {}

  lemma ByteStays(s: Soc, e: Event)
    requires s.uart.rxValid && Next(s, e).Some? && Next(s, e).value.uart.rxValid
    ensures Next(s, e).value.uart.rxByte == s.uart.rxByte
  {
    hide Keep, Flag, ByteOf, BitClear, BitOr;
    ValidFlag();
  }

  // ---- rest --------------------------------------------------------------------------------------------------------

  /** How many processor events there are to come without another byte, at most. */
  function Work(s: Soc): nat {
    (match s.task
     case Waiting => if s.uart.rxValid then 3 else 0
     case Checking => if s.uart.rxValid then 4 else 1
     case Peeking => 3
     case Popping(_) => 2) +
    (if s.semaphore then 2 else 0) +
    (match s.isr
     case Idle => if Bit(s.agg.pending) then 6 else 0
     case Entered => 5
     case Sampled(_) => 4
     case Given(_) => 1)
  }

  lemma WorkStep(s: Soc, e: Event, input: seq<Byte>)
    requires Inv(s, input) && Next(s, e).Some?
    ensures var s' := Next(s, e).value; One(IsCpu(e)) + Work(s') <= 9 * One(Latches(s, s')) + Work(s)
  {
    hide Keep, Flag, ByteOf, BitClear, BitOr;
    MeipBits(s.agg);
    ReceiveRegisters(s.uart);
    if s.isr.Given? {
      ClearedBit(s.agg.pending, s.isr.pending);
    }
  }

  /** The processor comes to rest: in every run it makes at most nine events per byte latched, beside those
      that were to come at the start. */
  lemma {:induction false} WorkPerByte(s: Soc, events: seq<Event>, input: seq<Byte>)
    requires Inv(s, input) && Run(s, events).Some?
    ensures CpuEvents(events) + Work(Run(s, events).value) <= 9 * Count(s, events).latches + Work(s)
    decreases |events|
  {
    hide Inv, Next, Work, Latches, IsCpu, Wakes, Gives, Interrupts;
    if events != [] {
      WorkStep(s, events[0], input);
      InvNext(s, events[0], input);
      WorkPerByte(Next(s, events[0]).value, events[1..], input);
    }
  }

  // ---- the start ---------------------------------------------------------------------------------------------------

  /** Everything in place except that a byte was latched, and its edge cleared, before the task runs. */
  predicate ByteBeforeStart(s: Soc) {
    && s.uart.rxValid && !Bit(s.agg.pending) && !s.semaphore
    && s.isr == Idle && s.task == Waiting && !s.agg.edge
  }

  /** Then the byte stays for ever, and nothing is received: with the source enabled and the handler
      and the task at rest, the path works exactly if the buffer is empty or a wakeup is on its way. */
  lemma {:induction false} StuckForEver(s: Soc, events: seq<Event>)
    requires ByteBeforeStart(s) && Run(s, events).Some?
    ensures ByteBeforeStart(Run(s, events).value) && Run(s, events).value.received == s.received
    decreases |events|
  {
    hide Keep, Flag, ByteOf, BitClear, BitOr, UartRead, UartWrite, AggRead, AggWrite;
    MeipBits(s.agg);
    if events != [] {
      StuckForEver(Next(s, events[0]).value, events[1..]);
    }
  }

  lemma StartsRight(s: Soc, input: seq<Byte>)
    requires s.isr == Idle && s.task == Waiting && Wires(s) && Accounted(s, input)
    ensures Inv(s, input) <==> !ByteBeforeStart(s)
  {}

  // ---- the boot sequence ------------------------------------------------------------------------------------------

  function Ticks(s: Soc, offers: seq<bool>): Soc {
    if offers == [] then s else TickNext(Ticks(s, offers[..|offers| - 1]), offers[|offers| - 1])
  }

  /** The devices after reset, with the task yet to be started and interrupts off. */
  function AfterReset(input: seq<Byte>): Soc {
    Soc(UartState(0, false), AggState(0, 0, false), input, Idle, Waiting, false, [])
  }

  function Written(s: Soc, offset: nat): Soc { s.(agg := AggWrite(s.agg, offset, 4, VALID_MASK, 0xf).1) }

  /** The boot code unmasks the source and clears what is pending, with ticks before each of the writes. */
  function Booted(input: seq<Byte>, before: seq<bool>, between: seq<bool>): Soc {
    Written(Ticks(Written(Ticks(AfterReset(input), before), ENABLE), between), PENDING)
  }

  /** No interrupt is taken and the task does not run; a byte is in the buffer if one was on offer. */
  predicate Booting(s: Soc, input: seq<Byte>, offered: bool) {
    && s.isr == Idle && s.task == Waiting && !s.semaphore && s.received == [] && !s.agg.edge
    && s.uart.rxValid == (offered && input != []) && Accounted(s, input)
  }

  lemma {:induction false} TicksBoot(s: Soc, input: seq<Byte>, offered: bool, offers: seq<bool>)
    requires Booting(s, input, offered)
    ensures Booting(Ticks(s, offers), input, offered || true in offers) && Ticks(s, offers).agg.enable == s.agg.enable
  {
    hide BitOr;
    if offers != [] {
      var before := offers[..|offers| - 1];
      assert offers == before + [offers[|offers| - 1]];
      TicksBoot(s, input, offered, before);
    }
  }

  /** What the boot sequence leaves. */
  lemma BootEnds(input: seq<Byte>, before: seq<bool>, between: seq<bool>)
    ensures var s, latched := Booted(input, before, between), input != [] && true in before + between;
      if latched then ByteBeforeStart(s) && s.received == [] else Begins(s) && s.terminal == input
  {
    hide Bit, Ticks, Keep, BitClear;
    var s1 := Ticks(AfterReset(input), before);
    TicksBoot(AfterReset(input), input, false, before);
    AggWriteMeans(s1.agg, ENABLE, 4, VALID_MASK, 0xf);
    TicksBoot(Written(s1, ENABLE), input, true in before, between);
    AggWriteMeans(Ticks(Written(s1, ENABLE), between).agg, PENDING, 4, VALID_MASK, 0xf);
    SetBit(0);
    ValidBit();
  }

  lemma ValidBit()
    ensures Bit(VALID_MASK)
  {}

  /** After the boot sequence the receive path never loses a wakeup, if and only if no tick before the
      clearing write found a byte on the terminal. If one did, nothing is ever received. */
  lemma BootDecides(input: seq<Byte>, before: seq<bool>, between: seq<bool>)
    ensures var s, latched := Booted(input, before, between), input != [] && true in before + between;
      && ((forall events :: Run(s, events).Some? ==> WakeupPending(Run(s, events).value)) <==> !latched)
      && (latched ==> forall events :: Run(s, events).Some? ==> Run(s, events).value.received == [])
  {
    hide Run, Bit, Booted;
    var s, latched := Booted(input, before, between), input != [] && true in before + between;
    BootEnds(input, before, between);
    forall events | Run(s, events).Some?
      ensures latched ==> Run(s, events).value.received == []
      ensures !latched ==> WakeupPending(Run(s, events).value)
    {
      if latched {
        StuckForEver(s, events);
      } else {
        NoLostByteNoLostWakeup(s, events);
      }
    }
    RunsNowhere(s);
  }

  lemma RunsNowhere(s: Soc)
    ensures Run(s, []) == Some(s)
  {}
}
