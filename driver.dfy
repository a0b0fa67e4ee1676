/** The TLE5012 driver handle and its one bus transaction, a register read. The SPI
    peripheral and the chip-select pin are the driver's environment: their methods
    below choose nondeterministically among everything the hardware may do. */
module Driver {
  import opened Words
  import opened Registers

  datatype Result<T, E> = Ok(value: T) | Err(error: E)

  /** What a call into the driver does: it returns a `Result`, or it panics, which a
      debug build does when a shift amount fails the overflow check. */
  datatype Outcome<E> = Returned(result: Result<U16, E>) | Panicked

  datatype Level = Low | High

  /** One step of a transaction as the wires see it: a chip-select write (applied or
      failed) or a full-duplex transfer of a frame (what came back, or the bus error). */
  datatype Event<E> =
    | CsWrite(level: Level, applied: bool)
    | Exchange(mosi: seq<Byte>, miso: Result<seq<Byte>, E>)

  /** The chip-select level after the events of t, starting from start: the level of the
      last applied write. */
  function LevelAfter<E>(start: Level, t: seq<Event<E>>): (l: Level) {
    if t == [] then start
    else
      var e := t[|t| - 1];
      if e.CsWrite? && e.applied then e.level else LevelAfter(start, t[..|t| - 1])
  }

  lemma {:induction false} LevelAfterAppend<E>(start: Level, t: seq<Event<E>>, u: seq<Event<E>>)
    ensures LevelAfter(start, t + u) == LevelAfter(LevelAfter(start, t), u)
  {
    if u == [] {
      assert t + u == t;
    } else {
      var u' := u[..|u| - 1];
      assert (t + u)[..|t + u| - 1] == t + u';
      LevelAfterAppend(start, t, u');
    }
  }

  /** One more event moves the level only if it is an applied chip-select write. */
  lemma LevelAfterStep<E>(start: Level, t: seq<Event<E>>, e: Event<E>)
    ensures LevelAfter(start, t + [e]) == if e.CsWrite? && e.applied then e.level else LevelAfter(start, t)
  {
    assert (t + [e])[..|t|] == t;
  }

  /** The 6-byte buffer of a read: the command word big-endian, then four zero bytes that
      clock in the data word and the safety word. */
  function Frame(reg: Command): (f: seq<Byte>)
    ensures |f| == 6 && (f[0] as int) * 0x100 + f[1] == reg.Addr()
    ensures f[2] == 0 && f[3] == 0 && f[4] == 0 && f[5] == 0
  {
    ToBeBytes(reg.Addr()) + [0, 0, 0, 0]
  }

  /** The buffer built from the big-endian command bytes is the frame of the read. */
  lemma FrameBytes(reg: Command, cmd: seq<Byte>, buf: seq<Byte>)
    requires cmd == ToBeBytes(reg.Addr())
    requires buf == [cmd[0], cmd[1], 0, 0, 0, 0]
    ensures buf == Frame(reg)
  {
  }

  /** The two status reads put 0x8001 and 0x8401 on the bus. */
  lemma StatusFrames()
    ensures Frame(Read(ReadCmd.StaCmd)) == [0x80, 0x01, 0, 0, 0, 0]
    ensures Frame(ReadUpd(ReadUpdCmd.StaCmd)) == [0x84, 0x01, 0, 0, 0, 0]
  {
  }

  /** The safety check: a stub that accepts every safety word. */
  function CheckSafety<E>(safety: U16, cmd: seq<Byte>, data: U16): (r: Result<U16, E>) {
    match safety
    case _ => Ok(data)
  }

  /** The stub returns the data word unchanged, whatever the safety word and command. */
  lemma CheckSafetyPassesData<E>(s1: U16, s2: U16, cmd1: seq<Byte>, cmd2: seq<Byte>, data: U16)
    ensures CheckSafety<E>(s1, cmd1, data) == CheckSafety<E>(s2, cmd2, data) == Ok(data)
  {
  }

  /** What the read does with a received frame: extract the data word from bytes 2 and 3
      and the safety word from bytes 4 and 5 (each may panic), then check safety. */
  function DecodeReply<E>(cmd: seq<Byte>, rx: seq<Byte>): (o: Outcome<E>)
    requires |rx| == 6
    ensures o.Panicked? <==> rx[3] >= 8 || rx[5] >= 8
    ensures o.Returned? ==> o.result.Ok?
  {
    match ShiftedWord(rx[2], rx[3])
    case None => Panicked
    case Some(data) =>
      match ShiftedWord(rx[4], rx[5])
      case None => Panicked
      case Some(safety) => Returned(CheckSafety(safety, cmd, data))
  }

  /** The steps of the read after its transfer compute DecodeReply: the data word first,
      then the safety word, a panic at the first that overflows. */
  lemma DecodeSteps<E>(cmd: seq<Byte>, rx: seq<Byte>, data: Option<U16>, o: Outcome<E>)
    requires |rx| == 6 && data == ShiftedWord(rx[2], rx[3])
    requires data.None? ==> o == Panicked
    requires data.Some? ==> ShiftedWord(rx[4], rx[5]).None? ==> o == Panicked
    requires data.Some? && ShiftedWord(rx[4], rx[5]).Some? ==>
               o == Returned(CheckSafety(ShiftedWord(rx[4], rx[5]).value, cmd, data.value))
    ensures o == DecodeReply(cmd, rx)
  {
  }

  /** A read that does not panic returns byte 2 of the reply shifted left by 8 + byte 3
      places, with the bits past bit 15 lost: no error, and nothing of bytes 0, 1, 4 or 5. */
  lemma DecodeReplyValue<E>(cmd: seq<Byte>, rx: seq<Byte>)
    requires |rx| == 6 && rx[3] < 8 && rx[5] < 8
    ensures DecodeReply<E>(cmd, rx).Returned? && DecodeReply<E>(cmd, rx).result.Ok?
    ensures DecodeReply<E>(cmd, rx).result.value == (rx[2] % Pow2(8 - rx[3])) * Pow2(8 + rx[3])
  {
    ShiftedWordValue(rx[2], rx[3]);
  }

  /** The data word of a successful read depends on bytes 2 and 3 of the reply only; a
      zero byte 3 gives byte 2 times 256. */
  lemma DecodeReplyData<E>(cmd: seq<Byte>, rx: seq<Byte>, rx': seq<Byte>)
    requires |rx| == 6 && |rx'| == 6
    requires rx[2] == rx'[2] && rx[3] == rx'[3] && rx[5] < 8 && rx'[5] < 8
    ensures DecodeReply<E>(cmd, rx) == DecodeReply<E>(cmd, rx')
    ensures rx[3] == 0 ==> DecodeReply<E>(cmd, rx) == Returned(Ok((rx[2] as int) * 0x100))
  {
    if rx[3] == 0 {
      ShiftedWordLowByte(rx[2], 0);
    }
  }

  /** The events t of one read of reg and its outcome o: chip select driven low, one
      transfer of Frame(reg); on a bus error nothing more, and the error is returned;
      otherwise chip select driven high and the reply decoded. */
  ghost predicate ReadTransaction<E>(reg: Command, t: seq<Event<E>>, o: Outcome<E>) {
    |t| >= 2 && t[0].CsWrite? && t[0].level == Low &&
    t[1].Exchange? && t[1].mosi == Frame(reg) &&
    match t[1].miso
    case Err(e) => |t| == 2 && o == Returned(Err(e))
    case Ok(rx) =>
      |t| == 3 && t[2].CsWrite? && t[2].level == High &&
      |rx| == 6 && o == DecodeReply(ToBeBytes(reg.Addr()), rx)
  }

  /** Pin results never reach the caller: two reads that see the same transfer have the
      same outcome, whether or not their chip-select writes took effect. */
  lemma PinResultsIgnored<E>(reg: Command, t: seq<Event<E>>, o: Outcome<E>, t': seq<Event<E>>, o': Outcome<E>)
    requires ReadTransaction(reg, t, o) && ReadTransaction(reg, t', o')
    requires t[1] == t'[1]
    ensures o == o'
  {
  }

  /** When the pin applies every write, chip select ends high after a completed transfer
      but stays low after a bus error, since the release is never reached. */
  lemma ChipSelectAfterRead<E>(reg: Command, start: Level, t: seq<Event<E>>, o: Outcome<E>)
    requires ReadTransaction(reg, t, o)
    requires forall i :: 0 <= i < |t| && t[i].CsWrite? ==> t[i].applied
    ensures LevelAfter(start, t) == if t[1].miso.Ok? then High else Low
  {
  }

  /** What the wires carried, in order: every chip-select write the pin was asked for and
      every transfer the bus made. The pin and the bus share one log, so it records how
      their steps interleave. */
  class Wire<E> {
    ghost var events: seq<Event<E>>

    constructor ()
      ensures events == []
    {
      events := [];
    }
  }

  /** The chip-select output pin. A write may fail, leaving the level as it was; either
      way it is logged on the wire with its result. */
  class Pin<E> {
    var level: Level
    ghost const wire: Wire<E>

    constructor (level: Level, ghost wire: Wire<E>)
      ensures this.level == level && this.wire == wire
    {
      this.level := level;
      this.wire := wire;
    }

    method SetLow() returns (applied: bool)
      modifies this, wire
      ensures level == if applied then Low else old(level)
      ensures wire.events == old(wire.events) + [CsWrite(Low, applied)]
    {
      if * {
        level, applied := Low, true;
      } else {
        applied := false;
      }
      wire.events := wire.events + [CsWrite(Low, applied)];
    }

    method SetHigh() returns (applied: bool)
      modifies this, wire
      ensures level == if applied then High else old(level)
      ensures wire.events == old(wire.events) + [CsWrite(High, applied)]
    {
      if * {
        level, applied := High, true;
      } else {
        applied := false;
      }
      wire.events := wire.events + [CsWrite(High, applied)];
    }
  }

  /** The SPI peripheral. Each transfer is logged on the wire with the frame clocked out
      and its answer: the bytes clocked in, or the bus error. */
  class Spi<E(0)> {
    ghost const wire: Wire<E>

    constructor (ghost wire: Wire<E>)
      ensures this.wire == wire
    {
      this.wire := wire;
    }

    /** Full-duplex transfer: clocks out buf and overwrites it with the bytes clocked in,
        or fails with some bus error, leaving buf in no particular state. */
    method Transfer(buf: array<Byte>) returns (r: Result<(), E>)
      modifies buf, wire
      ensures wire.events == old(wire.events) + [Exchange(old(buf[..]), if r.Ok? then Ok(buf[..]) else Err(r.error))]
    {
      ghost var mosi := buf[..];
      forall i | 0 <= i < buf.Length {
        buf[i] := *;
      }
      if * {
        var e: E := *;
        r := Err(e);
      } else {
        r := Ok(());
      }
      wire.events := wire.events + [Exchange(mosi, if r.Ok? then Ok(buf[..]) else Err(r.error))];
    }
  }

  /** The driver handle, owning the SPI peripheral and the chip-select pin. The ghost
      `trace` records every chip-select write and transfer the handle has made, and
      `lastRead` the events of its latest read; `Valid` says the pin and the bus log on the
      same wire and ties the pin's level to the trace. */
  class Tle5012<E(0)> {
    const spi: Spi<E>
    const cs: Pin<E>
    ghost const initialCs: Level
    ghost var trace: seq<Event<E>>
    ghost var lastRead: seq<Event<E>>

    ghost predicate Valid()
      reads this, cs
    {
      cs.wire == spi.wire && cs.level == LevelAfter(initialCs, trace)
    }

    /** Creating a handle stores the bus and the pin untouched. */
    constructor (spi: Spi<E>, cs: Pin<E>)
      requires cs.wire == spi.wire
      ensures this.spi == spi && this.cs == cs && trace == [] && Valid()
    {
      this.spi, this.cs := spi, cs;
      initialCs := cs.level;
      trace, lastRead := [], [];
    }

    /** Status of the module: a read of the status register. */
    method ReadStatus() returns (o: Outcome<E>)
      requires Valid()
      modifies this, cs, spi.wire
      ensures Valid()
      ensures trace == old(trace) + lastRead
      ensures spi.wire.events == old(spi.wire.events) + lastRead
      ensures ReadTransaction(Read(ReadCmd.StaCmd), lastRead, o)
      ensures lastRead[1].mosi == [0x80, 0x01, 0, 0, 0, 0]
    {
      o := ReadRegister(Read(ReadCmd.StaCmd));
      StatusFrames();
    }

    /** Updated status of the module: a read with update of the status register. */
    method ReadUpdStatus() returns (o: Outcome<E>)
      requires Valid()
      modifies this, cs, spi.wire
      ensures Valid()
      ensures trace == old(trace) + lastRead
      ensures spi.wire.events == old(spi.wire.events) + lastRead
      ensures ReadTransaction(ReadUpd(ReadUpdCmd.StaCmd), lastRead, o)
      ensures lastRead[1].mosi == [0x84, 0x01, 0, 0, 0, 0]
    {
      o := ReadRegister(ReadUpd(ReadUpdCmd.StaCmd));
      StatusFrames();
    }

    /** One register read: chip select low, one 6-byte transfer, chip select high, then the
        data and safety words are extracted and checked. A bus error returns at once, before
        chip select is released; pin results are discarded. */
    method ReadRegister(reg: Command) returns (o: Outcome<E>)
      requires Valid()
      modifies this, cs, spi.wire
      ensures Valid()
      ensures trace == old(trace) + lastRead
      ensures spi.wire.events == old(spi.wire.events) + lastRead
      ensures ReadTransaction(reg, lastRead, o)
      ensures cs.level == LevelAfter(old(cs.level), lastRead)
    {
      ghost var start := cs.level;
      var lowApplied := cs.SetLow();
      ghost var events := [CsWrite(Low, lowApplied)];
      LevelAfterStep(start, [], events[0]);

      var cmd := ToBeBytes(reg.Addr());
      var buffer := new Byte[6] [cmd[0], cmd[1], 0, 0, 0, 0];
      FrameBytes(reg, cmd, buffer[..]);
      ghost var mosi := buffer[..];
      var transferred := spi.Transfer(buffer);
      if transferred.Err? {
        LevelAfterStep(start, events, Exchange(mosi, Err(transferred.error)));
        events := events + [Exchange(mosi, Err(transferred.error))];
        o := Returned(Err(transferred.error));
        Commit(start, events);
        return;
      }
      ghost var miso := buffer[..];
      LevelAfterStep(start, events, Exchange(mosi, Ok(miso)));
      events := events + [Exchange(mosi, Ok(miso))];

      var highApplied := cs.SetHigh();
      LevelAfterStep(start, events, CsWrite(High, highApplied));
      events := events + [CsWrite(High, highApplied)];

      var data := ShiftedWord(buffer[2], buffer[3]);
      if data.None? {
        o := Panicked;
      } else {
        var safety := ShiftedWord(buffer[4], buffer[5]);
        if safety.None? {
          o := Panicked;
        } else {
          o := Returned(CheckSafety(safety.value, cmd, data.value));
        }
      }
      DecodeSteps(cmd, miso, data, o);
      Commit(start, events);
    }

    /** Appends the events of a finished read to the trace. */
    ghost method Commit(start: Level, events: seq<Event<E>>)
      requires cs.wire == spi.wire && start == LevelAfter(initialCs, trace)
      requires cs.level == LevelAfter(start, events)
      modifies this
      ensures trace == old(trace) + events && lastRead == events && Valid()
    {
      LevelAfterAppend(initialCs, trace, events);
      trace, lastRead := trace + events, events;
    }
  }
}
