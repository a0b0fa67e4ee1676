/** The TLE5012 register map: three closed sets of SPI command words. Each symbolic
    command stands for a fixed 16-bit word whose bit 15 selects read (set) or write
    (clear), whose bit 10 asks the chip to re-latch ("update") the value before reading
    it, and whose bits 9..4 name the register. */
module Registers {
  import opened Words

  /** Bit 15 of a command word: set for a read, clear for a write. */
  predicate ReadBit(a: U16) {
    a / 0x8000 == 1
  }

  /** Bit 10 of a command word: the update request. */
  predicate UpdateBit(a: U16) {
    a / 0x400 % 2 == 1
  }

  /** Bits 9..4 of a command word: the register addressed. */
  function RegisterField(a: U16): (f: nat) {
    a / 0x10 % 0x40
  }

  /** Commands for a plain read. */
  datatype ReadCmd =
    | StaCmdNoSafety | StaCmd | ActivStaCmd | AngleValCmd | AngleSpdCmd | AngleRevCmd
    | TempCmd | IntMode1 | Sil | IntMode2 | IntMode3 | OffsetX | OffsetY | Synch
    | Ifab | IntMode4 | TempCoeff | RawXCmd | RawYCmd
  {
    /** The command word sent for this read. */
    function Addr(): (a: U16)
      ensures ReadBit(a) && !UpdateBit(a)
    {
      match this
      case StaCmdNoSafety => 0x8000
      case StaCmd => 0x8001
      case ActivStaCmd => 0x8011
      case AngleValCmd => 0x8021
      case AngleSpdCmd => 0x8031
      case AngleRevCmd => 0x8041
      case TempCmd => 0x8051
      case IntMode1 => 0x8061
      case Sil => 0x8071
      case IntMode2 => 0x8081
      case IntMode3 => 0x8091
      case OffsetX => 0x80A1
      case OffsetY => 0x80B1
      case Synch => 0x80C1
      case Ifab => 0x80D1
      case IntMode4 => 0x80E1
      case TempCoeff => 0x80F1
      case RawXCmd => 0x8101
      case RawYCmd => 0x8111
    }
  }

  /** Commands for a read with update. */
  datatype ReadUpdCmd = StaCmd | AngleValCmd | AngleSpdCmd | AngleRevCmd
  {
    /** The command word sent for this read. */
    function Addr(): (a: U16)
      ensures ReadBit(a) && UpdateBit(a)
    {
      match this
      case StaCmd => 0x8401
      case AngleValCmd => 0x8421
      case AngleSpdCmd => 0x8431
      case AngleRevCmd => 0x8441
    }

    /** The plain read of the same name. */
    function Plain(): (r: ReadCmd) {
      match this
      case StaCmd => ReadCmd.StaCmd
      case AngleValCmd => ReadCmd.AngleValCmd
      case AngleSpdCmd => ReadCmd.AngleSpdCmd
      case AngleRevCmd => ReadCmd.AngleRevCmd
    }
  }

  /** Commands for a write. */
  datatype WriteCmd =
    | ActivSta | IntMode1 | Sil | IntMode2 | IntMode3 | OffsetX | OffsetY | Synch
    | Ifab | IntMode4 | TempCoeff
  {
    /** The command word sent for this write. */
    function Addr(): (a: U16)
      ensures !ReadBit(a) && !UpdateBit(a)
    {
      match this
      case ActivSta => 0x0011
      case IntMode1 => 0x5061
      case Sil => 0x5071
      case IntMode2 => 0x5081
      case IntMode3 => 0x5091
      case OffsetX => 0x50A1
      case OffsetY => 0x50B1
      case Synch => 0x50C1
      case Ifab => 0x50D1
      case IntMode4 => 0x50E1
      case TempCoeff => 0x50F1
    }

    /** The plain read of the same name. */
    function Plain(): (r: ReadCmd) {
      match this
      case ActivSta => ReadCmd.ActivStaCmd
      case IntMode1 => ReadCmd.IntMode1
      case Sil => ReadCmd.Sil
      case IntMode2 => ReadCmd.IntMode2
      case IntMode3 => ReadCmd.IntMode3
      case OffsetX => ReadCmd.OffsetX
      case OffsetY => ReadCmd.OffsetY
      case Synch => ReadCmd.Synch
      case Ifab => ReadCmd.Ifab
      case IntMode4 => ReadCmd.IntMode4
      case TempCoeff => ReadCmd.TempCoeff
    }
  }

  /** Any command the driver can put on the bus: the `Address` abstraction that lets the
      read transaction take a command of any of the three sets. */
  datatype Command = Read(r: ReadCmd) | ReadUpd(u: ReadUpdCmd) | Write(w: WriteCmd)
  {
    function Addr(): (a: U16)
      ensures ReadBit(a) <==> !Write?
      ensures UpdateBit(a) <==> ReadUpd?
    {
      match this
      case Read(r) => r.Addr()
      case ReadUpd(u) => u.Addr()
      case Write(w) => w.Addr()
    }
  }

  /** The plain read a command word denotes, if any: the reverse of ReadCmd.Addr. */
  function ReadCmdAt(a: U16): (c: Option<ReadCmd>)
    ensures c.Some? ==> c.value.Addr() == a
  {
    if a == 0x8000 then Some(ReadCmd.StaCmdNoSafety)
    else if a == 0x8001 then Some(ReadCmd.StaCmd)
    else if a == 0x8011 then Some(ReadCmd.ActivStaCmd)
    else if a == 0x8021 then Some(ReadCmd.AngleValCmd)
    else if a == 0x8031 then Some(ReadCmd.AngleSpdCmd)
    else if a == 0x8041 then Some(ReadCmd.AngleRevCmd)
    else if a == 0x8051 then Some(ReadCmd.TempCmd)
    else if a == 0x8061 then Some(ReadCmd.IntMode1)
    else if a == 0x8071 then Some(ReadCmd.Sil)
    else if a == 0x8081 then Some(ReadCmd.IntMode2)
    else if a == 0x8091 then Some(ReadCmd.IntMode3)
    else if a == 0x80A1 then Some(ReadCmd.OffsetX)
    else if a == 0x80B1 then Some(ReadCmd.OffsetY)
    else if a == 0x80C1 then Some(ReadCmd.Synch)
    else if a == 0x80D1 then Some(ReadCmd.Ifab)
    else if a == 0x80E1 then Some(ReadCmd.IntMode4)
    else if a == 0x80F1 then Some(ReadCmd.TempCoeff)
    else if a == 0x8101 then Some(ReadCmd.RawXCmd)
    else if a == 0x8111 then Some(ReadCmd.RawYCmd)
    else None
  }

  /** The read-with-update command a command word denotes, if any. */
  function ReadUpdCmdAt(a: U16): (c: Option<ReadUpdCmd>)
    ensures c.Some? ==> c.value.Addr() == a
  {
    if a == 0x8401 then Some(ReadUpdCmd.StaCmd)
    else if a == 0x8421 then Some(ReadUpdCmd.AngleValCmd)
    else if a == 0x8431 then Some(ReadUpdCmd.AngleSpdCmd)
    else if a == 0x8441 then Some(ReadUpdCmd.AngleRevCmd)
    else None
  }

  /** The write command a command word denotes, if any. */
  function WriteCmdAt(a: U16): (c: Option<WriteCmd>)
    ensures c.Some? ==> c.value.Addr() == a
  {
    if a == 0x0011 then Some(WriteCmd.ActivSta)
    else if a == 0x5061 then Some(WriteCmd.IntMode1)
    else if a == 0x5071 then Some(WriteCmd.Sil)
    else if a == 0x5081 then Some(WriteCmd.IntMode2)
    else if a == 0x5091 then Some(WriteCmd.IntMode3)
    else if a == 0x50A1 then Some(WriteCmd.OffsetX)
    else if a == 0x50B1 then Some(WriteCmd.OffsetY)
    else if a == 0x50C1 then Some(WriteCmd.Synch)
    else if a == 0x50D1 then Some(WriteCmd.Ifab)
    else if a == 0x50E1 then Some(WriteCmd.IntMode4)
    else if a == 0x50F1 then Some(WriteCmd.TempCoeff)
    else None
  }

  /** The command a word denotes in any of the three sets, if any. */
  function CommandAt(a: U16): (c: Option<Command>)
    ensures c.Some? ==> c.value.Addr() == a
  {
    if a / 0x8000 == 0 then
      match WriteCmdAt(a)
      case Some(w) => Some(Write(w))
      case None => None
    else if a / 0x400 % 2 == 1 then
      match ReadUpdCmdAt(a)
      case Some(u) => Some(ReadUpd(u))
      case None => None
    else
      match ReadCmdAt(a)
      case Some(r) => Some(Read(r))
      case None => None
  }

  /** Looking up the word of any command gives the command back. */
  lemma CommandRoundTrip(c: Command)
    ensures CommandAt(c.Addr()) == Some(c)
  {
  }

  /** Addr is injective over all commands: no two commands, within a set or across the
      three sets, share a command word. */
  lemma AddrInjective(c1: Command, c2: Command)
    ensures c1.Addr() == c2.Addr() ==> c1 == c2
  {
    CommandRoundTrip(c1);
    CommandRoundTrip(c2);
  }

  /** The three sets are disjoint as sets of 16-bit words. */
  lemma CommandSetsDisjoint(r: ReadCmd, u: ReadUpdCmd, w: WriteCmd)
    ensures r.Addr() != u.Addr() && r.Addr() != w.Addr() && u.Addr() != w.Addr()
  {
  }

  /** A read with update addresses the same register as the plain read of the same
      name and differs from it only in the update bit. */
  lemma UpdateReadsSameRegister(u: ReadUpdCmd)
    ensures u.Addr() == u.Plain().Addr() + 0x400
    ensures RegisterField(u.Addr()) == RegisterField(u.Plain().Addr())
  {
  }

  /** A write addresses the same register as the plain read of the same name. */
  lemma WriteAddressesSameRegister(w: WriteCmd)
    ensures RegisterField(w.Addr()) == RegisterField(w.Plain().Addr())
  {
  }
}
