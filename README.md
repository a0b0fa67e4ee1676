# TLE5012 angle-sensor driver: a Dafny model

This project models the SPI driver for the Infineon TLE5012 magnetic angle sensor
(`src/lib.rs`). The driver has two parts.

- **The register map.** There are three closed sets of commands: plain reads (`ReadCmd`),
  reads with update (`ReadUpdCmd`) and writes (`WriteCmd`). Each command stands for a
  fixed 16-bit command word, given by `addr()`.
- **The register read.** The `Tle5012` handle owns an SPI peripheral and a chip-select
  (CS) pin. `read_register` drives CS low and builds a 6-byte buffer: the big-endian
  command word, then four zero bytes. It transfers the buffer full-duplex in one call and
  drives CS high. It then extracts a data word and a safety word from bytes 2..5 and
  passes both to `check_safety`, which is a stub that returns the data word.
  `read_status` and `read_upd_status` are the public entry points.

Modules:

- `words.dfy` (`Words`): bytes and 16-bit words. It has the big-endian split and
  combination, Rust's debug-build `u16` shift, and the driver's word extraction as the
  code writes it.
- `registers.dfy` (`Registers`): the three command sets as datatypes with total `Addr`
  functions. It also has the `Command` union, which stands for the `Address` trait that
  `read_register` is generic over, and reverse lookups used to prove that `Addr` is
  injective.
- `driver.dfy` (`Driver`): the transaction. The SPI peripheral (`Spi`) and the pin
  (`Pin`) are the environment. Their method bodies choose nondeterministically (`if *`,
  `:= *`): a transfer may fail with any error or overwrite the buffer with any bytes, and
  a pin write may fail and leave the level unchanged. The pin and the bus share one ghost
  log, the `Wire`. Each pin write and each transfer appends its own event to it, so the log
  records the order in which the wires were driven. The handle `Tle5012` is a class
  whose `ReadRegister` is proved against the pure description `ReadTransaction`. That
  predicate covers the event sequence (CS writes and the transfer) and the outcome. The
  read also proves that these events are exactly what it appended to the wire log.
  `DecodeReply` is the pure description of the steps after the transfer.

A call to the driver either returns a Rust `Result` or panics. This is modelled by
`Outcome = Returned(Result) | Panicked`. A panic is what a debug build does when the
shift in the word extraction fails its overflow check.

Three facts about what the code does shape the model:

- The driver does one 6-byte transfer per read: the command word and the two reply words
  travel in a single full-duplex exchange.
- No safety bit, CRC-8 checksum or sign extension is checked or decoded.
  `check_safety` accepts every word.
- CS is not released when the transfer fails, because the `?` returns before `set_high`.

## Model

| member | source | states |
|---|---|---|
| `Registers.ReadCmd.Addr` | src/lib.rs:81-107 | every plain-read command word has bit 15 (read) set and bit 10 (update) clear; the nineteen words are reproduced verbatim |
| `Registers.ReadUpdCmd.Addr` | src/lib.rs:112-123 | every read-with-update command word has bit 15 and bit 10 set |
| `Registers.WriteCmd.Addr` | src/lib.rs:128-146 | every write command word has bit 15 clear (and bit 10 clear) |
| `Registers.Command.Addr` | src/lib.rs:74-76 | over the three sets, bit 15 is set exactly for the reads and bit 10 exactly for the reads with update |
| `Registers.CommandRoundTrip` | src/lib.rs:81-146 | looking up the command word of any command gives back that command |
| `Registers.AddrInjective` | src/lib.rs:81-146 | no two commands, in one set or across the three sets, share a command word |
| `Registers.CommandSetsDisjoint` | src/lib.rs:81-140 | the plain-read, read-with-update and write word sets are pairwise disjoint |
| `Registers.UpdateReadsSameRegister` | src/lib.rs:83-117 | each read with update is the plain read of the same name with only the update bit (0x0400) added |
| `Registers.WriteAddressesSameRegister` | src/lib.rs:84-140 | each write addresses the same register field (bits 9..4) as the plain read of the same name |
| `Words.ToBeBytes` | src/lib.rs:54 | `to_be_bytes` yields two bytes with `cmd[0] * 256 + cmd[1]` equal to the word |
| `Words.BeBytesRoundTrip` | src/lib.rs:54 | combining the two bytes big-endian gives the command word back |
| `Words.BeBytesSplitRoundTrip` | src/lib.rs:54 | splitting a big-endian combination gives the two bytes back |
| `Words.Shl` | src/lib.rs:61 | a `u16` left shift succeeds exactly when the shift amount is below 16 (a debug build panics otherwise) |
| `Words.ShlValue` | src/lib.rs:61 | a shift that succeeds keeps the low 16 - s bits of the operand, moved up s places |
| `Words.ShiftedWord` | src/lib.rs:61-62 | `(hi as u16) << 8 + lo as u16` is `hi << (8 + lo)` and is defined exactly when `lo < 8` |
| `Words.ShiftedWordValue` | src/lib.rs:61-62 | when defined, the word is the low `8 - lo` bits of `hi` moved up `8 + lo` places |
| `Words.ShiftedWordLowByte` | src/lib.rs:61-62 | the extracted word always has a zero low byte, and is `hi * 256` when `lo == 0` |
| `Words.ShiftedWordIsBigEndianIff` | src/lib.rs:61-62 | the extraction equals the big-endian combination of the two bytes if and only if `lo == 0` |
| `Words.ShiftedWordCounterexamples` | src/lib.rs:61 | bytes 0x12, 0x34 make the shift overflow, and bytes 0x12, 0x01 give 0x2400 instead of 0x1201 |
| `Driver.Frame` | src/lib.rs:54-55 | the transfer buffer has six bytes: the command word big-endian (`cmd[0] * 256 + cmd[1] == addr`), then four zeros |
| `Driver.StatusFrames` | src/lib.rs:39-46 | the status read sends 0x80 0x01 and the updated-status read sends 0x84 0x01, each followed by four zeros |
| `Driver.CheckSafetyPassesData` | src/lib.rs:67-71 | `check_safety` returns `Ok(data)` for every safety word and command: nothing is inspected and the data word is unchanged |
| `Driver.DecodeReply` | src/lib.rs:61-64 | after a transfer, the read panics exactly when byte 3 or byte 5 of the reply is 8 or more, and otherwise returns `Ok` |
| `Driver.DecodeReplyValue` | src/lib.rs:61-64 | a read that does not panic returns the low `8 - b3` bits of byte 2 moved up `8 + b3` places |
| `Driver.DecodeReplyData` | src/lib.rs:61-64 | the returned word depends on bytes 2 and 3 only, and is byte 2 times 256 when byte 3 is zero |
| `Driver.PinResultsIgnored` | src/lib.rs:52-59 | two reads that see the same transfer have the same outcome, whatever their pin writes returned |
| `Driver.ChipSelectAfterRead` | src/lib.rs:52-59 | with every pin write applied, CS ends high after a completed transfer and stays low after a bus error |
| `Driver.LevelAfterAppend` | src/lib.rs:52-59 | the CS level after two event sequences is the level after the second, started from the level after the first |
| `Driver.Pin.SetLow` | src/lib.rs:52 | a pin write either drives the line low or fails and leaves the level unchanged, and the write with its result is appended to the wire log |
| `Driver.Pin.SetHigh` | src/lib.rs:59 | a pin write either drives the line high or fails and leaves the level unchanged, and the write with its result is appended to the wire log |
| `Driver.Spi.Transfer` | src/lib.rs:57 | the transfer clocks out the buffer as it was, and appends to the wire log the frame sent with the bus's answer: the bytes now in the buffer, or the error it returned |
| `Driver.Tle5012.constructor` | src/lib.rs:34-36 | a new handle holds the given bus and pin, untouched |
| `Driver.Tle5012.ReadRegister` | src/lib.rs:48-65 | exactly the frame of the command goes out. The events are CS low, the transfer, then CS high unless the transfer failed. Exactly these events, in this order, are appended to the wire log shared by the pin and the bus. A bus error is returned unchanged; otherwise the outcome is `DecodeReply` of the bytes the bus answered. The pin's level follows the applied writes |
| `Driver.Tle5012.ReadStatus` | src/lib.rs:39-41 | `read_status` is a read of `ReadCmd::STA_CMD`: it puts 0x80 0x01 0 0 0 0 on the bus, and its outcome and events are those of that read, appended in order to the wire log |
| `Driver.Tle5012.ReadUpdStatus` | src/lib.rs:44-46 | `read_upd_status` is a read of `ReadUpdCmd::STA_CMD`: it puts 0x84 0x01 0 0 0 0 on the bus, and its outcome and events are those of that read, appended in order to the wire log |

## Left out

- `MODE` (src/lib.rs:17-20) is an SPI clock-polarity and phase constant with no logic.
- Bus timing, the electrical SPI protocol and the HAL implementations of the transfer
  and pin traits are left out. The environment is the nondeterministic `Spi` and `Pin`.
- `Driver.Spi`: the error type must have a default value (`E(0)`), so that the
  nondeterministic transfer can produce some error. The driver itself never inspects the
  error value.
- `Driver.Tle5012.constructor`: requires the pin and the bus to log on the same ghost
  `Wire`. This only concerns the ghost log; any real bus and pin can be given one.
- `Driver.Tle5012.constructor`: `new` returns `Ok` unconditionally. A constructor cannot
  fail, so the `Result` wrapper is not modelled.
- The `Write` bound on the SPI type is declared but never used by the code. There is no
  write transaction.
- `Words.Shl`: models debug-build overflow checking. A release build would mask the
  shift amount to its low four bits instead of panicking.
- Panics are a modelled outcome, not unwinding. What happens after a panic is outside
  the model.
- `examples/read_angle.rs` and `examples/startup_check.rs` are board bring-up and
  printing over HAL crates that are not part of this model. `examples/read_angle.rs`
  also calls `read_activation_status` and `read_angle_value`, which the driver does not
  define.

## Findings

| source | as written | input that shows it | evidently intended | confidence | as-written member | corrected member |
|---|---|---|---|---|---|---|
| src/lib.rs:61-62 | `(buffer[2] as u16) << 8 + buffer[3] as u16` parses as `buffer[2] << (8 + buffer[3])` | bytes 0x12, 0x34: the shift amount is 60, which overflows (a debug-build panic). Bytes 0x12, 0x01 give 0x2400 | the big-endian word `(buffer[2] << 8) + buffer[3]`, 0x1234 and 0x1201 | high; not executed | `Words.ShiftedWordCounterexamples` | `Words.BeBytesRoundTrip` |

`Words.FromBeBytes` is the corrected combination. `Words.BeBytesRoundTrip` and
`Words.BeBytesSplitRoundTrip` prove that it inverts the big-endian split.
`Words.ShiftedWordIsBigEndianIff` proves that the code's extraction agrees with it only
when the low byte is zero. `Driver.Tle5012.ReadRegister` keeps the extraction as the
code writes it, because the model describes what the driver does.
