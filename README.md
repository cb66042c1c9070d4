# Arduino SPI / Quad-SPI NAND reader — a verified model

This project models, in Dafny, the core of an Arduino Uno (ATmega328P) sketch that reads SPI
NAND flash by bit-banging port B, together with its serial command line and its NAND geometry
arithmetic:

- **The bit-bang engine** (`src/spi_bang.cpp`). Port B is a class, `SpiBang.Port`. Its fields
  are the registers `DDRB` and `PORTB`, a sample counter, the input function `pins` and a wire
  trace. `pins(n)` is what `PINB` presents at the n-th sample. The trace records every clock
  pulse, with the registers as they stand while CLK is high, and every `setCS` call. Each
  routine is written as a method that updates these fields step by step:
  - the single-pulse primitives `sendBang`, `readBang`, `fBang` and `sendDummites`;
  - `setCS`;
  - `sendCmdSpi`, which sends one byte;
  - `readSpiByte`, `readDSpiByte` and `readQSpiByte`, which receive a byte on 1, 2 or 4 lanes;
  - the frames `readChipID` and `ThePageRead`.

  Each method is proved to leave the port exactly as a value-level function of module
  `SpiSpec` says. The properties of the engine are then proved about those functions: the
  register bits each primitive touches, the MSB-first byte on IO0, how received samples are
  weighted, and the shape of each chip-select frame.

  The bit assignment is the one the code manipulates: CS# on bit 0, IO0..IO3 on bits 1..4
  and CLK on bit 5.
- **The command line** (`src/interface.cpp`):
  - `trimInPlace` on a `char` array: a `memmove` to the front, then NULs written from the back.
  - The `serialEvent` line buffer: a class holding `cmdBuffer` and `cmdIndex`, plus a
    value-level line discipline it is proved against.
  - `parseAndExecuteCommand`:
    - tokenization with `strtok(…, " \t")` in place, into at most six tokens;
    - lowercasing of the first token in place;
    - the argument checks and size clamp of `readqspibytes`, with `strtoul` and `atoi`;
    - the dispatch to the three hardware routines. For `readqspibytes`, the dispatch sends
      the address bytes of the frame.
- **The configuration** (`src/config.h`, `src/config.cpp`):
  - the pin masks, `BDELAY` and `BUFFER_SIZE`;
  - the `NandConfig_t` record at its field widths;
  - the global `nandConfig` as a class, with `setNandSize`;
  - `getTotalPages` and `getTotalBytes` in 32-bit arithmetic.

Modules and files:

| file | module | contents |
|---|---|---|
| config.dfy | `Config` | pins, masks, constants, geometry |
| spi_spec.dfy | `SpiSpec` | value-level engine: buses, traces, frames and their properties |
| spi_bang.dfy | `SpiBang` | class `Port`: the engine's routines as methods on the registers |
| cstring.dfy | `CString` | C strings, `isspace`, `strlen`, `memmove`, `trimInPlace` |
| tokens.dfy | `Tokenizer` | `strtok` in place, the token list of a string, `tolower` in place |
| numbers.dfy | `Numbers` | `strtoul(s, NULL, 0)` and `atoi` |
| commands.dfy | `Commands` | the decision `parseAndExecuteCommand` takes on a line, on values and on the buffer |
| execution.dfy | `Execution` | what each decided command does on the port, and the whole routine |
| serial_line.dfy | `SerialLine` | the `serialEvent` line discipline and the class holding `cmdBuffer` / `cmdIndex` |

## Model

| member | source | states |
|---|---|---|
| Config.PinBit | src/config.h:19-24 | every signal role sits on a port B bit below 6; the bit numbers themselves are checked through `MaskValues` |
| Config.Mask | src/config.h:34-39 | each `MASK_x` is non-zero, has exactly one bit set, and does not touch bits 6 and 7 |
| Config.MasksDisjoint | src/config.h:34-39 | constant check: the masks of two different roles share no bit |
| Config.MaskValues | src/config.h:34-43 | constant check: `MASK_CLK` = 0x20, `MASK_NAND_CS` = 0x01, `MASK_ALL_SIO` = 0x1e (the complement of the engine's 0xe1), `MASK_ALL_OUT` = 0x3f |
| Config.BlocksFor | src/config.cpp:23 | the block count stored by `setNandSize` is `sizeMB * 8` modulo 2^16, exact for sizes below 8192 |
| Config.Preset | src/config.cpp:15-24 | `setNandSize` always sets pageSize 2048, pagesPerBlock 64 and oobSize 64, and sets totalBlocks to `BlocksFor(sizeMB)`; the result depends on nothing but the argument |
| Config.TotalPages | src/config.cpp:26-28 | `getTotalPages` equals totalBlocks × pagesPerBlock exactly, and the product stays below 0xffff × 0xff, so the 32-bit result never wraps |
| Config.TotalBytes | src/config.cpp:30-32 | `getTotalBytes` equals blocks × pages per block × page size modulo 2^32 |
| Config.Preset128IsDefault | src/config.cpp:8-24 | constant check: `setNandSize(128)` gives exactly the static default configuration (2048, 64, 1024, 64) |
| Config.TotalBytesOfPreset | src/config.cpp:23-32 | after `setNandSize(s)` with s < 4096, `getTotalBytes` is exactly s × 2^20 |
| Config.NandConfig.constructor | src/config.cpp:8-13 | the static initializer of `nandConfig` is pageSize 2048, pagesPerBlock 64, totalBlocks 1024, oobSize 64 |
| Config.NandConfig.SetNandSize | src/config.cpp:15-24 | the global record afterwards is `Preset(sizeMB)`, whatever it held before, so a second call with the same argument changes nothing; below 4096 MB the byte count is sizeMB × 2^20 |
| SpiSpec.Nib | src/spi_bang.cpp:131 | the sampled `(PINB >> 1) & 0x0f` is below 16, and shifted back it is PINB's bits 1..4 |
| SpiSpec.SendBang | src/spi_bang.cpp:115-125 | `sendBang` takes exactly one clock pulse and no sample; which register bits it sets is `SendBangSpec` |
| SpiSpec.SendBangSpec | src/spi_bang.cpp:115-125 | after `sendBang(x)`: PORTB bits 1..4 hold `x & 0x0f`; bits 0, 6 and 7 are unchanged; CLK is low; DDRB bits 1..5 are set and bits 0, 6, 7 are unchanged; one pulse is recorded, with the nibble already on the lanes; no sample is taken |
| SpiSpec.ReadBang | src/spi_bang.cpp:127-139 | `readBang` takes exactly one sample and one clock pulse and returns a nibble below 16; its register effects are `ReadBangSpec` |
| SpiSpec.ReadBangSpec | src/spi_bang.cpp:127-139 | `readBang` clears DDRB bits 1..4 and keeps the others; it returns the nibble of the sample taken before the rise, a value below 16; PORTB only has CLK low afterwards; the recorded pulse comes after that one sample |
| SpiSpec.FBang | src/spi_bang.cpp:159-177 | `fBang` takes exactly one sample and one clock pulse and returns a nibble below 16; its register effects are `FBangSpec` |
| SpiSpec.FBangSpec | src/spi_bang.cpp:159-177 | during the pulse of `fBang(x)`, the lanes are outputs carrying `x & 0x0f` and bits 0, 6, 7 are kept; afterwards the lanes are inputs and CLK is low; the value returned is the sample taken after the fall |
| SpiSpec.SetCS | src/spi_bang.cpp:106-112 | `setCS(active)` takes no pulse and no sample and records exactly one chip-select event carrying `active`; its register bits are `SetCSSpec` |
| SpiSpec.SetCSSpec | src/spi_bang.cpp:106-112 | `setCS(true)` clears the CS bit and `setCS(false)` sets it; both clear CLK and set the DDRB bits of CS and CLK; every other bit of both registers is unchanged; no pulse and no sample; one `Select` event |
| SpiSpec.SetCSIdempotent | src/spi_bang.cpp:106-112 | `setCS(false)` twice leaves the registers and the sample count as once |
| SpiSpec.Pulses | src/spi_bang.cpp:145-153 | the counted loop of `sendDummites`: n pulses with the registers as set, DDRB unchanged, CLK low after at least one pulse, no sample |
| SpiSpec.Dummites | src/spi_bang.cpp:141-154 | `sendDummites(n)`: DDRB gains the CLK bit and keeps every other bit, so lanes that were outputs stay outputs; PORTB bits 1..4 are set high and bits 0, 6, 7 kept; CLK is low after at least one pulse; exactly n pulses, all with lanes high; no sample |
| SpiSpec.DummitesPulses | src/spi_bang.cpp:141-154 | `sendDummites(n)` is exactly n clock pulses, all with CS held and all with PORTB bits 1..4 high |
| SpiSpec.DummitesDriven | src/spi_bang.cpp:141-154 | when the lanes are outputs on entry, every dummy pulse has DDRB bits 1..4 set: the lanes are driven high, not left to the pull-ups |
| SpiSpec.CmdPulseLanes | src/spi_bang.cpp:68 | the pulse sending bit i presents the nibble `0x0e \| ((d >> i) & 1)`, keeps PORTB bits 0, 6 and 7, and has CLK high |
| SpiSpec.SendBits | src/spi_bang.cpp:64-70 | the remaining iterations of the `sendCmdSpi` loop add exactly the pulses of bits n-1..0 to the trace; bits 0, 6 and 7 of PORTB are kept; DDRB bits 1..5 are set; CLK ends low; no sample |
| SpiSpec.SendBitStep | src/spi_bang.cpp:66-69 | one loop iteration `sendBang((d >> b) \| 0x0e)` appends exactly the pulse for bit b and sets the registers as the next iteration expects |
| SpiSpec.SendPulse | src/spi_bang.cpp:115-125 | `sendBang(v)` for any v: the recorded pulse carries PORTB bits 0, 6, 7 kept and `v & 0x0f` on the lanes; DDRB gains bits 1..5 |
| SpiSpec.CmdPulseAt | src/spi_bang.cpp:64-70 | pulse k of `sendCmdSpi(d)` presents bit 7-k of d on IO0 with IO1..IO3 high, keeps PORTB bits 0, 6, 7 and has all lanes as outputs |
| SpiSpec.SendCmdTrace | src/spi_bang.cpp:64-70 | the trace `sendCmdSpi(d)` adds is exactly the eight pulses for bits 7..0 |
| SpiSpec.SendCmd | src/spi_bang.cpp:64-70 | `sendCmdSpi` is exactly 8 trace events and takes no sample; that a receiver recovers the byte is `SendCmdRoundTrip` |
| SpiSpec.SendCmdPulses | src/spi_bang.cpp:64-70 | `sendCmdSpi(d)` is exactly 8 pulses with CS held; pulse k presents `0x0e \| ((d >> (7-k)) & 1)` with the lanes as outputs; no sample; CLK ends low |
| SpiSpec.ShiftStep | src/spi_bang.cpp:66-68 | the receiver's accumulator holding the bits of d above b takes in bit b-1 and then holds the bits above b-1 |
| SpiSpec.ShiftBitsTop | src/spi_bang.cpp:66-69 | a receiver holding the top bits of d that shifts in the remaining bits MSB first ends with d |
| SpiSpec.ShiftInCmdPulses | src/spi_bang.cpp:64-70 | sampling IO0 on the pulses of bits n-1..0 shifts in exactly those bits of d |
| SpiSpec.SendCmdRoundTrip | src/spi_bang.cpp:64-70 | a device sampling IO0 on every rising edge of `sendCmdSpi(d)` receives d: the byte goes out MSB first |
| SpiSpec.PulsesPerByte | src/spi_bang.cpp:73-104 | helper: 8, 4 and 2 iterations of 1, 2 and 4 bits each make one byte |
| SpiSpec.ReadRun | src/spi_bang.cpp:127-139 | n receive pulses in a row take exactly n samples and add exactly n events to the trace |
| SpiSpec.ReadRunFields | src/spi_bang.cpp:127-139 | n > 0 `readBang` calls are n recorded pulses with the lanes as inputs, n samples, CLK low and DDRB bits 1..4 clear |
| SpiSpec.ReadBangFields | src/spi_bang.cpp:127-139 | `readBang` returns the nibble of the next sample, records one pulse after it, and clears CLK and DDRB bits 1..4 |
| SpiSpec.ReadRunStep | src/spi_bang.cpp:77-80 | one more `readBang` after n receive pulses is n + 1 of them, and returns the nibble of sample n |
| SpiSpec.FirstRead | src/spi_bang.cpp:127-139 | the first `readBang` of a loop is a run of one pulse |
| SpiSpec.NextRead | src/spi_bang.cpp:127-139 | a further `readBang` extends a run of n > 0 pulses by one |
| SpiSpec.GatherSnoc | src/spi_bang.cpp:73-104 | one loop step shifts the accumulator by the lane count and adds the lane bits of the next sample |
| SpiSpec.ReadByte | src/spi_bang.cpp:73-104 | a byte read takes as many samples and pulses as its width needs (8, 4 or 2); the value is given by `ReadSpiByteValue`, `ReadDSpiByteValue` and `ReadQSpiByteValue` |
| SpiSpec.ReadByteRun | src/spi_bang.cpp:73-104 | a byte read is a run of 8, 4 or 2 receive pulses, and the value gathered from exactly those samples |
| SpiSpec.ReadPulsesShape | src/spi_bang.cpp:127-139 | receive pulse k carries the registers of the loop and comes after sample s + k |
| SpiSpec.ReadBytePulses | src/spi_bang.cpp:73-104 | a byte read is one pulse per sample, with CS held and the lanes as inputs during each pulse, and leaves CLK low and the lanes as inputs |
| SpiSpec.RunPulses | src/spi_bang.cpp:127-139 | a closed-form run of receive pulses holds CS, leaves CLK low and the lanes as inputs, and pulse k follows sample k + 1 |
| SpiSpec.GatherSplit | src/spi_bang.cpp:77-80 | gathering n + m samples is gathering n and then m more |
| SpiSpec.Io1 | src/spi_bang.cpp:79 | helper: IO1 (PINB bit 2) of a sample is a single bit |
| SpiSpec.Io1Digit | src/spi_bang.cpp:79 | the x1 loop adds `(readBang() >> 1) & 1`, PINB bit 2 of the sample |
| SpiSpec.GatherX1Step | src/spi_bang.cpp:79 | one x1 step shifts in IO1 of the next sample |
| SpiSpec.GatherX1Nibble | src/spi_bang.cpp:77-80 | four x1 samples shifted into an accumulator below 16 weigh 8, 4, 2, 1 |
| SpiSpec.ReadSpiByteValue | src/spi_bang.cpp:73-82 | `readSpiByte` is the 8 IO1 samples weighted 128 down to 1, the first sample most significant |
| SpiSpec.ReadDSpiByteValue | src/spi_bang.cpp:85-93 | `readDSpiByte` is the 4 two-bit samples weighted 64, 16, 4, 1, the first sample most significant |
| SpiSpec.GatherX2Step | src/spi_bang.cpp:90 | one x2 step shifts in IO1..IO0 of the next sample |
| SpiSpec.ReadQSpiByteValue | src/spi_bang.cpp:96-104 | `readQSpiByte` is first nibble × 16 + second nibble |
| SpiSpec.ReadQSpiByteExample | src/spi_bang.cpp:96-104 | samples presenting the nibbles 0xA then 0x5 give 0xA5 |
| SpiSpec.FramedBy | src/spi_bang.cpp:35-61 | `setCS(true)`, n pulses that hold CS, then `setCS(false)` form one frame: CS asserted once by the first event and deasserted once by the last, every event between them a pulse with CS low, and at the end CS high and CLK low |
| SpiSpec.ReadPulsesExtend | src/spi_bang.cpp:127-139 | receive pulses taken with CS held extend the bus and are read pulses, one sample each |
| SpiSpec.ReadIdBus | src/spi_bang.cpp:41-42 | the two id reads are two single-lane byte reads, one after the other |
| SpiSpec.ReadByteTrace | src/spi_bang.cpp:73-104 | a byte read in closed form: its trace, sample count and registers, and the gathered value |
| SpiSpec.TwoBytesTrace | src/spi_bang.cpp:41-42 | the two single-lane byte reads are sixteen receive pulses |
| SpiSpec.ReadIdPulses | src/spi_bang.cpp:40-42 | the id reads are 16 pulses with CS held, one sample each, the lanes as inputs |
| SpiSpec.ChipId | src/spi_bang.cpp:35-47 | `readChipID` takes exactly 16 samples and records 34 events (two chip-select events and 32 pulses); the frame and the id are `ChipIdShape` and `ChipIdValue` |
| SpiSpec.ChipIdShape | src/spi_bang.cpp:35-47 | `readChipID` is one chip-select frame (CS asserted exactly once at the start, deasserted exactly once at the end) around 32 pulses, and takes 16 samples |
| SpiSpec.ChipIdOpcode | src/spi_bang.cpp:37-38 | pulses 1..8 of `readChipID` shift out 0x9F on IO0 |
| SpiSpec.ChipIdDummies | src/spi_bang.cpp:38-39 | pulses 9..16 of `readChipID` are the dummy cycles, every lane high and, because `sendCmdSpi` left them outputs, driven |
| SpiSpec.ChipIdSamples | src/spi_bang.cpp:40-42 | pulses 17..32 of `readChipID` each take one sample with the lanes as inputs |
| SpiSpec.ReadIdUnfold | src/spi_bang.cpp:40-42 | the id is the first 8 samples' byte shifted in, then the next 8 samples' byte |
| SpiSpec.ReadIdBytes | src/spi_bang.cpp:40-42 | the id is the first byte read shifted into 0, then the second |
| SpiSpec.ChipIdPrologue | src/spi_bang.cpp:37-39 | the opcode and the dummy cycles take no sample, and the id is what the two reads return |
| SpiSpec.IdShift | src/spi_bang.cpp:40-42 | `id = (id << 8) + b` twice on a 16-bit zero is hi × 256 + lo, without wrapping |
| SpiSpec.ChipIdValue | src/spi_bang.cpp:35-47 | the id `readChipID` prints is b1 × 256 + b2, where b1 is built from the first 8 samples of IO1 and b2 from the next 8 |
| SpiSpec.ChipIdExample | src/spi_bang.cpp:35-47 | a part answering 0x2C then 0x11 reads as id 0x2C11 |
| SpiSpec.ReadRunJoin | src/spi_bang.cpp:56-59 | two runs of receive pulses, one after the other, are one run |
| SpiSpec.ReadRunsJoin | src/spi_bang.cpp:56-59 | as `ReadRunJoin`, for two non-empty runs |
| SpiSpec.QuadStep | src/spi_bang.cpp:56-59 | one more iteration of the page loop: the run grows by two pulses, and the bytes so far gain the one gathered from the next two samples |
| SpiSpec.QuadByteNext | src/spi_bang.cpp:58 | the next `readQSpiByte` of the page loop reads the two samples after the first 2i |
| SpiSpec.QuadDataSnoc | src/spi_bang.cpp:56-59 | the bytes after i + 1 iterations are those after i, followed by the new one |
| SpiSpec.QuadBytes | src/spi_bang.cpp:56-59 | n iterations of the page loop yield exactly n bytes from 2n samples and 2n pulses |
| SpiSpec.QuadBytesTrace | src/spi_bang.cpp:56-59 | n quad reads are 2n receive pulses, one sample each |
| SpiSpec.QuadBytesValue | src/spi_bang.cpp:56-59 | the page loop returns n bytes; byte k is the nibble of sample 2k × 16 plus the nibble of sample 2k + 1 |
| SpiSpec.CmdInFrame | src/spi_bang.cpp:64-70 | a command byte whose pulses a later frame still holds can be read back from that frame |
| SpiSpec.PageReadPulses | src/spi_bang.cpp:51-59 | the stages of `ThePageRead` are 3 command bytes, 8 dummy cycles and 64 sampled pulses, each still held by the final trace |
| SpiSpec.ReadRunExtends | src/spi_bang.cpp:127-139 | a receive run taken from a bus extends it, one sample per pulse |
| SpiSpec.ExtendsChain | src/spi_bang.cpp:51-59 | the page read's stages chain into 96 pulses from the first command byte on |
| SpiSpec.PageRead | src/spi_bang.cpp:49-61 | `ThePageRead` yields exactly 32 bytes from 64 samples and records 98 events; the frame and the bytes are `PageReadShape` and `PageReadSamples` |
| SpiSpec.PageReadShape | src/spi_bang.cpp:49-61 | `ThePageRead` is one chip-select frame (CS asserted exactly once at the start, deasserted exactly once at the end) around 96 pulses, and takes 64 samples |
| SpiSpec.PageReadCommand | src/spi_bang.cpp:52-54 | pulses 1..24 of `ThePageRead` shift out 0x6B, 0x00, 0x00 on IO0 |
| SpiSpec.PageReadDummies | src/spi_bang.cpp:54-55 | pulses 25..32 of `ThePageRead` are the dummy cycles, every lane high and, because `sendCmdSpi` left them outputs, driven |
| SpiSpec.PageReadSamples | src/spi_bang.cpp:56-59 | pulses 33..96 of `ThePageRead` take one sample each with the lanes as inputs; the page is 32 bytes, byte k built from samples 2k and 2k + 1, high nibble first |
| SpiSpec.ChipIdStages | src/spi_bang.cpp:35-47 | `readChipID` stage by stage: CS, opcode, dummies, two byte reads, CS released; the id is the two bytes shifted in |
| SpiSpec.PageReadStages | src/spi_bang.cpp:49-61 | `ThePageRead` stage by stage: CS, three command bytes, dummies, 32 quad reads, CS released |
| SpiBang.Port.constructor | src/spi_bang.cpp:106-154 | the port starts with both registers zero, no sample and an empty trace, reading the given input |
| SpiBang.Port.Clock | src/spi_bang.cpp:121-124 | raising and lowering CLK records one pulse with CLK high and leaves CLK low |
| SpiBang.Port.SendBang | src/spi_bang.cpp:115-125 | the port after `sendBang(data)` is `SpiSpec.SendBang` of the port before |
| SpiBang.Port.ReadBang | src/spi_bang.cpp:127-139 | the port after `readBang` and the value returned are `SpiSpec.ReadBang`'s |
| SpiBang.Port.FBang | src/spi_bang.cpp:159-177 | the port after `fBang(data)` and the value returned are `SpiSpec.FBang`'s |
| SpiBang.Port.SetCS | src/spi_bang.cpp:106-112 | the port after `setCS(val)` is `SpiSpec.SetCS` of the port before |
| SpiBang.Port.SendDummites | src/spi_bang.cpp:141-154 | the counted loop leaves the port as `SpiSpec.Dummites` says |
| SpiBang.Port.SendCmdSpi | src/spi_bang.cpp:64-70 | the loop from bit 7 down to 0 leaves the port as `SpiSpec.SendCmd` says |
| SpiBang.Port.ReadSpiByte | src/spi_bang.cpp:73-82 | the 8-step loop leaves the port and returns the byte as `SpiSpec.ReadByte` with one lane says |
| SpiBang.Port.ReadDSpiByte | src/spi_bang.cpp:85-93 | the 4-step loop leaves the port and returns the byte as `SpiSpec.ReadByte` with two lanes says |
| SpiBang.Port.ReadQSpiByte | src/spi_bang.cpp:96-104 | the 2-step loop leaves the port and returns the byte as `SpiSpec.ReadByte` with four lanes says |
| SpiBang.Port.ReadChipID | src/spi_bang.cpp:35-47 | the port after `readChipID` and the id it prints are `SpiSpec.ChipId`'s |
| SpiBang.Port.ThePageRead | src/spi_bang.cpp:49-61 | the port after `ThePageRead` and the 32 bytes it prints, in order, are `SpiSpec.PageRead`'s |
| CString.StrLen | src/interface.cpp:30-33 | `strlen` is the index of the first NUL |
| CString.StrLenFrom | src/interface.cpp:30 | the string at `start` is the tail of the whole string, and `strlen(start)` is the length minus `start` |
| CString.Strlen | src/interface.cpp:30-33 | the counting loop returns `StrLen` of the buffer from `from` on |
| CString.MemMove | src/interface.cpp:30 | `memmove(a + dst, a + src, n)` with dst <= src: the n moved characters are at dst, everything else is unchanged |
| CString.TrimLeft | src/interface.cpp:26-30 | removing leading white space leaves no white space at the front and never lengthens the string |
| CString.TrimRight | src/interface.cpp:33-38 | removing trailing white space leaves no white space at the back and never lengthens the string |
| CString.Trim | src/interface.cpp:23-39 | the trimmed string has white space at neither end and is no longer than the input; `TrimSpec` states that only white space was cut |
| CString.TrimLeftSpec | src/interface.cpp:26-30 | left trimming leaves a suffix that is empty or starts with a non-space, and everything it removed was white space |
| CString.TrimRightSpec | src/interface.cpp:33-38 | right trimming leaves a prefix that is empty or ends with a non-space, and everything it removed was white space |
| CString.TrimSpec | src/interface.cpp:23-39 | the trimmed string has no leading or trailing `isspace` character; it is the contiguous piece of the input that starts after the leading white space, so it is no longer than the input; only white space was cut on either side |
| CString.TrimFixed | src/interface.cpp:23-39 | trimming leaves a string unchanged if and only if it has no surrounding white space |
| CString.TrimIdempotent | src/interface.cpp:23-39 | trimming twice is trimming once |
| CString.TrimNoNul | src/interface.cpp:23-39 | the trimmed form of a C string's text holds no NUL |
| CString.SkipSpace | src/interface.cpp:26-28 | the leading loop stops at the first non-space character or at the terminator, and the string from there is the left-trimmed string |
| CString.MovedFront | src/interface.cpp:29-30 | a buffer whose front now holds the tail from `start`, terminator included, holds that tail as its string |
| CString.TrimTrailing | src/interface.cpp:33-38 | the trailing loop leaves the right-trimmed string; the positions from its end up to the old terminator hold NUL; the rest of the buffer is unchanged |
| CString.TrailingStep | src/interface.cpp:36-37 | writing NUL before position n moves the loop's boundary down by one and keeps its state |
| CString.TrimmedAt | src/interface.cpp:34-38 | where the loop stops (no white space before n), the buffer holds the right-trimmed string, of length n |
| CString.TrimInPlace | src/interface.cpp:23-39 | the buffer afterwards holds `Trim` of the string it held; the positions from the trimmed end up to where the moved text ended are NUL; everything past that is untouched |
| CString.TrimLeading | src/interface.cpp:25-30 | the leading part moves the string from the first non-space on, with its terminator, to the front (only when there was white space) and leaves the rest of the buffer as it was |
| CString.TrimFinish | src/interface.cpp:23-39 | the move followed by the trailing loop leaves `Trim` of the original string, and the NUL and untouched regions as `TrimInPlace` states |
| CString.MovedText | src/interface.cpp:29-33 | after the move the buffer holds the left-trimmed string, so right-trimming it trims the original |
| CString.MovedRest | src/interface.cpp:29-38 | beyond the moved terminator the buffer still holds what it held before trimming |
| Tokenizer.SkipFrom | src/interface.cpp:73-77 | `strtok`'s scan over separators stops at the first non-separator or at the end, having passed only separators |
| Tokenizer.WordFrom | src/interface.cpp:73-77 | the scan over a token stops at the first separator or the end, having passed only non-separators |
| Tokenizer.TokensFrom | src/interface.cpp:73-78 | the `strtok` calls continuing from position i return at most one token per remaining character |
| Tokenizer.Tokens | src/interface.cpp:73-78 | at most one token per character, and no token exactly when the line holds only spaces and tabs |
| Tokenizer.TokensShape | src/interface.cpp:73-78 | every token is non-empty and holds neither space nor tab |
| Tokenizer.TokensNoNul | src/interface.cpp:73-78 | the tokens of a C string's text hold no NUL |
| Tokenizer.TokensShift | src/interface.cpp:77 | a continuing `strtok` call sees only the rest of the string: what came before does not matter |
| Tokenizer.TokensJoin | src/interface.cpp:73-78 | tokenizing words joined by single spaces gives the words back |
| Tokenizer.JoinCons | src/interface.cpp:73-78 | a word in front of joined words whose tokens are those words: the tokens are the word, then the words |
| Tokenizer.JoinTail | src/interface.cpp:77 | after a word and its space, the continuing calls return the tokens of the rest |
| Tokenizer.StoredCStr | src/interface.cpp:76-96 | the C string the program reads at a recorded token pointer is the token |
| Tokenizer.SpanDelims | src/interface.cpp:73-77 | the separator scan at the start of a `strtok` call stops where `SkipFrom` does, and is at the terminator exactly at the end of the string |
| Tokenizer.SpanWord | src/interface.cpp:73-77 | the token scan stops where `WordFrom` does, and is at the terminator exactly at the end of the string |
| Tokenizer.StrTok | src/interface.cpp:73-77 | one `strtok` call from `p`: with no token left it returns nothing and changes nothing; otherwise it returns the first remaining token as a C string in the buffer, ends it with a NUL over the following separator, continues after it with the rest of the tokens, and changes nothing before the token |
| Tokenizer.TokenCut | src/interface.cpp:73-77 | ending a token with a NUL leaves the token stored at its start and the rest of the string intact from the continuation point on |
| Tokenizer.NextToken | src/interface.cpp:73-77 | the token found between the end of the separators and the next separator is the first remaining token, and those after it begin past that separator |
| Tokenizer.CutExtend | src/interface.cpp:74-77 | recording one more token keeps every recorded token stored, in order and apart, when the buffer changes only past it |
| Tokenizer.TokenizeStep | src/interface.cpp:74-78 | one turn of the loop records the token found and looks for the next, keeping the loop's state |
| Tokenizer.Tokenize | src/interface.cpp:69-78 | the loop records min(number of tokens, 6) pointers; each points at the matching token of the line, stored as a C string, in order and apart from each other |
| Tokenizer.ToLowerSpec | src/interface.cpp:84-85 | lowercasing leaves no capital letter, changes no other character, and is idempotent |
| Tokenizer.LowerInPlace | src/interface.cpp:84-85 | the loop over `argv[0]` lowercases that token in place up to its terminator and leaves every other position of the buffer, so every other token, unchanged |
| Numbers.DigitEnd | src/interface.cpp:95-96 | the digit run stops at the first non-digit of the base or the end, having passed only digits |
| Numbers.SpaceEnd | src/interface.cpp:95-96 | the leading white-space skip stops at a non-space or the end |
| Numbers.StrToUL | src/interface.cpp:95 | `strtoul(s, NULL, 0)` always fits 32 bits |
| Numbers.Convert | src/interface.cpp:95 | a magnitude beyond `ULONG_MAX` saturates to `ULONG_MAX`; otherwise a plain magnitude is returned as is and a negated one as 2^32 minus it (0 stays 0) |
| Numbers.Wrap16 | src/interface.cpp:96 | the 16-bit `int` is in -32768..32767, congruent to the value modulo 2^16, and equal to it when it fits |
| Numbers.AtoI | src/interface.cpp:96 | `atoi` always gives a 16-bit `int` |
| Numbers.RenderValue | src/interface.cpp:95-96 | a rendered number has only digits of its base, no leading zero unless it is 0, and the number as its value |
| Numbers.RenderedAt | src/interface.cpp:95-96 | the digits of a rendered number standing at the end of a string are read as exactly that number |
| Numbers.LeadDigit | src/interface.cpp:95 | the first digit of a rendered number is a digit of its base, and is `0` only for the number 0 |
| Numbers.StrToULDecimal | src/interface.cpp:95 | `strtoul` reads back a decimal number, saturating above `ULONG_MAX` |
| Numbers.StrToULHex | src/interface.cpp:95 | `strtoul` reads back a 32-bit number written in hexadecimal after `0x` |
| Numbers.StrToULOctal | src/interface.cpp:95 | `strtoul` reads back a 32-bit number written in octal after a leading `0` |
| Numbers.OctalParts | src/interface.cpp:95 | how `strtoul` scans a leading `0` followed by octal digits: base 8, the whole string as digits, the number as its value |
| Numbers.StrToULNegative | src/interface.cpp:95 | `strtoul` of a minus sign and a decimal number 0 < n < 2^32 is 2^32 - n |
| Numbers.NegativeParts | src/interface.cpp:95-96 | how a minus sign followed by decimal digits is scanned: sign taken, base 10, the digits to the end, the number as value |
| Numbers.AtoIDecimal | src/interface.cpp:96 | `atoi` reads back a decimal number as a 16-bit `int`, exactly when below 32768 |
| Numbers.AtoINegative | src/interface.cpp:96 | `atoi` reads back a negative decimal number as a 16-bit `int`, exactly down to -32768 |
| Numbers.NoDigits | src/interface.cpp:95-97 | a string holding no decimal digit, no sign and no white space converts to 0 with both functions, so `readqspibytes` rejects such a size |
| Commands.Dispatch | src/interface.cpp:80-135 | no action exactly when there are no tokens; a read request always carries a 32-bit address and a size in 1..256; the full case split is `DispatchCases` |
| Commands.Args | src/interface.cpp:73-78 | the collected tokens are the first min(number of tokens, 6) tokens of the line |
| Commands.Interpret | src/interface.cpp:67-135 | a line does nothing exactly when it has no token; a read request decided from any line carries a 32-bit address and a size in 1..256 |
| Commands.DispatchCases | src/interface.cpp:80-135 | no tokens: no action, and only then. Unknown exactly when the lowercased name is none of `readid`, `readqspibytes`, `pageread`, `help`. Usage exactly for `readqspibytes` with other than 3 tokens. InvalidSize exactly when its size is <= 0, and a read request exactly when the size is > 0. A request carries the `strtoul` address (< 2^32) and a size in 1..256, clamped to 256 |
| Commands.DispatchCaseInsensitive | src/interface.cpp:84-124 | names that agree after lowercasing are dispatched the same way |
| Commands.DispatchLowered | src/interface.cpp:84-85 | lowercasing `argv[0]` in place before comparing gives the same decision as comparing its lowercase form |
| Commands.InterpretEmpty | src/interface.cpp:80-81 | a line does nothing exactly when it has no token |
| Commands.TrimmedHasCommand | src/interface.cpp:53-55 | a line that trims to something non-empty has a token, so it always reaches the name comparison |
| Commands.InterpretJoin | src/interface.cpp:73-135 | words joined by spaces are dispatched as the first six of those words |
| Commands.RenderedIsWord | src/interface.cpp:73-78 | a rendered number, behind a prefix such as `0x`, holds no separator and so is a single token |
| Commands.ReadQspiLine | src/interface.cpp:91-114 | `readqspibytes 0x<a> <n>`, the name in any case, with a < 2^32 and n < 32768: the address comes through unchanged; n = 0 is InvalidSize; n in 1..256 is requested as is, and a larger n is clamped to 256 |
| Commands.ReadQspiUsage | src/interface.cpp:91-118 | `readqspibytes` with any other number of words than 3 is Usage |
| Commands.ReadString | src/interface.cpp:87-96 | reading the C string at a pointer into the buffer gives the string stored there |
| Commands.ReadArgs | src/interface.cpp:87-96 | reading every recorded pointer gives the stored tokens, in order |
| Commands.ParseCommand | src/interface.cpp:67-135 | tokenizing and lowercasing in place, then comparing and converting, gives exactly `Interpret` of the line the buffer held |
| Execution.AddressBytes | src/interface.cpp:107-109 | the three bytes `(a >> 16) & 0xFF`, `(a >> 8) & 0xFF`, `a & 0xFF` recompose, MSB first, to a mod 2^24 |
| Execution.QspiPrologue | src/interface.cpp:105-110 | the opcode, address and dummy part of the frame takes no sample and records 41 events (one chip-select event and 40 pulses) |
| Execution.QspiFrame | src/interface.cpp:105-113 | the whole `readqspibytes` frame takes no sample and records 42 events; its shape is `QspiFrameShape` |
| Execution.QspiPulses | src/interface.cpp:105-110 | the frame's stages are opcode, three address bytes and dummies, 40 pulses in all, each still held at the end, and no sample |
| Execution.QspiFrameShape | src/interface.cpp:105-113 | the `readqspibytes` frame is one chip-select frame around 40 pulses, and takes no sample |
| Execution.QspiFrameCommand | src/interface.cpp:106-109 | pulses 1..8 shift out 0x6B and pulses 9..32 the low 24 bits of the address, most significant byte first |
| Execution.QspiFrameDummies | src/interface.cpp:109-110 | pulses 33..40 are the dummy cycles, every lane high and, because `sendCmdSpi` left them outputs, driven |
| Execution.Run | src/interface.cpp:80-135 | only `readid`, `readqspibytes` and `pageread` touch the bus; exactly an empty line is silent; `readid` takes 16 samples, `pageread` 64 and every other command none; `pageread` yields 32 bytes |
| Execution.RunQuiet | src/interface.cpp:80-135 | every command but the three reads leaves the bus untouched and only replies (nothing for an empty line) |
| Execution.RunChipId | src/interface.cpp:87-90 | `readid` runs one chip-select frame of 32 pulses taking 16 samples |
| Execution.RunQspi | src/interface.cpp:91-114 | a read request runs one chip-select frame of 40 pulses taking no sample |
| Execution.RunPageRead | src/interface.cpp:120-123 | `pageread` runs one chip-select frame of 96 pulses taking 64 samples |
| Execution.RunQspiRequest | src/interface.cpp:91-114 | a read request decided from a line asks for 1..256 bytes, and its frame carries the low 24 bits of the parsed address |
| Execution.SendQspiFrame | src/interface.cpp:105-113 | the `readqspibytes` branch leaves the port as `QspiFrame` says |
| Execution.Execute | src/interface.cpp:87-135 | each branch of the dispatch leaves the port and yields the effect that `Run` gives |
| Execution.ParseAndExecute | src/interface.cpp:67-135 | `parseAndExecuteCommand` on a buffer leaves the port and yields the effect of running `Interpret` of the buffer's line |
| SerialLine.EndLine | src/interface.cpp:48-55 | the text handed to the parser at a line end is no longer than the collected line and has no white space at either end |
| SerialLine.Step | src/interface.cpp:46-62 | one character. A line end empties the line and dispatches at most one command, never an empty one. Any other character dispatches nothing and appends at most itself. The line stays below 64 characters |
| SerialLine.FeedAll | src/interface.cpp:42-64 | a stream of characters dispatches at most one command per character, and a line that starts below 64 characters stays below 64 |
| SerialLine.FeedAllBounded | src/interface.cpp:44-63 | the collected line never reaches 64 characters (so the terminator write stays in the buffer); no dispatched command is empty; at most one command per character |
| SerialLine.FeedAllConcat | src/interface.cpp:44-63 | feeding the input in two pieces equals feeding it whole, so the split where `Serial.available()` runs dry does not matter |
| SerialLine.FeedAllTruncates | src/interface.cpp:59-62 | without a line end the characters are appended up to 63 of them, the rest dropped, and nothing dispatched |
| SerialLine.LineEnd | src/interface.cpp:48-58 | on `\n` or `\r` the buffer empties and the command of the trimmed line is dispatched exactly when that is not empty; with an empty buffer nothing happens |
| SerialLine.OneLine | src/interface.cpp:44-63 | a text and a line end dispatch the command of the text's first 63 characters, trimmed, exactly when that trimmed text is not empty, and leave the buffer empty |
| SerialLine.EndOfKept | src/interface.cpp:48-58 | a line end after a text that left `kept` in the buffer dispatches the command of `kept` trimmed, if non-empty |
| SerialLine.FedText | src/interface.cpp:59-62 | a text without line end, fed to the empty buffer, leaves its first 63 characters and dispatches nothing |
| SerialLine.FeedSnoc | src/interface.cpp:44-63 | one more character after an input is one more step |
| SerialLine.BlankLineEnd | src/interface.cpp:50 | a line end on an empty buffer (the second half of `\r\n`) does nothing |
| SerialLine.BlankLine | src/interface.cpp:53-55 | a line of blanks and tabs dispatches nothing and leaves the buffer empty |
| SerialLine.BlankEnd | src/interface.cpp:53-54 | blanks and tabs trim away to nothing |
| SerialLine.BlankTrimmed | src/interface.cpp:23-39 | only white space trims to the empty string |
| SerialLine.CommandLine.Line | src/interface.cpp:16-17 | the collected characters are fewer than 64 |
| SerialLine.CommandLine.constructor | src/interface.cpp:16-17 | the static buffer starts empty, with `cmdIndex` 0 |
| SerialLine.CommandLine.Receive | src/interface.cpp:46-62 | one character on the real buffer: terminating, trimming in place, measuring and parsing give the line and the commands of `Step`; `cmdIndex` stays below 64 |
| SerialLine.CommandLine.SerialEvent | src/interface.cpp:42-64 | every available character in turn: the buffer and the commands dispatched are those of `FeedAll` on the input |

## Left out

- Serial output is not modelled: the replies of `help`, `Usage`, `Invalid size` and unknown
  commands, the hex printing of the id and of the page, and the start-up banner of
  `initInterface`. These are text on the serial port, so the model returns the decided
  command, the id or the bytes as values instead.
- Serial input is a sequence of characters handed to `SerialEvent`; `Serial.available()` and
  `Serial.read()` are not modelled.
- `delayMicroseconds(BDELAY)` is a no-op. Timing is real-time behaviour; the trace records
  the order of pulses and samples, not their duration.
- `PINB` is an abstract input function `pins` over the sample count. Pull-ups and other
  electrical behaviour are not modelled.
- The data phase of `readqspibytes` is not modelled: `readQSpiBytes` and `printBufferHex` are
  only declared (`src/spi_bang.h:25`, `src/spi_bang.h:54`) and have no body in the sources.
  The model runs the frame without it. It asserts CS, sends the opcode, the three address
  bytes and the dummies, and releases CS. The effect records the requested size. The same
  holds for the other declared-only routines (`readSpiBytes`, `readDSpiBytes`,
  `readNandPage`, `loadPageToCache`) and for `dataBuffer`.
- `src/main.cpp` (the Arduino `setup`/`loop` glue) and `src/sd_writer.cpp` (wrappers over
  the SD library) are not part of this model.
- There are two definitions of `void ThePageRead()`, one at `src/main.cpp:32-45` and one at
  `src/spi_bang.cpp:49-61`. They clash when the sketch is linked. `src/interface.cpp:4`
  includes `main.h` for it, so the `pageread` command means the `main.cpp` one. That
  definition reads through the missing `readQSpiBytes`, however. `Execution.Run` and
  `SpiBang.Port.ThePageRead` therefore model the `spi_bang.cpp` definition: 32 single
  `readQSpiByte` calls, printed as they come.
- Dummy cycles: the comments of `sendDummites` (`src/spi_bang.cpp:143-144`) describe the
  data lanes as switched to inputs with pull-ups. The code does not do that. `sendDummites` only ORs into DDRB
  (`src/spi_bang.cpp:143`), and in every frame it follows `sendCmdSpi`, which made the lanes
  outputs. So the 8 dummy cycles of `readChipID`, `ThePageRead` and `readqspibytes` drive the
  lanes high. The model follows the code, as `SpiSpec.DummitesDriven`, `SpiSpec.ChipIdDummies`,
  `SpiSpec.PageReadDummies` and `Execution.QspiFrameDummies` state.
- The pin names of `src/config.h` (SIO0 = PB3, …) disagree with the map in the comment of
  `src/spi_bang.cpp` (IO0 = bit 1, …). The engine is modelled with the bits the code actually
  manipulates (lanes on bits 1..4, CLK on bit 5, CS on bit 0). The header's masks are
  modelled separately and are not reconciled with it. The macros `CS` and `CLK` are not
  defined in the sources; they are taken as 0 and 5.
- Port B's registers are taken as 0 at power-on; the initial pin state of the board is not
  modelled.
- Characters are Dafny `char` values rather than bytes, and `isspace`/`tolower` follow the C
  locale on ASCII. Other locales are not modelled.
- `Numbers.AtoI`: the C standard leaves `atoi` overflow undefined. The model takes the 16-bit
  wrap-around of the AVR `int`. `strtoul` follows the AVR C library with a 32-bit
  `unsigned long`: it saturates at `ULONG_MAX` and a minus sign negates modulo 2^32.
  `errno` and the end pointer are not modelled.
- `CString.MemMove` handles only a destination at or before the source, which is the only way
  `trimInPlace` calls it.
- In `serialEvent` the call of `parseAndExecuteCommand` is split: `SerialLine.CommandLine.Receive`
  returns the decided command, and `Execution.Execute` runs it on the port. The line discipline
  therefore does not depend on the port, and `Execution.ParseAndExecute` is the routine on its own.
- Concurrency (the Arduino core calling `serialEvent` between `loop` iterations) is not
  modelled: each call runs to completion.
