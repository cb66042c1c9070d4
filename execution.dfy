/** The execution half of `parseAndExecuteCommand`: what each decided command does on
    the wires, and the whole routine on a port and a command buffer. */
module Execution {
  import SpiSpec
  import SpiBang
  import opened Commands
  import CString

  /** What a command leaves behind besides the wire activity: the id `readChipID`
      prints, the bytes `ThePageRead` prints, the byte count a quad read asks for, or
      the text reply of a command that touches no wire. */
  datatype Effect =
    | Silent
    | IdValue(id: bv16)
    | QuadRequest(size: nat)
    | Page(data: seq<bv8>)
    | Reply(cmd: Command)

  // ---------------------------------------------------------------------------
  // The quad read frame
  // ---------------------------------------------------------------------------

  /** `(address >> 16) & 0xFF`, `(address >> 8) & 0xFF` and `address & 0xFF`: the three
      bytes sent after the opcode. Together they are the low 24 bits of the address,
      most significant first; the top byte of a 32-bit address is not sent. */
  function AddressBytes(address: nat): (r: (bv8, bv8, bv8))
    ensures r.0 as int * 0x1_0000 + r.1 as int * 0x100 + r.2 as int == address % 0x100_0000
  {
    var q1 := address / 0x100;
    var q2 := q1 / 0x100;
    Recompose(address);
    (Byte(q2 % 0x100), Byte(q1 % 0x100), Byte(address % 0x100))
  }

  /** The byte whose value is `x`, built bit by bit. */
  function Byte(x: nat): (r: bv8)
    requires x < 0x100
    ensures r as int == x
    decreases x
  {
    if x == 0 then 0
    else
      var h := Byte(x / 2);
      assert h < 0x80;
      (h << 1) | (if x % 2 == 1 then 1 else 0)
  }

  lemma Recompose(a: nat)
    ensures (a / 0x100 / 0x100 % 0x100) * 0x1_0000 + (a / 0x100 % 0x100) * 0x100 + a % 0x100 == a % 0x100_0000
  {
    var q1, r0 := a / 0x100, a % 0x100;
    var q2, r1 := q1 / 0x100, q1 % 0x100;
    var q3, r2 := q2 / 0x100, q2 % 0x100;
    assert a == q1 * 0x100 + r0;
    assert q1 == q2 * 0x100 + r1;
    assert q2 == q3 * 0x100 + r2;
    var low := r2 * 0x1_0000 + r1 * 0x100 + r0;
    assert a == q3 * 0x100_0000 + low;
    assert 0 <= low < 0x100_0000;
  }

  /** The command part of `readQSpiBytes` handling: assert CS, send 0x6B and the three
      address bytes, eight dummy cycles. */
  function QspiPrologue(b: SpiSpec.Bus, address: nat): (r: SpiSpec.Bus)
    ensures r.sampled == b.sampled && |r.trace| == |b.trace| + 41
  {
    var bytes := AddressBytes(address);
    var c1 := SpiSpec.SendCmd(SpiSpec.SetCS(b, true), 0x6b);
    var c4 := SpiSpec.SendCmd(SpiSpec.SendCmd(SpiSpec.SendCmd(c1, bytes.0), bytes.1), bytes.2);
    SpiSpec.Dummites(c4, 8)
  }

  /** The whole frame, closed by `setCS(false)`. */
  function QspiFrame(b: SpiSpec.Bus, address: nat): (r: SpiSpec.Bus)
    ensures r.sampled == b.sampled && |r.trace| == |b.trace| + 42
  {
    SpiSpec.SetCS(QspiPrologue(b, address), false)
  }

  /** The pulses of the frame, each stage still held at the end: the opcode, three
      address bytes and the dummies, no sample taken. */
  lemma QspiPulses(b: SpiSpec.Bus, address: nat)
    ensures var bytes := AddressBytes(address);
      var b1 := SpiSpec.SetCS(b, true); var c1 := SpiSpec.SendCmd(b1, 0x6b);
      var c2 := SpiSpec.SendCmd(c1, bytes.0); var c3 := SpiSpec.SendCmd(c2, bytes.1);
      var c4 := SpiSpec.SendCmd(c3, bytes.2); var q := QspiPrologue(b, address);
      SpiSpec.Extends(b1, q, 40) && SpiSpec.Extends(c1, q, 32) && SpiSpec.Extends(c2, q, 24) &&
      SpiSpec.Extends(c3, q, 16) && SpiSpec.Extends(c4, q, 8) &&
      SpiSpec.LanesHighAt(q.trace, |c4.trace|, 8) &&
      q.sampled == b.sampled && |c4.trace| == |b.trace| + 33
  {
    var bytes := AddressBytes(address);
    var b1 := SpiSpec.SetCS(b, true);
    var c1 := SpiSpec.SendCmd(b1, 0x6b);
    var c2 := SpiSpec.SendCmd(c1, bytes.0);
    var c3 := SpiSpec.SendCmd(c2, bytes.1);
    var c4 := SpiSpec.SendCmd(c3, bytes.2);
    var q := SpiSpec.Dummites(c4, 8);
    SpiSpec.SendCmdPulses(b1, 0x6b);
    SpiSpec.SendCmdPulses(c1, bytes.0);
    SpiSpec.SendCmdPulses(c2, bytes.1);
    SpiSpec.SendCmdPulses(c3, bytes.2);
    SpiSpec.DummitesPulses(c4, 8);
    SpiSpec.ExtendsTrans(c3, c4, q, 8, 8);
    SpiSpec.ExtendsTrans(c2, c3, q, 8, 16);
    SpiSpec.ExtendsTrans(c1, c2, q, 8, 24);
    SpiSpec.ExtendsTrans(b1, c1, q, 8, 32);
  }

  /** The events of the frame: CS asserted once and deasserted once around 40 pulses,
      and no sample taken. */
  lemma QspiFrameShape(b: SpiSpec.Bus, address: nat)
    ensures SpiSpec.Framed(b, QspiFrame(b, address), 40)
    ensures QspiFrame(b, address).sampled == b.sampled
  {
    QspiPulses(b, address);
    SpiSpec.FramedBy(b, QspiPrologue(b, address), 40);
  }

  /** Pulses 1..32 of the frame shift out 0x6B and then the low 24 bits of the address,
      most significant byte first. */
  lemma QspiFrameCommand(b: SpiSpec.Bus, address: nat)
    ensures var t := QspiFrame(b, address).trace; var tb := |b.trace|;
      |t| >= tb + 33 &&
      SpiSpec.ShiftIn(t[tb + 1..tb + 9], 0) == 0x6b &&
      SpiSpec.ShiftIn(t[tb + 9..tb + 17], 0) as int * 0x1_0000 +
      SpiSpec.ShiftIn(t[tb + 17..tb + 25], 0) as int * 0x100 +
      SpiSpec.ShiftIn(t[tb + 25..tb + 33], 0) as int == address % 0x100_0000
  {
    var bytes := AddressBytes(address);
    var b1 := SpiSpec.SetCS(b, true);
    var c1 := SpiSpec.SendCmd(b1, 0x6b);
    var c2 := SpiSpec.SendCmd(c1, bytes.0);
    var c3 := SpiSpec.SendCmd(c2, bytes.1);
    var q := QspiPrologue(b, address);
    QspiPulses(b, address);
    SpiSpec.SendCmdPulses(b1, 0x6b);
    SpiSpec.SendCmdPulses(c1, bytes.0);
    SpiSpec.SendCmdPulses(c2, bytes.1);
    SpiSpec.CmdInFrame(b1, 0x6b, q, 32);
    SpiSpec.CmdInFrame(c1, bytes.0, q, 24);
    SpiSpec.CmdInFrame(c2, bytes.1, q, 16);
    SpiSpec.CmdInFrame(c3, bytes.2, q, 8);
  }

  /** Pulses 33..40 of the frame are the dummy cycles, every lane high; since
      `sendCmdSpi` left the lanes as outputs, they are driven high. */
  lemma QspiFrameDummies(b: SpiSpec.Bus, address: nat)
    ensures SpiSpec.LanesHighAt(QspiFrame(b, address).trace, |b.trace| + 33, 8)
    ensures SpiSpec.DrivenAt(QspiFrame(b, address).trace, |b.trace| + 33, 8)
  {
    var q := QspiPrologue(b, address);
    QspiPulses(b, address);
    SpiSpec.LanesHighKept(q.trace, q.trace + [SpiSpec.Select(false)], |b.trace| + 33, 8);
    var bytes := AddressBytes(address);
    var c3 := SpiSpec.SendCmd(SpiSpec.SendCmd(SpiSpec.SendCmd(SpiSpec.SetCS(b, true), 0x6b), bytes.0), bytes.1);
    var c4 := SpiSpec.SendCmd(c3, bytes.2);
    SpiSpec.SendCmdPulses(c3, bytes.2);
    SpiSpec.DummitesDriven(c4, 8);
    SpiSpec.DrivenKept(q.trace, q.trace + [SpiSpec.Select(false)], |c4.trace|, 8);
  }

  // ---------------------------------------------------------------------------
  // Running a command
  // ---------------------------------------------------------------------------

  /** A command on a bus whose n-th sample reads `pins(n)`: the bus afterwards and the
      effect. */
  function Run(b: SpiSpec.Bus, pins: nat -> bv8, cmd: Command): (r: (SpiSpec.Bus, Effect))
    ensures !(cmd.ReadId? || cmd.ReadQspi? || cmd.PageRead?) ==> r.0 == b
    ensures r.1 == Silent <==> cmd.NoCommand?
    ensures r.0.sampled == b.sampled + if cmd.ReadId? then 16 else if cmd.PageRead? then 64 else 0
    ensures cmd.PageRead? ==> r.1.Page? && |r.1.data| == 32
  {
    match cmd
    case NoCommand => (b, Silent)
    case ReadId =>
      var id := SpiSpec.ChipId(b, pins);
      (id.bus, IdValue(id.value))
    case ReadQspi(address, size) => (QspiFrame(b, address), QuadRequest(size))
    case PageRead =>
      var page := SpiSpec.PageRead(b, pins);
      (page.bus, Page(page.data))
    case _ => (b, Reply(cmd))
  }

  /** Only the three reads touch the wires: every other command leaves the bus as it
      was and only replies (or, for an empty line, does nothing). */
  lemma RunQuiet(b: SpiSpec.Bus, pins: nat -> bv8, cmd: Command)
    requires !(cmd.ReadId? || cmd.ReadQspi? || cmd.PageRead?)
    ensures Run(b, pins, cmd).0 == b
    ensures Run(b, pins, cmd).1 == if cmd.NoCommand? then Silent else Reply(cmd)
  {
  }

  /** `readid` is one chip-select frame of 32 pulses taking 16 samples. */
  lemma RunChipId(b: SpiSpec.Bus, pins: nat -> bv8)
    ensures SpiSpec.Framed(b, Run(b, pins, ReadId).0, 32) && Run(b, pins, ReadId).0.sampled == b.sampled + 16
  {
    var r := Run(b, pins, ReadId).0;
    assert r == SpiSpec.ChipId(b, pins).bus;
    SpiSpec.ChipIdShape(b, pins);
  }

  /** The `readqspibytes` prologue is one chip-select frame of 40 pulses taking no
      sample. */
  lemma RunQspi(b: SpiSpec.Bus, pins: nat -> bv8, address: nat, size: nat)
    ensures SpiSpec.Framed(b, Run(b, pins, ReadQspi(address, size)).0, 40)
    ensures Run(b, pins, ReadQspi(address, size)).0.sampled == b.sampled
  {
    var r := Run(b, pins, ReadQspi(address, size)).0;
    assert r == QspiFrame(b, address);
    QspiFrameShape(b, address);
  }

  /** `pageread` is one chip-select frame of 96 pulses taking 64 samples. */
  lemma RunPageRead(b: SpiSpec.Bus, pins: nat -> bv8)
    ensures SpiSpec.Framed(b, Run(b, pins, PageRead).0, 96) && Run(b, pins, PageRead).0.sampled == b.sampled + 64
  {
    var r := Run(b, pins, PageRead).0;
    assert r == SpiSpec.PageRead(b, pins).bus;
    SpiSpec.PageReadShape(b, pins);
  }

  /** A read request from a command line asks for 1..256 bytes, and the frame carries
      the low 24 bits of the parsed address. */
  lemma RunQspiRequest(b: SpiSpec.Bus, pins: nat -> bv8, argv: seq<seq<char>>)
    requires Dispatch(argv).ReadQspi?
    ensures var r := Run(b, pins, Dispatch(argv)); var t := r.0.trace; var tb := |b.trace|;
      r.1.QuadRequest? && 1 <= r.1.size <= 256 && |t| >= tb + 33 &&
      SpiSpec.ShiftIn(t[tb + 9..tb + 17], 0) as int * 0x1_0000 +
      SpiSpec.ShiftIn(t[tb + 17..tb + 25], 0) as int * 0x100 +
      SpiSpec.ShiftIn(t[tb + 25..tb + 33], 0) as int == Dispatch(argv).address % 0x100_0000
  {
    DispatchCases(argv);
    QspiFrameCommand(b, Dispatch(argv).address);
  }

  /** The `readqspibytes` branch on the port, without its data phase. */
  method SendQspiFrame(port: SpiBang.Port, address: nat)
    modifies port
    ensures port.State() == QspiFrame(old(port.State()), address)
  {
    var bytes := AddressBytes(address);
    port.SetCS(true);
    port.SendCmdSpi(0x6b);
    port.SendCmdSpi(bytes.0);
    port.SendCmdSpi(bytes.1);
    port.SendCmdSpi(bytes.2);
    port.SendDummites(8);
    port.SetCS(false);
  }

  /** The dispatch branches of `parseAndExecuteCommand` on the port: the port ends as
      `Run` says and the effect is `Run`'s. */
  method Execute(port: SpiBang.Port, cmd: Command) returns (effect: Effect)
    modifies port
    ensures port.State() == Run(old(port.State()), port.pins, cmd).0
    ensures effect == Run(old(port.State()), port.pins, cmd).1
  {
    match cmd
    case NoCommand =>
      effect := Silent;
    case ReadId =>
      var id := port.ReadChipID();
      effect := IdValue(id);
    case ReadQspi(address, size) =>
      SendQspiFrame(port, address);
      effect := QuadRequest(size);
    case PageRead =>
      var page := port.ThePageRead();
      effect := Page(page);
    case _ =>
      effect := Reply(cmd);
  }

  /** `parseAndExecuteCommand(command)`: decide on the buffer's line, then run it. */
  method ParseAndExecute(port: SpiBang.Port, a: array<char>) returns (effect: Effect)
    requires CString.NUL in a[..]
    modifies port, a
    ensures var r := Run(old(port.State()), port.pins, Interpret(CString.CStr(old(a[..]))));
      port.State() == r.0 && effect == r.1
  {
    var cmd := ParseCommand(a);
    effect := Execute(port, cmd);
  }
}
