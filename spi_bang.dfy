/** The bit-bang engine as it runs: port B is an object whose registers every routine
    updates step by step. Each method is proved to leave the port exactly as the
    matching function of `SpiSpec` says, so every property proved there holds of the
    running code. */
module SpiBang {
  import SpiSpec

  /** AVR port B. `ddrb` and `portb` are the registers; `pins(n)` is what PINB reads at
      the n-th sample and `sampled` counts the samples taken; `trace` records every
      clock pulse (registers as they stand while CLK is high) and every `setCS`. */
  class Port {
    var ddrb: bv8
    var portb: bv8
    var sampled: nat
    var trace: seq<SpiSpec.Event>
    const pins: nat -> bv8

    function State(): SpiSpec.Bus
      reads this
    {
      SpiSpec.Bus(ddrb, portb, sampled, trace)
    }

    /** Power-on: both registers are zero, nothing has happened on the wires. */
    constructor (pins: nat -> bv8)
      ensures State() == SpiSpec.Bus(0, 0, 0, []) && this.pins == pins
    {
      ddrb := 0;
      portb := 0;
      sampled := 0;
      trace := [];
      this.pins := pins;
    }

    /** Raise CLK, record the pulse, lower CLK. */
    method Clock()
      modifies this
      ensures State() == SpiSpec.Pulse(old(State()))
    {
      var high := portb | SpiSpec.CLK_BIT;
      trace := trace + [SpiSpec.Clock(high, ddrb, sampled)];
      portb := high & !SpiSpec.CLK_BIT;
    }

    method SendBang(data: bv8)
      modifies this
      ensures State() == SpiSpec.SendBang(old(State()), data)
    {
      var d := data & 0x0f;
      ddrb, portb := ddrb | 0x3e, (portb & 0xc1) | (d << 1);
      Clock();
    }

    method ReadBang() returns (data: bv8)
      modifies this
      ensures State() == SpiSpec.ReadBang(old(State()), pins).bus
      ensures data == SpiSpec.ReadBang(old(State()), pins).value
    {
      ddrb := ddrb & 0xe1;
      data := (pins(sampled) >> 1) & 0x0f;
      sampled := sampled + 1;
      Clock();
    }

    method FBang(data: bv8) returns (r: bv8)
      modifies this
      ensures State() == SpiSpec.FBang(old(State()), pins, data).bus
      ensures r == SpiSpec.FBang(old(State()), pins, data).value
    {
      var d := data & 0x0f;
      var ddr := ddrb | 0x1e;
      var port := (portb & 0xe1) | (d << 1);
      port := port | SpiSpec.CLK_BIT;
      trace := trace + [SpiSpec.Clock(port, ddr, sampled)];
      ddr := ddr & 0xe1;
      port := port & !SpiSpec.CLK_BIT;
      ddrb, portb := ddr, port;
      r := (pins(sampled) >> 1) & 0x0f;
      sampled := sampled + 1;
    }

    method SetCS(val: bool)
      modifies this
      ensures State() == SpiSpec.SetCS(old(State()), val)
    {
      var port := portb & !SpiSpec.CLK_BIT;
      if val {
        port := port & !SpiSpec.CS_BIT;
      } else {
        port := port | SpiSpec.CS_BIT;
      }
      ddrb, portb := ddrb | SpiSpec.CS_BIT | SpiSpec.CLK_BIT, port;
      trace := trace + [SpiSpec.Select(val)];
    }

    method SendDummites(count: bv8)
      modifies this
      ensures State() == SpiSpec.Dummites(old(State()), count)
    {
      ddrb, portb := ddrb | ((ddrb & 0xe1) | SpiSpec.CLK_BIT), portb | 0x1e;
      var i := 0;
      while i < count as int
        invariant 0 <= i <= count as int
        invariant SpiSpec.Pulses(State(), count as int - i) == SpiSpec.Dummites(old(State()), count)
      {
        Clock();
        i := i + 1;
      }
    }

    method SendCmdSpi(data: bv8)
      modifies this
      ensures State() == SpiSpec.SendCmd(old(State()), data)
    {
      var b := 7;
      while b >= 0
        invariant -1 <= b <= 7
        invariant SpiSpec.SendBits(State(), data, b + 1) == SpiSpec.SendCmd(old(State()), data)
      {
        SendBang((data >> b) | 0x0e);
        b := b - 1;
      }
    }

    method ReadSpiByte() returns (data: bv8)
      modifies this
      ensures State() == SpiSpec.ReadByte(old(State()), pins, SpiSpec.X1).bus
      ensures data == SpiSpec.ReadByte(old(State()), pins, SpiSpec.X1).value
    {
      ghost var start := State();
      data := 0;
      var i := 0;
      while i < 8
        invariant 0 <= i <= 8
        invariant State() == SpiSpec.ReadRun(start, i)
        invariant data == SpiSpec.Gather(pins, SpiSpec.X1, start.sampled, i, 0)
      {
        SpiSpec.ReadRunStep(start, pins, i, i + 1);
        SpiSpec.GatherSnoc(pins, SpiSpec.X1, start.sampled, i, i + 1, 0);
        var nib := ReadBang();
        data := (data << 1) + ((nib >> 1) & 0x01);
        i := i + 1;
      }
      SpiSpec.ReadByteRun(start, pins, SpiSpec.X1);
    }

    method ReadDSpiByte() returns (data: bv8)
      modifies this
      ensures State() == SpiSpec.ReadByte(old(State()), pins, SpiSpec.X2).bus
      ensures data == SpiSpec.ReadByte(old(State()), pins, SpiSpec.X2).value
    {
      ghost var start := State();
      data := 0;
      var i := 0;
      while i < 4
        invariant 0 <= i <= 4
        invariant State() == SpiSpec.ReadRun(start, i)
        invariant data == SpiSpec.Gather(pins, SpiSpec.X2, start.sampled, i, 0)
      {
        SpiSpec.ReadRunStep(start, pins, i, i + 1);
        SpiSpec.GatherSnoc(pins, SpiSpec.X2, start.sampled, i, i + 1, 0);
        var nib := ReadBang();
        data := (data << 2) + (nib & 0x03);
        i := i + 1;
      }
      SpiSpec.ReadByteRun(start, pins, SpiSpec.X2);
    }

    method ReadQSpiByte() returns (data: bv8)
      modifies this
      ensures State() == SpiSpec.ReadByte(old(State()), pins, SpiSpec.X4).bus
      ensures data == SpiSpec.ReadByte(old(State()), pins, SpiSpec.X4).value
    {
      ghost var start := State();
      data := 0;
      var i := 0;
      while i < 2
        invariant 0 <= i <= 2
        invariant State() == SpiSpec.ReadRun(start, i)
        invariant data == SpiSpec.Gather(pins, SpiSpec.X4, start.sampled, i, 0)
      {
        SpiSpec.ReadRunStep(start, pins, i, i + 1);
        SpiSpec.GatherSnoc(pins, SpiSpec.X4, start.sampled, i, i + 1, 0);
        var nib := ReadBang();
        data := (data << 4) + (nib & 0x0f);
        i := i + 1;
      }
      SpiSpec.ReadByteRun(start, pins, SpiSpec.X4);
    }

    /** `readChipID`; the id it prints is returned. */
    method ReadChipID() returns (id: bv16)
      modifies this
      ensures State() == SpiSpec.ChipId(old(State()), pins).bus
      ensures id == SpiSpec.ChipId(old(State()), pins).value
    {
      SpiSpec.ChipIdStages(State(), pins);
      SetCS(true);
      SendCmdSpi(0x9f);
      SendDummites(8);
      id := 0;
      var hi := ReadSpiByte();
      id := SpiSpec.Shift8(id, hi);
      var lo := ReadSpiByte();
      id := SpiSpec.Shift8(id, lo);
      SetCS(false);
    }

    /** `ThePageRead`; the 32 bytes it prints are returned in order. */
    method ThePageRead() returns (page: seq<bv8>)
      modifies this
      ensures State() == SpiSpec.PageRead(old(State()), pins).bus
      ensures page == SpiSpec.PageRead(old(State()), pins).data
    {
      SpiSpec.PageReadStages(State(), pins);
      SetCS(true);
      SendCmdSpi(0x6b);
      SendCmdSpi(0x00);
      SendCmdSpi(0x00);
      SendDummites(8);
      ghost var start := State();
      page := [];
      var i := 0;
      while i < 32
        invariant 0 <= i <= 32
        invariant State() == SpiSpec.ReadRun(start, 2 * i)
        invariant page == SpiSpec.QuadData(pins, start.sampled, i)
      {
        SpiSpec.QuadStep(start, pins, i, i + 1);
        var v := ReadQSpiByte();
        page := page + [v];
        i := i + 1;
      }
      SetCS(false);
    }
  }
}
