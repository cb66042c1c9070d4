/** Value-level semantics of the bit-banged SPI engine on AVR port B.

    Bit layout the engine manipulates: CS# on bit 0, the data lanes IO0..IO3 on
    bits 1..4, CLK on bit 5. A `Bus` value is the pair of registers DDRB and PORTB,
    the number of PINB samples taken so far and the trace of what happened on the
    wires. The value PINB presents at the n-th sample is `pins(n)`. */
module SpiSpec {

  const CS_BIT: bv8 := 0x01
  const CLK_BIT: bv8 := 0x20

  /** One entry of the wire trace. `Clock` is a clock pulse, with PORTB and DDRB as
      they stand while CLK is high and the number of PINB samples taken before the
      pulse ended its high phase; `Select` is one call of `setCS`. */
  datatype Event =
    | Clock(port: bv8, ddr: bv8, samples: nat)
    | Select(active: bool)

  datatype Bus = Bus(ddr: bv8, port: bv8, sampled: nat, trace: seq<Event>)

  /** A bus together with the value a read routine returned. */
  datatype Sampled = Sampled(bus: Bus, value: bv8)
  datatype IdRead = IdRead(bus: Bus, value: bv16)

  /** The data-lane levels IO3..IO0 of a pulse as a nibble. */
  function Lanes(e: Event): (r: bv8)
    ensures r < 16
  {
    match e
    case Clock(port, _, _) => (port >> 1) & 0x0f
    case Select(_) => 0
  }

  /** The nibble `(PINB >> 1) & 0x0f` that the n-th sample reads. */
  function Nib(pins: nat -> bv8, n: nat): (r: bv8)
    ensures r < 16
    ensures r << 1 == pins(n) & 0x1e
  {
    (pins(n) >> 1) & 0x0f
  }

  // ---------------------------------------------------------------------------
  // Single-pulse primitives
  // ---------------------------------------------------------------------------

  /** Raise CLK (the pulse is recorded while it is high), then lower it. */
  function Pulse(b: Bus): Bus
  {
    var high := b.port | CLK_BIT;
    Bus(b.ddr, high & !CLK_BIT, b.sampled, b.trace + [Clock(high, b.ddr, b.sampled)])
  }

  /** `sendBang`: all lanes and CLK become outputs, the low nibble of `data` goes onto
      IO0..IO3, then one clock pulse. */
  function SendBang(b: Bus, data: bv8): (r: Bus)
    ensures r.sampled == b.sampled && |r.trace| == |b.trace| + 1
  {
    var d := data & 0x0f;
    Pulse(b.(ddr := b.ddr | 0x3e, port := (b.port & 0xc1) | (d << 1)))
  }

  /** After `sendBang(data)` the lanes carry the low nibble of `data`, PORTB bits 0, 6
      and 7 are untouched, CLK is low, DDRB bits 1..5 are set and the rest untouched;
      exactly one pulse was taken, with the nibble already on the lanes. */
  lemma SendBangSpec(b: Bus, data: bv8)
    ensures var r := SendBang(b, data);
      (r.port >> 1) & 0x0f == data & 0x0f &&
      r.port & 0xc1 == b.port & 0xc1 && r.port & CLK_BIT == 0 &&
      r.ddr & 0x3e == 0x3e && r.ddr & 0xc1 == b.ddr & 0xc1 &&
      r.sampled == b.sampled && r.trace == b.trace + [Clock(r.port | CLK_BIT, r.ddr, b.sampled)]
  {
  }

  /** `readBang`: the lanes become inputs, PINB is sampled, and only then is the clock
      pulsed; the pulse therefore records one more sample than the bus had. */
  function ReadBang(b: Bus, pins: nat -> bv8): (r: Sampled)
    ensures r.bus.sampled == b.sampled + 1 && |r.bus.trace| == |b.trace| + 1 && r.value < 16
  {
    var input := b.(ddr := b.ddr & 0xe1);
    var data := (pins(b.sampled) >> 1) & 0x0f;
    Sampled(Pulse(input.(sampled := b.sampled + 1)), data)
  }

  /** `readBang` returns the nibble on IO3..IO0 at the sample taken before the rise
      (so a value below 16), clears DDRB bits 1..4 and nothing else, and leaves CLK low. */
  lemma ReadBangSpec(b: Bus, pins: nat -> bv8)
    ensures var r := ReadBang(b, pins);
      r.value == Nib(pins, b.sampled) && r.value < 16 &&
      r.bus.ddr & 0x1e == 0 && r.bus.ddr & 0xe1 == b.ddr & 0xe1 &&
      r.bus.port == b.port & !CLK_BIT && r.bus.sampled == b.sampled + 1 &&
      r.bus.trace == b.trace + [Clock(b.port | CLK_BIT, r.bus.ddr, b.sampled + 1)]
  {
  }

  /** `fBang`: drive the nibble, raise CLK, turn the lanes to inputs while CLK is high,
      lower CLK, and only then sample PINB. */
  function FBang(b: Bus, pins: nat -> bv8, data: bv8): (r: Sampled)
    ensures r.bus.sampled == b.sampled + 1 && |r.bus.trace| == |b.trace| + 1 && r.value < 16
  {
    var d := data & 0x0f;
    var ddrOut := b.ddr | 0x1e;
    var high := ((b.port & 0xe1) | (d << 1)) | CLK_BIT;
    var ddrIn := ddrOut & 0xe1;
    Sampled(Bus(ddrIn, high & !CLK_BIT, b.sampled + 1, b.trace + [Clock(high, ddrOut, b.sampled)]),
     (pins(b.sampled) >> 1) & 0x0f)
  }

  /** During the pulse of `fBang(data)` the lanes are outputs carrying the nibble; after
      it they are inputs, CLK is low and the value returned is sampled after the fall. */
  lemma FBangSpec(b: Bus, pins: nat -> bv8, data: bv8)
    ensures var r := FBang(b, pins, data);
      r.value == Nib(pins, b.sampled) &&
      (r.bus.port >> 1) & 0x0f == data & 0x0f &&
      r.bus.port & 0xc1 == b.port & 0xc1 && r.bus.port & CLK_BIT == 0 &&
      r.bus.ddr & 0x1e == 0 && r.bus.ddr & 0xe1 == b.ddr & 0xe1 && r.bus.sampled == b.sampled + 1 &&
      r.bus.trace == b.trace + [Clock(r.bus.port | CLK_BIT, b.ddr | 0x1e, b.sampled)]
  {
  }

  /** `setCS(active)`: CS and CLK become outputs, CLK goes low, CS goes low when
      `active` and high otherwise. */
  function SetCS(b: Bus, active: bool): (r: Bus)
    ensures r.sampled == b.sampled && |r.trace| == |b.trace| + 1 && r.trace[|b.trace|] == Select(active)
  {
    var ddr := b.ddr | CS_BIT | CLK_BIT;
    var port := b.port & !CLK_BIT;
    Bus(ddr, if active then port & !CS_BIT else port | CS_BIT, b.sampled, b.trace + [Select(active)])
  }

  /** `setCS(true)` clears the CS bit and `setCS(false)` sets it; both clear CLK and set
      the CS and CLK bits of DDRB; no other bit moves and no clock pulse is taken. */
  lemma SetCSSpec(b: Bus, active: bool)
    ensures var r := SetCS(b, active);
      r.port & CS_BIT == (if active then 0 else CS_BIT) &&
      r.port & CLK_BIT == 0 && r.port & 0xde == b.port & 0xde &&
      r.ddr & 0x21 == 0x21 && r.ddr & 0xde == b.ddr & 0xde &&
      r.sampled == b.sampled && r.trace == b.trace + [Select(active)]
  {
  }

  /** Deasserting twice leaves the registers as deasserting once (the trace only
      records the second, level-preserving call). */
  lemma SetCSIdempotent(b: Bus)
    ensures var once := SetCS(b, false); var twice := SetCS(once, false);
      twice.ddr == once.ddr && twice.port == once.port && twice.sampled == once.sampled
  {
  }

  // ---------------------------------------------------------------------------
  // Trace shapes
  // ---------------------------------------------------------------------------

  /** Every entry of `t` is a clock pulse taken with the CS bit at `cs`. */
  ghost predicate PulsesWithCs(t: seq<Event>, cs: bv8)
  {
    forall k :: 0 <= k < |t| ==> t[k].Clock? && t[k].port & CS_BIT == cs
  }

  /** `r` follows `b` by exactly `n` clock pulses, all with CS held where it was. */
  ghost predicate Extends(b: Bus, r: Bus, n: nat)
  {
    |r.trace| == |b.trace| + n && r.trace[..|b.trace|] == b.trace &&
    r.port & CS_BIT == b.port & CS_BIT &&
    PulsesWithCs(r.trace[|b.trace|..], b.port & CS_BIT)
  }

  lemma ExtendsTrans(a: Bus, b: Bus, c: Bus, n: nat, m: nat)
    requires Extends(a, b, n) && Extends(b, c, m)
    ensures Extends(a, c, n + m)
  {
    var ta, tb := |a.trace|, |b.trace|;
    assert c.trace[..ta] == b.trace[..tb][..ta];
    forall k | 0 <= k < n + m
      ensures c.trace[ta..][k].Clock? && c.trace[ta..][k].port & CS_BIT == a.port & CS_BIT
    {
      if k < n {
        assert c.trace[ta..][k] == b.trace[ta..][k];
      } else {
        assert c.trace[ta..][k] == c.trace[tb..][k - n];
      }
    }
  }

  /** Events `from .. from + n - 1` of `t` are read pulses: the lanes are inputs and the
      i-th of them is taken after sample `s + i + 1`. */
  ghost predicate SamplesAt(t: seq<Event>, from: nat, n: nat, s: nat)
  {
    |t| >= from + n &&
    forall k :: from <= k < from + n ==> t[k].Clock? && t[k].ddr & 0x1e == 0 && t[k].samples == s + k - from + 1
  }

  /** Events `from .. from + n - 1` of `t` are pulses with every lane driven high. */
  ghost predicate LanesHighAt(t: seq<Event>, from: nat, n: nat)
  {
    |t| >= from + n && forall k :: from <= k < from + n ==> Lanes(t[k]) == 0x0f
  }

  /** A run that a trace holds is still held by any extension of that trace. */
  lemma LanesHighKept(y: seq<Event>, r: seq<Event>, from: nat, n: nat)
    requires LanesHighAt(y, from, n) && |y| <= |r| && r[..|y|] == y
    ensures LanesHighAt(r, from, n)
  {
    forall k | from <= k < from + n
      ensures Lanes(r[k]) == 0x0f
    {
      assert r[k] == r[..|y|][k];
    }
  }

  /** Events `from .. from + n - 1` of `t` are pulses with every lane an output. */
  ghost predicate DrivenAt(t: seq<Event>, from: nat, n: nat)
  {
    |t| >= from + n && forall k :: from <= k < from + n ==> t[k].Clock? && t[k].ddr & 0x1e == 0x1e
  }

  lemma DrivenKept(y: seq<Event>, r: seq<Event>, from: nat, n: nat)
    requires DrivenAt(y, from, n) && |y| <= |r| && r[..|y|] == y
    ensures DrivenAt(r, from, n)
  {
    forall k | from <= k < from + n
      ensures r[k] == y[k]
    {
      assert r[k] == r[..|y|][k];
    }
  }

  lemma SamplesKept(y: seq<Event>, r: seq<Event>, from: nat, n: nat, s: nat)
    requires SamplesAt(y, from, n, s) && |y| <= |r| && r[..|y|] == y
    ensures SamplesAt(r, from, n, s)
  {
    forall k | from <= k < from + n
      ensures r[k] == y[k]
    {
      assert r[k] == r[..|y|][k];
    }
  }

  lemma AppendOne(t: seq<Event>, e: Event, rest: seq<Event>)
    ensures (t + [e]) + rest == t + ([e] + rest)
  {
  }

  // ---------------------------------------------------------------------------
  // Repeated pulses and dummy cycles
  // ---------------------------------------------------------------------------

  /** `n` copies of `e`. */
  function Repeat(e: Event, n: nat): (t: seq<Event>)
    ensures |t| == n
  {
    if n == 0 then [] else [e] + Repeat(e, n - 1)
  }

  lemma {:induction false} RepeatAt(e: Event, n: nat, k: nat)
    requires k < n
    ensures Repeat(e, n)[k] == e
  {
    if k > 0 {
      RepeatAt(e, n - 1, k - 1);
    }
  }

  /** `n` bare clock pulses. */
  function Pulses(b: Bus, n: nat): (r: Bus)
    ensures r.ddr == b.ddr && r.sampled == b.sampled
    ensures r.port == if n == 0 then b.port else b.port & !CLK_BIT
    ensures r.trace == b.trace + Repeat(Clock(b.port | CLK_BIT, b.ddr, b.sampled), n)
    decreases n
  {
    if n == 0 then b
    else
      var b1 := Pulse(b);
      var e := Clock(b.port | CLK_BIT, b.ddr, b.sampled);
      assert b1.port | CLK_BIT == b.port | CLK_BIT && b1.port & !CLK_BIT == b.port & !CLK_BIT;
      assert b1.trace == b.trace + [e];
      AppendOne(b.trace, e, Repeat(e, n - 1));
      Pulses(b1, n - 1)
  }


  /** `sendDummites(count)`: CLK becomes an output, the pull-ups (PORTB bits 1..4) are
      set, then `count` clock pulses. DDRB is only OR-ed into, so no bit of it is
      cleared: lanes that were outputs stay outputs and drive high during these cycles. */
  function Dummites(b: Bus, count: bv8): (r: Bus)
    ensures r.ddr == b.ddr | CLK_BIT && r.ddr & b.ddr == b.ddr
    ensures r.port & 0x1e == 0x1e && r.port & 0xc1 == b.port & 0xc1
    ensures r.port & CLK_BIT == if count == 0 then b.port & CLK_BIT else 0
    ensures r.sampled == b.sampled
    ensures r.trace == b.trace + Repeat(Clock(b.port | 0x3e, b.ddr | CLK_BIT, b.sampled), count as int)
  {
    var setup := b.(ddr := b.ddr | ((b.ddr & 0xe1) | CLK_BIT), port := b.port | 0x1e);
    Pulses(setup, count as int)
  }

  lemma ExtendsBy(b: Bus, r: Bus, t: seq<Event>)
    requires r.trace == b.trace + t
    requires r.port & CS_BIT == b.port & CS_BIT
    requires PulsesWithCs(t, b.port & CS_BIT)
    ensures Extends(b, r, |t|)
  {
    assert r.trace[..|b.trace|] == b.trace;
    assert r.trace[|b.trace|..] == t;
  }

  /** `sendDummites(count)` is exactly `count` pulses with PORTB bits 1..4 high and CS
      held. */
  lemma DummitesPulses(b: Bus, count: bv8)
    ensures Extends(b, Dummites(b, count), count as int)
    ensures LanesHighAt(Dummites(b, count).trace, |b.trace|, count as int)
  {
    var r := Dummites(b, count);
    var e := Clock(b.port | 0x3e, b.ddr | CLK_BIT, b.sampled);
    var t := Repeat(e, count as int);
    assert r.trace[|b.trace|..] == t;
    forall k | 0 <= k < count as int
      ensures t[k].Clock? && t[k].port & CS_BIT == b.port & CS_BIT && Lanes(t[k]) == 0x0f
    {
      RepeatAt(e, count as int, k);
    }
    ExtendsBy(b, r, t);
    forall k | |b.trace| <= k < |b.trace| + count as int
      ensures Lanes(r.trace[k]) == 0x0f
    {
      assert r.trace[k] == t[k - |b.trace|];
    }
  }


  /** On a bus whose lanes are already outputs (as `sendCmdSpi` leaves them), the dummy
      cycles of `sendDummites` drive the lanes rather than leave them to the pull-ups. */
  lemma DummitesDriven(b: Bus, count: bv8)
    requires b.ddr & 0x1e == 0x1e
    ensures DrivenAt(Dummites(b, count).trace, |b.trace|, count as int)
  {
    var r := Dummites(b, count);
    var e := Clock(b.port | 0x3e, b.ddr | CLK_BIT, b.sampled);
    assert e.ddr & 0x1e == 0x1e;
    forall k | |b.trace| <= k < |b.trace| + count as int
      ensures r.trace[k] == e
    {
      RepeatAt(e, count as int, k - |b.trace|);
    }
  }


  // ---------------------------------------------------------------------------
  // Single-lane command byte
  // ---------------------------------------------------------------------------

  /** The pulse that sends bit `i` of `data`: PORTB keeps the bits `keep`, carries
      `0x0e | bit` on the lanes and has CLK high; DDRB is `ddr`. */
  function CmdPulse(keep: bv8, ddr: bv8, s: nat, data: bv8, i: nat): Event
    requires i < 8
  {
    Clock((keep | ((((data >> i) | 0x0e) & 0x0f) << 1)) | CLK_BIT, ddr, s)
  }

  /** The pulses for bits `n-1` down to `0` of `data`. */
  function CmdPulses(keep: bv8, ddr: bv8, s: nat, data: bv8, n: nat): (t: seq<Event>)
    requires n <= 8
    ensures |t| == n
  {
    if n == 0 then [] else [CmdPulse(keep, ddr, s, data, n - 1)] + CmdPulses(keep, ddr, s, data, n - 1)
  }

  lemma {:induction false} CmdPulsesAt(keep: bv8, ddr: bv8, s: nat, data: bv8, n: nat, k: nat)
    requires n <= 8 && k < n
    ensures CmdPulses(keep, ddr, s, data, n)[k] == CmdPulse(keep, ddr, s, data, n - 1 - k)
  {
    if k > 0 {
      CmdPulsesAt(keep, ddr, s, data, n - 1, k - 1);
    }
  }

  /** The pulse for bit `i` drives that bit on IO0 and holds IO1..IO3 high. */
  lemma CmdPulseLanes(keep: bv8, ddr: bv8, s: nat, data: bv8, i: nat)
    requires i < 8 && keep & 0x3e == 0
    ensures var e := CmdPulse(keep, ddr, s, data, i);
      Lanes(e) == 0x0e | ((data >> i) & 1) && e.port & 0xc1 == keep && e.port & CLK_BIT == CLK_BIT
  {
  }

  /** The bits `n-1 .. 0` of `data`, one `sendBang` each: the remaining iterations of the
      loop of `sendCmdSpi`. */
  function SendBits(b: Bus, data: bv8, n: nat): (r: Bus)
    requires n <= 8
    ensures r.sampled == b.sampled && r.port & 0xc1 == b.port & 0xc1
    ensures r.ddr == if n == 0 then b.ddr else b.ddr | 0x3e
    ensures n > 0 ==> r.port & CLK_BIT == 0
    ensures r.trace == b.trace + CmdPulses(b.port & 0xc1, b.ddr | 0x3e, b.sampled, data, n)
    decreases n
  {
    if n == 0 then b
    else
      var b1 := SendBang(b, (data >> (n - 1)) | 0x0e);
      SendBitStep(b, data, n);
      SendBits(b1, data, n - 1)
  }

  /** One iteration of the loop of `sendCmdSpi`: the pulse for bit `n - 1`, with PORTB
      bits 0, 6 and 7 kept and DDRB bits 1..5 set. */
  lemma SendBitStep(b: Bus, data: bv8, n: nat)
    requires 0 < n <= 8
    ensures var b1 := SendBang(b, (data >> (n - 1)) | 0x0e);
      var e := CmdPulse(b.port & 0xc1, b.ddr | 0x3e, b.sampled, data, n - 1);
      b1.port & 0xc1 == b.port & 0xc1 && b1.ddr == b.ddr | 0x3e && b1.ddr | 0x3e == b1.ddr &&
      b1.port & CLK_BIT == 0 && b1.sampled == b.sampled && b1.trace == b.trace + [e] &&
      b.trace + CmdPulses(b.port & 0xc1, b.ddr | 0x3e, b.sampled, data, n) ==
        (b.trace + [e]) + CmdPulses(b.port & 0xc1, b.ddr | 0x3e, b.sampled, data, n - 1)
  {
    var v := (data >> (n - 1)) | 0x0e;
    SendPulse(b, v);
    var keep, ddr := b.port & 0xc1, b.ddr | 0x3e;
    var rest := CmdPulses(keep, ddr, b.sampled, data, n - 1);
    assert CmdPulses(keep, ddr, b.sampled, data, n) == [CmdPulse(keep, ddr, b.sampled, data, n - 1)] + rest;
  }

  /** The registers and the pulse `sendBang(v)` leaves, for any `v`. */
  lemma SendPulse(b: Bus, v: bv8)
    ensures var b1 := SendBang(b, v);
      b1.port & 0xc1 == b.port & 0xc1 && b1.ddr == b.ddr | 0x3e && b1.ddr | 0x3e == b1.ddr &&
      b1.port & CLK_BIT == 0 && b1.sampled == b.sampled &&
      b1.trace == b.trace + [Clock(((b.port & 0xc1) | ((v & 0x0f) << 1)) | CLK_BIT, b.ddr | 0x3e, b.sampled)]
  {
    SendBangSpec(b, v);
  }

  /** `sendCmdSpi(data)`. */
  function SendCmd(b: Bus, data: bv8): (r: Bus)
    ensures r.sampled == b.sampled && |r.trace| == |b.trace| + 8
  {
    SendBits(b, data, 8)
  }

  lemma CmdPulseAt(keep: bv8, ddr: bv8, s: nat, data: bv8, k: nat)
    requires k < 8 && keep & 0x3e == 0
    ensures var e := CmdPulses(keep, ddr, s, data, 8)[k];
      e.Clock? && e.port & 0xc1 == keep && Lanes(e) == 0x0e | ((data >> (7 - k)) & 1) && e.ddr == ddr
  {
    CmdPulsesAt(keep, ddr, s, data, 8, k);
    CmdPulseLanes(keep, ddr, s, data, 7 - k);
  }

  lemma SendCmdTrace(b: Bus, data: bv8)
    ensures SendCmd(b, data).trace[|b.trace|..] == CmdPulses(b.port & 0xc1, b.ddr | 0x3e, b.sampled, data, 8)
  {
  }

  /** `sendCmdSpi(data)` is exactly eight `sendBang` pulses; pulse k drives bit 7-k of
      `data` on IO0 and holds IO1..IO3 high, with every lane an output and CS held. */
  lemma SendCmdPulses(b: Bus, data: bv8)
    ensures var r := SendCmd(b, data); var t := r.trace[|b.trace|..];
      Extends(b, r, 8) && r.sampled == b.sampled && r.port & CLK_BIT == 0 && r.ddr & 0x3e == 0x3e &&
      forall k :: 0 <= k < 8 ==> Lanes(t[k]) == 0x0e | ((data >> (7 - k)) & 1) && t[k].ddr & 0x1e == 0x1e
  {
    var r := SendCmd(b, data);
    var keep := b.port & 0xc1;
    var t := CmdPulses(keep, b.ddr | 0x3e, b.sampled, data, 8);
    SendCmdTrace(b, data);
    forall k | 0 <= k < 8
      ensures t[k].Clock? && t[k].port & CS_BIT == b.port & CS_BIT
      ensures Lanes(t[k]) == 0x0e | ((data >> (7 - k)) & 1) && t[k].ddr & 0x1e == 0x1e
    {
      CmdPulseAt(keep, b.ddr | 0x3e, b.sampled, data, k);
    }
    ExtendsBy(b, r, t);
  }

  /** A receiver that samples IO0 on each rising edge and shifts it in, MSB first. */
  function ShiftIn(t: seq<Event>, acc: bv8): bv8
    decreases |t|
  {
    if t == [] then acc else ShiftIn(t[1..], (acc << 1) | (Lanes(t[0]) & 1))
  }

  /** The value a receiver holding `acc` has after shifting in bits `n-1 .. 0` of
      `data`. */
  function ShiftBits(acc: bv8, data: bv8, n: nat): bv8
    requires n <= 8
    decreases n
  {
    if n == 0 then acc else ShiftBits((acc << 1) | ((data >> (n - 1)) & 1), data, n - 1)
  }

  lemma ShiftStep(data: bv8, n: nat)
    requires 0 < n <= 8
    ensures ((data >> n) << 1) | ((data >> (n - 1)) & 1) == data >> (n - 1)
  {
    if n == 1 {
    } else if n == 2 {
    } else if n == 3 {
    } else if n == 4 {
    } else if n == 5 {
    } else if n == 6 {
    } else if n == 7 {
    } else {
    }
  }

  /** A receiver that already holds the bits above bit `n` of `data` and shifts in the
      remaining `n`, most significant first, ends with `data`. */
  lemma {:induction false} ShiftBitsTop(data: bv8, n: nat)
    requires n <= 8
    ensures ShiftBits(data >> n, data, n) == data
    decreases n
  {
    if n > 0 {
      ShiftStep(data, n);
      ShiftBitsTop(data, n - 1);
    }
  }

  /** The receiver over the pulses for bits `n-1 .. 0` shifts in exactly those bits. */
  lemma {:induction false} ShiftInCmdPulses(keep: bv8, ddr: bv8, s: nat, data: bv8, n: nat, acc: bv8)
    requires n <= 8 && keep & 0x3e == 0
    ensures ShiftIn(CmdPulses(keep, ddr, s, data, n), acc) == ShiftBits(acc, data, n)
    decreases n
  {
    if n > 0 {
      var t := CmdPulses(keep, ddr, s, data, n);
      CmdPulseLanes(keep, ddr, s, data, n - 1);
      assert t[1..] == CmdPulses(keep, ddr, s, data, n - 1);
      ShiftInCmdPulses(keep, ddr, s, data, n - 1, (acc << 1) | ((data >> (n - 1)) & 1));
    }
  }

  /** Sampling IO0 on every rising edge of `sendCmdSpi(data)` gives back `data`. */
  lemma SendCmdRoundTrip(b: Bus, data: bv8)
    ensures ShiftIn(SendCmd(b, data).trace[|b.trace|..], 0) == data
  {
    SendCmdTrace(b, data);
    ShiftInCmdPulses(b.port & 0xc1, b.ddr | 0x3e, b.sampled, data, 8, 0);
    ShiftBitsTop(data, 8);
  }

  // ---------------------------------------------------------------------------
  // Multi-lane reads
  // ---------------------------------------------------------------------------

  datatype Width = X1 | X2 | X4

  /** Bits gathered per pulse. */
  function LaneCount(w: Width): nat
  {
    match w
    case X1 => 1
    case X2 => 2
    case X4 => 4
  }

  /** Pulses per byte. */
  function PulsesPerByte(w: Width): (n: nat)
    ensures n * LaneCount(w) == 8
  {
    match w
    case X1 => 8
    case X2 => 4
    case X4 => 2
  }

  /** The accumulator shifted left by the lane count. */
  function Shl(w: Width, acc: bv8): bv8
  {
    match w
    case X1 => acc << 1
    case X2 => acc << 2
    case X4 => acc << 4
  }

  /** What one pulse contributes from the sampled nibble: IO1 (PINB bit 2) for x1,
      IO1..IO0 for x2, IO3..IO0 for x4. */
  function Digit(w: Width, nib: bv8): bv8
  {
    match w
    case X1 => (nib >> 1) & 0x01
    case X2 => nib & 0x03
    case X4 => nib & 0x0f
  }

  /** The value a receive loop assembles from the `n` samples starting at sample `s`,
      shifting its accumulator by the lane count on each one. */
  function Gather(pins: nat -> bv8, w: Width, s: nat, n: nat, acc: bv8): bv8
    decreases n
  {
    if n == 0 then acc
    else Gather(pins, w, s + 1, n - 1, Shl(w, acc) + Digit(w, Nib(pins, s)))
  }

  /** The pulses of a receive loop: lanes as inputs, one sample taken before each. */
  function ReadPulses(port: bv8, ddr: bv8, s: nat, n: nat): (t: seq<Event>)
    ensures |t| == n
    decreases n
  {
    if n == 0 then [] else [Clock(port, ddr, s)] + ReadPulses(port, ddr, s + 1, n - 1)
  }

  lemma {:induction false} ReadPulsesAt(port: bv8, ddr: bv8, s: nat, n: nat, k: nat)
    requires k < n
    ensures ReadPulses(port, ddr, s, n)[k] == Clock(port, ddr, s + k)
    decreases n
  {
    if k > 0 {
      ReadPulsesAt(port, ddr, s + 1, n - 1, k - 1);
    }
  }

  lemma {:induction false} ReadPulsesAppend(port: bv8, ddr: bv8, s: nat, n: nat, m: nat)
    ensures ReadPulses(port, ddr, s, n) + ReadPulses(port, ddr, s + n, m) == ReadPulses(port, ddr, s, n + m)
    decreases n
  {
    if n > 0 {
      ReadPulsesAppend(port, ddr, s + 1, n - 1, m);
    }
  }

  /** `n` receive pulses in closed form: the lanes become inputs, PINB is sampled before
      each rise, and CLK is left low. */
  function ReadRun(b: Bus, n: nat): (r: Bus)
    ensures r.sampled == b.sampled + n && |r.trace| == |b.trace| + n
  {
    if n == 0 then b
    else Bus(b.ddr & 0xe1, b.port & !CLK_BIT, b.sampled + n,
             b.trace + ReadPulses(b.port | CLK_BIT, b.ddr & 0xe1, b.sampled + 1, n))
  }

  /** `readSpiByte`, `readDSpiByte` and `readQSpiByte`: one receive pulse per sample,
      and the byte `Gather` assembles from those samples. */
  function ReadByte(b: Bus, pins: nat -> bv8, w: Width): (r: Sampled)
    ensures r.bus.sampled == b.sampled + PulsesPerByte(w) && |r.bus.trace| == |b.trace| + PulsesPerByte(w)
  {
    Sampled(ReadRun(b, PulsesPerByte(w)), Gather(pins, w, b.sampled, PulsesPerByte(w), 0))
  }

  /** The register identities a run of pulses relies on: lowering CLK after raising it,
      or again, and clearing the lanes again, change nothing further. */
  lemma ClkMasks(port: bv8, ddr: bv8)
    ensures (port & !CLK_BIT) | CLK_BIT == port | CLK_BIT
    ensures (port & !CLK_BIT) & !CLK_BIT == port & !CLK_BIT
    ensures (port | CLK_BIT) & !CLK_BIT == port & !CLK_BIT
    ensures (ddr & 0xe1) & 0xe1 == ddr & 0xe1
  {
  }

  /** A run of receive pulses followed by the next one is a longer run. */
  lemma ReadPulsesSnoc(t: seq<Event>, port: bv8, ddr: bv8, s: nat, n: nat, m: nat, last: nat)
    requires m == n + 1 && last == s + n
    ensures (t + ReadPulses(port, ddr, s, n)) + [Clock(port, ddr, last)] == t + ReadPulses(port, ddr, s, m)
  {
    ReadPulsesAppend(port, ddr, s, n, 1);
    assert ReadPulses(port, ddr, last, 1) == [Clock(port, ddr, last)];
  }

  /** `n > 0` receive pulses field by field. */
  lemma ReadRunFields(b: Bus, n: nat)
    requires n > 0
    ensures ReadRun(b, n).trace == b.trace + ReadPulses(b.port | CLK_BIT, b.ddr & 0xe1, b.sampled + 1, n)
    ensures ReadRun(b, n).sampled == b.sampled + n
    ensures ReadRun(b, n).port == b.port & !CLK_BIT && ReadRun(b, n).ddr == b.ddr & 0xe1
  {
  }

  /** `readBang` field by field. */
  lemma ReadBangFields(b: Bus, pins: nat -> bv8)
    ensures ReadBang(b, pins).value == Nib(pins, b.sampled)
    ensures ReadBang(b, pins).bus.trace == b.trace + [Clock(b.port | CLK_BIT, b.ddr & 0xe1, b.sampled + 1)]
    ensures ReadBang(b, pins).bus.sampled == b.sampled + 1
    ensures ReadBang(b, pins).bus.port == b.port & !CLK_BIT && ReadBang(b, pins).bus.ddr == b.ddr & 0xe1
  {
  }

  /** One more `readBang` after `n` receive pulses makes `n + 1` of them, and returns the
      nibble of the next sample. */
  lemma ReadRunStep(b: Bus, pins: nat -> bv8, n: nat, m: nat)
    requires m == n + 1
    ensures ReadBang(ReadRun(b, n), pins).bus == ReadRun(b, m)
    ensures ReadBang(ReadRun(b, n), pins).value == Nib(pins, b.sampled + n)
  {
    ReadBangFields(ReadRun(b, n), pins);
    if n == 0 {
      FirstRead(b, pins);
    } else {
      NextRead(b, pins, n, m);
    }
  }

  lemma FirstRead(b: Bus, pins: nat -> bv8)
    ensures ReadBang(ReadRun(b, 0), pins).bus == ReadRun(b, 1)
  {
    ReadBangFields(b, pins);
    ReadRunFields(b, 1);
    assert ReadPulses(b.port | CLK_BIT, b.ddr & 0xe1, b.sampled + 1, 1) == [Clock(b.port | CLK_BIT, b.ddr & 0xe1, b.sampled + 1)];
    SameBus(ReadBang(b, pins).bus, ReadRun(b, 1));
  }

  lemma NextRead(b: Bus, pins: nat -> bv8, n: nat, m: nat)
    requires n > 0 && m == n + 1
    ensures ReadBang(ReadRun(b, n), pins).bus == ReadRun(b, m)
  {
    var r := ReadRun(b, n);
    ReadBangFields(r, pins);
    ReadRunFields(b, n);
    ReadRunFields(b, m);
    ClkMasks(b.port, b.ddr);
    ReadPulsesSnoc(b.trace, b.port | CLK_BIT, b.ddr & 0xe1, b.sampled + 1, n, m, b.sampled + m);
    SameBus(ReadBang(r, pins).bus, ReadRun(b, m));
  }

  lemma SameBus(x: Bus, y: Bus)
    requires x.ddr == y.ddr && x.port == y.port && x.sampled == y.sampled && x.trace == y.trace
    ensures x == y
  {
  }

  /** Shifting in one more sample after `n`. */
  lemma GatherSnoc(pins: nat -> bv8, w: Width, s: nat, n: nat, m: nat, acc: bv8)
    requires m == n + 1
    ensures Gather(pins, w, s, m, acc) == Shl(w, Gather(pins, w, s, n, acc)) + Digit(w, Nib(pins, s + n))
  {
    GatherSplit(pins, w, s, n, 1, acc);
  }

  /** A byte read is a run of receive pulses and the gathered samples. */
  lemma ReadByteRun(b: Bus, pins: nat -> bv8, w: Width)
    ensures ReadByte(b, pins, w).bus == ReadRun(b, PulsesPerByte(w))
    ensures ReadByte(b, pins, w).value == Gather(pins, w, b.sampled, PulsesPerByte(w), 0)
  {
  }

  /** Each pulse of a receive loop has the given registers and the sample count one
      past the previous pulse's. */
  lemma {:induction false} ReadPulsesShape(port: bv8, ddr: bv8, s: nat, n: nat)
    ensures forall k :: 0 <= k < n ==> ReadPulses(port, ddr, s, n)[k] == Clock(port, ddr, s + k)
  {
    forall k | 0 <= k < n
      ensures ReadPulses(port, ddr, s, n)[k] == Clock(port, ddr, s + k)
    {
      ReadPulsesAt(port, ddr, s, n, k);
    }
  }

  /** A byte read is one pulse per sample with the lanes as inputs, keeps CS, and leaves
      CLK low and the lanes as inputs. */
  lemma ReadBytePulses(b: Bus, pins: nat -> bv8, w: Width)
    ensures var r := ReadByte(b, pins, w).bus; var n := PulsesPerByte(w);
      Extends(b, r, n) && r.sampled == b.sampled + n && r.port & CLK_BIT == 0 && r.ddr & 0x1e == 0 &&
      forall k :: 0 <= k < n ==>
        r.trace[|b.trace|..][k].ddr & 0x1e == 0 && r.trace[|b.trace|..][k].samples == b.sampled + k + 1
  {
    ReadByteTrace(b, pins, w);
    RunPulses(b, ReadByte(b, pins, w).bus, PulsesPerByte(w));
  }

  /** A closed-form run of `n` receive pulses holds CS, leaves CLK low and the lanes as
      inputs, and samples once per pulse. */
  lemma RunPulses(b: Bus, r: Bus, n: nat)
    requires r.trace == b.trace + ReadPulses(b.port | CLK_BIT, b.ddr & 0xe1, b.sampled + 1, n)
    requires r.port == b.port & !CLK_BIT && r.ddr == b.ddr & 0xe1
    ensures Extends(b, r, n) && r.port & CLK_BIT == 0 && r.ddr & 0x1e == 0
    ensures forall k :: 0 <= k < n ==>
        r.trace[|b.trace|..][k].ddr & 0x1e == 0 && r.trace[|b.trace|..][k].samples == b.sampled + k + 1
  {
    var port, ddr := b.port | CLK_BIT, b.ddr & 0xe1;
    var t := ReadPulses(port, ddr, b.sampled + 1, n);
    assert r.trace[|b.trace|..] == t;
    ReadPulsesShape(port, ddr, b.sampled + 1, n);
    assert port & CS_BIT == b.port & CS_BIT && ddr & 0x1e == 0;
    assert r.port & CS_BIT == b.port & CS_BIT;
    ExtendsBy(b, r, t);
  }

  /** Reading `n + m` samples is reading `n` and then `m` more. */
  lemma {:induction false} GatherSplit(pins: nat -> bv8, w: Width, s: nat, n: nat, m: nat, acc: bv8)
    ensures Gather(pins, w, s, n + m, acc) == Gather(pins, w, s + n, m, Gather(pins, w, s, n, acc))
    decreases n
  {
    if n > 0 {
      GatherSplit(pins, w, s + 1, n - 1, m, Shl(w, acc) + Digit(w, Nib(pins, s)));
    }
  }

  /** IO1, PINB bit 2, at the n-th sample. */
  function Io1(pins: nat -> bv8, n: nat): (r: bv8)
    ensures r <= 1
  {
    (pins(n) >> 2) & 1
  }

  lemma Io1Digit(pins: nat -> bv8, n: nat)
    ensures Digit(X1, Nib(pins, n)) == Io1(pins, n)
  {
  }

  lemma NibbleValue(acc: bv8, d0: bv8, d1: bv8, d2: bv8, d3: bv8)
    requires acc < 16 && d0 <= 1 && d1 <= 1 && d2 <= 1 && d3 <= 1
    ensures ((((((((acc << 1) + d0) << 1) + d1) << 1) + d2) << 1) + d3) as int
         == 16 * acc as int + 8 * d0 as int + 4 * d1 as int + 2 * d2 as int + d3 as int
  {
  }

  /** One single-lane sample shifted in. */
  lemma GatherX1Step(pins: nat -> bv8, s: nat, n: nat, acc: bv8)
    requires n > 0
    ensures Gather(pins, X1, s, n, acc) == Gather(pins, X1, s + 1, n - 1, (acc << 1) + Io1(pins, s))
  {
    Io1Digit(pins, s);
  }

  /** Four single-lane samples shifted into an accumulator below 16. */
  lemma GatherX1Nibble(pins: nat -> bv8, s: nat, acc: bv8)
    requires acc < 16
    ensures Gather(pins, X1, s, 4, acc) as int
         == 16 * acc as int + 8 * Io1(pins, s) as int + 4 * Io1(pins, s + 1) as int
          + 2 * Io1(pins, s + 2) as int + Io1(pins, s + 3) as int
  {
    var d0, d1, d2, d3 := Io1(pins, s), Io1(pins, s + 1), Io1(pins, s + 2), Io1(pins, s + 3);
    var a1 := (acc << 1) + d0;
    var a2 := (a1 << 1) + d1;
    var a3 := (a2 << 1) + d2;
    GatherX1Step(pins, s, 4, acc);
    GatherX1Step(pins, s + 1, 3, a1);
    GatherX1Step(pins, s + 2, 2, a2);
    GatherX1Step(pins, s + 3, 1, a3);
    NibbleValue(acc, d0, d1, d2, d3);
  }

  /** `readSpiByte`: eight IO1 samples weighted 128 down to 1, first sample most
      significant. */
  lemma ReadSpiByteValue(pins: nat -> bv8, s: nat)
    ensures Gather(pins, X1, s, 8, 0) as int
         == 128 * Io1(pins, s) as int + 64 * Io1(pins, s + 1) as int + 32 * Io1(pins, s + 2) as int
          + 16 * Io1(pins, s + 3) as int + 8 * Io1(pins, s + 4) as int + 4 * Io1(pins, s + 5) as int
          + 2 * Io1(pins, s + 6) as int + Io1(pins, s + 7) as int
  {
    GatherSplit(pins, X1, s, 4, 4, 0);
    GatherX1Nibble(pins, s, 0);
    GatherX1Nibble(pins, s + 4, Gather(pins, X1, s, 4, 0));
  }

  /** `readDSpiByte`: four 2-bit samples weighted 64, 16, 4, 1, first sample most
      significant. */
  lemma ReadDSpiByteValue(pins: nat -> bv8, s: nat)
    ensures Gather(pins, X2, s, 4, 0) as int
         == 64 * (Nib(pins, s) & 3) as int + 16 * (Nib(pins, s + 1) & 3) as int
          + 4 * (Nib(pins, s + 2) & 3) as int + (Nib(pins, s + 3) & 3) as int
  {
    var d0, d1, d2, d3 := Nib(pins, s) & 3, Nib(pins, s + 1) & 3, Nib(pins, s + 2) & 3, Nib(pins, s + 3) & 3;
    var a1 := ((0 as bv8) << 2) + d0;
    var a2 := (a1 << 2) + d1;
    var a3 := (a2 << 2) + d2;
    GatherX2Step(pins, s, 4, 0);
    GatherX2Step(pins, s + 1, 3, a1);
    GatherX2Step(pins, s + 2, 2, a2);
    GatherX2Step(pins, s + 3, 1, a3);
    DualValue(d0, d1, d2, d3);
  }

  /** One dual-lane sample shifted in. */
  lemma GatherX2Step(pins: nat -> bv8, s: nat, n: nat, acc: bv8)
    requires n > 0
    ensures Gather(pins, X2, s, n, acc) == Gather(pins, X2, s + 1, n - 1, (acc << 2) + (Nib(pins, s) & 3))
  {
  }

  lemma DualValue(d0: bv8, d1: bv8, d2: bv8, d3: bv8)
    requires d0 <= 3 && d1 <= 3 && d2 <= 3 && d3 <= 3
    ensures (((((((((0 as bv8) << 2) + d0) << 2) + d1) << 2) + d2) << 2) + d3) as int
         == 64 * d0 as int + 16 * d1 as int + 4 * d2 as int + d3 as int
  {
  }

  /** `readQSpiByte`: the first nibble is the high one. */
  lemma ReadQSpiByteValue(pins: nat -> bv8, s: nat)
    ensures Gather(pins, X4, s, 2, 0) as int == 16 * Nib(pins, s) as int + Nib(pins, s + 1) as int
  {
    var n0, n1 := Nib(pins, s), Nib(pins, s + 1);
    var a1 := ((0 as bv8) << 4) + n0;
    assert Gather(pins, X4, s, 2, 0) == Gather(pins, X4, s + 1, 1, a1);
    QuadValue(n0, n1);
  }

  lemma QuadValue(n0: bv8, n1: bv8)
    requires n0 < 16 && n1 < 16
    ensures (((((0 as bv8) << 4) + n0) << 4) + n1) as int == 16 * n0 as int + n1 as int
  {
  }

  /** A device presenting the nibbles 0xA then 0x5 is read as 0xA5. */
  lemma ReadQSpiByteExample(pins: nat -> bv8, s: nat)
    requires Nib(pins, s) == 0xa && Nib(pins, s + 1) == 0x5
    ensures Gather(pins, X4, s, 2, 0) == 0xa5
  {
    ReadQSpiByteValue(pins, s);
  }

  // ---------------------------------------------------------------------------
  // Frames
  // ---------------------------------------------------------------------------

  /** `r` follows `b` by one chip-select frame of `n` pulses: CS is asserted by the first
      new event and deasserted by the last, and every event in between is a clock pulse
      taken with CS low; at the end CS is high and CLK low. */
  ghost predicate Framed(b: Bus, r: Bus, n: nat)
  {
    |r.trace| == |b.trace| + n + 2 && r.trace[..|b.trace|] == b.trace &&
    (var f := r.trace[|b.trace|..];
     f[0] == Select(true) && f[n + 1] == Select(false) &&
     (forall k :: 1 <= k <= n ==> f[k].Clock? && f[k].port & CS_BIT == 0)) &&
    r.port & CS_BIT == CS_BIT && r.port & CLK_BIT == 0
  }

  /** Asserting CS, `n` pulses that hold it, and deasserting CS form a frame. */
  lemma FramedBy(b: Bus, inner: Bus, n: nat)
    requires Extends(SetCS(b, true), inner, n)
    ensures Framed(b, SetCS(inner, false), n)
  {
    var b1 := SetCS(b, true);
    var r := SetCS(inner, false);
    var tb := |b.trace|;
    assert inner.trace[..tb] == b1.trace[..tb] == b.trace;
    assert r.trace[..tb] == inner.trace[..tb];
    var f := r.trace[tb..];
    assert f[0] == b1.trace[tb];
    forall k | 1 <= k <= n
      ensures f[k].Clock? && f[k].port & CS_BIT == 0
    {
      assert f[k] == inner.trace[|b1.trace|..][k - 1];
    }
  }

  /** A window of the trace that a later bus still holds unchanged. */
  lemma Window(x: seq<Event>, y: seq<Event>, i: nat, j: nat)
    requires |x| <= |y| && y[..|x|] == x && i <= j <= |x|
    ensures y[i..j] == x[i..j]
  {
    assert forall k :: i <= k < j ==> y[k] == y[..|x|][k];
  }

  /** One `id = (id << 8) + readSpiByte()` step on the 16-bit id. */
  function Shift8(id: bv16, v: bv8): bv16
  {
    (id << 8) + v as bv16
  }

  /** The two `id = (id << 8) + readSpiByte()` steps of `readChipID`, on a 16-bit id
      that starts at 0. */
  function ReadId(b: Bus, pins: nat -> bv8): IdRead
  {
    var hi := ReadByte(b, pins, X1);
    var id1 := Shift8(0, hi.value);
    var lo := ReadByte(hi.bus, pins, X1);
    IdRead(lo.bus, Shift8(id1, lo.value))
  }

  /** `readChipID`: assert CS, send 0x9F, eight dummy cycles, read the id, deassert
      CS. */
  function ChipId(b: Bus, pins: nat -> bv8): (r: IdRead)
    ensures r.bus.sampled == b.sampled + 16 && |r.bus.trace| == |b.trace| + 34
  {
    var b1 := SetCS(b, true);
    var b2 := SendCmd(b1, 0x9f);
    var b3 := Dummites(b2, 8);
    var id := ReadId(b3, pins);
    IdRead(SetCS(id.bus, false), id.value)
  }

  /** A bus whose trace was extended still holds the earlier trace as its prefix. */
  lemma ExtendsPrefix(a: Bus, r: Bus, n: nat, e: Event)
    requires Extends(a, r, n)
    ensures (r.trace + [e])[..|a.trace|] == a.trace && |r.trace + [e]| == |a.trace| + n + 1
  {
    assert (r.trace + [e])[..|a.trace|] == r.trace[..|a.trace|];
  }

  /** A trace extended by receive pulses taken with CS held is a run of sample pulses. */
  lemma ReadPulsesExtend(b: Bus, r: Bus, port: bv8, ddr: bv8, n: nat)
    requires r.trace == b.trace + ReadPulses(port, ddr, b.sampled + 1, n)
    requires port & CS_BIT == b.port & CS_BIT && r.port & CS_BIT == b.port & CS_BIT && ddr & 0x1e == 0
    ensures Extends(b, r, n) && SamplesAt(r.trace, |b.trace|, n, b.sampled)
  {
    var t := ReadPulses(port, ddr, b.sampled + 1, n);
    ReadPulsesShape(port, ddr, b.sampled + 1, n);
    ExtendsBy(b, r, t);
    forall k | |b.trace| <= k < |b.trace| + n
      ensures r.trace[k] == Clock(port, ddr, b.sampled + k - |b.trace| + 1)
    {
      assert r.trace[k] == t[k - |b.trace|];
    }
  }

  lemma ReadIdBus(b: Bus, pins: nat -> bv8)
    ensures ReadId(b, pins).bus == ReadByte(ReadByte(b, pins, X1).bus, pins, X1).bus
  {
  }

  lemma ReadByteTrace(b: Bus, pins: nat -> bv8, w: Width)
    ensures ReadByte(b, pins, w).bus.trace == b.trace + ReadPulses(b.port | CLK_BIT, b.ddr & 0xe1, b.sampled + 1, PulsesPerByte(w))
    ensures ReadByte(b, pins, w).bus.sampled == b.sampled + PulsesPerByte(w)
    ensures ReadByte(b, pins, w).bus.port == b.port & !CLK_BIT && ReadByte(b, pins, w).bus.ddr == b.ddr & 0xe1
    ensures ReadByte(b, pins, w).value == Gather(pins, w, b.sampled, PulsesPerByte(w), 0)
  {
    ReadByteRun(b, pins, w);
    ReadRunFields(b, PulsesPerByte(w));
  }

  /** Two runs of receive pulses, the second continuing the first's sample count, are
      one run. */
  lemma ReadPulsesJoin(t: seq<Event>, port: bv8, ddr: bv8, s: nat, n: nat, s2: nat, m: nat, total: nat)
    requires s2 == s + n && total == n + m
    ensures (t + ReadPulses(port, ddr, s, n)) + ReadPulses(port, ddr, s2, m) == t + ReadPulses(port, ddr, s, total)
  {
    ReadPulsesAppend(port, ddr, s, n, m);
  }

  /** A receive run of `n > 0` pulses followed by one of `m` more, taken from where the
      first left the registers, is one run of `n + m` pulses. */
  lemma JoinReads(b: Bus, hi: Bus, r: Bus, n: nat, m: nat, total: nat)
    requires n > 0 && total == n + m
    requires hi.trace == b.trace + ReadPulses(b.port | CLK_BIT, b.ddr & 0xe1, b.sampled + 1, n)
    requires hi.sampled == b.sampled + n && hi.port == b.port & !CLK_BIT && hi.ddr == b.ddr & 0xe1
    requires r.trace == hi.trace + ReadPulses(hi.port | CLK_BIT, hi.ddr & 0xe1, hi.sampled + 1, m)
    ensures r.trace == b.trace + ReadPulses(b.port | CLK_BIT, b.ddr & 0xe1, b.sampled + 1, total)
  {
    assert hi.port | CLK_BIT == b.port | CLK_BIT && hi.ddr & 0xe1 == b.ddr & 0xe1;
    ReadPulsesJoin(b.trace, b.port | CLK_BIT, b.ddr & 0xe1, b.sampled + 1, n, hi.sampled + 1, m, total);
  }

  /** Two single-lane byte reads in closed form: sixteen receive pulses. */
  lemma TwoBytesTrace(b: Bus, pins: nat -> bv8)
    ensures var r := ReadByte(ReadByte(b, pins, X1).bus, pins, X1).bus;
      r.trace == b.trace + ReadPulses(b.port | CLK_BIT, b.ddr & 0xe1, b.sampled + 1, 16) &&
      r.sampled == b.sampled + 16 && r.port == b.port & !CLK_BIT
  {
    var hi := ReadByte(b, pins, X1).bus;
    ReadByteTrace(b, pins, X1);
    ReadByteTrace(hi, pins, X1);
    JoinReads(b, hi, ReadByte(hi, pins, X1).bus, 8, 8, 16);
  }

  /** The two id reads are sixteen pulses, one sample each, with the lanes as inputs
      and CS held. */
  lemma ReadIdPulses(b: Bus, pins: nat -> bv8)
    ensures Extends(b, ReadId(b, pins).bus, 16)
    ensures ReadId(b, pins).bus.sampled == b.sampled + 16
    ensures SamplesAt(ReadId(b, pins).bus.trace, |b.trace|, 16, b.sampled)
  {
    TwoBytesTrace(b, pins);
    ReadIdBus(b, pins);
    ReadPulsesExtend(b, ReadId(b, pins).bus, b.port | CLK_BIT, b.ddr & 0xe1, 16);
  }

  /** The events of `readChipID`: CS asserted once at the start and deasserted once at
      the end around 32 pulses, and 16 samples taken. */
  lemma ChipIdShape(b: Bus, pins: nat -> bv8)
    ensures Framed(b, ChipId(b, pins).bus, 32)
    ensures ChipId(b, pins).bus.sampled == b.sampled + 16
  {
    var b1 := SetCS(b, true);
    var b2 := SendCmd(b1, 0x9f);
    var b3 := Dummites(b2, 8);
    var id := ReadId(b3, pins);
    SendCmdPulses(b1, 0x9f);
    DummitesPulses(b2, 8);
    ReadIdPulses(b3, pins);
    ExtendsTrans(b1, b2, b3, 8, 8);
    ExtendsTrans(b1, b3, id.bus, 16, 16);
    FramedBy(b, id.bus, 32);
  }

  /** Pulses 1..8 of `readChipID` shift out the opcode 0x9F on IO0. */
  lemma ChipIdOpcode(b: Bus, pins: nat -> bv8)
    ensures |ChipId(b, pins).bus.trace| >= |b.trace| + 9
    ensures ShiftIn(ChipId(b, pins).bus.trace[|b.trace| + 1..|b.trace| + 9], 0) == 0x9f
  {
    var b1 := SetCS(b, true);
    var b2 := SendCmd(b1, 0x9f);
    var b3 := Dummites(b2, 8);
    var id := ReadId(b3, pins);
    SendCmdPulses(b1, 0x9f);
    DummitesPulses(b2, 8);
    ReadIdPulses(b3, pins);
    ExtendsTrans(b2, b3, id.bus, 8, 16);
    ExtendsPrefix(b2, id.bus, 24, Select(false));
    var tb := |b.trace|;
    Window(b2.trace, ChipId(b, pins).bus.trace, tb + 1, tb + 9);
    assert b2.trace[tb + 1..tb + 9] == b2.trace[|b1.trace|..];
    SendCmdRoundTrip(b1, 0x9f);
  }

  /** Pulses 9..16 of `readChipID` are the dummy cycles, every lane high; since
      `sendCmdSpi` left the lanes as outputs, they are driven high. */
  lemma ChipIdDummies(b: Bus, pins: nat -> bv8)
    ensures LanesHighAt(ChipId(b, pins).bus.trace, |b.trace| + 9, 8)
    ensures DrivenAt(ChipId(b, pins).bus.trace, |b.trace| + 9, 8)
  {
    var b2 := SendCmd(SetCS(b, true), 0x9f);
    var b3 := Dummites(b2, 8);
    var q := ReadId(b3, pins).bus;
    SendCmdPulses(SetCS(b, true), 0x9f);
    DummitesPulses(b2, 8);
    ReadIdPulses(b3, pins);
    ExtendsPrefix(b3, q, 16, Select(false));
    LanesHighKept(b3.trace, q.trace + [Select(false)], |b2.trace|, 8);
    DummitesDriven(b2, 8);
    DrivenKept(b3.trace, q.trace + [Select(false)], |b2.trace|, 8);
  }


  /** Pulses 17..32 of `readChipID` take the samples, one each, with the lanes as
      inputs. */
  lemma ChipIdSamples(b: Bus, pins: nat -> bv8)
    ensures SamplesAt(ChipId(b, pins).bus.trace, |b.trace| + 17, 16, b.sampled)
  {
    var b3 := Dummites(SendCmd(SetCS(b, true), 0x9f), 8);
    var q := ReadId(b3, pins).bus;
    ReadIdPulses(b3, pins);
    assert |b3.trace| == |b.trace| + 17 && b3.sampled == b.sampled;
    SamplesKept(q.trace, q.trace + [Select(false)], |b3.trace|, 16, b3.sampled);
  }


  /** The id reads unfolded: the first byte is shifted in, then the second. */
  lemma ReadIdUnfold(b: Bus, pins: nat -> bv8)
    ensures ReadId(b, pins).value
         == Shift8(Shift8(0, Gather(pins, X1, b.sampled, 8, 0)), Gather(pins, X1, b.sampled + 8, 8, 0))
  {
    var hi := ReadByte(b, pins, X1);
    ReadIdBytes(b, pins);
    ReadByteTrace(b, pins, X1);
    ReadByteTrace(hi.bus, pins, X1);
  }

  /** The id is the first byte read shifted in, then the second. */
  lemma ReadIdBytes(b: Bus, pins: nat -> bv8)
    ensures var hi := ReadByte(b, pins, X1); var lo := ReadByte(hi.bus, pins, X1);
      ReadId(b, pins).value == Shift8(Shift8(0, hi.value), lo.value)
  {
  }

  /** The opcode and the dummy cycles take no sample, and the id is what the reads
      return. */
  lemma ChipIdPrologue(b: Bus, pins: nat -> bv8)
    ensures Dummites(SendCmd(SetCS(b, true), 0x9f), 8).sampled == b.sampled
    ensures ChipId(b, pins).value == ReadId(Dummites(SendCmd(SetCS(b, true), 0x9f), 8), pins).value
  {
  }

  /** Shifting the two bytes into a 16-bit zero is the same as `hi * 256 + lo`, and in
      16 bits that sum does not wrap. */
  lemma IdShift(hi: bv8, lo: bv8)
    ensures Shift8(Shift8(0, hi), lo) as int == 256 * hi as int + lo as int
  {
    assert Shift8(Shift8(0, hi), lo) == (hi as bv16) * 256 + lo as bv16;
    IdWiden(hi, lo);
  }

  lemma IdWiden(hi: bv8, lo: bv8)
    ensures ((hi as bv16) * 256 + lo as bv16) as int == 256 * hi as int + lo as int
  {
  }

  /** The id of `readChipID` is the first byte read times 256 plus the second, the
      bytes being the first and the second eight samples of IO1. */
  lemma ChipIdValue(b: Bus, pins: nat -> bv8)
    ensures ChipId(b, pins).value as int == 256 * Gather(pins, X1, b.sampled, 8, 0) as int + Gather(pins, X1, b.sampled + 8, 8, 0) as int
  {
    var b3 := Dummites(SendCmd(SetCS(b, true), 0x9f), 8);
    ChipIdPrologue(b, pins);
    ReadIdUnfold(b3, pins);
    IdFromBytes(ChipId(b, pins).value, Gather(pins, X1, b3.sampled, 8, 0), Gather(pins, X1, b3.sampled + 8, 8, 0));
  }

  lemma IdFromBytes(v: bv16, hi: bv8, lo: bv8)
    requires v == Shift8(Shift8(0, hi), lo)
    ensures v as int == 256 * hi as int + lo as int
  {
    IdShift(hi, lo);
  }

  /** A part answering with the bytes 0x2C then 0x11 reports the id 0x2C11. */
  lemma ChipIdExample(b: Bus, pins: nat -> bv8)
    requires Gather(pins, X1, b.sampled, 8, 0) == 0x2c && Gather(pins, X1, b.sampled + 8, 8, 0) == 0x11
    ensures ChipId(b, pins).value == 0x2c11
  {
    ChipIdValue(b, pins);
  }

  // ---------------------------------------------------------------------------
  // Page read
  // ---------------------------------------------------------------------------

  /** A bus together with the bytes a read loop returned, in the order read. */
  datatype Block = Block(bus: Bus, data: seq<bv8>)

  /** The bytes of `n` quad reads from sample `s` on: byte `k` is gathered from samples
      `s + 2k` and `s + 2k + 1`. */
  function QuadData(pins: nat -> bv8, s: nat, n: nat): (data: seq<bv8>)
    ensures |data| == n
  {
    seq(n, k requires 0 <= k < n => Gather(pins, X4, s + 2 * k, 2, 0))
  }

  /** `n` iterations of the loop of `ThePageRead`, one `readQSpiByte` each: `2 n`
      receive pulses and the bytes in the order read. */
  function QuadBytes(b: Bus, pins: nat -> bv8, n: nat): (r: Block)
    ensures |r.data| == n && r.bus.sampled == b.sampled + 2 * n && |r.bus.trace| == |b.trace| + 2 * n
  {
    Block(ReadRun(b, 2 * n), QuadData(pins, b.sampled, n))
  }

  /** Two runs of receive pulses, one after the other, are one run. */
  lemma ReadRunJoin(b: Bus, n: nat, m: nat, total: nat)
    requires total == n + m
    ensures ReadRun(ReadRun(b, n), m) == ReadRun(b, total)
  {
    if n > 0 && m > 0 {
      ReadRunsJoin(b, n, m, total);
    }
  }

  lemma ReadRunsJoin(b: Bus, n: nat, m: nat, total: nat)
    requires n > 0 && m > 0 && total == n + m
    ensures ReadRun(ReadRun(b, n), m) == ReadRun(b, total)
  {
    var hi := ReadRun(b, n);
    var r := ReadRun(hi, m);
    ReadRunFields(b, n);
    ReadRunFields(hi, m);
    ReadRunFields(b, total);
    ClkMasks(b.port, b.ddr);
    JoinReads(b, hi, r, n, m, total);
    SameBus(r, ReadRun(b, total));
  }

  /** One more iteration of the page loop: the next quad byte is gathered from the next
      two samples and the run grows by two pulses. */
  lemma QuadStep(b: Bus, pins: nat -> bv8, i: nat, j: nat)
    requires j == i + 1
    ensures ReadByte(ReadRun(b, 2 * i), pins, X4).bus == ReadRun(b, 2 * j)
    ensures ReadByte(ReadRun(b, 2 * i), pins, X4).value == Gather(pins, X4, b.sampled + 2 * i, 2, 0)
    ensures QuadData(pins, b.sampled, i) + [Gather(pins, X4, b.sampled + 2 * i, 2, 0)] == QuadData(pins, b.sampled, j)
  {
    QuadByteNext(b, pins, i, j);
    QuadDataSnoc(pins, b.sampled, i, j);
  }

  /** The next quad byte is read from the two samples after the first `2 i`. */
  lemma QuadByteNext(b: Bus, pins: nat -> bv8, i: nat, j: nat)
    requires j == i + 1
    ensures ReadByte(ReadRun(b, 2 * i), pins, X4).bus == ReadRun(b, 2 * j)
    ensures ReadByte(ReadRun(b, 2 * i), pins, X4).value == Gather(pins, X4, b.sampled + 2 * i, 2, 0)
  {
    var r := ReadRun(b, 2 * i);
    ReadByteRun(r, pins, X4);
    ReadRunJoin(b, 2 * i, 2, 2 * j);
    if i > 0 {
      ReadRunFields(b, 2 * i);
    }
    assert r.sampled == b.sampled + 2 * i;
  }

  /** The bytes of one more iteration are the earlier bytes and the new one. */
  lemma QuadDataSnoc(pins: nat -> bv8, s: nat, i: nat, j: nat)
    requires j == i + 1
    ensures QuadData(pins, s, i) + [Gather(pins, X4, s + 2 * i, 2, 0)] == QuadData(pins, s, j)
  {
    var d := QuadData(pins, s, i) + [Gather(pins, X4, s + 2 * i, 2, 0)];
    forall k | 0 <= k < j
      ensures d[k] == QuadData(pins, s, j)[k]
    {
    }
  }

  /** `ThePageRead`: assert CS, send 0x6B, 0x00, 0x00, eight dummy cycles, 32 quad
      bytes, deassert CS. The bytes are what the loop prints. */
  function PageRead(b: Bus, pins: nat -> bv8): (r: Block)
    ensures |r.data| == 32 && r.bus.sampled == b.sampled + 64 && |r.bus.trace| == |b.trace| + 98
  {
    var b1 := SetCS(b, true);
    var b2 := SendCmd(SendCmd(SendCmd(b1, 0x6b), 0x00), 0x00);
    var b3 := Dummites(b2, 8);
    var page := QuadBytes(b3, pins, 32);
    Block(SetCS(page.bus, false), page.data)
  }

  /** `n` quad bytes are `2 n` receive pulses, one sample each. */
  lemma QuadBytesTrace(b: Bus, pins: nat -> bv8, n: nat)
    requires n > 0
    ensures var r := QuadBytes(b, pins, n).bus;
      r.trace == b.trace + ReadPulses(b.port | CLK_BIT, b.ddr & 0xe1, b.sampled + 1, 2 * n) &&
      r.sampled == b.sampled + 2 * n && r.port == b.port & !CLK_BIT && r.ddr == b.ddr & 0xe1
  {
    ReadRunFields(b, 2 * n);
  }

  /** Byte `k` of `data` is the nibble of sample `s + 2k` times 16 plus the nibble of
      sample `s + 2k + 1`. */
  ghost predicate QuadAt(pins: nat -> bv8, s: nat, data: seq<bv8>)
  {
    forall k :: 0 <= k < |data| ==> data[k] as int == 16 * Nib(pins, s + 2 * k) as int + Nib(pins, s + 2 * k + 1) as int
  }

  /** The loop returns `n` bytes, each assembled from two consecutive samples, high
      nibble first. */
  lemma QuadBytesValue(b: Bus, pins: nat -> bv8, n: nat)
    ensures |QuadBytes(b, pins, n).data| == n
    ensures QuadAt(pins, b.sampled, QuadBytes(b, pins, n).data)
  {
    var data := QuadBytes(b, pins, n).data;
    forall k | 0 <= k < n
      ensures data[k] as int == 16 * Nib(pins, b.sampled + 2 * k) as int + Nib(pins, b.sampled + 2 * k + 1) as int
    {
      ReadQSpiByteValue(pins, b.sampled + 2 * k);
    }
  }

  /** A command byte whose pulses a later frame still holds can be read back from the
      frame: the eight pulses after `x` shift in `d`. */
  lemma CmdInFrame(x: Bus, d: bv8, q: Bus, n: nat)
    requires Extends(SendCmd(x, d), q, n)
    ensures |q.trace + [Select(false)]| >= |x.trace| + 8
    ensures ShiftIn((q.trace + [Select(false)])[|x.trace|..|x.trace| + 8], 0) == d
  {
    var y := SendCmd(x, d).trace;
    SendCmdRoundTrip(x, d);
    SendCmdPulses(x, d);
    ExtendsPrefix(SendCmd(x, d), q, n, Select(false));
    Window(y, q.trace + [Select(false)], |x.trace|, |x.trace| + 8);
    assert y[|x.trace|..|x.trace| + 8] == y[|x.trace|..];
  }

  /** The pulses of `ThePageRead` up to the last read, each stage still held by the
      trace at the end: 3 command bytes, 8 dummy cycles and 64 samples. */
  lemma PageReadPulses(b: Bus, pins: nat -> bv8)
    ensures var b1 := SetCS(b, true); var c1 := SendCmd(b1, 0x6b); var c2 := SendCmd(c1, 0x00);
      var b2 := SendCmd(c2, 0x00); var b3 := Dummites(b2, 8); var q := QuadBytes(b3, pins, 32).bus;
      Extends(c1, q, 88) && Extends(c2, q, 80) && Extends(b2, q, 72) && Extends(b3, q, 64) &&
      Extends(b1, q, 96) && SamplesAt(q.trace, |b3.trace|, 64, b3.sampled) &&
      b3.sampled == b.sampled && q.sampled == b.sampled + 64 && |b3.trace| == |b.trace| + 33
  {
    var b1 := SetCS(b, true);
    var c1 := SendCmd(b1, 0x6b);
    var c2 := SendCmd(c1, 0x00);
    var b2 := SendCmd(c2, 0x00);
    var b3 := Dummites(b2, 8);
    var q := QuadBytes(b3, pins, 32).bus;
    SendCmdPulses(b1, 0x6b);
    SendCmdPulses(c1, 0x00);
    SendCmdPulses(c2, 0x00);
    DummitesPulses(b2, 8);
    QuadBytesTrace(b3, pins, 32);
    ReadRunExtends(b3, q, 64);
    ExtendsChain(b1, c1, c2, b2, b3, q);
  }

  /** A receive run in closed form taken from `b`, ending with CLK low, extends `b`. */
  lemma ReadRunExtends(b: Bus, q: Bus, n: nat)
    requires q.trace == b.trace + ReadPulses(b.port | CLK_BIT, b.ddr & 0xe1, b.sampled + 1, n)
    requires q.port == b.port & !CLK_BIT
    ensures Extends(b, q, n) && SamplesAt(q.trace, |b.trace|, n, b.sampled)
  {
    assert b.port & CS_BIT == (b.port | CLK_BIT) & CS_BIT == q.port & CS_BIT;
    ReadPulsesExtend(b, q, b.port | CLK_BIT, b.ddr & 0xe1, n);
  }

  /** The stages of a page read: three command bytes, dummies and the reads. */
  lemma ExtendsChain(b1: Bus, c1: Bus, c2: Bus, b2: Bus, b3: Bus, q: Bus)
    requires Extends(b1, c1, 8) && Extends(c1, c2, 8) && Extends(c2, b2, 8) && Extends(b2, b3, 8)
    requires Extends(b3, q, 64)
    ensures Extends(c1, q, 88) && Extends(c2, q, 80) && Extends(b2, q, 72) && Extends(b1, q, 96)
  {
    ExtendsTrans(b2, b3, q, 8, 64);
    ExtendsTrans(c2, b2, q, 8, 72);
    ExtendsTrans(c1, c2, q, 8, 80);
    ExtendsTrans(b1, c1, q, 8, 88);
  }


  /** The events of `ThePageRead`: CS asserted once at the start and deasserted once at
      the end around 96 pulses, and 64 samples taken. */
  lemma PageReadShape(b: Bus, pins: nat -> bv8)
    ensures Framed(b, PageRead(b, pins).bus, 96)
    ensures PageRead(b, pins).bus.sampled == b.sampled + 64
  {
    PageReadPulses(b, pins);
    var b3 := Dummites(SendCmd(SendCmd(SendCmd(SetCS(b, true), 0x6b), 0x00), 0x00), 8);
    FramedBy(b, QuadBytes(b3, pins, 32).bus, 96);
  }

  /** Pulses 1..24 of `ThePageRead` shift out 0x6B, 0x00 and 0x00 on IO0. */
  lemma PageReadCommand(b: Bus, pins: nat -> bv8)
    ensures var t := PageRead(b, pins).bus.trace; var tb := |b.trace|;
      |t| >= tb + 25 &&
      ShiftIn(t[tb + 1..tb + 9], 0) == 0x6b && ShiftIn(t[tb + 9..tb + 17], 0) == 0x00 &&
      ShiftIn(t[tb + 17..tb + 25], 0) == 0x00
  {
    var b1 := SetCS(b, true);
    var c1 := SendCmd(b1, 0x6b);
    var c2 := SendCmd(c1, 0x00);
    var b3 := Dummites(SendCmd(c2, 0x00), 8);
    var q := QuadBytes(b3, pins, 32).bus;
    PageReadPulses(b, pins);
    SendCmdPulses(b1, 0x6b);
    SendCmdPulses(c1, 0x00);
    CmdInFrame(b1, 0x6b, q, 88);
    CmdInFrame(c1, 0x00, q, 80);
    CmdInFrame(c2, 0x00, q, 72);
  }

  /** Pulses 25..32 of `ThePageRead` are the dummy cycles, every lane high; since
      `sendCmdSpi` left the lanes as outputs, they are driven high. */
  lemma PageReadDummies(b: Bus, pins: nat -> bv8)
    ensures LanesHighAt(PageRead(b, pins).bus.trace, |b.trace| + 25, 8)
    ensures DrivenAt(PageRead(b, pins).bus.trace, |b.trace| + 25, 8)
  {
    var b2 := SendCmd(SendCmd(SendCmd(SetCS(b, true), 0x6b), 0x00), 0x00);
    var b3 := Dummites(b2, 8);
    var q := QuadBytes(b3, pins, 32).bus;
    PageReadPulses(b, pins);
    DummitesPulses(b2, 8);
    ExtendsPrefix(b3, q, 64, Select(false));
    LanesHighKept(b3.trace, q.trace + [Select(false)], |b2.trace|, 8);
    DummitesDriven(b2, 8);
    DrivenKept(b3.trace, q.trace + [Select(false)], |b2.trace|, 8);
  }


  /** Pulses 33..96 of `ThePageRead` take the samples, one each, with the lanes as
      inputs, and byte k of the page is assembled from samples 2k and 2k + 1. */
  lemma PageReadSamples(b: Bus, pins: nat -> bv8)
    ensures SamplesAt(PageRead(b, pins).bus.trace, |b.trace| + 33, 64, b.sampled)
    ensures |PageRead(b, pins).data| == 32
    ensures QuadAt(pins, b.sampled, PageRead(b, pins).data)
  {
    var b3 := Dummites(SendCmd(SendCmd(SendCmd(SetCS(b, true), 0x6b), 0x00), 0x00), 8);
    var q := QuadBytes(b3, pins, 32).bus;
    PageReadPulses(b, pins);
    QuadBytesValue(b3, pins, 32);
    SamplesKept(q.trace, q.trace + [Select(false)], |b3.trace|, 64, b3.sampled);
  }

  // ---------------------------------------------------------------------------
  // One step at a time: the unfoldings the running code follows
  // ---------------------------------------------------------------------------

  /** `readChipID` stage by stage. */
  lemma ChipIdStages(b: Bus, pins: nat -> bv8)
    ensures var b3 := Dummites(SendCmd(SetCS(b, true), 0x9f), 8);
      var hi := ReadByte(b3, pins, X1); var lo := ReadByte(hi.bus, pins, X1);
      ChipId(b, pins).bus == SetCS(lo.bus, false) &&
      ChipId(b, pins).value == Shift8(Shift8(0, hi.value), lo.value)
  {
  }

  /** `ThePageRead` stage by stage. */
  lemma PageReadStages(b: Bus, pins: nat -> bv8)
    ensures var b3 := Dummites(SendCmd(SendCmd(SendCmd(SetCS(b, true), 0x6b), 0x00), 0x00), 8);
      PageRead(b, pins).bus == SetCS(QuadBytes(b3, pins, 32).bus, false) &&
      PageRead(b, pins).data == QuadBytes(b3, pins, 32).data
  {
  }
}

