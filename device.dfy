/** The emulated MCP3xxx chip as an object whose protocol state and SPI bit
    buffers are updated in place by the bit callbacks. */
module Device {
  import opened Arith
  import opened BitWords
  import opened Protocol

  class Mcp3xxx {
    /** The reference voltage, fixed at construction. */
    const vref: Voltage := 3.3
    /** Address bits per command: 3 for the 8-channel chips, 1 for the 2-channel ones. */
    const channelBits: nat
    /** Result resolution in bits. */
    const bits: nat

    /** The channel bank: one voltage per analog input, set from outside. */
    var channels: seq<real>
    var state: Phase
    /** The SPI receive and transmit buffers (kept by the SPI base device). */
    var rxBuf: seq<bool>
    var txBuf: seq<bool>

    function Cfg(): Config
    {
      Config(vref, channelBits, bits)
    }

    function Regs(): Machine
      reads this
    {
      Machine(state, rxBuf, txBuf)
    }

    /** MockMCP3xxx(channels=8, bits=10): every channel at 0 V, 3 address bits. */
    constructor (channelCount: nat := 8, bits: nat := 10)
      ensures Cfg() == Mcp3xxxConfig(bits)
      ensures |channels| == channelCount && forall i :: 0 <= i < channelCount ==> channels[i] == 0.0
      ensures Regs() == RESET
    {
      this.channelBits := 3;
      this.bits := bits;
      channels := seq(channelCount, _ => 0.0);
      state := Idle;
      rxBuf, txBuf := [], [];
    }

    /** MockMCP3xx2(bits=10): two channels, 1 address bit. */
    constructor Mcp3xx2(bits: nat := 10)
      ensures Cfg() == Mcp3xx2Config(bits)
      ensures channels == [0.0, 0.0]
      ensures Regs() == RESET
    {
      this.channelBits := 1;
      this.bits := bits;
      channels := [0.0, 0.0];
      state := Idle;
      rxBuf, txBuf := [], [];
    }

    /** MockMCP3002: an MCP3xx2 with 10-bit results. */
    constructor Mcp3002()
      ensures Cfg() == Mcp3xx2Config(10)
      ensures channels == [0.0, 0.0]
      ensures Regs() == RESET
    {
      this.channelBits := 1;
      this.bits := 10;
      channels := [0.0, 0.0];
      state := Idle;
      rxBuf, txBuf := [], [];
    }

    /** on_start: chip select asserted; the base device empties both buffers,
        and the protocol returns to idle whatever state it was in. */
    method OnStart()
      modifies this
      ensures Regs() == RESET
      ensures channels == old(channels)
    {
      rxBuf, txBuf := [], [];
      state := Idle;
    }

    /** on_result: compute the conversion of a channel and queue its bits + 2
        bit code; fails (IndexError) when a channel it reads is not in the bank. */
    method OnResult(differential: bool, channel: nat) returns (ok: bool)
      modifies this`txBuf
      ensures ok == ResultBits(Cfg(), channels, differential, channel).Some?
      ensures ok ==> txBuf == old(txBuf) + ResultBits(Cfg(), channels, differential, channel).value
      ensures ok ==> |txBuf| == |old(txBuf)| + bits + 2
      ensures !ok ==> txBuf == old(txBuf)
    {
      var result: real;
      if differential {
        var posChannel := channel;
        var negChannel := Pair(posChannel);
        if posChannel >= |channels| || negChannel >= |channels| {
          return false;
        }
        result := channels[posChannel] - channels[negChannel];
        result := Clamp(result, 0.0, vref);
      } else {
        if channel >= |channels| {
          return false;
        }
        result := Clamp(channels[channel], 0.0, vref);
      }
      var code := Scale(result, vref, bits);
      assert Reading(Cfg(), channels, differential, channel) == Some(code);
      assert Pow2(bits) <= Pow2(bits + 2);
      assert ResultBits(Cfg(), channels, differential, channel) == Some(Encode(code, bits + 2));
      txBuf := txBuf + Encode(code, bits + 2);
      ok := true;
    }

    /** on_bit: called by the SPI base device after it appended a bit to rxBuf.
        Returns false when on_result raised; the state is then unchanged. */
    method OnBit() returns (ok: bool)
      requires |rxBuf| > 0
      modifies this
      ensures channels == old(channels)
      ensures BitStep(Cfg(), old(channels), old(Regs())) == if ok then Ok(Regs()) else IndexError
      ensures !ok ==> Regs() == old(Regs())
    {
      ok := true;
      var last := rxBuf[|rxBuf| - 1];
      match state
      case Idle =>
        if last {
          state := Mode;
          rxBuf := [];
        }
      case Mode =>
        state := if last then Single else Diff;
        rxBuf := [];
      case Single | Diff =>
        if |rxBuf| == channelBits {
          ok := OnResult(state == Diff, Word(rxBuf));
          if ok {
            state := Result;
          }
        }
      case Result =>
        if txBuf == [] {
          state := Idle;
          rxBuf := [];
        }
    }
  }

  /** A client: an MCP3002 with 3.3 V on channel 0 and 0 V on channel 1,
      after on_start and the start, single-ended mode and address bits of a
      read of channel 0, holds the 12-bit encoding of 1023 ready to shift out. */
  method ReadFullScale() returns (adc: Mcp3xxx)
    ensures adc.state == Result && Word(adc.txBuf) == 1023 && |adc.txBuf| == 12
  {
    adc := new Mcp3xxx.Mcp3002();
    adc.channels := [3.3, 0.0];
    adc.OnStart();
    var ok: bool;
    adc.rxBuf := adc.rxBuf + [true];
    ok := adc.OnBit();
    assert adc.state == Mode;
    adc.rxBuf := adc.rxBuf + [true];
    ok := adc.OnBit();
    assert adc.state == Single && adc.rxBuf == [];
    Mcp3002Readings();
    assert Word([false]) == 0;
    AddressComplete(Mcp3xx2Config(10), [3.3, 0.0], Single, [false]);
    adc.rxBuf := adc.rxBuf + [false];
    assert adc.rxBuf == [false];
    ok := adc.OnBit();
  }
}
