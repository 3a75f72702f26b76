/** The MCP3xxx command/response protocol as pure functions on the emulator's
    observable state: the reference model the Device class is proved against.

    A transaction: the host clocks in a start bit (1), a mode bit (1 = single
    ended, 0 = differential) and channelBits address bits; the emulator then
    queues bits + 2 result bits, which the host clocks out; the first bit
    received after the last result bit has gone returns the emulator to idle. */
module Protocol {
  import opened Arith
  import opened BitWords

  datatype Option<T> = None | Some(value: T)

  /** The five protocol states ('idle', 'mode', 'single', 'diff', 'result'). */
  datatype Phase = Idle | Mode | Single | Diff | Result

  /** A reference voltage: scale divides by it, so it is positive. */
  type Voltage = r: real | r > 0.0 witness 1.0

  /** Construction constants of one emulated chip. */
  datatype Config = Config(vref: Voltage, channelBits: nat, bits: nat)

  /** The protocol state with the receive and transmit bit buffers. */
  datatype Machine = Machine(phase: Phase, rx: seq<bool>, tx: seq<bool>)

  /** What a bit callback does: a new machine, or the IndexError Python raises
      when an addressed channel is not in the channel bank. */
  datatype Outcome = Ok(machine: Machine) | IndexError

  /** The state on_start leaves behind, whatever the state before. */
  const RESET := Machine(Idle, [], [])

  // ---------------------------------------------------------------------
  // Conversion (on_result)

  /** The code on_result computes for a channel, if the channel (and, when
      differential, its partner channel ^ 1) is in the bank. */
  function Reading(cfg: Config, bank: seq<real>, differential: bool, channel: nat): (r: Option<nat>)
    ensures r.Some? <==> channel < |bank| && (differential ==> Pair(channel) < |bank|)
    ensures r.Some? ==> r.value < Pow2(cfg.bits)
  {
    if differential then
      if channel < |bank| && Pair(channel) < |bank| then
        Some(Scale(Clamp(bank[channel] - bank[Pair(channel)], 0.0, cfg.vref), cfg.vref, cfg.bits))
      else None
    else if channel < |bank| then
      Some(Scale(Clamp(bank[channel], 0.0, cfg.vref), cfg.vref, cfg.bits))
    else None
  }

  /** The bits on_result queues: the code in bits + 2 bits, MSB first. */
  function ResultBits(cfg: Config, bank: seq<real>, differential: bool, channel: nat): (r: Option<seq<bool>>)
    ensures r.Some? <==> Reading(cfg, bank, differential, channel).Some?
    ensures r.Some? ==> |r.value| == cfg.bits + 2
    ensures r.Some? ==> Word(r.value) == Reading(cfg, bank, differential, channel).value
  {
    match Reading(cfg, bank, differential, channel)
    case None => None
    case Some(code) =>
      assert Pow2(cfg.bits) <= Pow2(cfg.bits + 2);
      Some(Encode(code, cfg.bits + 2))
  }

  /** A single-ended reading of a voltage already in [0, vref] is its scaled value. */
  lemma SingleInRange(cfg: Config, bank: seq<real>, c: nat)
    requires c < |bank| && 0.0 <= bank[c] <= cfg.vref
    ensures Reading(cfg, bank, false, c) == Some(Scale(bank[c], cfg.vref, cfg.bits))
  {
  }

  /** Out-of-range voltages read as the nearest bound: 0 V and below give 0,
      vref and above give the top code. */
  lemma SingleSaturates(cfg: Config, bank: seq<real>, c: nat)
    requires c < |bank|
    ensures bank[c] <= 0.0 ==> Reading(cfg, bank, false, c) == Some(0)
    ensures bank[c] >= cfg.vref ==> Reading(cfg, bank, false, c) == Some(Pow2(cfg.bits) - 1)
  {
  }

  /** A higher voltage never reads as a lower code. */
  lemma SingleMonotone(cfg: Config, bank: seq<real>, bank': seq<real>, c: nat)
    requires c < |bank| && c < |bank'| && bank[c] <= bank'[c]
    ensures Reading(cfg, bank, false, c).value <= Reading(cfg, bank', false, c).value
  {
    ClampMonotone(bank[c], bank'[c], 0.0, cfg.vref);
    ScaleMonotone(Clamp(bank[c], 0.0, cfg.vref), Clamp(bank'[c], 0.0, cfg.vref), cfg.vref, cfg.bits);
  }

  /** Addressing the partner of c reads the difference the other way round:
      channel ^ 1 is paired back with c. */
  lemma DiffPartner(cfg: Config, bank: seq<real>, c: nat)
    requires c < |bank| && Pair(c) < |bank|
    ensures Reading(cfg, bank, true, Pair(c))
         == Some(Scale(Clamp(bank[Pair(c)] - bank[c], 0.0, cfg.vref), cfg.vref, cfg.bits))
  {
    PairInvolution(c);
  }

  /** Of the two differential readings of one pair, at least one is 0. */
  lemma DiffOneSided(cfg: Config, bank: seq<real>, c: nat)
    requires c < |bank| && Pair(c) < |bank|
    ensures Reading(cfg, bank, true, c) == Some(0) || Reading(cfg, bank, true, Pair(c)) == Some(0)
  {
    PairInvolution(c);
  }

  /** A conversion reads only the addressed channel and its partner. */
  lemma ReadingIsLocal(cfg: Config, bank: seq<real>, bank': seq<real>, differential: bool, c: nat)
    requires |bank| == |bank'|
    requires c < |bank| ==> bank[c] == bank'[c]
    requires differential && Pair(c) < |bank| ==> bank[Pair(c)] == bank'[Pair(c)]
    ensures Reading(cfg, bank, differential, c) == Reading(cfg, bank', differential, c)
  {
  }

  /** With a bank of at least 2 ** channelBits channels (8 for 3 address bits,
      2 for 1), every address and its partner are in range. */
  lemma AddressInRange(cfg: Config, bank: seq<real>, address: seq<bool>, differential: bool)
    requires cfg.channelBits >= 1
    requires |address| == cfg.channelBits && |bank| >= Pow2(cfg.channelBits)
    ensures Word(address) < |bank| && Pair(Word(address)) < |bank|
    ensures ResultBits(cfg, bank, differential, Word(address)).Some?
  {
    PairInRange(Word(address), cfg.channelBits);
  }

  // ---------------------------------------------------------------------
  // The bit callback (on_bit)

  /** on_bit. The SPI base device calls it only after appending the received
      bit to rx, so rx is never empty here. */
  function BitStep(cfg: Config, bank: seq<real>, m: Machine): (r: Outcome)
    requires |m.rx| > 0
    ensures r.IndexError? <==>
      (m.phase == Single || m.phase == Diff) && |m.rx| == cfg.channelBits &&
      !(Word(m.rx) < |bank| && (m.phase == Diff ==> Pair(Word(m.rx)) < |bank|))
  {
    var last := m.rx[|m.rx| - 1];
    match m.phase
    case Idle =>
      if last then Ok(Machine(Mode, [], m.tx)) else Ok(m)
    case Mode =>
      Ok(Machine(if last then Single else Diff, [], m.tx))
    case Single | Diff =>
      if |m.rx| == cfg.channelBits then
        match ResultBits(cfg, bank, m.phase == Diff, Word(m.rx))
        case None => IndexError
        case Some(out) => Ok(Machine(Result, m.rx, m.tx + out))
      else Ok(m)
    case Result =>
      if m.tx == [] then Ok(Machine(Idle, [], m.tx)) else Ok(m)
  }

  /** Idle: a 1 starts a command and empties rx; a 0 changes nothing. */
  lemma IdleStep(cfg: Config, bank: seq<real>, m: Machine)
    requires |m.rx| > 0 && m.phase == Idle
    ensures m.rx[|m.rx| - 1] ==> BitStep(cfg, bank, m) == Ok(Machine(Mode, [], m.tx))
    ensures !m.rx[|m.rx| - 1] ==> BitStep(cfg, bank, m) == Ok(m)
  {
  }

  /** Mode: the bit selects single ended (1) or differential (0); rx is emptied. */
  lemma ModeStep(cfg: Config, bank: seq<real>, m: Machine)
    requires |m.rx| > 0 && m.phase == Mode
    ensures BitStep(cfg, bank, m).Ok?
    ensures BitStep(cfg, bank, m).machine.rx == []
    ensures BitStep(cfg, bank, m).machine.phase == Single <==> m.rx[|m.rx| - 1]
    ensures BitStep(cfg, bank, m).machine.phase == Diff <==> !m.rx[|m.rx| - 1]
  {
  }

  /** Single/Diff: nothing changes until rx holds channelBits bits; then one
      conversion, differential exactly in Diff, is queued and the phase is Result. */
  lemma AddressStep(cfg: Config, bank: seq<real>, m: Machine)
    requires |m.rx| > 0 && (m.phase == Single || m.phase == Diff)
    ensures |m.rx| != cfg.channelBits ==> BitStep(cfg, bank, m) == Ok(m)
    ensures |m.rx| == cfg.channelBits && ResultBits(cfg, bank, m.phase == Diff, Word(m.rx)).Some? ==>
      var out := ResultBits(cfg, bank, m.phase == Diff, Word(m.rx)).value;
      BitStep(cfg, bank, m) == Ok(Machine(Result, m.rx, m.tx + out)) && |out| == cfg.bits + 2
    ensures (|m.rx| == cfg.channelBits &&
             !(Word(m.rx) < |bank| && (m.phase == Diff ==> Pair(Word(m.rx)) < |bank|))) ==>
      BitStep(cfg, bank, m) == IndexError
  {
  }

  /** Result: back to idle with an empty rx exactly when tx is empty;
      otherwise nothing changes. */
  lemma ResultStep(cfg: Config, bank: seq<real>, m: Machine)
    requires |m.rx| > 0 && m.phase == Result
    ensures BitStep(cfg, bank, m).Ok?
    ensures BitStep(cfg, bank, m).machine.phase == Idle <==> m.tx == []
    ensures m.tx == [] ==> BitStep(cfg, bank, m).machine == RESET
    ensures m.tx != [] ==> BitStep(cfg, bank, m).machine == m
  {
  }

  /** The rx buffer is emptied on every transition into Idle, Mode, Single or Diff. */
  lemma EnteringClearsRx(cfg: Config, bank: seq<real>, m: Machine)
    requires |m.rx| > 0
    requires BitStep(cfg, bank, m).Ok? && BitStep(cfg, bank, m).machine.phase != m.phase
    ensures BitStep(cfg, bank, m).machine.phase != Result ==> BitStep(cfg, bank, m).machine.rx == []
    ensures BitStep(cfg, bank, m).machine.phase == Result ==> |BitStep(cfg, bank, m).machine.tx| == |m.tx| + cfg.bits + 2
  {
  }

  /** With every address in range, on_bit never raises. */
  lemma NoFault(cfg: Config, bank: seq<real>, m: Machine)
    requires |m.rx| > 0
    requires cfg.channelBits >= 1 && |bank| >= Pow2(cfg.channelBits)
    ensures BitStep(cfg, bank, m).Ok?
  {
    if (m.phase == Single || m.phase == Diff) && |m.rx| == cfg.channelBits {
      AddressInRange(cfg, bank, m.rx, m.phase == Diff);
    }
  }

  // ---------------------------------------------------------------------
  // The clocking driver (gpiozero's MockSPIDevice, not part of this model):
  // each clock cycle shifts out the first queued tx bit, if any, then
  // appends the received bit to rx and calls on_bit.

  function Pop(tx: seq<bool>): seq<bool>
  {
    if tx == [] then [] else tx[1..]
  }

  function Shifted(tx: seq<bool>): seq<bool>
  {
    if tx == [] then [] else [tx[0]]
  }

  function Cycle(cfg: Config, bank: seq<real>, m: Machine, b: bool): Outcome
  {
    BitStep(cfg, bank, Machine(m.phase, m.rx + [b], Pop(m.tx)))
  }

  /** The outcome of a run of clock cycles and the bits shifted out during it. */
  datatype Transcript = Transcript(outcome: Outcome, sent: seq<bool>)

  /** Clocking a sequence of input bits through any bit callback: stops at
      the first cycle that raises. */
  function Drive(step: (Machine, bool) -> Outcome, m: Machine, input: seq<bool>): Transcript
    decreases |input|
  {
    if input == [] then Transcript(Ok(m), [])
    else
      match step(m, input[0])
      case IndexError => Transcript(IndexError, Shifted(m.tx))
      case Ok(next) =>
        var rest := Drive(step, next, input[1..]);
        Transcript(rest.outcome, Shifted(m.tx) + rest.sent)
  }

  /** Driving two inputs one after the other is driving their concatenation. */
  lemma {:induction false} DriveAppend(step: (Machine, bool) -> Outcome, m: Machine, a: seq<bool>, b: seq<bool>)
    requires Drive(step, m, a).outcome.Ok?
    ensures Drive(step, m, a + b)
         == var first := Drive(step, m, a);
            var second := Drive(step, first.outcome.machine, b);
            Transcript(second.outcome, first.sent + second.sent)
    decreases |a|
  {
    if a == [] {
      assert a + b == b;
    } else {
      var c := step(m, a[0]);
      assert c.Ok?;
      var rest := Drive(step, c.machine, a[1..]);
      assert Drive(step, m, a) == Transcript(rest.outcome, Shifted(m.tx) + rest.sent);
      var second := Drive(step, rest.outcome.machine, b);
      DriveAppend(step, c.machine, a[1..], b);
      assert (a + b)[0] == a[0] && (a + b)[1..] == a[1..] + b;
      assert Drive(step, m, a + b)
          == Transcript(second.outcome, Shifted(m.tx) + (rest.sent + second.sent));
      assert Shifted(m.tx) + (rest.sent + second.sent) == (Shifted(m.tx) + rest.sent) + second.sent;
    }
  }

  /** The emulator's clock cycle as a bit callback for Drive. */
  function Clock(cfg: Config, bank: seq<real>): (Machine, bool) -> Outcome
  {
    (m: Machine, b: bool) => Cycle(cfg, bank, m, b)
  }

  function Run(cfg: Config, bank: seq<real>, m: Machine, input: seq<bool>): Transcript
  {
    Drive(Clock(cfg, bank), m, input)
  }

  /** One clock cycle followed by the rest of the input. */
  lemma RunStep(cfg: Config, bank: seq<real>, m: Machine, b: bool, rest: seq<bool>, next: Machine)
    requires Cycle(cfg, bank, m, b) == Ok(next)
    ensures Run(cfg, bank, m, [b] + rest)
         == Transcript(Run(cfg, bank, next, rest).outcome, Shifted(m.tx) + Run(cfg, bank, next, rest).sent)
  {
    assert ([b] + rest)[0] == b && ([b] + rest)[1..] == rest;
  }

  /** Running two inputs one after the other is running their concatenation. */
  lemma RunAppend(cfg: Config, bank: seq<real>, m: Machine, a: seq<bool>, b: seq<bool>)
    requires Run(cfg, bank, m, a).outcome.Ok?
    ensures Run(cfg, bank, m, a + b)
         == var first := Run(cfg, bank, m, a);
            var second := Run(cfg, bank, first.outcome.machine, b);
            Transcript(second.outcome, first.sent + second.sent)
  {
    DriveAppend(Clock(cfg, bank), m, a, b);
  }

  /** Bits without a start bit keep the machine in Idle (rx only grows). */
  lemma {:induction false} IdleZeros(cfg: Config, bank: seq<real>, r: seq<bool>, zeros: seq<bool>)
    requires forall i :: 0 <= i < |zeros| ==> !zeros[i]
    ensures Run(cfg, bank, Machine(Idle, r, []), zeros) == Transcript(Ok(Machine(Idle, r + zeros, [])), [])
    decreases |zeros|
  {
    if zeros != [] {
      assert Cycle(cfg, bank, Machine(Idle, r, []), zeros[0]) == Ok(Machine(Idle, r + [zeros[0]], []));
      IdleZeros(cfg, bank, r + [zeros[0]], zeros[1..]);
      assert r + [zeros[0]] + zeros[1..] == r + zeros;
    } else {
      assert r + zeros == r;
    }
  }

  /** An address bit before the last only joins rx. */
  lemma AddressCycle(cfg: Config, bank: seq<real>, phase: Phase, p: seq<bool>, b: bool)
    requires (phase == Single || phase == Diff)
    requires |p| + 1 < cfg.channelBits
    ensures Cycle(cfg, bank, Machine(phase, p, []), b) == Ok(Machine(phase, p + [b], []))
  {
  }

  /** The address bits of a command: receiving the rest q of the address
      leaves the machine where on_bit leaves it on the complete address. */
  lemma {:induction false} AddressPhase(cfg: Config, bank: seq<real>, phase: Phase, p: seq<bool>, q: seq<bool>)
    requires (phase == Single || phase == Diff)
    requires |q| >= 1 && |p| + |q| == cfg.channelBits
    ensures Run(cfg, bank, Machine(phase, p, []), q)
         == Transcript(BitStep(cfg, bank, Machine(phase, p + q, [])), [])
    decreases |q|
  {
    var m := Machine(phase, p, []);
    assert [q[0]] + q[1..] == q;
    if |q| == 1 {
      assert p + [q[0]] == p + q;
      var c := BitStep(cfg, bank, Machine(phase, p + q, []));
      assert Cycle(cfg, bank, m, q[0]) == c;
      if c.Ok? {
        RunStep(cfg, bank, m, q[0], q[1..], c.machine);
        assert q[1..] == [];
      }
    } else {
      var p' := p + [q[0]];
      assert p' + q[1..] == p + q;
      AddressCycle(cfg, bank, phase, p, q[0]);
      RunStep(cfg, bank, m, q[0], q[1..], Machine(phase, p', []));
      AddressPhase(cfg, bank, phase, p', q[1..]);
    }
  }

  /** With every address in range, the last address bit queues the reading. */
  lemma AddressComplete(cfg: Config, bank: seq<real>, phase: Phase, address: seq<bool>)
    requires cfg.channelBits >= 1 && |bank| >= Pow2(cfg.channelBits)
    requires phase == Single || phase == Diff
    requires |address| == cfg.channelBits
    ensures ResultBits(cfg, bank, phase == Diff, Word(address)).Some?
    ensures BitStep(cfg, bank, Machine(phase, address, []))
         == Ok(Machine(Result, address, ResultBits(cfg, bank, phase == Diff, Word(address)).value))
  {
    AddressInRange(cfg, bank, address, phase == Diff);
    assert [] + ResultBits(cfg, bank, phase == Diff, Word(address)).value
        == ResultBits(cfg, bank, phase == Diff, Word(address)).value;
  }

  /** Draining the result: one clock cycle per queued bit shifts out exactly
      the queued bits and ends in Idle with both buffers empty. */
  lemma {:induction false} DrainPhase(cfg: Config, bank: seq<real>, r: seq<bool>, t: seq<bool>, q: seq<bool>)
    requires |t| >= 1 && |q| == |t|
    ensures Run(cfg, bank, Machine(Result, r, t), q) == Transcript(Ok(RESET), t)
    decreases |q|
  {
    var m := Machine(Result, r, t);
    assert [q[0]] + q[1..] == q;
    if |t| == 1 {
      assert Pop(t) == [] && Shifted(t) == t;
      assert Cycle(cfg, bank, m, q[0]) == Ok(RESET);
      RunStep(cfg, bank, m, q[0], q[1..], RESET);
    } else {
      var next := Machine(Result, r + [q[0]], t[1..]);
      assert Cycle(cfg, bank, m, q[0]) == Ok(next);
      RunStep(cfg, bank, m, q[0], q[1..], next);
      DrainPhase(cfg, bank, r + [q[0]], t[1..], q[1..]);
      assert [t[0]] + t[1..] == t;
    }
  }

  /** The start bit and the mode bit, received in Idle with an empty tx. */
  lemma StartCommand(cfg: Config, bank: seq<real>, r: seq<bool>, single: bool)
    ensures Run(cfg, bank, Machine(Idle, r, []), [true, single])
         == Transcript(Ok(Machine(if single then Single else Diff, [], [])), [])
  {
    var selected := Machine(if single then Single else Diff, [], []);
    assert Cycle(cfg, bank, Machine(Idle, r, []), true) == Ok(Machine(Mode, [], []));
    assert Cycle(cfg, bank, Machine(Mode, [], []), single) == Ok(selected);
    RunStep(cfg, bank, Machine(Mode, [], []), single, [], selected);
    assert [single] + [] == [single];
    RunStep(cfg, bank, Machine(Idle, r, []), true, [single], Machine(Mode, [], []));
    assert [true] + [single] == [true, single];
  }

  /** A whole transaction after on_start: any number of 0 bits, the start bit,
      the mode bit, the address bits and one cycle per result bit. The host
      receives exactly the bits + 2 bit encoding of the addressed reading, and
      the machine is back in Idle with empty buffers. */
  lemma Transaction(cfg: Config, bank: seq<real>, zeros: seq<bool>, single: bool, address: seq<bool>, tail: seq<bool>)
    requires cfg.channelBits >= 1 && |bank| >= Pow2(cfg.channelBits)
    requires forall i :: 0 <= i < |zeros| ==> !zeros[i]
    requires |address| == cfg.channelBits && |tail| == cfg.bits + 2
    ensures Reading(cfg, bank, !single, Word(address)).Some?
    ensures Run(cfg, bank, RESET, zeros + [true, single] + address).sent == []
    ensures var run := Run(cfg, bank, RESET, zeros + [true, single] + address + tail);
      run.outcome == Ok(RESET) && |run.sent| == cfg.bits + 2 &&
      Word(run.sent) == Reading(cfg, bank, !single, Word(address)).value
  {
    var phase := if single then Single else Diff;
    AddressInRange(cfg, bank, address, !single);
    var frame := ResultBits(cfg, bank, !single, Word(address)).value;
    var a := zeros;
    var b := a + [true, single];
    var c := b + address;
    // 0 bits: still Idle
    IdleZeros(cfg, bank, [], zeros);
    assert [] + zeros == zeros;
    assert Run(cfg, bank, RESET, a) == Transcript(Ok(Machine(Idle, zeros, [])), []);
    // start and mode bits
    StartCommand(cfg, bank, zeros, single);
    RunAppend(cfg, bank, RESET, a, [true, single]);
    assert Run(cfg, bank, RESET, b) == Transcript(Ok(Machine(phase, [], [])), []);
    // address bits
    AddressPhase(cfg, bank, phase, [], address);
    AddressComplete(cfg, bank, phase, address);
    assert [] + address == address;
    RunAppend(cfg, bank, RESET, b, address);
    assert Run(cfg, bank, RESET, c) == Transcript(Ok(Machine(Result, address, frame)), []);
    // result bits
    DrainPhase(cfg, bank, address, frame, tail);
    RunAppend(cfg, bank, RESET, c, tail);
    assert Run(cfg, bank, RESET, c + tail) == Transcript(Ok(RESET), frame);
  }

  // ---------------------------------------------------------------------
  // The protocol invariant: what holds between two clock cycles

  ghost predicate Inv(cfg: Config, m: Machine)
  {
    match m.phase
    case Idle => m.tx == [] && forall i :: 0 <= i < |m.rx| ==> !m.rx[i]
    case Mode => m.rx == [] && m.tx == []
    case Single | Diff => |m.rx| < cfg.channelBits && m.tx == []
    case Result => |m.tx| <= cfg.bits + 2
  }

  /** Every clock cycle that does not raise keeps the invariant, and on_start
      establishes it; so the machine is always in one of the five states with
      buffers of the expected shape. */
  lemma InvPreserved(cfg: Config, bank: seq<real>, m: Machine, b: bool)
    requires cfg.channelBits >= 1
    requires Inv(cfg, m)
    ensures Inv(cfg, RESET)
    ensures Cycle(cfg, bank, m, b).Ok? ==> Inv(cfg, Cycle(cfg, bank, m, b).machine)
  {
    var m' := Machine(m.phase, m.rx + [b], Pop(m.tx));
    if m.phase == Idle && !b {
      assert forall i :: 0 <= i < |m'.rx| ==> !m'.rx[i] by {
        forall i | 0 <= i < |m'.rx| ensures !m'.rx[i] {
          if i < |m.rx| { assert m'.rx[i] == m.rx[i]; }
        }
      }
    }
  }

  // ---------------------------------------------------------------------
  // The chip variants

  /** MockMCP3xxx: 3 address bits, with vref fixed at 3.3. */
  function Mcp3xxxConfig(bits: nat): (c: Config)
    ensures c.vref == 3.3 && Pow2(c.channelBits) == 8
  {
    Config(3.3, 3, bits)
  }

  /** MockMCP3xx2: 2 channels, 1 address bit. */
  function Mcp3xx2Config(bits: nat): (c: Config)
    ensures c.vref == 3.3 && Pow2(c.channelBits) == 2
  {
    Config(3.3, 1, bits)
  }

  /** The MCP3002 with the bank [3.3, 0.0]: full scale on channel 0 reads 1023,
      0 V on channel 1 reads 0, and the differential reading of channel 0
      against channel 1 saturates at 1023. */
  lemma Mcp3002Readings()
    ensures Reading(Mcp3xx2Config(10), [3.3, 0.0], false, 0) == Some(1023)
    ensures Reading(Mcp3xx2Config(10), [3.3, 0.0], false, 1) == Some(0)
    ensures Reading(Mcp3xx2Config(10), [3.3, 0.0], true, 0) == Some(1023)
    ensures Reading(Mcp3xx2Config(10), [3.3, 0.0], true, 1) == Some(0)
  {
    assert Pow2(10) == 1024;
  }
}
