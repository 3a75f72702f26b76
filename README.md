# MCP3xxx SPI ADC emulator, modelled in Dafny

VirtualCopernicusNG simulates a single-board computer's peripherals on screen. Its one piece of real logic is `MockMCP3xxx`. This class emulates the Microchip MCP3xxx family of SPI analog-to-digital converters bit by bit.

- The SPI base device latches every received bit into `rx_buf` and calls `on_bit`.
- `on_bit` runs a five-state protocol machine: `idle`, `mode`, `single`, `diff`, `result`.
- Once the address bits are in, `on_result` samples the channel bank. It takes a single-ended channel, or a differential pair `c` / `c ^ 1`. It clamps the voltage to `[0, vref]`, scales it to a `bits`-bit code and queues `bits + 2` bits in `tx_buf`.
- `MockMCP3xx2` and `MockMCP3002` only change parameters: 2 channels, 1 address bit, 10-bit results.
- `SingletonMeta` is the process-wide single-instance metaclass.

Files:

- `arith.dfy` (module `Arith`): `2 ** n`, `clamp`, Python's truncating `int()` and `scale`, with bounds, endpoint and monotonicity proofs. Voltages are Dafny `real`s.
- `bitwords.dfy` (module `BitWords`): the gpiozero helpers `rx_word` (`Word`: MSB-first unsigned value of `rx_buf`) and `tx_word` (`Encode`: the value as `n` bits, MSB first). It proves that the two are inverse to each other. It also defines `c ^ 1` (`Pair`) and proves that it stays within `2 ** k` channels.
- `protocol.dfy` (module `Protocol`): the reference model. `on_bit` is written as a pure function `BitStep` on the state and the two buffers, and `on_result`'s conversion as `Reading`/`ResultBits`. Lemmas cover each transition rule and the conversion properties. A model of the clocking driver supports a proof that a whole transaction shifts out exactly the encoded reading and ends in `idle`. The driver is `Drive`, which clocks bits through any bit callback, applied to the emulator's cycle `Cycle` as `Run`. A protocol invariant is proved to be kept by every clock cycle that does not raise. `Config.vref` has the type `Voltage` of positive reals, because `scale` divides by it; every chip sets it to 3.3.
- `device.dfy` (module `Device`): class `Mcp3xxx`. It has the same fields as the Python object (`channels`, `state`, `rx_buf`, `tx_buf`, plus the constants `vref`, `channel_bits` and `bits`). One constructor exists per Python class, and `OnStart`, `OnBit` and `OnResult` update the fields in place. Each method is proved to produce exactly the state the `Protocol` functions prescribe.
- `singleton.dfy` (module `Singleton`): `SingletonMeta._instances` as a class `Registry` holding a map from class to instance. `Call` is `__call__`.

Behaviour of the code worth knowing:

- `scale` truncates with `int()`, toward zero; it does not round. So a channel at 0 V reads 0, even though `vmin` is `-(2 ** bits)`: the argument of `int()` there is -0.5 (`Arith.Scale`, `Protocol.Mcp3002Readings`).
- After clamping, every code lies in `[0, 2 ** bits - 1]`. So `tx_word` only ever sees a non-negative value that fits, and no two's-complement bit pattern is involved.

## Model

| member | source | states |
|---|---|---|
| `Arith.Clamp` | VirtualCopernicusNG/base.py:172-173 | for lo <= hi the result lies in [lo, hi]; a value already in range is returned unchanged; below lo gives lo, above hi gives hi |
| `Arith.ClampIdempotent` | VirtualCopernicusNG/base.py:172-173 | clamping twice is clamping once |
| `Arith.ClampMonotone` | VirtualCopernicusNG/base.py:172-173 | clamp is monotone non-decreasing in the value |
| `Arith.Trunc` | VirtualCopernicusNG/base.py:180 | Python int() on a real: for x >= 0 the greatest integer <= x, for x < 0 the least integer >= x (truncation toward zero) |
| `Arith.TruncMonotone` | VirtualCopernicusNG/base.py:180 | truncation toward zero is monotone |
| `Arith.ScaleArgBounds` | VirtualCopernicusNG/base.py:176-180 | for 0 <= v <= ref the real number scale() truncates lies in [-0.5, 2 ** bits - 1] |
| `Arith.ScaleArgTop` | VirtualCopernicusNG/base.py:176-180 | at v == ref that number is exactly 2 ** bits - 1 |
| `Arith.Scale` | VirtualCopernicusNG/base.py:175-180 | for 0 <= v <= ref the code lies in [0, 2 ** bits - 1], a voltage of 0 gives code 0 and v == ref gives code 2 ** bits - 1 |
| `Arith.ScaleMonotone` | VirtualCopernicusNG/base.py:175-180 | for ref > 0 the code is monotone non-decreasing in the voltage |
| `BitWords.Word` | VirtualCopernicusNG/base.py:137 | rx_word of n received bits (MSB first) is below 2 ** n |
| `BitWords.Encode` | VirtualCopernicusNG/base.py:155 | tx_word(v, n) for v < 2 ** n gives exactly n bits whose MSB-first value is v |
| `BitWords.EncodeWord` | VirtualCopernicusNG/base.py:155 | encoding the value of any bit string in its own length gives the bit string back (the other direction of the round trip) |
| `BitWords.WordInjective` | VirtualCopernicusNG/base.py:137 | two received bit strings of one length address the same channel exactly when they are equal |
| `BitWords.Pair` | VirtualCopernicusNG/base.py:149 | c ^ 1 is the other member of the pair {2k, 2k+1} holding c: same c / 2, other parity |
| `BitWords.PairInvolution` | VirtualCopernicusNG/base.py:149 | (c ^ 1) ^ 1 == c |
| `BitWords.PairInRange` | VirtualCopernicusNG/base.py:147-153 | for k >= 1 address bits, c < 2 ** k implies c ^ 1 < 2 ** k |
| `Protocol.Reading` | VirtualCopernicusNG/base.py:146-154 | a code is produced exactly when the channel, and when differential its partner c ^ 1, is in the bank (IndexError otherwise); every code is below 2 ** bits |
| `Protocol.ResultBits` | VirtualCopernicusNG/base.py:146-155 | on_result queues exactly bits + 2 bits, whose MSB-first value is the code, and fails exactly when the reading does |
| `Protocol.SingleInRange` | VirtualCopernicusNG/base.py:152-154 | a single-ended voltage already in [0, vref] reads as its directly scaled value |
| `Protocol.SingleSaturates` | VirtualCopernicusNG/base.py:153-154 | a single-ended voltage <= 0 reads 0 and one >= vref reads 2 ** bits - 1 |
| `Protocol.SingleMonotone` | VirtualCopernicusNG/base.py:153-154 | a higher channel voltage never gives a lower single-ended code |
| `Protocol.DiffPartner` | VirtualCopernicusNG/base.py:147-151 | addressing c ^ 1 differentially reads bank[c ^ 1] - bank[c], clamped and scaled: the sign flips with the partner |
| `Protocol.DiffOneSided` | VirtualCopernicusNG/base.py:147-151 | of the two differential readings of a pair at least one is 0 |
| `Protocol.ReadingIsLocal` | VirtualCopernicusNG/base.py:146-153 | a conversion depends only on the addressed channel and, when differential, its partner |
| `Protocol.AddressInRange` | VirtualCopernicusNG/base.py:147-153 | with a bank of at least 2 ** channel_bits channels, every decoded address and its partner are in range, so on_result cannot raise |
| `Protocol.BitStep` | VirtualCopernicusNG/base.py:124-144 | on_bit fails (IndexError from on_result) exactly in single/diff with channel_bits bits received and the addressed channel, or in diff its partner, outside the bank |
| `Protocol.IdleStep` | VirtualCopernicusNG/base.py:125-128 | in idle a received 1 moves to mode and empties rx_buf; a received 0 changes nothing (rx_buf is not cleared) |
| `Protocol.ModeStep` | VirtualCopernicusNG/base.py:129-134 | in mode the bit selects single (1) or diff (0), never fails, and rx_buf is empty afterwards |
| `Protocol.AddressStep` | VirtualCopernicusNG/base.py:135-153 | in single/diff nothing changes until len(rx_buf) == channel_bits; then, when the address rx_word (and in diff its partner) is in the bank, exactly one conversion, differential iff the state is diff, is appended to tx_buf (bits + 2 bits) and the state becomes result, and otherwise on_bit raises IndexError |
| `Protocol.ResultStep` | VirtualCopernicusNG/base.py:139-142 | in result the machine returns to idle with an empty rx_buf exactly when tx_buf is empty, and otherwise changes nothing |
| `Protocol.EnteringClearsRx` | VirtualCopernicusNG/base.py:124-144 | every state change empties rx_buf, except entering result, which appends bits + 2 bits to tx_buf |
| `Protocol.NoFault` | VirtualCopernicusNG/base.py:135-153 | with 2 ** channel_bits channels (8 for 3 bits, 2 for 1 bit) on_bit never raises |
| `Protocol.IdleZeros` | VirtualCopernicusNG/base.py:125-128 | any run of 0 bits in idle keeps the machine in idle (rx_buf only grows) and sends nothing |
| `Protocol.AddressPhase` | VirtualCopernicusNG/base.py:135-138 | receiving the remaining address bits leaves the machine exactly where on_bit leaves it on the complete address, and sends nothing |
| `Protocol.DrainPhase` | VirtualCopernicusNG/base.py:139-142 | from result, one clock cycle per queued bit shifts out exactly the queued bits and ends in idle with empty buffers |
| `Protocol.Transaction` | VirtualCopernicusNG/base.py:120-155 | after on_start, leading 0s, start bit, mode bit, channel_bits address bits and bits + 2 further cycles: nothing is shifted out during the command cycles, and exactly the bits + 2 queued bits are shifted out in the last bits + 2 cycles, whose value is the reading of the addressed channel (single-ended iff the mode bit is 1); and the machine is idle with empty buffers |
| `Protocol.InvPreserved` | VirtualCopernicusNG/base.py:118-144 | on_start establishes, and every clock cycle that does not raise keeps, the protocol invariant: idle has only 0s in rx_buf and nothing queued; mode has both buffers empty; single/diff hold fewer than channel_bits bits; result holds at most bits + 2 queued bits |
| `Protocol.Mcp3xxxConfig` | VirtualCopernicusNG/base.py:109-117 | the base chip: vref 3.3, 3 address bits, 2 ** 3 == 8 addressable channels |
| `Protocol.Mcp3xx2Config` | VirtualCopernicusNG/base.py:157-163 | the 2-channel chips: 1 address bit, 2 ** 1 == 2 addressable channels |
| `Protocol.Mcp3002Readings` | VirtualCopernicusNG/base.py:146-155 | MCP3002 with bank [3.3, 0.0]: channel 0 reads 1023, channel 1 reads 0, differential 0 against 1 reads 1023, 1 against 0 reads 0 |
| `Device.Mcp3xxx.constructor` | VirtualCopernicusNG/base.py:109-118 | MockMCP3xxx(channels, bits): channels zero voltages, 3 address bits, vref 3.3, idle with empty buffers |
| `Device.Mcp3xxx.Mcp3xx2` | VirtualCopernicusNG/base.py:157-163 | MockMCP3xx2(bits): two channels at 0 V, 1 address bit |
| `Device.Mcp3xxx.Mcp3002` | VirtualCopernicusNG/base.py:166-169 | MockMCP3002: MockMCP3xx2 with 10-bit results |
| `Device.Mcp3xxx.OnStart` | VirtualCopernicusNG/base.py:120-122 | whatever the state before, the state is idle and both buffers are empty; the channel bank is unchanged |
| `Device.Mcp3xxx.OnResult` | VirtualCopernicusNG/base.py:146-155 | succeeds exactly when the reading exists; then appends exactly the bits + 2 result bits to tx_buf, otherwise (IndexError) tx_buf is unchanged; touches nothing but tx_buf |
| `Device.Mcp3xxx.OnBit` | VirtualCopernicusNG/base.py:124-144 | the new state and buffers are exactly those of Protocol.BitStep on the old ones; on IndexError nothing changes; the channel bank is never changed |
| `Device.ReadFullScale` | VirtualCopernicusNG/base.py:124-155 | an MCP3002 at 3.3 V on channel 0, after start, single-ended and address bit 0, is in result with the 12-bit encoding of 1023 queued |
| `Singleton.Registry.constructor` | VirtualCopernicusNG/base.py:97 | the instance dictionary starts empty |
| `Singleton.Registry.Call` | VirtualCopernicusNG/base.py:99-103 | the first call on a class constructs a fresh instance from the arguments and stores it; every later call returns the stored object and ignores its arguments; other entries are unchanged and every stored instance belongs to its class |

## Left out

- `TkDevice` (image loading, resizing, caching, widget configuration), the `PreciseMock*` pin classes and factory (busy-wait timing on `perf_counter`), all of `virtual_copernicus_ng/tkgpio.py` (GUI, audio, threads, servo drawing, the slider), `mcp3002_example.py` (demo loop) and `setup.py`: I/O, GUI, timing and packaging, with nothing to state.
- gpiozero's `MockSPIDevice` is not part of this model. `rx_word` and `tx_word` are `BitWords.Word` and `BitWords.Encode`, assumed MSB first. The chip-select and clock-edge handling are modelled only as the driver `Protocol.Cycle`/`Protocol.Drive`/`Protocol.Run`. That driver assumes each clock cycle shifts out the first queued bit, then appends the received bit to `rx_buf` and calls `on_bit`. A cycle with an empty `tx_buf` shifts nothing out: what the host samples on MISO during such a cycle is not modelled. `on_start`'s call to the base class is assumed to empty both buffers.
- Protocol.BitStep and Device.Mcp3xxx.OnBit require a non-empty `rx_buf`. The SPI base device calls `on_bit` only right after appending a received bit, so the IndexError `rx_buf[-1]` would raise on an empty buffer cannot occur and is not modelled.
- The clock, MOSI, MISO and select pin arguments of the constructors are not modelled: they only wire the base device.
- Floating point: voltages are exact reals, so rounding in `3.3`, in the division by `vref` and in the products of `scale` is not modelled.
- Concurrency: the GUI thread can write the channel bank at any time. The model treats the bank as a field that only outside code changes, read once per conversion.
- The `assert False` branch of `on_bit` has no counterpart. The state is a datatype with exactly the five protocol states, so the match is exhaustive and no other state exists.
- The `max_voltage` argument that `tkgpio.py` passes to `MockMCP3002` is not accepted by its constructor. `vref` is the fixed constant 3.3.
- `Singleton.Registry.Call`: the arguments are a sequence of strings, and the class's own `__init__` is represented only by recording them. Keyword arguments are not modelled separately.
