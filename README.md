# ORYX stream cipher: a verified Dafny model

ORYX is a small stream cipher engine. It has three 32-cell bit registers (A, B
and K) and a 256-entry substitution table (the SBox). For each symbol it
processes, it steps the registers once and derives one keystream byte from the
high cells of A and B. It then exclusive-ors that byte into the symbol.
Encryption and decryption are the same operation.

The project has four modules:

- `OryxSpec` (`oryx_spec.dfy`) is the value model. A register is a
  `seq<Bit>` of length 32, and the state is the `Registers` datatype. It
  defines the C++ remainder (`CRem`), the tap sums and their parities, the
  lossy shift, one cross-coupled step (`Step`), the keystream byte and the
  cipher driver (`Run`), with lemmas about each.
- `StreamDriver` (`stream_driver.dfy`) holds the driver loop for any step
  function and any keystream function: "step once, then exclusive-or the
  symbol with the keystream byte". Its lemmas cover positions, splitting the
  input, the round trip and fixed points. They are proved once, by induction,
  and `OryxSpec` instantiates them with its `Step` and keystream byte. This
  module is proof infrastructure with no counterpart in oryx.cpp: keeping
  `Step` out of the inductions keeps the proofs cheap. The laws about the
  cipher itself are the `OryxSpec.Run*` and `OryxSpec.Steps*` lemmas below.
- `OryxEngine` (`oryx_engine.dfy`) mirrors the source class: `class Oryx`
  owns four arrays (`lfsrA`, `lfsrB`, `lfsrK`, `sBox`) that its methods change
  in place. There is one member per member of the C++ class, and each is
  proved against the `OryxSpec` function it implements. `Valid()` is the
  invariant the methods keep:
  - the three registers are distinct arrays;
  - each register has 32 cells, every one 0 or 1;
  - the table is the identity.
- `OryxUsage` (`oryx_usage.dfy`) holds client methods that use only the
  engine's contracts:
  - a pair of fresh engines;
  - the demonstration program's single engine, which encrypts and then
    decrypts without a reset;
  - one engine fed the input in two calls.

The main facts proved:

- The all-zero register triple is a fixed point of the step.
- With the identity table, the all-zero state gives keystream byte 0.
- Since every engine starts all-zero, encrypting on a fresh engine returns
  its input unchanged. This is also why the demonstration program recovers
  its text on a single engine that it never resets.
- For any starting state, running the driver twice from that state gives back
  the input.
- Processing `p ++ q` in one call equals processing `p` and then `q`.

The comment on `shiftRegisters` (oryx.cpp:59) calls the shift cyclic, but the
code moves cells 0..30 up one place, keeps cell 0 and discards the old
cell 31. The model follows the code: `OryxSpec.Shift`,
`OryxSpec.ShiftForgetsLastCell` and `OryxSpec.ShiftIsNotRotate` state it.

## Model

| member | source | states |
|---|---|---|
| `OryxEngine.Oryx.constructor` | oryx.cpp:12-18 | A new engine holds three fresh, distinct 32-cell registers that are all zero, and the identity table |
| `OryxEngine.Oryx.GenerateSBox` | oryx.cpp:21-25 | Afterwards every table entry holds its own index |
| `OryxEngine.Oryx.FeedbackFunctionK` | oryx.cpp:29-36 | Register K's feedback is 0 or 1 and equals the exclusive-or of its cells 31,27,26,25,24,23,22,17,13,11,10,9,8,7,2,0; it reads only register K |
| `OryxEngine.Oryx.FeedbackFunctionA` | oryx.cpp:40-47 | Register A's feedback is 0 or 1 and equals the exclusive-or of its cells 31,26,23,22,16,12,11,10,8,7,5,4,2,0; it reads only register A |
| `OryxEngine.Oryx.FeedbackFunctionB` | oryx.cpp:51-57 | Register B's feedback is 0 or 1 and equals the exclusive-or of its cells 31,30,20,19,15,14,5,2,0; it reads only register B |
| `OryxSpec.Feedback` | oryx.cpp:29-57 | The tap sum reduced by C++ `%` 2 is 0 or 1 and equals the exclusive-or reference parity of the taps |
| `OryxSpec.TapSumIsParity` | oryx.cpp:29-57 | The sum of tapped bits lies between 0 and the number of taps, and modulo 2 it equals their exclusive-or |
| `OryxSpec.ZeroParity` | oryx.cpp:29-57 | Every tap parity of an all-zero register is 0 |
| `OryxSpec.CRem` | oryx.cpp:97 | C++ `%`: for a non-negative dividend the remainder lies in [0, m), for a negative one in (-m, 0] |
| `OryxSpec.BitXor` | oryx.cpp:76-78 | `^` on two bits agrees with the bitwise exclusive-or of the two values, and is 1 exactly when the bits differ |
| `OryxSpec.Shift` | oryx.cpp:60-64 | The shift keeps the length and cell 0, and gives cell i the old cell i-1 for every i from 1 up |
| `OryxEngine.Oryx.ShiftRegisters` | oryx.cpp:60-64 | The descending in-place loop leaves the array equal to `Shift` of its old contents |
| `OryxSpec.ShiftForgetsLastCell` | oryx.cpp:59-64 | Sequences that differ only in their last cell shift to the same sequence, so the shift loses information |
| `OryxSpec.ShiftIsNotRotate` | oryx.cpp:59-64 | A register with a 1 only in its last cell shifts to one whose cell 0 is still 0, so the shift is not a rotation |
| `OryxSpec.ShiftInIsRegister` | oryx.cpp:72-78 | Shifting a register and setting its cell 0 to a bit gives 32 cells of 0/1 again |
| `OryxSpec.StepCells` | oryx.cpp:67-79 | After a step: new A[0] is K's parity, new B[0] is K's parity xor A's, new K[0] is A's parity xor B's, all three from the state before the step; cells 1..31 of each register are the old cells 0..30 |
| `OryxEngine.Oryx.UpdateRegisters` | oryx.cpp:67-79 | The new register triple is `Step` of the old one; the invariant (32 cells of 0/1, distinct arrays, identity table) is kept and the table is not touched |
| `OryxSpec.StepZero` | oryx.cpp:67-79 | The all-zero register triple is a fixed point of the step |
| `OryxSpec.StepsZero` | oryx.cpp:67-79 | From the all-zero state any number of steps leaves the state all-zero |
| `OryxSpec.StepsAdd` | oryx.cpp:113-121 | m + n steps are m steps followed by n steps |
| `OryxSpec.StepsLast` | oryx.cpp:113-121 | n + 1 steps are n steps followed by one more |
| `OryxSpec.HighCells` | oryx.cpp:85-91 | The combined vector has 16 cells: A[24..31] at positions 0..7, then B[24..31] at positions 8..15 |
| `OryxSpec.SubstituteIdentity` | oryx.cpp:93-95 | Looking bits up in the identity table the engine builds leaves them unchanged |
| `OryxSpec.SumOfSubstitute` | oryx.cpp:93-97 | The lookups read only table entries 0 and 1: the substituted bits sum to entry 1 times the number of ones plus entry 0 times the number of zeros |
| `OryxSpec.KeystreamByte` | oryx.cpp:83-100 | The keystream byte, computed as C++ `%` 256 of the summed table images, lies in [0, 255] |
| `OryxSpec.SumOfBytes` | oryx.cpp:97 | A sum of byte values lies between 0 and 255 times their number, so C++ `%` 256 of it equals its ordinary remainder modulo 256 |
| `OryxSpec.KeystreamCountsOnes` | oryx.cpp:83-109 | With the identity table the keystream byte is the number of ones among A[24..31] and B[24..31], so it is at most 16 |
| `OryxSpec.SumOfBits` | oryx.cpp:103-109 | The sum of a sequence of bits is the number of ones in it |
| `OryxSpec.NoOnes` | oryx.cpp:103-109 | A sequence of zeros contains no ones |
| `OryxSpec.KeystreamZero` | oryx.cpp:83-100 | The all-zero state with the identity table gives keystream byte 0 |
| `OryxEngine.Oryx.GenerateKeystreamByte` | oryx.cpp:83-100 | Without changing any field, returns the keystream byte of the current state, which is the count of ones among the 16 high cells and at most 16 |
| `OryxEngine.Oryx.SumVector` | oryx.cpp:103-109 | The accumulator loop returns the sum of the sequence |
| `OryxSpec.Run` | oryx.cpp:113-132 | Encryption and decryption output exactly one symbol per input symbol |
| `OryxSpec.KeystreamAt` | oryx.cpp:116-117 | The keystream byte used at any position lies in [0, 255] |
| `OryxSpec.RunSingle` | oryx.cpp:115-119 | One symbol is combined with the keystream byte of the state after one step |
| `OryxSpec.RunNext` | oryx.cpp:115-119 | Adding one input symbol adds one output symbol: that symbol xor the keystream byte after one more step |
| `OryxSpec.RunAt` | oryx.cpp:113-121 | Output i is input i xor the keystream byte after i + 1 steps |
| `OryxSpec.RunAppend` | oryx.cpp:113-132 | Processing p ++ q in one call equals processing p, then q from the state after as many steps as p has symbols |
| `OryxSpec.RunRoundTrip` | oryx.cpp:113-132 | From equal starting states, decryption of the encryption returns the plaintext |
| `OryxSpec.RunFromZero` | oryx.cpp:113-121 | From the all-zero state with the identity table the cipher returns its input unchanged |
| `OryxSpec.ContinuedRunRecovers` | oryx.cpp:149-158 | Decrypting on the engine that just encrypted, without a reset, still returns the plaintext |
| `OryxEngine.Oryx.Encrypt` | oryx.cpp:113-121 | The output is `Run` from the old state, the registers advance by exactly one step per symbol, the invariant is kept, and empty input changes nothing |
| `OryxEngine.Oryx.Decrypt` | oryx.cpp:124-132 | The same as Encrypt, applied to a ciphertext |
| `OryxUsage.EncryptOnFreshEngine` | oryx.cpp:143-149 | A freshly built engine encrypts any text to itself |
| `OryxUsage.FreshEnginesAgree` | oryx.cpp:113-121 | Two fresh engines fed the same text give the same ciphertext |
| `OryxUsage.FreshPairRoundTrip` | oryx.cpp:113-132 | A fresh engine decrypts what another fresh engine encrypted, and the ciphertext is as long as the text |
| `OryxUsage.SameEngineRoundTrip` | oryx.cpp:142-158 | The demonstration flow on one engine, encrypting then decrypting without a reset, returns the text, and the ciphertext equals it |
| `OryxUsage.SplitCallsAgree` | oryx.cpp:113-121 | Encrypting p ++ q in one call equals encrypting p and then q on one running engine |

## Left out

- `main` (oryx.cpp:142-167) reads from the terminal and prints. That I/O is not modelled, and neither is the `char(byte)` narrowing when printing. `OryxUsage.SameEngineRoundTrip` models its encrypt-then-decrypt logic.
- OryxEngine.Oryx.Encrypt: the C++ symbol is a `char`, whose signedness is implementation-defined, so non-ASCII input can promote to a negative `int` before `^`. The model takes symbols as bytes 0..255 (`bv8`).
- OryxEngine.Oryx.Decrypt: the C++ parameter is a `vector<int>`. The model accepts only byte values 0..255, which is what `encrypt` produces from byte input.
- `std::vector` storage details (`resize`, `reserve`, `insert`, iterator copies) are modelled as fixed-length arrays, sequence slices and concatenation.
- 32-bit `int` overflow cannot happen: the tap sums are at most 16 and the keystream sum is at most 16 × 255. The model uses unbounded integers.
- Keying and cryptographic strength: the source has no key schedule, and the registers always start at zero.
- The keystream's `high8K` term is the constant 0 in the source. Both `OryxSpec.KeystreamByte` and `OryxEngine.Oryx.GenerateKeystreamByte` keep it as that constant.
- OryxEngine.Oryx.GenerateKeystreamByte: the result is stated with the identity table because the engine invariant fixes the table to the identity. `OryxSpec.KeystreamByte` states the bound for any table of byte values.
