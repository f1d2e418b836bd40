/** A keystream cipher driver over an arbitrary state machine: a step function
    advances the state once per symbol, and a keystream function reads the
    byte that is exclusive-or-ed into that symbol. The ORYX engine instantiates
    it with its register step and its keystream byte. */
module StreamDriver {

  /** The state after n applications of the step function. */
  function Iterate<S>(next: S -> S, s: S, n: nat): (t: S)
    decreases n
  {
    if n == 0 then s else Iterate(next, next(s), n - 1)
  }

  /** n + m steps are n steps followed by m steps. */
  lemma {:induction false} IterateAdd<S>(next: S -> S, s: S, m: nat, n: nat)
    ensures Iterate(next, s, m + n) == Iterate(next, Iterate(next, s, m), n)
    decreases m
  {
    if m > 0 {
      IterateAdd(next, next(s), m - 1, n);
    }
  }

  /** A fixed point of the step stays put however many steps are taken. */
  lemma {:induction false} IterateFixedPoint<S>(next: S -> S, z: S, n: nat)
    requires next(z) == z
    ensures Iterate(next, z, n) == z
    decreases n
  {
    if n > 0 {
      IterateFixedPoint(next, z, n - 1);
    }
  }

  /** For each symbol in order: step once, then exclusive-or the symbol with
      the keystream byte of the new state. */
  function Drive<S>(next: S -> S, key: S -> bv8, s: S, input: seq<bv8>): (output: seq<bv8>)
    ensures |output| == |input|
    decreases |input|
  {
    if input == [] then []
    else
      var t := next(s);
      [input[0] ^ key(t)] + Drive(next, key, t, input[1..])
  }

  /** The symbol at position i is combined with the keystream byte read after i + 1 steps. */
  lemma {:induction false} DriveAt<S>(next: S -> S, key: S -> bv8, s: S, input: seq<bv8>, i: nat)
    requires i < |input|
    ensures Drive(next, key, s, input)[i] == input[i] ^ key(Iterate(next, s, i + 1))
    decreases i
  {
    if i > 0 {
      DriveAt(next, key, next(s), input[1..], i - 1);
    }
  }

  /** Driving p ++ q equals driving p, then q from the state p left behind. */
  lemma {:induction false} DriveAppend<S>(next: S -> S, key: S -> bv8, s: S, p: seq<bv8>, q: seq<bv8>)
    ensures Drive(next, key, s, p + q)
         == Drive(next, key, s, p) + Drive(next, key, Iterate(next, s, |p|), q)
    decreases |p|
  {
    if p == [] {
      assert p + q == q;
    } else {
      assert (p + q)[1..] == p[1..] + q;
      DriveAppend(next, key, next(s), p[1..], q);
    }
  }

  /** Driving twice from the same state gives back the input. */
  lemma {:induction false} DriveRoundTrip<S>(next: S -> S, key: S -> bv8, s: S, input: seq<bv8>)
    ensures Drive(next, key, s, Drive(next, key, s, input)) == input
    decreases |input|
  {
    if input != [] {
      DriveRoundTrip(next, key, next(s), input[1..]);
    }
  }

  /** From a fixed point of the step whose keystream byte is 0 the driver
      returns its input unchanged. */
  lemma {:induction false} DriveFixedPoint<S>(next: S -> S, key: S -> bv8, z: S, input: seq<bv8>)
    requires next(z) == z && key(z) == 0
    ensures Drive(next, key, z, input) == input
    decreases |input|
  {
    if input != [] {
      DriveFixedPoint(next, key, z, input[1..]);
    }
  }
}
