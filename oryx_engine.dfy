/** The ORYX engine as the source keeps it: a class owning three 32-cell
    registers and a 256-entry substitution table, updated in place, with one
    method per member of the source class. Each method is proved against the
    value model in OryxSpec. */
module OryxEngine {
  import opened OryxSpec

  class Oryx {
    const lfsrA: array<int>
    const lfsrB: array<int>
    const lfsrK: array<int>
    const sBox: array<int>

    /** Three distinct 32-cell registers of bits and the identity table. */
    ghost predicate Valid()
      reads lfsrA, lfsrB, lfsrK, sBox
    {
      lfsrA != lfsrB && lfsrA != lfsrK && lfsrB != lfsrK &&
      IsRegister(lfsrA[..]) && IsRegister(lfsrB[..]) && IsRegister(lfsrK[..]) &&
      sBox[..] == IdentityTable
    }

    /** The register triple as a value. */
    ghost function State(): Registers
      reads lfsrA, lfsrB, lfsrK, sBox
      requires Valid()
    {
      Registers(lfsrA[..], lfsrB[..], lfsrK[..])
    }

    /** A new engine: all three registers zero-filled, then the table built. */
    constructor ()
      ensures Valid()
      ensures fresh(lfsrA) && fresh(lfsrB) && fresh(lfsrK) && fresh(sBox)
      ensures State() == Zero
    {
      lfsrA := new int[RegisterLength](_ => 0);
      lfsrB := new int[RegisterLength](_ => 0);
      lfsrK := new int[RegisterLength](_ => 0);
      sBox := new int[TableSize](_ => 0);
      new;
      GenerateSBox();
      assert lfsrA[..] == ZeroRegister && lfsrB[..] == ZeroRegister && lfsrK[..] == ZeroRegister;
    }

    /** Fills the table so that every entry holds its own index. */
    method GenerateSBox()
      requires sBox.Length == TableSize
      modifies sBox
      ensures sBox[..] == IdentityTable
    {
      for i := 0 to TableSize
        invariant forall j :: 0 <= j < i ==> sBox[j] == j
      {
        sBox[i] := i;
      }
    }

    /** Feedback bit of register K: parity of its sixteen taps. */
    function FeedbackFunctionK(): (f: int)
      reads lfsrK
      requires IsRegister(lfsrK[..])
      ensures f == 0 || f == 1
      ensures f == Parity(lfsrK[..], TapsK)
    {
      Feedback(lfsrK[..], TapsK)
    }

    /** Feedback bit of register A: parity of its fourteen taps. */
    function FeedbackFunctionA(): (f: int)
      reads lfsrA
      requires IsRegister(lfsrA[..])
      ensures f == 0 || f == 1
      ensures f == Parity(lfsrA[..], TapsA)
    {
      Feedback(lfsrA[..], TapsA)
    }

    /** Feedback bit of register B: parity of its nine taps. */
    function FeedbackFunctionB(): (f: int)
      reads lfsrB
      requires IsRegister(lfsrB[..])
      ensures f == 0 || f == 1
      ensures f == Parity(lfsrB[..], TapsB)
    {
      Feedback(lfsrB[..], TapsB)
    }

    /** Moves every cell but the first one place up, from the top down; the
        first cell keeps its value and the old last value is lost. */
    static method ShiftRegisters(registerState: array<int>)
      modifies registerState
      ensures registerState[..] == Shift(old(registerState[..]))
    {
      var i := registerState.Length - 1;
      while i > 0
        invariant -1 <= i < registerState.Length
        invariant registerState.Length > 0 ==> 0 <= i
        invariant forall j :: 0 <= j <= i ==> registerState[j] == old(registerState[j])
        invariant forall j :: i < j < registerState.Length ==> registerState[j] == old(registerState[j - 1])
      {
        registerState[i] := registerState[i - 1];
        i := i - 1;
      }
    }

    /** One step: the three feedback bits first, then the three shifts, then
        the cross-coupled first cells. */
    method UpdateRegisters()
      requires Valid()
      modifies lfsrA, lfsrB, lfsrK
      ensures Valid()
      ensures State() == Step(old(State()))
    {
      ghost var s := State();
      var feedbackLFSRK := FeedbackFunctionK();
      var feedbackLFSRA := FeedbackFunctionA();
      var feedbackLFSRB := FeedbackFunctionB();

      ShiftRegisters(lfsrK);
      ShiftRegisters(lfsrA);
      ShiftRegisters(lfsrB);

      lfsrK[0] := BitXor(feedbackLFSRA, feedbackLFSRB);
      lfsrA[0] := feedbackLFSRK;
      lfsrB[0] := BitXor(feedbackLFSRK, feedbackLFSRA);

      assert lfsrK[..] == Shift(s.k)[0 := BitXor(feedbackLFSRA, feedbackLFSRB)];
      assert lfsrA[..] == Shift(s.a)[0 := feedbackLFSRK];
      assert lfsrB[..] == Shift(s.b)[0 := BitXor(feedbackLFSRK, feedbackLFSRA)];
      ShiftInIsRegister(s.k, BitXor(feedbackLFSRA, feedbackLFSRB));
      ShiftInIsRegister(s.a, feedbackLFSRK);
      ShiftInIsRegister(s.b, BitXor(feedbackLFSRK, feedbackLFSRA));
    }

    /** The keystream byte of the current state: cells 24..31 of A and of B
        through the table, summed, modulo 256. With the identity table this
        is the number of ones among those sixteen cells. */
    method GenerateKeystreamByte() returns (keystreamByte: int)
      requires Valid()
      ensures keystreamByte == KeystreamByte(State(), IdentityTable)
      ensures keystreamByte == CountOnes(HighCells(State())) <= 16
    {
      var high8K := 0;
      var high8A := lfsrA[24..];
      var high8B := lfsrB[24..];
      var combinedVector := high8A + high8B;
      ghost var cells := combinedVector;
      assert cells == HighCells(State());

      var i := 0;
      while i < |combinedVector|
        invariant 0 <= i <= |combinedVector| == 16
        invariant forall j :: 0 <= j < i ==> combinedVector[j] == sBox[cells[j]]
        invariant forall j :: i <= j < 16 ==> combinedVector[j] == cells[j]
      {
        combinedVector := combinedVector[i := sBox[combinedVector[i]]];
        i := i + 1;
      }
      assert combinedVector == Substitute(IdentityTable, cells);

      var sum := SumVector(combinedVector);
      SumOfBytes(combinedVector);
      keystreamByte := CRem(high8K + sum, 256);
      KeystreamCountsOnes(State());
    }

    /** The integer sum of a sequence, accumulated from the left. */
    static method SumVector(vec: seq<int>) returns (sum: int)
      ensures sum == Sum(vec)
    {
      sum := 0;
      for i := 0 to |vec|
        invariant sum == Sum(vec[..i])
      {
        assert vec[..i + 1][..i] == vec[..i];
        sum := sum + vec[i];
      }
      assert vec[..|vec|] == vec;
    }

    /** Steps once per symbol and xors each symbol with the fresh keystream byte. */
    method Encrypt(plaintext: seq<bv8>) returns (ciphertext: seq<bv8>)
      requires Valid()
      modifies lfsrA, lfsrB, lfsrK
      ensures Valid()
      ensures ciphertext == Run(old(State()), IdentityTable, plaintext)
      ensures State() == Steps(old(State()), |plaintext|)
    {
      ghost var start := State();
      ciphertext := [];
      for i := 0 to |plaintext|
        invariant Valid()
        invariant State() == Steps(start, i)
        invariant ciphertext == Run(start, IdentityTable, plaintext[..i])
      {
        UpdateRegisters();
        StepsLast(start, i);
        var keystreamByte := GenerateKeystreamByte();
        RunNext(start, IdentityTable, plaintext, i);
        ciphertext := ciphertext + [plaintext[i] ^ keystreamByte as bv8];
      }
      assert plaintext[..|plaintext|] == plaintext;
    }

    /** The same mechanics as Encrypt, applied to a ciphertext. */
    method Decrypt(ciphertext: seq<bv8>) returns (plaintext: seq<bv8>)
      requires Valid()
      modifies lfsrA, lfsrB, lfsrK
      ensures Valid()
      ensures plaintext == Run(old(State()), IdentityTable, ciphertext)
      ensures State() == Steps(old(State()), |ciphertext|)
    {
      ghost var start := State();
      plaintext := [];
      for i := 0 to |ciphertext|
        invariant Valid()
        invariant State() == Steps(start, i)
        invariant plaintext == Run(start, IdentityTable, ciphertext[..i])
      {
        UpdateRegisters();
        StepsLast(start, i);
        var keystreamByte := GenerateKeystreamByte();
        RunNext(start, IdentityTable, ciphertext, i);
        plaintext := plaintext + [ciphertext[i] ^ keystreamByte as bv8];
      }
      assert ciphertext[..|ciphertext|] == ciphertext;
    }
  }
}
