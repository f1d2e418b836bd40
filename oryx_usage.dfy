/** How callers use the engine: a pair of fresh engines, the demonstration
    program's single engine that encrypts and then decrypts, and one engine
    fed in two calls. Only the engines' contracts are used here. */
module OryxUsage {
  import opened OryxSpec
  import opened OryxEngine

  /** A fresh engine encrypts every text to itself: all its keystream bytes are 0. */
  method EncryptOnFreshEngine(plaintext: seq<bv8>) returns (ciphertext: seq<bv8>)
    ensures ciphertext == plaintext
  {
    var engine := new Oryx();
    ciphertext := engine.Encrypt(plaintext);
    RunFromZero(plaintext);
  }

  /** Two freshly built engines fed the same text produce the same ciphertext. */
  method FreshEnginesAgree(plaintext: seq<bv8>) returns (first: seq<bv8>, second: seq<bv8>)
    ensures first == second
  {
    var one := new Oryx();
    first := one.Encrypt(plaintext);
    var two := new Oryx();
    second := two.Encrypt(plaintext);
  }

  /** Two freshly built engines: what one encrypts, the other decrypts back. */
  method FreshPairRoundTrip(plaintext: seq<bv8>) returns (ciphertext: seq<bv8>, recovered: seq<bv8>)
    ensures |ciphertext| == |plaintext|
    ensures recovered == plaintext
  {
    var sender := new Oryx();
    ciphertext := sender.Encrypt(plaintext);
    var receiver := new Oryx();
    recovered := receiver.Decrypt(ciphertext);
    RunRoundTrip(Zero, IdentityTable, plaintext);
  }

  /** The demonstration program's flow without its terminal input and output:
      one engine encrypts, then decrypts the result without being reset. The
      text is still recovered, because the engine never leaves the all-zero
      state. */
  method SameEngineRoundTrip(plaintext: seq<bv8>) returns (ciphertext: seq<bv8>, recovered: seq<bv8>)
    ensures ciphertext == plaintext
    ensures recovered == plaintext
  {
    var engine := new Oryx();
    ciphertext := engine.Encrypt(plaintext);
    recovered := engine.Decrypt(ciphertext);
    RunFromZero(plaintext);
    ContinuedRunRecovers(plaintext);
  }

  /** Encrypting p ++ q in one call gives the same ciphertext as encrypting p
      and then q on one still-running engine: the state carries across calls. */
  method SplitCallsAgree(p: seq<bv8>, q: seq<bv8>) returns (whole: seq<bv8>, parts: seq<bv8>)
    ensures |whole| == |p| + |q|
    ensures whole == parts
  {
    var one := new Oryx();
    whole := one.Encrypt(p + q);
    var two := new Oryx();
    var first := two.Encrypt(p);
    var second := two.Encrypt(q);
    parts := first + second;
    RunAppend(Zero, IdentityTable, p, q);
  }
}
