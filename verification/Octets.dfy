/** The value of a byte made from a small number. */
module OctetValue {
  lemma FirstEighth(u: nat)
    requires u < 32
    ensures (u as bv8) as int == u
  {
  }

  lemma SecondEighth(u: nat)
    requires 32 <= u < 64
    ensures (u as bv8) as int == u
  {
  }

  lemma ThirdEighth(u: nat)
    requires 64 <= u < 96
    ensures (u as bv8) as int == u
  {
  }

  lemma FourthEighth(u: nat)
    requires 96 <= u < 128
    ensures (u as bv8) as int == u
  {
  }

  lemma FifthEighth(u: nat)
    requires 128 <= u < 160
    ensures (u as bv8) as int == u
  {
  }

  lemma SixthEighth(u: nat)
    requires 160 <= u < 192
    ensures (u as bv8) as int == u
  {
  }

  lemma SeventhEighth(u: nat)
    requires 192 <= u < 224
    ensures (u as bv8) as int == u
  {
  }

  lemma LastEighth(u: nat)
    requires 224 <= u < 256
    ensures (u as bv8) as int == u
  {
  }

  lemma OctetOfInt(u: nat)
    requires u < 256
    ensures (u as bv8) as int == u
  {
    if u < 32 {
      FirstEighth(u);
    } else if u < 64 {
      SecondEighth(u);
    } else if u < 96 {
      ThirdEighth(u);
    } else if u < 128 {
      FourthEighth(u);
    } else if u < 160 {
      FifthEighth(u);
    } else if u < 192 {
      SixthEighth(u);
    } else if u < 224 {
      SeventhEighth(u);
    } else {
      LastEighth(u);
    }
  }
}

/** Bytes as numbers. */
module Octets {
  import opened OctetValue

  /** `(uint8_t)v`. */
  function Low8(v: int): bv8 {
    (v % 256) as bv8
  }

  lemma Low8Value(v: int)
    ensures Low8(v) as int == v % 256
  {
    OctetOfInt(v % 256);
  }
}
