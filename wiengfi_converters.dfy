/** The feature info tool's byte-size formatting. */
module WienGfiConverters {
  import opened JsText

  /** `Math.ceil(size / 1024)` for an integer size; Dafny's division on int
      is floor division for a positive divisor, so the ceiling is the
      negated floor of the negated size. */
  function CeilKB(size: int): (kb: int)
    ensures kb * 1024 >= size && (kb - 1) * 1024 < size
  {
    -((-size) / 1024)
  }

  /** `convertBytesToKB(size)`: the number and " KB"; a negative zero
      prints as "0". */
  function ConvertBytesToKB(size: int): string {
    IntToString(CeilKB(size)) + " KB"
  }

  /** For a natural size the ceiling is (size + 1023) div 1024, and the
      kilobytes cover the size with less than one kilobyte to spare. */
  lemma CeilOfNat(size: nat)
    ensures CeilKB(size) == (size + 1023) / 1024
    ensures CeilKB(size) * 1024 < size + 1024
  {
  }

  /** A larger size never needs fewer kilobytes. */
  lemma CeilMonotone(a: int, b: int)
    requires a <= b
    ensures CeilKB(a) <= CeilKB(b)
  {
  }

  /** 0, 1024 and 1025 bytes. */
  lemma Examples()
    ensures ConvertBytesToKB(0) == "0 KB"
    ensures ConvertBytesToKB(1024) == "1 KB"
    ensures ConvertBytesToKB(1025) == "2 KB"
  {
    assert CeilKB(0) == 0 && CeilKB(1024) == 1 && CeilKB(1025) == 2;
    assert NatToString(0) == "0" && NatToString(1) == "1" && NatToString(2) == "2";
  }
}
