/** The fixed-width values of the modelled programs. */
module Machine {

  type Int32 = x: int | -0x8000_0000 <= x < 0x8000_0000
  type Int64 = x: int | -0x8000_0000_0000_0000 <= x < 0x8000_0000_0000_0000
  /** The 64 bits of a floating point number that is carried as it is. */
  type DoubleBits = bv64
  type Bytes = seq<bv8>
}
