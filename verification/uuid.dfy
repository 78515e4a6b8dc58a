/** Identifiers as the Go `github.com/google/uuid` package represents them: a
    UUID is sixteen bytes, compared by value, and read here as one 128-bit
    big-endian number. Parsing and printing belong to that foreign package and
    are not modelled; only equality, the distinguished `Nil` value and the bits
    that `uuid.New` always sets are. */
module Uuid {

  /** A UUID; byte 0 is the most significant byte of the number. */
  newtype UUID = x: int | 0 <= x < 0x1_0000_0000_0000_0000_0000_0000_0000_0000

  /** The all-zero UUID, which is also the zero value of the Go type. */
  const Nil: UUID := 0

  /** The version nibble: the high four bits of byte 6. */
  function Version(u: UUID): int
  {
    (u as int / 0x1_0000_0000_0000_0000_000) % 16
  }

  /** The variant: the high two bits of byte 8. */
  function Variant(u: UUID): int
  {
    (u as int / 0x4000_0000_0000_0000) % 4
  }

  /** What `uuid.New` can return: a random UUID of version 4 and of the
      variant of RFC 4122 (section 4.4). Such an id is never `Nil`, which is
      why a freshly built record can be told apart from a zero value. */
  predicate IsRandom(u: UUID)
    ensures IsRandom(u) ==> u != Nil
  {
    Version(u) == 4 && Variant(u) == 2
  }
}
