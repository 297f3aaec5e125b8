/** The encryption-method tag stored next to encrypted columns, as a
    16-bit signed database integer. */
module EncryptionMethods {

  newtype i16 = x: int | -0x8000 <= x < 0x8000

  datatype EncryptionMethod = AES256

  /** The enum's explicit discriminant (`as i16`). */
  function Discriminant(m: EncryptionMethod): (v: i16)
    ensures m == AES256 ==> v == 1
  {
    match m
    case AES256 => 1
  }

  /** The tags `From<i16>` accepts; every other value panics. */
  predicate IsKnownTag(v: i16) {
    v == 1
  }

  /** `From<i16>`: the only accepted tag is 1, which decodes to AES-256. */
  function FromI16(v: i16): (m: EncryptionMethod)
    requires IsKnownTag(v)
    ensures Discriminant(m) == v
  {
    AES256
  }

  /** Decoding the stored tag of a method gives that method back. */
  lemma FromDiscriminant(m: EncryptionMethod)
    ensures IsKnownTag(Discriminant(m)) && FromI16(Discriminant(m)) == m
  {
  }
}
