/** PKCS#7 padding (section 6.3 of RFC 5652) as the service writes it, and
    the batch wrappers around the AES-256 encryption of strings. The block
    cipher and the hex encoding are foreign code and enter as a parameter. */
module Encryption {
  import opened EncryptionMethods
  import opened Payments

  newtype byte = x: int | 0 <= x < 0x100

  /** `padding_length as u8`: a `usize` narrowed to its low eight bits. */
  function AsByte(n: nat): (b: byte)
    ensures n < 0x100 ==> b as int == n
    ensures (b as int - n) % 0x100 == 0
  {
    (n % 0x100) as byte
  }

  /** `pkcs7_padding`: appends `k` copies of the byte `k`, where
      `k = block_size - len % block_size`. A block size of 0 divides by
      zero and panics. */
  function Pad(input: seq<byte>, blockSize: nat): (padded: seq<byte>)
    requires blockSize > 0
    ensures |padded| % blockSize == 0
    ensures |input| < |padded| <= |input| + blockSize
    ensures padded[..|input|] == input
    ensures forall i :: |input| <= i < |padded| ==> padded[i] == AsByte(|padded| - |input|)
  {
    var paddingLength := blockSize - |input| % blockSize;
    BlockMultiple(|input|, blockSize);
    input + seq(paddingLength, _ => AsByte(paddingLength))
  }

  /** Topping a length up past its last partial block lands on a multiple
      of the block size. */
  lemma BlockMultiple(n: nat, blockSize: nat)
    requires blockSize > 0
    ensures (n + (blockSize - n % blockSize)) % blockSize == 0
  {
    var q := n / blockSize;
    assert n + (blockSize - n % blockSize) == (q + 1) * blockSize;
    ModUnique(n + (blockSize - n % blockSize), q + 1, 0, blockSize);
  }

  lemma MulAtLeast(a: int, b: int)
    requires a >= 1 && b > 0
    ensures a * b >= b
  {
  }

  /** Euclidean division has one quotient and remainder. */
  lemma ModUnique(x: int, q: int, r: int, b: int)
    requires b > 0 && 0 <= r < b && x == q * b + r
    ensures x % b == r
  {
    var q' := x / b;
    if q > q' {
      MulAtLeast(q - q', b);
    } else if q < q' {
      MulAtLeast(q' - q, b);
    }
  }

  /** `padding_len` bytes before the last one all equal `last`. */
  predicate PaddingRunHolds(input: seq<byte>, paddingLen: nat)
    requires 1 <= paddingLen <= |input|
  {
    forall i :: |input| - paddingLen <= i < |input| - 1 ==> input[i] == input[|input| - 1]
  }

  /** `pkcs7_unpadding`. `None` is the panic of a last byte 0, whose check
      slices `input[len..len - 1]`. A last byte larger than the input, or a
      run that does not match, leaves the input as it is. */
  function Unpad(input: seq<byte>): (r: Option<seq<byte>>)
    ensures r.None? <==> |input| > 0 && input[|input| - 1] == 0
    ensures r.Some? && |input| > 0 && 1 <= input[|input| - 1] as int <= |input|
              && PaddingRunHolds(input, input[|input| - 1] as int)
            ==> r.value == input[..|input| - input[|input| - 1] as int]
    ensures r.Some? && !(|input| > 0 && input[|input| - 1] as int <= |input|
                         && PaddingRunHolds(input, input[|input| - 1] as int))
            ==> r.value == input
  {
    if |input| == 0 then Some(input)
    else
      var lastByte := input[|input| - 1];
      if lastByte as int <= |input| then
        var paddingLen := lastByte as int;
        if paddingLen == 0 then None
        else if PaddingRunHolds(input, paddingLen) then Some(input[..|input| - paddingLen])
        else Some(input)
      else Some(input)
  }

  /** Unpadding undoes padding for every block size a byte can count. */
  lemma UnpadPad(input: seq<byte>, blockSize: nat)
    requires 0 < blockSize < 0x100
    ensures Unpad(Pad(input, blockSize)) == Some(input)
  {
    var padded := Pad(input, blockSize);
    var k := |padded| - |input|;
    assert padded[|padded| - 1] as int == k;
    assert PaddingRunHolds(padded, k);
    assert padded[..|padded| - k] == input;
  }

  /** The block size the service uses. */
  const AesBlockSize: nat := 16

  /** The round trip at the AES block size. */
  lemma UnpadPadAes(input: seq<byte>)
    ensures |Pad(input, AesBlockSize)| % 16 == 0
    ensures Unpad(Pad(input, AesBlockSize)) == Some(input)
  {
    UnpadPad(input, AesBlockSize);
  }

  /** `encrypt_string`: one string, encrypted with
      `encrypt_as_string(_, AES256)`, which `cipher` stands for, together
      with the method tag to store beside it. */
  function EncryptString(content: string, cipher: string -> string): (r: (string, EncryptionMethod))
    ensures r.0 == cipher(content) && r.1 == AES256
  {
    (cipher(content), AES256)
  }

  /** `encrypt_many`: a fixed-size array of strings, each encrypted with
      `encrypt_as_string(_, AES256)`, which `cipher` stands for. */
  function EncryptMany(content: seq<string>, cipher: string -> string): (r: (seq<string>, EncryptionMethod))
    ensures |r.0| == |content|
    ensures forall i :: 0 <= i < |content| ==> r.0[i] == cipher(content[i])
    ensures r.1 == AES256
  {
    (seq(|content|, i requires 0 <= i < |content| => cipher(content[i])), AES256)
  }

  /** `encrypt_many_vec`: the same over a vector, built by an iterator. */
  function EncryptManyVec(content: seq<string>, cipher: string -> string): (r: (seq<string>, EncryptionMethod))
    ensures |r.0| == |content|
    ensures forall i :: 0 <= i < |content| ==> r.0[i] == cipher(content[i])
    ensures r.1 == AES256
  {
    if |content| == 0 then ([], AES256)
    else
      var rest := EncryptManyVec(content[1..], cipher);
      ([cipher(content[0])] + rest.0, AES256)
  }

  /** The array and the vector forms encrypt alike, and each agrees with
      encrypting the strings one by one. */
  lemma EncryptManyAgree(content: seq<string>, cipher: string -> string)
    ensures EncryptMany(content, cipher) == EncryptManyVec(content, cipher)
    ensures forall i :: 0 <= i < |content| ==>
              EncryptMany(content, cipher).0[i] == EncryptString(content[i], cipher).0
  {
    assert EncryptMany(content, cipher).0 == EncryptManyVec(content, cipher).0;
  }
}
