/** Redsys request signatures: the key diversified by the order number with zero-padded CBC (section
    6.2 of NIST SP 800-38A), and the tolerant check of a received signature. Texts other than
    signatures are byte strings. The block cipher and the MAC are given from outside. */
module RedsysSignature {
  import opened Options
  import opened Base64

  type Block = b: seq<Byte> | |b| == BLOCK_SIZE witness ZERO_BLOCK
  type Mac = m: seq<Byte> | |m| == 32 witness seq(32, _ => 0)

  const BLOCK_SIZE: nat := 8
  const ZERO_BLOCK: seq<Byte> := [0, 0, 0, 0, 0, 0, 0, 0]
  const KEY_SIZE: nat := 24

  /** A keyed permutation of blocks with its inverse, and a keyed MAC. */
  datatype Crypto = Crypto(
    encrypt: (seq<Byte>, Block) -> Block,
    decrypt: (seq<Byte>, Block) -> Block,
    mac: (seq<Byte>, seq<Byte>) -> Mac)

  ghost predicate IsCipher(c: Crypto, key: seq<Byte>) {
    forall b: Block :: c.decrypt(key, c.encrypt(key, b)) == b
  }

  datatype Error = BadSecret | EmptyOrder | BadKey | MissingSignature | Undecodable | Mismatch
  datatype Result<T> = Ok(value: T) | Err(error: Error)

  // ---- Exclusive or ----

  function Xor(a: nat, b: nat): nat {
    if a == 0 && b == 0 then 0
    else (if a % 2 == b % 2 then 0 else 1) + 2 * Xor(a / 2, b / 2)
  }

  lemma {:induction false} XorFits(a: nat, b: nat, k: nat, bound: nat)
    requires a < bound && b < bound && bound == Pow2(k)
    ensures Xor(a, b) < bound
    decreases k
  {
    if k > 0 && !(a == 0 && b == 0) {
      XorFits(a / 2, b / 2, k - 1, Pow2(k - 1));
    }
  }

  function Pow2(k: nat): nat {
    if k == 0 then 1 else 2 * Pow2(k - 1)
  }

  lemma {:induction false} XorTwice(a: nat, b: nat)
    ensures Xor(Xor(a, b), b) == a
  {
    if !(a == 0 && b == 0) {
      XorTwice(a / 2, b / 2);
      var x := Xor(a, b);
      assert x / 2 == Xor(a / 2, b / 2);
    }
  }

  /** The binary digit of weight two to the k. */
  function Bit(x: nat, k: nat): nat {
    if k == 0 then x % 2 else Bit(x / 2, k - 1)
  }

  /** The exclusive or has exactly the bits in which the two differ. */
  lemma {:induction false} XorBits(a: nat, b: nat, k: nat)
    ensures Bit(Xor(a, b), k) == if Bit(a, k) == Bit(b, k) then 0 else 1
  {
    XorHalves(a, b);
    hide Xor;
    if k > 0 {
      XorBits(a / 2, b / 2, k - 1);
    }
  }

  lemma XorHalves(a: nat, b: nat)
    ensures Xor(a, b) % 2 == if a % 2 == b % 2 then 0 else 1
    ensures Xor(a, b) / 2 == Xor(a / 2, b / 2)
  {
  }

  function XorByte(a: Byte, b: Byte): Byte {
    assert Pow2(8) == 256 by { assert Pow2(4) == 16; }
    XorFits(a, b, 8, 256);
    Xor(a, b)
  }

  function XorBlock(a: Block, b: Block): Block {
    seq(BLOCK_SIZE, i requires 0 <= i < BLOCK_SIZE => XorByte(a[i], b[i]))
  }

  lemma XorBlockTwice(a: Block, b: Block)
    ensures XorBlock(XorBlock(a, b), b) == a
  {
    forall i | 0 <= i < BLOCK_SIZE
      ensures XorBlock(XorBlock(a, b), b)[i] == a[i]
    {
      XorTwice(a[i], b[i]);
    }
  }

  // ---- Zero padding ----

  function ZeroPad(data: seq<Byte>): seq<Byte> {
    var padding := BLOCK_SIZE - |data| % BLOCK_SIZE;
    if padding == BLOCK_SIZE then data else data + seq(padding, _ => 0)
  }

  /** The padded text begins with the text, goes on with zeros, and has the least length that is a
      multiple of the block size. */
  lemma PadsToBlocks(data: seq<Byte>)
    ensures data <= ZeroPad(data)
    ensures forall i | |data| <= i < |ZeroPad(data)| :: ZeroPad(data)[i] == 0
    ensures |ZeroPad(data)| % 8 == 0
    ensures forall n: nat | n % 8 == 0 && |data| <= n :: |ZeroPad(data)| <= n
  {
  }

  function StripZeros(data: seq<Byte>): seq<Byte> {
    if data != [] && data[|data| - 1] == 0 then StripZeros(data[..|data| - 1]) else data
  }

  predicate EndsInZero(data: seq<Byte>) {
    data != [] && data[|data| - 1] == 0
  }

  lemma {:induction false} StripsPadding(data: seq<Byte>, padded: seq<Byte>)
    requires data <= padded && forall i | |data| <= i < |padded| :: padded[i] == 0
    ensures StripZeros(padded) == StripZeros(data)
  {
    if |data| < |padded| {
      StripsPadding(data, padded[..|padded| - 1]);
    } else {
      assert data == padded;
    }
  }

  lemma {:induction false} StripsOnlyZeros(data: seq<Byte>)
    ensures StripZeros(data) == data <==> !EndsInZero(data)
    ensures |StripZeros(data)| <= |data|
  {
    if EndsInZero(data) {
      StripsOnlyZeros(data[..|data| - 1]);
    }
  }

  // ---- Cipher block chaining ----

  /** The last block of a ciphertext, or the all-zero initialization vector. */
  function Chained(cipher: seq<Byte>): Block {
    if |cipher| < BLOCK_SIZE then ZERO_BLOCK else cipher[|cipher| - BLOCK_SIZE..]
  }

  function CbcEncrypt(c: Crypto, key: seq<Byte>, plain: seq<Byte>): (cipher: seq<Byte>)
    requires |plain| % BLOCK_SIZE == 0
    ensures |cipher| == |plain|
  {
    if plain == [] then []
    else
      var n := |plain| - BLOCK_SIZE;
      var before := CbcEncrypt(c, key, plain[..n]);
      before + c.encrypt(key, XorBlock(plain[n..], Chained(before)))
  }

  function CbcDecrypt(c: Crypto, key: seq<Byte>, cipher: seq<Byte>): (plain: seq<Byte>)
    requires |cipher| % BLOCK_SIZE == 0
    ensures |plain| == |cipher|
  {
    if cipher == [] then []
    else
      var n := |cipher| - BLOCK_SIZE;
      CbcDecrypt(c, key, cipher[..n]) + XorBlock(c.decrypt(key, cipher[n..]), Chained(cipher[..n]))
  }

  lemma {:induction false} CbcUndone(c: Crypto, key: seq<Byte>, plain: seq<Byte>)
    requires IsCipher(c, key) && |plain| % BLOCK_SIZE == 0
    ensures CbcDecrypt(c, key, CbcEncrypt(c, key, plain)) == plain
  {
    hide XorBlock, Chained;
    if plain != [] {
      var n := |plain| - BLOCK_SIZE;
      var before := CbcEncrypt(c, key, plain[..n]);
      var mixed := XorBlock(plain[n..], Chained(before));
      var cipher := CbcEncrypt(c, key, plain);
      CbcUndone(c, key, plain[..n]);
      XorBlockTwice(plain[n..], Chained(before));
      assert cipher[..n] == before && cipher[n..] == c.encrypt(key, mixed);
      assert plain == plain[..n] + plain[n..];
    }
  }

  predicate Differ(a: Byte, b: Byte, mixed: Byte) {
    forall k: nat | k < 8 :: Bit(mixed, k) == if Bit(a, k) == Bit(b, k) then 0 else 1
  }

  /** Every block of eight bytes is encrypted after its bits were mixed with those of the encrypted block
      before it, the first one as it is. */
  lemma {:induction false} ChainsBlocks(c: Crypto, key: seq<Byte>, plain: seq<Byte>, i: nat) returns (mixed: Block)
    requires |plain| % 8 == 0 && i % 8 == 0 && i + 8 <= |plain|
    ensures var cipher := CbcEncrypt(c, key, plain);
            && cipher[i..i + 8] == c.encrypt(key, mixed)
            && forall j | 0 <= j < 8 :: Differ(plain[i + j], if i == 0 then 0 else cipher[i - 8 + j], mixed[j])
  {
    hide Differ, CbcEncrypt;
    var n := |plain| - 8;
    LastBlock(c, key, plain);
    var before := CbcEncrypt(c, key, plain[..n]);
    var cipher := CbcEncrypt(c, key, plain);
    if i == n {
      mixed := XorBlock(plain[n..], Chained(before));
      hide XorBlock;
      XorBlockDiffers(plain[n..], Chained(before));
    } else {
      hide XorBlock, Chained;
      mixed := ChainsBlocks(c, key, plain[..n], i);
      assert cipher[i..i + 8] == before[i..i + 8];
    }
  }

  lemma LastBlock(c: Crypto, key: seq<Byte>, plain: seq<Byte>)
    requires |plain| % 8 == 0 && plain != []
    ensures var n := |plain| - 8;
            var (before, cipher) := (CbcEncrypt(c, key, plain[..n]), CbcEncrypt(c, key, plain));
            && cipher[..n] == before && cipher[n..] == c.encrypt(key, XorBlock(plain[n..], Chained(before)))
  {
    hide XorBlock, Chained;
  }

  lemma XorBlockDiffers(a: Block, b: Block)
    ensures forall j | 0 <= j < 8 :: Differ(a[j], b[j], XorBlock(a, b)[j])
  {
    hide Xor, Bit;
    forall j, k: nat | 0 <= j < 8 && k < 8
      ensures Bit(XorBlock(a, b)[j], k) == if Bit(a[j], k) == Bit(b[j], k) then 0 else 1
    {
      XorBits(a[j], b[j], k);
    }
  }

  lemma EmptyCipher(c: Crypto, key: seq<Byte>)
    ensures CbcEncrypt(c, key, []) == []
  {
  }

  /** Fills the buffer block by block, chaining each to the one before. */
  method CryptBlocks(c: Crypto, key: seq<Byte>, dst: array<Byte>, src: seq<Byte>)
    requires dst.Length == |src| && |src| % BLOCK_SIZE == 0
    modifies dst
    ensures dst[..] == CbcEncrypt(c, key, src)
  {
    hide XorBlock, CbcEncrypt;
    var i := 0;
    var prev := ZERO_BLOCK;
    EmptyCipher(c, key);
    while i < |src|
      invariant i <= |src| && i % BLOCK_SIZE == 0
      invariant dst[..i] == CbcEncrypt(c, key, src[..i])
      invariant prev == Chained(dst[..i])
      decreases |src| - i
    {
      var block := c.encrypt(key, XorBlock(src[i..i + BLOCK_SIZE], prev));
      forall j | 0 <= j < BLOCK_SIZE {
        dst[i + j] := block[j];
      }
      NextBlock(c, key, src, i, dst[..i], dst[..i + BLOCK_SIZE], block);
      prev := block;
      i := i + BLOCK_SIZE;
    }
    assert src[..i] == src && dst[..i] == dst[..];
  }

  lemma NextBlock(c: Crypto, key: seq<Byte>, src: seq<Byte>, i: nat, before: seq<Byte>, after: seq<Byte>, block: Block)
    requires i + BLOCK_SIZE <= |src| && i % BLOCK_SIZE == 0
    requires before == CbcEncrypt(c, key, src[..i])
    requires block == c.encrypt(key, XorBlock(src[i..i + BLOCK_SIZE], Chained(before)))
    requires |after| == i + BLOCK_SIZE && after[..i] == before && after[i..] == block
    ensures after == CbcEncrypt(c, key, src[..i + BLOCK_SIZE])
    ensures Chained(after) == block
  {
    var next := src[..i + BLOCK_SIZE];
    assert next[..i] == src[..i] && next[i..] == src[i..i + BLOCK_SIZE];
    assert after == before + block;
  }

  // ---- Diversified keys ----

  function Diversify(c: Crypto, order: seq<Byte>, key: seq<Byte>): Result<seq<Byte>> {
    if order == [] then Err(EmptyOrder)
    else if |key| != KEY_SIZE then Err(BadKey)
    else Ok(CbcEncrypt(c, key, ZeroPad(order)))
  }

  method Encrypt3DES(c: Crypto, order: seq<Byte>, key: seq<Byte>) returns (r: Result<seq<Byte>>)
    ensures r == Diversify(c, order, key)
  {
    if order == [] {
      return Err(EmptyOrder);
    }
    if |key| != KEY_SIZE {
      return Err(BadKey);
    }
    var toEncrypt := ZeroPad(order);
    var ciphertext := new Byte[|toEncrypt|](_ => 0);
    CryptBlocks(c, key, ciphertext, toEncrypt);
    return Ok(ciphertext[..]);
  }

  /** Decrypting a diversified key and stripping its zeros gives the order number back, exactly when
      the number does not end in a zero byte. */
  lemma KeyGivesOrderBack(c: Crypto, order: seq<Byte>, key: seq<Byte>)
    requires IsCipher(c, key) && order != [] && |key| == KEY_SIZE
    ensures Diversify(c, order, key).Ok?
    ensures |Diversify(c, order, key).value| % BLOCK_SIZE == 0
    ensures StripZeros(CbcDecrypt(c, key, Diversify(c, order, key).value)) == order <==> !EndsInZero(order)
  {
    PadsToBlocks(order);
    CbcUndone(c, key, ZeroPad(order));
    StripsPadding(order, ZeroPad(order));
    StripsOnlyZeros(order);
  }

  /** Two order numbers share a diversified key exactly when padding makes them equal; then they differ
      in zero bytes at the end only. */
  lemma KeysTellOrdersApart(c: Crypto, a: seq<Byte>, b: seq<Byte>, key: seq<Byte>)
    requires IsCipher(c, key) && a != [] && b != [] && |key| == KEY_SIZE
    ensures Diversify(c, a, key) == Diversify(c, b, key) ==> StripZeros(a) == StripZeros(b)
    ensures !EndsInZero(a) && !EndsInZero(b) && a != b ==> Diversify(c, a, key) != Diversify(c, b, key)
    ensures ZeroPad(a) == ZeroPad(b) <==> Diversify(c, a, key) == Diversify(c, b, key)
  {
    PadsToBlocks(a);
    PadsToBlocks(b);
    CbcUndone(c, key, ZeroPad(a));
    CbcUndone(c, key, ZeroPad(b));
    StripsPadding(a, ZeroPad(a));
    StripsPadding(b, ZeroPad(b));
    StripsOnlyZeros(a);
    StripsOnlyZeros(b);
  }

  // ---- Signatures ----

  /** The MAC of the parameters under the key diversified by the order number. */
  function RawSignature(c: Crypto, params: seq<Byte>, secret: string, order: seq<Byte>): Result<Mac> {
    match Decode(STD, secret)
    case None => Err(BadSecret)
    case Some(key) =>
      match Diversify(c, order, key)
      case Err(e) => Err(e)
      case Ok(diversified) => Ok(c.mac(diversified, params))
  }

  /** The secret is text for a key of 24 bytes, under which this key decrypts to the order number and zeros. */
  ghost predicate IsKeyFor(c: Crypto, secret: string, order: seq<Byte>, k: seq<Byte>) {
    var key := Decode(STD, secret);
    && key.Some? && |key.value| == 24 && |k| % 8 == 0
    && (IsCipher(c, key.value) ==> StripZeros(CbcDecrypt(c, key.value, k)) == StripZeros(order))
  }

  lemma SignsUnderKeyForOrder(c: Crypto, params: seq<Byte>, secret: string, order: seq<Byte>) returns (k: seq<Byte>)
    requires RawSignature(c, params, secret, order).Ok?
    ensures IsKeyFor(c, secret, order, k)
    ensures RawSignature(c, params, secret, order).value == c.mac(k, params)
  {
    hide Decode, CbcEncrypt, CbcDecrypt;
    var key := Decode(STD, secret).value;
    k := Diversify(c, order, key).value;
    PadsToBlocks(order);
    if IsCipher(c, key) {
      CbcUndone(c, key, ZeroPad(order));
      StripsPadding(order, ZeroPad(order));
    }
  }

  /** There is a signature for every order number that is not empty, if the secret is the text of a key of
      24 bytes. */
  lemma SignsOrFails(c: Crypto, params: seq<Byte>, secret: string, order: seq<Byte>)
    ensures RawSignature(c, params, secret, order) == Err(BadSecret) <==> Decode(STD, secret).None?
    ensures RawSignature(c, params, secret, order) == Err(EmptyOrder) <==> Decode(STD, secret).Some? && order == []
    ensures RawSignature(c, params, secret, order) == Err(BadKey)
            <==> Decode(STD, secret).Some? && order != [] && |Decode(STD, secret).value| != 24
    ensures RawSignature(c, params, secret, order).Ok?
            <==> Decode(STD, secret).Some? && order != [] && |Decode(STD, secret).value| == 24
  {
    hide Decode;
  }

  ghost predicate TellsKeysApart(c: Crypto, params: seq<Byte>) {
    forall k, l :: c.mac(k, params) == c.mac(l, params) ==> k == l
  }

  /** What one order number is signed with is not a signature for another, zeros at the end aside. */
  lemma SignaturesTellOrdersApart(c: Crypto, params: seq<Byte>, secret: string, a: seq<Byte>, b: seq<Byte>)
    requires Decode(STD, secret).Some? && IsCipher(c, Decode(STD, secret).value) && TellsKeysApart(c, params)
    requires StripZeros(a) != StripZeros(b)
    requires RawSignature(c, params, secret, a).Ok? && RawSignature(c, params, secret, b).Ok?
    ensures RawSignature(c, params, secret, a) != RawSignature(c, params, secret, b)
  {
    hide RawSignature, Decode, CbcDecrypt;
    var k := SignsUnderKeyForOrder(c, params, secret, a);
    var l := SignsUnderKeyForOrder(c, params, secret, b);
  }

  /** The text is an encoding of the signature for another order number. */
  ghost predicate IsForOther(c: Crypto, params: seq<Byte>, secret: string, order: seq<Byte>, text: string) {
    exists other, e ::
      && order != [] && other != [] && order != other && !EndsInZero(order) && !EndsInZero(other)
      && RawSignature(c, params, secret, other).Ok?
      && text == Encode(e, RawSignature(c, params, secret, other).value)
  }

  lemma OtherIsAnother(c: Crypto, params: seq<Byte>, secret: string, order: seq<Byte>, text: string)
      returns (e: Encoding, raw: Mac)
    requires Decode(STD, secret).Some? && IsCipher(c, Decode(STD, secret).value) && TellsKeysApart(c, params)
    requires IsForOther(c, params, secret, order, text)
    ensures text == Encode(e, raw)
    ensures RawSignature(c, params, secret, order).Ok? && RawSignature(c, params, secret, order).value != raw
  {
    hide Encode, Decode, StripZeros, TellsKeysApart, IsCipher;
    var other, f :|
      && order != [] && other != [] && order != other && !EndsInZero(order) && !EndsInZero(other)
      && RawSignature(c, params, secret, other).Ok?
      && text == Encode(f, RawSignature(c, params, secret, other).value);
    e, raw := f, RawSignature(c, params, secret, other).value;
    StripsOnlyZeros(order);
    StripsOnlyZeros(other);
    SignsOrFails(c, params, secret, order);
    SignsOrFails(c, params, secret, other);
    SignaturesTellOrdersApart(c, params, secret, order, other);
  }

  method GenerateSignature(c: Crypto, params: seq<Byte>, secret: string, order: seq<Byte>) returns (r: Result<string>)
    ensures r == match RawSignature(c, params, secret, order)
                 case Ok(raw) => Ok(Encode(STD, raw))
                 case Err(e) => Err(e)
    ensures r.Ok? ==> exists k :: IsKeyFor(c, secret, order, k) && r.value == Encode(STD, c.mac(k, params))
    ensures r.Ok? <==> Decode(STD, secret).Some? && order != [] && |Decode(STD, secret).value| == 24
  {
    hide Encode, Decode, IsKeyFor;
    SignsOrFails(c, params, secret, order);
    var key := Decode(STD, secret);
    if key.None? {
      return Err(BadSecret);
    }
    var diversified := Encrypt3DES(c, order, key.value);
    match diversified {
      case Err(e) => return Err(e);
      case Ok(k) =>
        ghost var l := SignsUnderKeyForOrder(c, params, secret, order);
        return Ok(Encode(STD, c.mac(k, params)));
    }
  }

  const ENCODINGS: seq<Encoding> := [STD, URL, RAW_STD, RAW_URL]

  /** The bytes of the first of the four decoders, in their order, that accepts the text. */
  method DecodeSignature(signature: string) returns (r: Option<seq<Byte>>)
    ensures r.None? <==> forall e :: Decode(e, signature).None?
    ensures r.Some? ==> exists i :: 0 <= i < |ENCODINGS| && Decode(ENCODINGS[i], signature) == r
                                    && forall j | 0 <= j < i :: Decode(ENCODINGS[j], signature).None?
    ensures forall e, b :: signature == Encode(e, b) ==> r == Some(b)
  {
    hide Encode, Decode;
    for i := 0 to |ENCODINGS|
      invariant forall j | 0 <= j < i :: Decode(ENCODINGS[j], signature).None?
      invariant forall e, b | signature == Encode(e, b) :: e !in ENCODINGS[..i]
    {
      r := Decode(ENCODINGS[i], signature);
      forall e, b | signature == Encode(e, b)
        ensures r.Some? ==> r == Some(b)
        ensures r.None? ==> e != ENCODINGS[i]
      {
        DecodeEncode(e, ENCODINGS[i], b);
      }
      if r.Some? {
        return;
      }
      assert ENCODINGS[..i + 1] == ENCODINGS[..i] + [ENCODINGS[i]];
    }
    EveryEncodingIsTried();
    assert ENCODINGS[..|ENCODINGS|] == ENCODINGS;
    assert forall e | e in ENCODINGS :: Decode(e, signature).None?;
    return None;
  }

  lemma EveryEncodingIsTried()
    ensures forall e :: e in ENCODINGS
  {
    forall e: Encoding
      ensures e in ENCODINGS
    {
      assert e == ENCODINGS[0] || e == ENCODINGS[1] || e == ENCODINGS[2] || e == ENCODINGS[3];
    }
  }

  lemma SomethingIsWritten(e: Encoding, b: seq<Byte>)
    requires b != []
    ensures Encode(e, b) != ""
  {
  }

  predicate ReadsOther(e: Encoding, text: string, bytes: seq<Byte>) {
    Decode(e, text).Some? && Decode(e, text) != Some(bytes)
  }

  /** Accepts a signature exactly when some decoder reads the expected MAC from it; so every encoding of
      what GenerateSignature produces, and besides, by AnyEncoderWroteIt, just the texts that have line
      breaks in them or other bits left over in their last group. */
  method VerifySignature(c: Crypto, params: seq<Byte>, signature: string, secret: string, order: seq<Byte>)
    returns (r: Result<()>)
    ensures var expected := RawSignature(c, params, secret, order);
            && (signature == "" ==> r == Err(MissingSignature))
            && (signature != "" && expected.Err? ==> r == Err(expected.error))
            && (signature != "" && expected.Ok? ==> (r == Err(Undecodable) <==> forall e :: Decode(e, signature).None?))
            && (r.Ok? <==> signature != "" && expected.Ok? && exists e :: Decode(e, signature) == Some(expected.value))
            && (signature != "" && expected.Ok? ==>
                  (r == Err(Mismatch) <==> exists e :: ReadsOther(e, signature, expected.value)))
            && (expected.Ok? ==> forall e :: signature == Encode(e, expected.value) ==> r.Ok?)
            && (forall e, b :: signature != "" && expected.Ok? && signature == Encode(e, b) && b != expected.value ==>
                  r == Err(Mismatch))
    ensures Decode(STD, secret).Some? && IsCipher(c, Decode(STD, secret).value) && TellsKeysApart(c, params) ==>
              IsForOther(c, params, secret, order, signature) ==> r == Err(Mismatch)
  {
    hide Encode, Decode, RawSignature, IsForOther, IsCipher, TellsKeysApart;
    if && Decode(STD, secret).Some? && IsCipher(c, Decode(STD, secret).value) && TellsKeysApart(c, params)
       && IsForOther(c, params, secret, order, signature) {
      ghost var e, raw := OtherIsAnother(c, params, secret, order, signature);
      SomethingIsWritten(e, raw);
    }
    if signature == "" {
      forall e, m: Mac
        ensures signature != Encode(e, m)
      {
        SomethingIsWritten(e, m);
      }
      return Err(MissingSignature);
    }
    var expected := GenerateSignature(c, params, secret, order);
    if expected.Err? {
      return Err(expected.error);
    }
    ghost var raw := RawSignature(c, params, secret, order).value;
    DecodeEncode(STD, STD, raw);
    var expectedRaw := Decode(STD, expected.value);
    var receivedRaw := DecodeSignature(signature);
    forall e, f: Encoding
      ensures Decode(e, signature).Some? && Decode(f, signature).Some? ==> Decode(e, signature) == Decode(f, signature)
    {
      DecodersAgree(e, f, signature);
    }
    if receivedRaw.None? {
      return Err(Undecodable);
    }
    if expectedRaw != receivedRaw {
      ghost var e :| Decode(e, signature) == receivedRaw;
      assert ReadsOther(e, signature, raw);
      return Err(Mismatch);
    }
    return Ok(());
  }
}
