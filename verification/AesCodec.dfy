/**
 Password encryption: padding (section 6.3 of RFC 5652), CBC chaining with a zero vector (section 6.2 of NIST
 SP 800-38A) and base16 text (section 8 of RFC 4648). The block cipher is any family of invertible functions.
 */
module AesCodec {
  import opened Wrappers

  const BLOCK_SIZE := 16

  type Byte = bv8
  type Block = s: seq<Byte> | |s| == BLOCK_SIZE witness seq(BLOCK_SIZE, _ => 0)

  datatype BlockCipher = BlockCipher(enc: Block -> Block, dec: Block -> Block)

  /** The key schedule: one block cipher per key. */
  type Family = seq<Byte> -> BlockCipher

  predicate ValidKey(key: seq<Byte>) {
    |key| == 16 || |key| == 24 || |key| == 32
  }

  ghost predicate Invertible(c: BlockCipher) {
    forall b: Block :: c.dec(c.enc(b)) == b
  }

  ghost predicate IsCipher(aes: Family) {
    forall key :: ValidKey(key) ==> Invertible(aes(key))
  }

  // ---------- padding ----------

  function Repeat(b: Byte, n: nat): (r: seq<Byte>)
    ensures |r| == n && forall k :: 0 <= k < n ==> r[k] == b
  {
    seq(n, _ => b)
  }

  function PadLength(n: nat): (p: nat)
    ensures 1 <= p <= BLOCK_SIZE && (n + p) % BLOCK_SIZE == 0
  {
    BLOCK_SIZE - n % BLOCK_SIZE
  }

  function Pad(src: seq<Byte>): seq<Byte> {
    src + Repeat(PadLength(|src|) as Byte, PadLength(|src|))
  }

  /** Only the last byte is looked at; an empty slice is indexed at -1. */
  function Unpad(src: seq<Byte>): Outcome<seq<Byte>> {
    if src == [] then Panic
    else
      var unpadding := src[|src| - 1] as int;
      if unpadding > |src| then Err else Ok(src[..|src| - unpadding])
  }

  /** The shape RFC 5652 asks for: p bytes of value p, with p between 1 and the block size. */
  predicate WellPadded(src: seq<Byte>) {
    && src != [] && |src| % BLOCK_SIZE == 0
    && var p := src[|src| - 1] as int;
       && 1 <= p <= BLOCK_SIZE && p <= |src|
       && forall k :: |src| - p <= k < |src| ==> src[k] == src[|src| - 1]
  }

  lemma {:induction false} PadByte(n: nat)
    requires n <= BLOCK_SIZE
    ensures n as Byte as int == n
  {
    assert n == 0 || n == 1 || n == 2 || n == 3 || n == 4 || n == 5 || n == 6 || n == 7 || n == 8 || n == 9
      || n == 10 || n == 11 || n == 12 || n == 13 || n == 14 || n == 15 || n == 16;
  }

  /** 1 to 16 bytes are appended, each of them their number, up to the next multiple of 16. */
  lemma {:induction false} PadSpelled(src: seq<Byte>)
    ensures |Pad(src)| == 16 * (|src| / 16 + 1) && src <= Pad(src)
    ensures forall k :: |src| <= k < |Pad(src)| ==> Pad(src)[k] as int == |Pad(src)| - |src|
  {
    PadByte(PadLength(|src|));
  }

  /** As many bytes are cut off as the last one says; more than there are is an error, and no byte at all a panic. */
  lemma {:induction false} UnpadCuts(src: seq<Byte>)
    ensures Unpad(src).Panic? <==> |src| == 0
    ensures Unpad(src).Err? <==> |src| > 0 && src[|src| - 1] as int > |src|
    ensures Unpad(src).Ok? ==>
      Unpad(src).value <= src && |src| > 0 && |src| - |Unpad(src).value| == src[|src| - 1] as int
  {
  }

  lemma {:induction false} UnpadPad(src: seq<Byte>)
    ensures Unpad(Pad(src)) == Ok(src) && WellPadded(Pad(src))
  {
    PadByte(PadLength(|src|));
    assert Pad(src)[..|src|] == src;
  }

  /**
   `unpad` undoes `pad` on every padded input, but accepts more than `pad` produces: re-padding its answer gives
   the input back exactly when the input was well padded.
   */
  lemma {:induction false} UnpadIsExactOnWellPadded(src: seq<Byte>)
    requires Unpad(src).Ok?
    ensures Pad(Unpad(src).value) == src <==> WellPadded(src)
  {
    var body := Unpad(src).value;
    if WellPadded(src) {
      var p := src[|src| - 1] as int;
      assert (|body| + p) % BLOCK_SIZE == 0 && 1 <= p <= BLOCK_SIZE;
      assert PadLength(|body|) == p;
      assert Pad(body) == src;
    } else if Pad(body) == src {
      UnpadPad(body);
    }
  }

  // ---------- CBC ----------

  function Xor(a: Block, b: Block): Block {
    seq(BLOCK_SIZE, k requires 0 <= k < BLOCK_SIZE => a[k] ^ b[k])
  }

  lemma XorTwice(a: Block, b: Block)
    ensures Xor(Xor(a, b), b) == a
  {
  }

  const ZERO_IV: Block := seq(BLOCK_SIZE, _ => 0)

  function CbcEncrypt(c: BlockCipher, iv: Block, msg: seq<Byte>): (r: seq<Byte>)
    requires |msg| % BLOCK_SIZE == 0
    ensures |r| == |msg|
    decreases |msg|
  {
    if msg == [] then []
    else
      var y := c.enc(Xor(msg[..BLOCK_SIZE], iv));
      y + CbcEncrypt(c, y, msg[BLOCK_SIZE..])
  }

  function CbcDecrypt(c: BlockCipher, iv: Block, msg: seq<Byte>): (r: seq<Byte>)
    requires |msg| % BLOCK_SIZE == 0
    ensures |r| == |msg|
    decreases |msg|
  {
    if msg == [] then []
    else Xor(c.dec(msg[..BLOCK_SIZE]), iv) + CbcDecrypt(c, msg[..BLOCK_SIZE], msg[BLOCK_SIZE..])
  }

  lemma {:induction false} CbcRoundTrip(c: BlockCipher, iv: Block, msg: seq<Byte>)
    requires Invertible(c) && |msg| % BLOCK_SIZE == 0
    ensures CbcDecrypt(c, iv, CbcEncrypt(c, iv, msg)) == msg
    decreases |msg|
  {
    if msg == [] {
    } else {
      var y := c.enc(Xor(msg[..BLOCK_SIZE], iv));
      var rest := CbcEncrypt(c, y, msg[BLOCK_SIZE..]);
      var all := CbcEncrypt(c, iv, msg);
      assert all[..BLOCK_SIZE] == y && all[BLOCK_SIZE..] == rest;
      XorTwice(msg[..BLOCK_SIZE], iv);
      CbcRoundTrip(c, y, msg[BLOCK_SIZE..]);
    }
  }

  /** With the zero vector the first block is enciphered as it is. */
  lemma {:induction false} ZeroVectorIsNeutral(c: BlockCipher, msg: seq<Byte>)
    requires |msg| % BLOCK_SIZE == 0 && msg != []
    ensures CbcEncrypt(c, ZERO_IV, msg)[..BLOCK_SIZE] == c.enc(msg[..BLOCK_SIZE])
  {
    var first: Block := msg[..BLOCK_SIZE];
    assert forall k :: 0 <= k < BLOCK_SIZE ==> first[k] ^ 0 == first[k];
    assert Xor(first, ZERO_IV) == first;
  }

  /** The ciphertext block before block `i`, or the initial vector. */
  function Previous(iv: Block, msg: seq<Byte>, i: nat): Block
    requires BLOCK_SIZE * i <= |msg|
  {
    if i == 0 then iv else msg[BLOCK_SIZE * (i - 1)..BLOCK_SIZE * i]
  }

  lemma {:induction false} PreviousInTail(iv: Block, msg: seq<Byte>, i: nat)
    requires i > 0 && BLOCK_SIZE * i <= |msg|
    ensures Previous(msg[..BLOCK_SIZE], msg[BLOCK_SIZE..], i - 1) == Previous(iv, msg, i)
  {
    if i > 1 {
      SliceOfDrop(msg, BLOCK_SIZE, BLOCK_SIZE * (i - 2), BLOCK_SIZE * (i - 1));
    }
  }

  lemma {:induction false} SplitTail(s: seq<Byte>, lo: nat, hi: nat)
    requires lo <= hi <= |s|
    ensures s[lo..] == s[lo..hi] + s[hi..]
  {
  }

  lemma {:induction false} SliceOfDrop(s: seq<Byte>, n: nat, lo: nat, hi: nat)
    requires lo <= hi && n + hi <= |s|
    ensures s[n..][lo..hi] == s[n + lo..n + hi]
  {
  }

  lemma {:induction false} SliceOfSecond(a: seq<Byte>, b: seq<Byte>, lo: nat, hi: nat)
    requires lo <= hi <= |b|
    ensures (a + b)[|a| + lo..|a| + hi] == b[lo..hi]
  {
  }

  /** Each plaintext block depends on two ciphertext blocks only, which is what lets the decrypter work in place. */
  lemma {:induction false} CbcDecryptBlock(c: BlockCipher, iv: Block, msg: seq<Byte>, i: nat)
    requires |msg| % BLOCK_SIZE == 0 && BLOCK_SIZE * (i + 1) <= |msg|
    ensures CbcDecrypt(c, iv, msg)[BLOCK_SIZE * i..BLOCK_SIZE * (i + 1)]
         == Xor(c.dec(msg[BLOCK_SIZE * i..BLOCK_SIZE * (i + 1)]), Previous(iv, msg, i))
    decreases i
  {
    var head: Block, tail := msg[..BLOCK_SIZE], msg[BLOCK_SIZE..];
    var first: seq<Byte> := Xor(c.dec(head), iv);
    var rest := CbcDecrypt(c, head, tail);
    assert CbcDecrypt(c, iv, msg) == first + rest;
    if i == 0 {
    } else {
      CbcDecryptBlock(c, head, tail, i - 1);
      SliceOfSecond(first, rest, BLOCK_SIZE * (i - 1), BLOCK_SIZE * i);
      SliceOfDrop(msg, BLOCK_SIZE, BLOCK_SIZE * (i - 1), BLOCK_SIZE * i);
      PreviousInTail(iv, msg, i);
    }
  }

  lemma {:induction false} CbcEncryptUnfolds(c: BlockCipher, prev: Block, msg: seq<Byte>, i: nat)
    requires |msg| % BLOCK_SIZE == 0 && i % BLOCK_SIZE == 0 && i + BLOCK_SIZE <= |msg|
    ensures var y := c.enc(Xor(msg[i..i + BLOCK_SIZE], prev));
      CbcEncrypt(c, prev, msg[i..]) == y + CbcEncrypt(c, y, msg[i + BLOCK_SIZE..])
  {
    assert msg[i..][..BLOCK_SIZE] == msg[i..i + BLOCK_SIZE] && msg[i..][BLOCK_SIZE..] == msg[i + BLOCK_SIZE..];
  }

  /** Each ciphertext block is the enciphered sum of its plaintext block and the ciphertext block before it. */
  lemma {:induction false} CbcEncryptBlock(c: BlockCipher, iv: Block, msg: seq<Byte>, i: nat)
    requires |msg| % BLOCK_SIZE == 0 && BLOCK_SIZE * (i + 1) <= |msg|
    ensures var out := CbcEncrypt(c, iv, msg);
      out[BLOCK_SIZE * i..BLOCK_SIZE * (i + 1)]
      == c.enc(Xor(msg[BLOCK_SIZE * i..BLOCK_SIZE * (i + 1)], Previous(iv, out, i)))
    decreases i
  {
    var head: Block, tail := msg[..BLOCK_SIZE], msg[BLOCK_SIZE..];
    var first := c.enc(Xor(head, iv));
    var rest := CbcEncrypt(c, first, tail);
    var out := CbcEncrypt(c, iv, msg);
    assert out == first + rest;
    if i == 0 {
    } else {
      CbcEncryptBlock(c, first, tail, i - 1);
      SliceOfSecond(first, rest, BLOCK_SIZE * (i - 1), BLOCK_SIZE * i);
      SliceOfDrop(msg, BLOCK_SIZE, BLOCK_SIZE * (i - 1), BLOCK_SIZE * i);
      assert out[..BLOCK_SIZE] == first && out[BLOCK_SIZE..] == rest;
      PreviousInTail(iv, out, i);
    }
  }

  method EncryptBlocks(c: BlockCipher, iv: Block, dst: array<Byte>, msg: seq<Byte>)
    requires |msg| % BLOCK_SIZE == 0 && dst.Length == BLOCK_SIZE + |msg|
    modifies dst
    ensures dst[BLOCK_SIZE..] == CbcEncrypt(c, iv, msg)
  {
    hide CbcEncrypt, Xor;
    var prev, i := iv, 0;
    ghost var whole := CbcEncrypt(c, iv, msg);
    assert msg[0..] == msg;
    while i < |msg|
      invariant 0 <= i <= |msg| && i % BLOCK_SIZE == 0
      invariant dst[BLOCK_SIZE..BLOCK_SIZE + i] + CbcEncrypt(c, prev, msg[i..]) == whole
    {
      var y: Block := c.enc(Xor(msg[i..i + BLOCK_SIZE], prev));
      ghost var done := dst[BLOCK_SIZE..BLOCK_SIZE + i];
      CbcEncryptUnfolds(c, prev, msg, i);
      ConcatAssociates(done, y, CbcEncrypt(c, y, msg[i + BLOCK_SIZE..]));
      forall k | 0 <= k < BLOCK_SIZE {
        dst[BLOCK_SIZE + i + k] := y[k];
      }
      assert dst[BLOCK_SIZE..BLOCK_SIZE + (i + BLOCK_SIZE)] == done + y;
      prev, i := y, i + BLOCK_SIZE;
    }
  }

  /** The in-place decrypter runs from the last block to the first. */
  method DecryptBlocksInPlace(c: BlockCipher, iv: Block, msg: array<Byte>)
    requires msg.Length % BLOCK_SIZE == 0
    modifies msg
    ensures msg[..] == CbcDecrypt(c, iv, old(msg[..]))
  {
    hide CbcDecrypt, Xor;
    var n := msg.Length / BLOCK_SIZE;
    ghost var cipher := msg[..];
    ghost var plain := CbcDecrypt(c, iv, cipher);
    var i := n;
    while i > 0
      invariant 0 <= i <= n
      invariant msg[..BLOCK_SIZE * i] == cipher[..BLOCK_SIZE * i]
      invariant msg[BLOCK_SIZE * i..] == plain[BLOCK_SIZE * i..]
    {
      i := i - 1;
      CbcDecryptBlock(c, iv, cipher, i);
      var here: Block := msg[BLOCK_SIZE * i..BLOCK_SIZE * (i + 1)];
      assert here == cipher[BLOCK_SIZE * i..BLOCK_SIZE * (i + 1)];
      var prev: Block := if i == 0 then iv else msg[BLOCK_SIZE * (i - 1)..BLOCK_SIZE * i];
      assert prev == Previous(iv, cipher, i);
      var x := Xor(c.dec(here), prev);
      ghost var after := msg[BLOCK_SIZE * (i + 1)..];
      forall k | 0 <= k < BLOCK_SIZE {
        msg[BLOCK_SIZE * i + k] := x[k];
      }
      assert msg[BLOCK_SIZE * i..] == x + after;
      SplitTail(plain, BLOCK_SIZE * i, BLOCK_SIZE * (i + 1));
    }
  }

  // ---------- base16 ----------

  const HEX_DIGITS: string := "0123456789abcdef"

  function HexDigit(n: bv8): char
    requires n < 16
  {
    HEX_DIGITS[n as int]
  }

  datatype Nibble = NotHex | Value(n: bv8)

  function FromHexDigit(ch: char): (r: Nibble)
    ensures r.Value? ==> r.n < 16
  {
    if '0' <= ch <= '9' then Value((ch as int - '0' as int) as bv8)
    else if 'a' <= ch <= 'f' then Value((ch as int - 'a' as int + 10) as bv8)
    else if 'A' <= ch <= 'F' then Value((ch as int - 'A' as int + 10) as bv8)
    else NotHex
  }

  predicate IsLowerHex(s: string) {
    forall ch :: ch in s ==> '0' <= ch <= '9' || 'a' <= ch <= 'f'
  }

  function TwoDigits(b: Byte): (r: string)
    ensures |r| == 2 && IsLowerHex(r)
  {
    [HexDigit(b >> 4), HexDigit(b & 0xf)]
  }

  function EncodeHex(bytes: seq<Byte>): (r: string)
    ensures |r| == 2 * |bytes| && IsLowerHex(r)
  {
    if bytes == [] then "" else TwoDigits(bytes[0]) + EncodeHex(bytes[1..])
  }

  /** The decoded prefix; the caller drops the error a bad or lone digit causes. */
  function DecodeHex(text: string): seq<Byte>
    decreases |text|
  {
    if |text| < 2 then []
    else
      var hi, lo := FromHexDigit(text[0]), FromHexDigit(text[1]);
      if hi.NotHex? || lo.NotHex? then [] else [(hi.n << 4) | lo.n] + DecodeHex(text[2..])
  }

  lemma {:induction false} DigitRoundTrip(n: bv8)
    requires n < 16
    ensures FromHexDigit(HexDigit(n)) == Value(n)
  {
    var k := n as int;
    assert n == k as bv8;
    if k < 10 {
      assert HEX_DIGITS[k] as int == '0' as int + k;
    } else {
      assert HEX_DIGITS[k] as int == 'a' as int + (k - 10);
    }
  }

  /** The digit written for each half byte. */
  lemma {:induction false} DigitWritten(n: bv8)
    requires n < 16
    ensures HexDigit(n) as int == (if n < 10 then '0' as int + n as int else 'a' as int + (n as int - 10))
  {
    var k := n as int;
    assert n == k as bv8;
    DigitAt(k);
  }

  lemma {:induction false} DigitAt(k: nat)
    requires k < 16
    ensures HEX_DIGITS[k] as int == (if k < 10 then '0' as int + k else 'a' as int + (k - 10))
  {
  }

  /** The value read for each digit, either case of a letter. */
  lemma {:induction false} DigitRead(ch: char)
    ensures FromHexDigit(ch).Value? <==> '0' <= ch <= '9' || 'a' <= ch <= 'f' || 'A' <= ch <= 'F'
    ensures '0' <= ch <= '9' ==> FromHexDigit(ch).n as int == ch as int - '0' as int
    ensures 'a' <= ch <= 'f' ==> FromHexDigit(ch).n as int == ch as int - 'a' as int + 10
    ensures 'A' <= ch <= 'F' ==> FromHexDigit(ch).n as int == ch as int - 'A' as int + 10
  {
    if '0' <= ch <= '9' {
      PadByte(ch as int - '0' as int);
    } else if 'a' <= ch <= 'f' {
      PadByte(ch as int - 'a' as int + 10);
    } else if 'A' <= ch <= 'F' {
      PadByte(ch as int - 'A' as int + 10);
    }
  }

  /** The high half of a byte gives the first digit, the low half the second. */
  lemma {:induction false} HexSpelled(bytes: seq<Byte>, k: nat)
    requires k < |bytes|
    ensures EncodeHex(bytes)[2 * k] == HexDigit(bytes[k] / 16)
    ensures EncodeHex(bytes)[2 * k + 1] == HexDigit(bytes[k] % 16)
  {
    HalfBytes(bytes[0]);
    if k == 0 {
    } else {
      HexSpelled(bytes[1..], k - 1);
      assert EncodeHex(bytes)[2..] == EncodeHex(bytes[1..]);
    }
  }

  lemma HalfBytes(b: Byte)
    ensures b >> 4 == b / 16 && b & 0xf == b % 16 && b / 16 < 16 && b % 16 < 16
  {
  }

  lemma JoinNibbles(b: Byte)
    ensures b >> 4 < 16 && b & 0xf < 16
    ensures ((b >> 4) << 4) | (b & 0xf) == b
  {
  }

  lemma {:induction false} DecodeTwoDigits(b: Byte, tail: string)
    ensures DecodeHex(TwoDigits(b) + tail) == [b] + DecodeHex(tail)
  {
    JoinNibbles(b);
    DigitRoundTrip(b >> 4);
    DigitRoundTrip(b & 0xf);
    assert (TwoDigits(b) + tail)[2..] == tail;
  }

  lemma {:induction false} EncodedFirst(bytes: seq<Byte>, tail: string)
    requires bytes != []
    ensures DecodeHex(EncodeHex(bytes) + tail) == [bytes[0]] + DecodeHex(EncodeHex(bytes[1..]) + tail)
  {
    var first, rest := TwoDigits(bytes[0]), EncodeHex(bytes[1..]);
    ConcatAssociates(first, rest, tail);
    DecodeTwoDigits(bytes[0], rest + tail);
  }

  predicate StartsBadly(text: string) {
    |text| < 2 || FromHexDigit(text[0]).NotHex? || FromHexDigit(text[1]).NotHex?
  }

  lemma {:induction false} HexStopsAtBadDigit(bytes: seq<Byte>, tail: string)
    requires StartsBadly(tail)
    ensures DecodeHex(EncodeHex(bytes) + tail) == bytes
  {
    if bytes == [] {
      assert EncodeHex(bytes) + tail == tail;
    } else {
      EncodedFirst(bytes, tail);
      HexStopsAtBadDigit(bytes[1..], tail);
    }
  }

  lemma {:induction false} HexRoundTrip(bytes: seq<Byte>)
    ensures DecodeHex(EncodeHex(bytes)) == bytes
  {
    HexStopsAtBadDigit(bytes, "");
    assert EncodeHex(bytes) + "" == EncodeHex(bytes);
  }

  // ---------- Encrypt and Decrypt ----------

  function EncryptText(aes: Family, key: seq<Byte>, text: seq<Byte>): Outcome<string> {
    if !ValidKey(key) then Err else Ok(EncodeHex(CbcEncrypt(aes(key), ZERO_IV, Pad(text))))
  }

  function DecryptText(aes: Family, key: seq<Byte>, text: string): Outcome<seq<Byte>> {
    if !ValidKey(key) then Err
    else
      var msg := DecodeHex(text);
      if |msg| % BLOCK_SIZE != 0 then Panic else Unpad(CbcDecrypt(aes(key), ZERO_IV, msg))
  }

  method Encrypt(aes: Family, key: seq<Byte>, text: seq<Byte>) returns (r: Outcome<string>)
    ensures r == EncryptText(aes, key, text)
  {
    if !ValidKey(key) {
      return Err;
    }
    var msg := Pad(text);
    var ciphertext := new Byte[BLOCK_SIZE + |msg|];
    EncryptBlocks(aes(key), ZERO_IV, ciphertext, msg);
    r := Ok(EncodeHex(ciphertext[BLOCK_SIZE..]));
  }

  method Decrypt(aes: Family, key: seq<Byte>, text: string) returns (r: Outcome<seq<Byte>>)
    ensures r == DecryptText(aes, key, text)
  {
    if !ValidKey(key) {
      return Err;
    }
    var decoded := DecodeHex(text);
    if |decoded| % BLOCK_SIZE != 0 {
      return Panic;
    }
    var msg := new Byte[|decoded|](k requires 0 <= k < |decoded| => decoded[k]);
    assert msg[..] == decoded;
    DecryptBlocksInPlace(aes(key), ZERO_IV, msg);
    r := Unpad(msg[..]);
  }

  /** Both calls take keys of 16, 24 and 32 bytes and return an error for every other length. */
  lemma {:induction false} KeyLengths(aes: Family, key: seq<Byte>, text: seq<Byte>, cipherText: string)
    ensures EncryptText(aes, key, text).Ok? <==> |key| == 16 || |key| == 24 || |key| == 32
    ensures EncryptText(aes, key, text).Err? <==> |key| !in {16, 24, 32}
    ensures |key| !in {16, 24, 32} ==> DecryptText(aes, key, cipherText).Err?
  {
  }

  lemma {:induction false} ZeroVectorSpelled()
    ensures ZERO_IV == seq(16, _ => 0)
  {
  }

  /** What the text says: read as base16 it is the CBC encryption, from a zero vector, of the padded input. */
  lemma {:induction false} EncryptedText(aes: Family, key: seq<Byte>, text: seq<Byte>)
    requires ValidKey(key)
    ensures EncryptText(aes, key, text).Ok?
    ensures var out := EncryptText(aes, key, text).value;
      IsLowerHex(out) && DecodeHex(out) == CbcEncrypt(aes(key), seq(16, _ => 0), Pad(text))
  {
    hide CbcEncrypt, EncodeHex, DecodeHex, IsLowerHex;
    HexRoundTrip(CbcEncrypt(aes(key), ZERO_IV, Pad(text)));
    ZeroVectorSpelled();
  }

  /** Decrypt undoes Encrypt for every valid key and every byte string. */
  lemma {:induction false} DecryptUndoesEncrypt(aes: Family, key: seq<Byte>, text: seq<Byte>)
    requires IsCipher(aes) && ValidKey(key)
    ensures EncryptText(aes, key, text).Ok?
    ensures DecryptText(aes, key, EncryptText(aes, key, text).value) == Ok(text)
    ensures |EncryptText(aes, key, text).value| == 32 * (|text| / BLOCK_SIZE + 1)
  {
    assert Invertible(aes(key));
    HexRoundTrip(CbcEncrypt(aes(key), ZERO_IV, Pad(text)));
    CbcRoundTrip(aes(key), ZERO_IV, Pad(text));
    UnpadPad(text);
  }

  /** Different texts never share a ciphertext under one key. */
  lemma {:induction false} EncryptIsInjective(aes: Family, key: seq<Byte>, a: seq<Byte>, b: seq<Byte>)
    requires IsCipher(aes) && ValidKey(key)
    ensures EncryptText(aes, key, a) == EncryptText(aes, key, b) <==> a == b
  {
    DecryptUndoesEncrypt(aes, key, a);
    DecryptUndoesEncrypt(aes, key, b);
  }

  /** The dropped decoding error: whatever follows the first bad digit pair of a ciphertext is ignored. */
  lemma {:induction false} DecryptIgnoresBadTail(aes: Family, key: seq<Byte>, text: seq<Byte>, tail: string)
    requires IsCipher(aes) && ValidKey(key) && StartsBadly(tail)
    ensures EncryptText(aes, key, text).Ok?
    ensures DecryptText(aes, key, EncryptText(aes, key, text).value + tail) == Ok(text)
  {
    DecryptUndoesEncrypt(aes, key, text);
    HexStopsAtBadDigit(CbcEncrypt(aes(key), ZERO_IV, Pad(text)), tail);
    HexRoundTrip(CbcEncrypt(aes(key), ZERO_IV, Pad(text)));
  }

  /** Decrypt panics exactly when a valid key meets text that decodes to nothing or to a broken block. */
  lemma {:induction false} DecryptPanicsIff(aes: Family, key: seq<Byte>, text: string)
    ensures DecryptText(aes, key, text).Panic?
       <==> ValidKey(key) && (DecodeHex(text) == [] || |DecodeHex(text)| % BLOCK_SIZE != 0)
  {
    var msg := DecodeHex(text);
    if |msg| % BLOCK_SIZE == 0 && msg != [] {
      assert CbcDecrypt(aes(key), ZERO_IV, msg) != [];
    }
  }
}
