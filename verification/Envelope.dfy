/**
 The credential envelope: version byte, then two length-framed parts, each a nonce and a ciphertext.
 The cipher is a pair of arbitrary functions; lemmas name the one law they need of it.
 */
module Envelope {
  import opened Wrappers

  type Bytes = seq<byte>

  const VERSION: byte := 1
  const NONCE_LEN: nat := 12
  const LIMIT: nat := 0x1_0000_0000

  // ----- framing -----

  function Pack32(n: nat): (b: Bytes)
    requires n < LIMIT
    ensures |b| == 4
  {
    [(n / 0x100_0000) as byte, (n / 0x1_0000 % 256) as byte, (n / 256 % 256) as byte, (n % 256) as byte]
  }

  /** None is the struct.error of a buffer that ends early. */
  function Unpack32(buf: Bytes, offset: nat): (n: Option<nat>) {
    if offset + 4 > |buf| then None
    else Some(buf[offset] as int * 0x100_0000 + buf[offset + 1] as int * 0x1_0000 + buf[offset + 2] as int * 256 + buf[offset + 3] as int)
  }

  /** None is the struct.error of a part too long for its 32-bit length. */
  function Frame(data: Bytes): Option<Bytes> {
    if |data| < LIMIT then Some(Pack32(|data|) + data) else None
  }

  function Min(a: nat, b: nat): nat { if a <= b then a else b }

  /** A slice that, as in Python, stops at the end of the buffer. */
  function Slice(buf: Bytes, start: nat, end: nat): Bytes
    requires start <= end
  {
    buf[Min(start, |buf|)..Min(end, |buf|)]
  }

  function Unframe(buf: Bytes, offset: nat): Option<(Bytes, nat)> {
    var length :- Unpack32(buf, offset);
    Some((Slice(buf, offset + 4, offset + 4 + length), offset + 4 + length))
  }

  /** The four digits of a number in base 256 add up to it. */
  lemma DigitsAddUp(n: nat)
    requires n < LIMIT
    ensures n / 0x100_0000 * 0x100_0000 + n / 0x1_0000 % 256 * 0x1_0000 + n / 256 % 256 * 256 + n % 256 == n
  {
    var q := n / 256;
    assert n / 0x1_0000 == q / 256 && n / 0x100_0000 == q / 256 / 256;
  }

  lemma ReadsFour(pre: Bytes, four: Bytes, post: Bytes)
    requires |four| == 4
    ensures var buf := pre + four + post;
            |buf| >= |pre| + 4 && forall i | 0 <= i < 4 :: buf[|pre| + i] == four[i]
  {
  }

  lemma UnpackInvertsPack(pre: Bytes, n: nat, post: Bytes)
    requires n < LIMIT
    ensures Unpack32(pre + Pack32(n) + post, |pre|) == Some(n)
  {
    var buf, four := pre + Pack32(n) + post, Pack32(n);
    ReadsFour(pre, four, post);
    assert buf[|pre| + 0] == four[0] && buf[|pre| + 1] == four[1] && buf[|pre| + 2] == four[2] && buf[|pre| + 3] == four[3];
    DigitsAddUp(n);
  }

  /** A part can be framed exactly if its length fits 32 bits. */
  lemma FramesIff(data: Bytes)
    ensures Frame(data).Some? <==> |data| <= 0xffff_ffff
  {
  }

  /** Unframing inverts framing at any offset, whatever comes before and after. */
  lemma UnframeInvertsFrame(pre: Bytes, data: Bytes, post: Bytes)
    requires Frame(data).Some?
    ensures Unframe(pre + Frame(data).value + post, |pre|) == Some((data, |pre| + |Frame(data).value|))
  {
    var buf := pre + Frame(data).value + post;
    assert buf == pre + Pack32(|data|) + (data + post);
    UnpackInvertsPack(pre, |data|, data + post);
    assert buf[|pre| + 4..|pre| + 4 + |data|] == data;
  }

  // ----- sealing and opening -----

  /** AES-GCM may reject the tag or, with a ValueError, its parameters. */
  datatype Decrypted = Plain(text: Bytes) | InvalidTag | BadParameter

  datatype Cipher = Cipher(encrypt: (Bytes, Bytes, Bytes) -> Bytes, decrypt: (Bytes, Bytes, Bytes) -> Decrypted)

  datatype Opened = Opened(text: Bytes) | SealError(message: string) | RaisedValueError

  /** The fresh random values of one seal. */
  datatype Fresh = Fresh(dek: Bytes, wrapNonce: Bytes, dataNonce: Bytes)

  function WrapPart(c: Cipher, kek: Bytes, f: Fresh): Bytes { f.wrapNonce + c.encrypt(kek, f.wrapNonce, f.dek) }

  function DataPart(c: Cipher, f: Fresh, plain: Bytes): Bytes { f.dataNonce + c.encrypt(f.dek, f.dataNonce, plain) }

  function Seal(c: Cipher, kek: Bytes, f: Fresh, plain: Bytes): Option<Bytes> {
    var a :- Frame(WrapPart(c, kek, f));
    var b :- Frame(DataPart(c, f, plain));
    Some([VERSION] + a + b)
  }

  /** The two parts of a blob whose version fits. */
  function Parts(blob: Bytes): Option<(Bytes, Bytes)> {
    var (wrapPart, offset) :- Unframe(blob, 1);
    var (dataPart, _) :- Unframe(blob, offset);
    Some((wrapPart, dataPart))
  }

  function Take(b: Bytes): Bytes { Slice(b, 0, NONCE_LEN) }

  function Drop(b: Bytes): Bytes { b[Min(NONCE_LEN, |b|)..] }

  const TAMPERED := "failed to decrypt credentials (tampered or wrong key)"

  function Open(c: Cipher, kek: Bytes, blob: Bytes): Opened {
    if blob == [] || blob[0] != VERSION then SealError("unsupported credential blob version")
    else match Parts(blob)
      case None => SealError(TAMPERED)
      case Some((wrapPart, dataPart)) =>
        match c.decrypt(kek, Take(wrapPart), Drop(wrapPart))
        case InvalidTag => SealError(TAMPERED)
        case BadParameter => RaisedValueError
        case Plain(dek) =>
          match c.decrypt(dek, Take(dataPart), Drop(dataPart))
          case InvalidTag => SealError(TAMPERED)
          case BadParameter => RaisedValueError
          case Plain(text) => Opened(text)
  }

  lemma PartsOfSealed(c: Cipher, kek: Bytes, f: Fresh, plain: Bytes, trailing: Bytes)
    requires Seal(c, kek, f, plain).Some?
    ensures Parts(Seal(c, kek, f, plain).value + trailing) == Some((WrapPart(c, kek, f), DataPart(c, f, plain)))
  {
    var a, b := Frame(WrapPart(c, kek, f)).value, Frame(DataPart(c, f, plain)).value;
    var blob := Seal(c, kek, f, plain).value + trailing;
    assert blob == [VERSION] + a + (b + trailing);
    UnframeInvertsFrame([VERSION], WrapPart(c, kek, f), b + trailing);
    assert blob == ([VERSION] + a) + b + trailing;
    UnframeInvertsFrame([VERSION] + a, DataPart(c, f, plain), trailing);
  }

  /** Opening what was sealed gives the plaintext back, for every key and nonce, and ignores bytes after it. */
  lemma OpenInvertsSeal(c: Cipher, kek: Bytes, f: Fresh, plain: Bytes, trailing: Bytes)
    requires |f.wrapNonce| == |f.dataNonce| == NONCE_LEN
    requires c.decrypt(kek, f.wrapNonce, c.encrypt(kek, f.wrapNonce, f.dek)) == Plain(f.dek)
    requires c.decrypt(f.dek, f.dataNonce, c.encrypt(f.dek, f.dataNonce, plain)) == Plain(plain)
    requires |WrapPart(c, kek, f)| < LIMIT && |DataPart(c, f, plain)| < LIMIT
    ensures Seal(c, kek, f, plain).Some?
    ensures Open(c, kek, Seal(c, kek, f, plain).value + trailing) == Opened(plain)
  {
    PartsOfSealed(c, kek, f, plain, trailing);
    var w, d := WrapPart(c, kek, f), DataPart(c, f, plain);
    assert Take(w) == f.wrapNonce && Drop(w) == c.encrypt(kek, f.wrapNonce, f.dek);
    assert Take(d) == f.dataNonce && Drop(d) == c.encrypt(f.dek, f.dataNonce, plain);
  }

  /** Unframing a prefix that holds a frame's header gives the frame, or as much of it as the prefix holds. */
  lemma UnframeOfPrefix(pre: Bytes, data: Bytes, post: Bytes, k: nat)
    requires Frame(data).Some? && k <= |pre + Frame(data).value + post|
    ensures var r := Unframe((pre + Frame(data).value + post)[..k], |pre|);
            if k < |pre| + 4 then r == None
            else r == Some((data[..Min(|data|, k - |pre| - 4)], |pre| + 4 + |data|))
  {
    var buf := pre + Frame(data).value + post;
    if k >= |pre| + 4 {
      assert buf == pre + Pack32(|data|) + (data + post);
      var after := (data + post)[..k - |pre| - 4];
      assert buf[..k] == pre + Pack32(|data|) + after;
      UnpackInvertsPack(pre, |data|, after);
      var m := Min(|data|, k - |pre| - 4);
      assert after[..m] == data[..m];
      assert buf[..k][|pre| + 4..|pre| + 4 + m] == after[..m];
    }
  }

  /**
   Cutting a sealed blob short fails the version or a header check, or leaves the wrapped key as it was
   and hands the cipher a strictly shorter data part.
   */
  lemma StrictPrefixNeverWhole(c: Cipher, kek: Bytes, f: Fresh, plain: Bytes, k: nat)
    requires Seal(c, kek, f, plain).Some? && k < |Seal(c, kek, f, plain).value|
    ensures var cut := Seal(c, kek, f, plain).value[..k];
            match Parts(cut)
            case None => Open(c, kek, cut).SealError?
            case Some((wrapPart, dataPart)) =>
              && wrapPart == WrapPart(c, kek, f)
              && |dataPart| < |DataPart(c, f, plain)| && dataPart <= DataPart(c, f, plain)
  {
    var w, d := WrapPart(c, kek, f), DataPart(c, f, plain);
    var a, b := Frame(w).value, Frame(d).value;
    var blob := Seal(c, kek, f, plain).value;
    assert blob == [VERSION] + a + b;
    UnframeOfPrefix([VERSION], w, b, k);
    assert blob == ([VERSION] + a) + b + [];
    UnframeOfPrefix([VERSION] + a, d, [], k);
  }

  // ----- what opening answers -----

  /** The outcome of decrypting a part: its first twelve bytes are the nonce, or all of it when it is shorter. */
  function Decrypting(c: Cipher, key: Bytes, part: Bytes): Decrypted {
    if |part| < 12 then c.decrypt(key, part, []) else c.decrypt(key, part[..12], part[12..])
  }

  lemma DecryptsParts(c: Cipher, key: Bytes, part: Bytes)
    ensures c.decrypt(key, Take(part), Drop(part)) == Decrypting(c, key, part)
  {
    if |part| < 12 {
      assert Take(part) == part && Drop(part) == [];
    }
  }

  lemma OpenDecrypts(c: Cipher, kek: Bytes, blob: Bytes)
    requires blob != [] && blob[0] == 1 && Parts(blob).Some?
    ensures var (w, d) := Parts(blob).value;
            Open(c, kek, blob) ==
              match Decrypting(c, kek, w)
              case InvalidTag => SealError(TAMPERED)
              case BadParameter => RaisedValueError
              case Plain(dek) =>
                match Decrypting(c, dek, d)
                case InvalidTag => SealError(TAMPERED)
                case BadParameter => RaisedValueError
                case Plain(text) => Opened(text)
  {
    var (w, d) := Parts(blob).value;
    DecryptsParts(c, kek, w);
    if Decrypting(c, kek, w).Plain? {
      DecryptsParts(c, Decrypting(c, kek, w).text, d);
    }
  }

  /** A blob opens to a text exactly if its version is right, both parts are there and both decrypt, the second under the first's text. */
  lemma OpensIff(c: Cipher, kek: Bytes, blob: Bytes, text: Bytes)
    ensures Open(c, kek, blob) == Opened(text) <==>
            && blob != [] && blob[0] == 1 && Parts(blob).Some?
            && var (w, d) := Parts(blob).value;
               Decrypting(c, kek, w).Plain? && Decrypting(c, Decrypting(c, kek, w).text, d) == Plain(text)
  {
    if blob != [] && blob[0] == 1 && Parts(blob).Some? {
      OpenDecrypts(c, kek, blob);
    }
  }

  /** Otherwise the error says what failed: the version, or the parts or a tag; only a parameter that the cipher rejects raises. */
  lemma RefusesToOpen(c: Cipher, kek: Bytes, blob: Bytes)
    ensures var right := blob != [] && blob[0] == 1;
            && (Open(c, kek, blob) == SealError("unsupported credential blob version") <==> !right)
            && (right && Parts(blob) == None ==>
                  Open(c, kek, blob) == SealError("failed to decrypt credentials (tampered or wrong key)"))
            && (right && Parts(blob).Some? ==>
                  var (w, d) := Parts(blob).value;
                  match Decrypting(c, kek, w)
                  case InvalidTag => Open(c, kek, blob) == SealError(TAMPERED)
                  case BadParameter => Open(c, kek, blob) == RaisedValueError
                  case Plain(dek) =>
                    && (Decrypting(c, dek, d) == InvalidTag ==> Open(c, kek, blob) == SealError(TAMPERED))
                    && (Decrypting(c, dek, d) == BadParameter ==> Open(c, kek, blob) == RaisedValueError))
  {
    assert |"unsupported credential blob version"| == 35 && |TAMPERED| == 53;
    if blob != [] && blob[0] == 1 && Parts(blob).Some? {
      OpenDecrypts(c, kek, blob);
    }
  }
}
