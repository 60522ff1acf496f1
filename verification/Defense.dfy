/**
 * internal/defense/secret_store.go and block_crypto.go: messages sealed as two base64 texts, an RSA
 * encrypted key and the data it encrypts, separated by a comma.
 */
module Seal {
  import opened Common

  type sextet = n: int | 0 <= n < 64

  // Base64, section 4 of RFC 4648, as encoding/base64's StdEncoding reads and writes it

  function Symbol(n: sextet): char {
    if n < 26 then 'A' + n as char
    else if n < 52 then 'a' + (n - 26) as char
    else if n < 62 then '0' + (n - 52) as char
    else if n == 62 then '+' else '/'
  }

  function Value(c: char): Option<sextet> {
    if 'A' <= c <= 'Z' then Some(c as int - 'A' as int)
    else if 'a' <= c <= 'z' then Some(c as int - 'a' as int + 26)
    else if '0' <= c <= '9' then Some(c as int - '0' as int + 52)
    else if c == '+' then Some(62)
    else if c == '/' then Some(63)
    else None
  }

  lemma SymbolValue(n: sextet)
    ensures Value(Symbol(n)) == Some(n)
    ensures Symbol(n) !in [',', '=', '\r', '\n']
  {
  }

  // The sextets of a group of bytes: p is 6 bits, q the next 6, and so on

  function First(a: byte): sextet { a / 4 }
  function Second(a: byte, b: byte): sextet { a % 4 * 16 + b / 16 }
  function Third(b: byte, c: byte): sextet { b % 16 * 4 + c / 64 }
  function Fourth(c: byte): sextet { c % 64 }

  function ByteX(p: sextet, q: sextet): byte { p * 4 + q / 16 }
  function ByteY(q: sextet, r: sextet): byte { q % 16 * 16 + r / 4 }
  function ByteZ(r: sextet, t: sextet): byte { r % 4 * 64 + t }

  function EncodeToString(data: seq<byte>): string {
    if data == [] then ""
    else if |data| == 1 then [Symbol(First(data[0])), Symbol(Second(data[0], 0)), '=', '=']
    else if |data| == 2 then
      [Symbol(First(data[0])), Symbol(Second(data[0], data[1])), Symbol(Third(data[1], 0)), '=']
    else
      [Symbol(First(data[0])), Symbol(Second(data[0], data[1])),
       Symbol(Third(data[1], data[2])), Symbol(Fourth(data[2]))]
      + EncodeToString(data[3..])
  }

  /** Line breaks are ignored wherever they stand. */
  function StripLines(s: string): string {
    if s == "" then "" else (if s[0] == '\r' || s[0] == '\n' then "" else [s[0]]) + StripLines(s[1..])
  }

  /** Padding is accepted at the very end only; the unused bits before it are not looked at. */
  function DecodeQuads(s: string): Option<seq<byte>> {
    if s == "" then Some([])
    else if |s| < 4 || Value(s[0]).None? || Value(s[1]).None? then None
    else
      var p, q := Value(s[0]).value, Value(s[1]).value;
      if s[2..] == "==" then Some([ByteX(p, q)])
      else if Value(s[2]).None? then None
      else
        var r := Value(s[2]).value;
        if s[3..] == "=" then Some([ByteX(p, q), ByteY(q, r)])
        else if Value(s[3]).None? then None
        else
          var rest := DecodeQuads(s[4..]);
          if rest.None? then None else Some([ByteX(p, q), ByteY(q, r), ByteZ(r, Value(s[3]).value)] + rest.value)
  }

  function DecodeString(s: string): Option<seq<byte>> { DecodeQuads(StripLines(s)) }

  predicate Plain(s: string) { forall i | 0 <= i < |s| :: s[i] != ',' && s[i] != '\r' && s[i] != '\n' }

  lemma {:induction false} StripPlain(s: string)
    requires Plain(s)
    ensures StripLines(s) == s
  {
    if s != "" {
      assert s == [s[0]] + s[1..];
      StripPlain(s[1..]);
    }
  }

  /** Encoded text holds neither the separator nor line breaks. */
  lemma {:induction false} EncodedPlain(data: seq<byte>)
    ensures Plain(EncodeToString(data))
  {
    if |data| >= 3 {
      EncodedPlain(data[3..]);
    }
  }

  lemma Sextets(a: byte, b: byte, c: byte)
    ensures ByteX(First(a), Second(a, b)) == a
    ensures ByteY(Second(a, b), Third(b, c)) == b
    ensures ByteZ(Third(b, c), Fourth(c)) == c
  {
  }

  lemma DecodeFull(s: string, p: sextet, q: sextet, r: sextet, t: sextet)
    requires |s| >= 4 && s[..4] == [Symbol(p), Symbol(q), Symbol(r), Symbol(t)]
    ensures var rest := DecodeQuads(s[4..]);
      DecodeQuads(s) == if rest.None? then None else Some([ByteX(p, q), ByteY(q, r), ByteZ(r, t)] + rest.value)
  {
    SymbolValue(p);
    SymbolValue(q);
    SymbolValue(r);
    SymbolValue(t);
    assert s[0] == s[..4][0] && s[1] == s[..4][1] && s[2] == s[..4][2] && s[3] == s[..4][3];
    assert s[2..][0] != '=' && s[3..][0] != '=';
  }

  lemma DecodeOne(p: sextet, q: sextet)
    ensures DecodeQuads([Symbol(p), Symbol(q), '=', '=']) == Some([ByteX(p, q)])
  {
    SymbolValue(p);
    SymbolValue(q);
    var s := [Symbol(p), Symbol(q), '=', '='];
    assert s[2..] == "==";
  }

  lemma DecodeTwo(p: sextet, q: sextet, r: sextet)
    ensures DecodeQuads([Symbol(p), Symbol(q), Symbol(r), '=']) == Some([ByteX(p, q), ByteY(q, r)])
  {
    SymbolValue(p);
    SymbolValue(q);
    SymbolValue(r);
    var s := [Symbol(p), Symbol(q), Symbol(r), '='];
    assert s[2..][0] != '=' && s[3..] == "=";
  }

  lemma OneRoundTrip(a: byte)
    ensures DecodeQuads(EncodeToString([a])) == Some([a])
  {
    Sextets(a, 0, 0);
    DecodeOne(First(a), Second(a, 0));
  }

  lemma TwoRoundTrip(a: byte, b: byte)
    ensures DecodeQuads(EncodeToString([a, b])) == Some([a, b])
  {
    var p, q, r := First(a), Second(a, b), Third(b, 0);
    assert EncodeToString([a, b]) == [Symbol(p), Symbol(q), Symbol(r), '='];
    DecodeTwo(p, q, r);
    Sextets(a, b, 0);
  }

  lemma {:induction false} QuadsRoundTrip(data: seq<byte>)
    ensures DecodeQuads(EncodeToString(data)) == Some(data)
  {
    if |data| == 1 {
      OneRoundTrip(data[0]);
      assert data == [data[0]];
    } else if |data| == 2 {
      TwoRoundTrip(data[0], data[1]);
      assert data == [data[0], data[1]];
    } else if |data| >= 3 {
      QuadsRoundTrip(data[3..]);
      ThreeRoundTrip(data[0], data[1], data[2], data[3..]);
      assert data == [data[0], data[1], data[2]] + data[3..];
    }
  }

  lemma ThreeRoundTrip(a: byte, b: byte, c: byte, tail: seq<byte>)
    requires DecodeQuads(EncodeToString(tail)) == Some(tail)
    ensures DecodeQuads(EncodeToString([a, b, c] + tail)) == Some([a, b, c] + tail)
  {
    var data := [a, b, c] + tail;
    assert data[0] == a && data[1] == b && data[2] == c && data[3..] == tail;
    var quad := [Symbol(First(a)), Symbol(Second(a, b)), Symbol(Third(b, c)), Symbol(Fourth(c))];
    var s := EncodeToString(data);
    assert s == quad + EncodeToString(tail);
    assert s[..4] == quad && s[4..] == EncodeToString(tail);
    DecodeFull(s, First(a), Second(a, b), Third(b, c), Fourth(c));
    Sextets(a, b, c);
  }

  /** The values section 10 of RFC 4648 gives for "f", "fo" and "foobar", and the symbols these do not show. */
  lemma Vectors()
    ensures EncodeToString([102]) == "Zg==" && EncodeToString([102, 111]) == "Zm8="
    ensures EncodeToString([102, 111, 111, 98, 97, 114]) == "Zm9vYmFy"
    ensures EncodeToString([251, 255, 191]) == "+/+/"
  {
    var foobar := [102, 111, 111, 98, 97, 114];
    assert foobar[3..] == [98, 97, 114] && foobar[3..][3..] == [];
    assert EncodeToString(foobar[3..]) == "YmFy";
    assert [251, 255, 191][3..] == [];
  }

  /** Decoding undoes encoding, for data of every length. */
  lemma Base64RoundTrip(data: seq<byte>)
    ensures DecodeString(EncodeToString(data)) == Some(data)
  {
    EncodedPlain(data);
    StripPlain(EncodeToString(data));
    QuadsRoundTrip(data);
  }

  lemma {:induction false} StripConcat(a: string, b: string)
    ensures StripLines(a + b) == StripLines(a) + StripLines(b)
  {
    if a == "" {
      assert a + b == b;
    } else {
      assert (a + b)[1..] == a[1..] + b;
      StripConcat(a[1..], b);
    }
  }

  /** Line breaks may stand anywhere in encoded text. */
  lemma LineBreaksIgnored(a: string, b: string, eol: string)
    requires eol == "\n" || eol == "\r\n"
    ensures DecodeString(a + eol + b) == DecodeString(a + b)
  {
    StripConcat(a + eol, b);
    StripConcat(a, eol);
    StripConcat(a, b);
    assert "\n"[1..] == "" && "\r\n"[1..] == "\n";
    assert StripLines("\n") == "" == StripLines("\r\n");
    assert StripLines(a) + "" == StripLines(a);
  }

  lemma ValueSymbol(c: char)
    requires Value(c).Some?
    ensures Symbol(Value(c).value) == c
  {
  }

  /** Four symbols are the encoding of the three bytes they stand for. */
  lemma QuadSymbols(p: sextet, q: sextet, r: sextet, t: sextet)
    ensures var x, y, z := ByteX(p, q), ByteY(q, r), ByteZ(r, t);
      First(x) == p && Second(x, y) == q && Third(y, z) == r && Fourth(z) == t
  {
  }

  /**
   * What is decoded, encoded again, gives the text back up to its last four characters, of which some bits
   * are not looked at when there is padding; nothing but whole groups of symbols is accepted.
   */
  lemma {:induction false} DecodedQuads(s: string)
    requires DecodeQuads(s).Some?
    ensures |s| % 4 == 0 && |EncodeToString(DecodeQuads(s).value)| == |s|
    ensures |s| >= 4 ==> EncodeToString(DecodeQuads(s).value)[..|s|-4] == s[..|s|-4]
  {
    if s != "" && s[2..] != "==" && s[3..] != "=" {
      DecodedFirst(s);
      DecodedQuads(s[4..]);
      assert s == s[..4] + s[4..];
      BehindFour(s[..4], s[4..], EncodeToString(DecodeQuads(s[4..]).value));
    } else if s != "" {
      DecodedLast(s);
    }
  }

  lemma BehindFour(head: string, tail: string, e: string)
    requires |head| == 4 && |tail| % 4 == 0 && |e| == |tail| && (|tail| >= 4 ==> e[..|e|-4] == tail[..|tail|-4])
    ensures |head + tail| % 4 == 0 && |head + e| == |head + tail|
    ensures (head + e)[..|head + e|-4] == (head + tail)[..|head + tail|-4]
  {
    if |tail| >= 4 {
      assert (head + e)[..|head + e|-4] == head + e[..|e|-4];
      assert (head + tail)[..|head + tail|-4] == head + tail[..|tail|-4];
    }
  }

  /** The first group of a text that has more after it, or no padding. */
  lemma DecodedFirst(s: string)
    requires DecodeQuads(s).Some? && |s| >= 4 && s[2..] != "==" && s[3..] != "="
    ensures DecodeQuads(s[4..]).Some?
    ensures EncodeToString(DecodeQuads(s).value) == s[..4] + EncodeToString(DecodeQuads(s[4..]).value)
  {
    DecodedValues(s);
    FourSymbols(s[0], s[1], s[2], s[3]);
    assert s[..4] == [s[0], s[1], s[2], s[3]];
    var p, q, r, t := Value(s[0]).value, Value(s[1]).value, Value(s[2]).value, Value(s[3]).value;
    EncodedFirst(p, q, r, t, DecodeQuads(s[4..]).value);
  }

  lemma FourSymbols(a: char, b: char, c: char, d: char)
    requires Value(a).Some? && Value(b).Some? && Value(c).Some? && Value(d).Some?
    ensures [Symbol(Value(a).value), Symbol(Value(b).value), Symbol(Value(c).value), Symbol(Value(d).value)]
         == [a, b, c, d]
  {
    ValueSymbol(a);
    ValueSymbol(b);
    ValueSymbol(c);
    ValueSymbol(d);
  }

  lemma DecodedValues(s: string)
    requires DecodeQuads(s).Some? && |s| >= 4 && s[2..] != "==" && s[3..] != "="
    ensures Value(s[0]).Some? && Value(s[1]).Some? && Value(s[2]).Some? && Value(s[3]).Some?
    ensures DecodeQuads(s[4..]).Some?
    ensures var p, q, r, t := Value(s[0]).value, Value(s[1]).value, Value(s[2]).value, Value(s[3]).value;
      DecodeQuads(s).value == [ByteX(p, q), ByteY(q, r), ByteZ(r, t)] + DecodeQuads(s[4..]).value
  {
  }

  lemma EncodedFirst(p: sextet, q: sextet, r: sextet, t: sextet, rest: seq<byte>)
    ensures EncodeToString([ByteX(p, q), ByteY(q, r), ByteZ(r, t)] + rest)
         == [Symbol(p), Symbol(q), Symbol(r), Symbol(t)] + EncodeToString(rest)
  {
    var data := [ByteX(p, q), ByteY(q, r), ByteZ(r, t)] + rest;
    QuadSymbols(p, q, r, t);
    assert data[0] == ByteX(p, q) && data[1] == ByteY(q, r) && data[2] == ByteZ(r, t) && data[3..] == rest;
  }

  lemma DecodedLast(s: string)
    requires DecodeQuads(s).Some? && s != "" && (s[2..] == "==" || s[3..] == "=")
    ensures |s| == 4 == |EncodeToString(DecodeQuads(s).value)|
  {
    if s[2..] == "==" { assert |s| == 2 + |s[2..]|; } else { assert |s| == 3 + |s[3..]|; }
  }

  // strings.Split on a comma

  function Split(s: string): seq<string> {
    if s == "" then [""]
    else
      var rest := Split(s[1..]);
      if s[0] == ',' then [""] + rest else [[s[0]] + rest[0]] + rest[1..]
  }

  lemma {:induction false} SplitPlain(s: string)
    requires Plain(s)
    ensures Split(s) == [s]
  {
    if s != "" {
      SplitPlain(s[1..]);
      assert s == [s[0]] + s[1..];
    }
  }

  lemma {:induction false} SplitPair(a: string, b: string)
    requires Plain(a) && Plain(b)
    ensures Split(a + "," + b) == [a, b]
  {
    var s := a + "," + b;
    if a == "" {
      assert s[1..] == b;
      SplitPlain(b);
    } else {
      assert s[1..] == a[1..] + "," + b;
      SplitPair(a[1..], b);
      assert a == [a[0]] + a[1..];
    }
  }

  // The sealed form

  type Bytes = seq<byte>

  /** secretbox and RSA-OAEP for one pair of keys; the random seed of OAEP is an argument. */
  datatype Ciphers = Ciphers(boxSeal: (Bytes, Bytes, Bytes) -> Bytes, boxOpen: (Bytes, Bytes, Bytes) -> Option<Bytes>,
                             oaepSeal: (Bytes, Bytes) -> Bytes, oaepOpen: Bytes -> Option<Bytes>)

  /** Opening undoes sealing, under the same key and nonce and under the matching RSA key. */
  ghost predicate Matching(c: Ciphers) {
    && (forall m, nonce: Bytes, key: Bytes | |nonce| == 24 && |key| == 32 ::
          c.boxOpen(c.boxSeal(m, nonce, key), nonce, key) == Some(m))
    && (forall key: Bytes, seed | |key| == 32 :: c.oaepOpen(c.oaepSeal(key, seed)) == Some(key))
  }

  /** EncryptBlock: the nonce is put in front of the encrypted data. */
  function EncryptBlock(c: Ciphers, data: Bytes, key: Bytes, nonce: Bytes): Bytes {
    nonce + c.boxSeal(data, nonce, key)
  }

  /** A slice past the end of its bytes stops the program instead of giving an error. */
  datatype Result = Ok(data: Bytes) | Error | OutOfRange

  function DecryptBlock(c: Ciphers, key: Bytes, enc: Bytes): Result {
    if |enc| < 24 then OutOfRange else
    var clear := c.boxOpen(enc[24..], enc[..24], key);
    if clear.None? then Error else Ok(clear.value)
  }

  function HybridSeal(c: Ciphers, msg: Bytes, key: Bytes, nonce: Bytes, seed: Bytes): string {
    EncodeToString(c.oaepSeal(key, seed)) + "," + EncodeToString(EncryptBlock(c, msg, key, nonce))
  }

  function Unseal(c: Ciphers, encrypted: string): Result {
    var items := Split(encrypted);
    if |items| != 2 then Error else
    var asymKey, body := DecodeString(items[0]), DecodeString(items[1]);
    if asymKey.None? || body.None? then Error else
    var key := c.oaepOpen(asymKey.value);
    if key.None? then Error
    else if |key.value| < 32 then OutOfRange
    else DecryptBlock(c, key.value[..32], body.value)
  }

  /** The sealed form: the encrypted key, then the nonce with the encrypted data behind it. */
  lemma SealedLayout(c: Ciphers, msg: Bytes, key: Bytes, nonce: Bytes, seed: Bytes)
    ensures Split(HybridSeal(c, msg, key, nonce, seed))
         == [EncodeToString(c.oaepSeal(key, seed)), EncodeToString(nonce + c.boxSeal(msg, nonce, key))]
  {
    EncodedPlain(c.oaepSeal(key, seed));
    EncodedPlain(nonce + c.boxSeal(msg, nonce, key));
    SplitPair(EncodeToString(c.oaepSeal(key, seed)), EncodeToString(nonce + c.boxSeal(msg, nonce, key)));
  }

  function Commas(s: string): nat { if s == "" then 0 else (if s[0] == ',' then 1 else 0) + Commas(s[1..]) }

  lemma {:induction false} SplitCount(s: string)
    ensures |Split(s)| == Commas(s) + 1
  {
    if s != "" { SplitCount(s[1..]); }
  }

  /** Text without exactly one separator, or with a part that is not base64, is an error. */
  lemma UnsealRejects(c: Ciphers, s: string)
    ensures Commas(s) != 1 ==> Unseal(c, s) == Error
    ensures |Split(s)| == 2 && (DecodeString(Split(s)[0]).None? || DecodeString(Split(s)[1]).None?) ==>
      Unseal(c, s) == Error
  {
    SplitCount(s);
  }

  /**
   * Text whose parts decode to a key the private key opens: at least 32 bytes of key and 24 of nonce have to
   * be there, and exactly those are used.
   */
  lemma UnsealOpens(c: Ciphers, s: string, key: Bytes, body: Bytes)
    requires |Split(s)| == 2 && DecodeString(Split(s)[0]).Some? && DecodeString(Split(s)[1]) == Some(body)
    requires c.oaepOpen(DecodeString(Split(s)[0]).value) == Some(key)
    ensures Unseal(c, s).OutOfRange? <==> |key| < 32 || |body| < 24
    ensures |key| >= 32 && |body| >= 24 ==>
      (forall m :: Unseal(c, s) == Ok(m) <==> c.boxOpen(body[24..], body[..24], key[..32]) == Some(m))
  {
  }

  /** Every message comes back from its sealed form, whatever key, nonce and seed were drawn. */
  lemma SealRoundTrip(c: Ciphers, msg: Bytes, key: Bytes, nonce: Bytes, seed: Bytes)
    requires Matching(c) && |key| == 32 && |nonce| == 24
    ensures Unseal(c, HybridSeal(c, msg, key, nonce, seed)) == Ok(msg)
  {
    var sealedKey, enc := c.oaepSeal(key, seed), EncryptBlock(c, msg, key, nonce);
    EncodedPlain(sealedKey);
    EncodedPlain(enc);
    SplitPair(EncodeToString(sealedKey), EncodeToString(enc));
    Base64RoundTrip(sealedKey);
    Base64RoundTrip(enc);
    assert key[..32] == key && enc[..24] == nonce && enc[24..] == c.boxSeal(msg, nonce, key);
  }
}

/** internal/defense/ssh.go: signatures as two length prefixed strings. */
module Ssh {
  import opened Common

  const TWO32: int := 0x1_0000_0000

  /** binary.BigEndian.Uint32 */
  function Uint32(s: seq<byte>): int
    requires |s| >= 4
  {
    var a: int, b: int, c: int, d: int := s[0], s[1], s[2], s[3];
    a * 0x100_0000 + b * 0x1_0000 + c * 0x100 + d
  }

  /** What follows the first string, or nothing: the length check is made in 32 bits. */
  function ParseString(s: seq<byte>): Option<(seq<byte>, seq<byte>)> {
    if |s| < 4 then None else
    var length, rest := Uint32(s), s[4..];
    if |rest| % TWO32 < length then None else
    Fits(|rest|, length);
    Some((rest[..length], rest[length..]))
  }

  lemma Fits(n: nat, length: int)
    requires length <= n % TWO32
    ensures length <= n
  {
  }

  datatype Signature = Signature(format: seq<byte>, blob: seq<byte>)

  /** ParseSSHSignature; bytes after the second string are ignored. */
  function ParseSSHSignature(s: seq<byte>): Option<Signature> {
    var format := ParseString(s);
    if format.None? then None else
    var blob := ParseString(format.value.1);
    if blob.None? then None else Some(Signature(format.value.0, blob.value.0))
  }

  /** The string encoding of section 5 of RFC 4251. */
  function EncodeString(s: seq<byte>): (r: seq<byte>)
    requires |s| < TWO32
    ensures |r| == |s| + 4
  {
    var n := |s|;
    [n / 0x100_0000, n / 0x1_0000 % 0x100, n / 0x100 % 0x100, n % 0x100] + s
  }

  /** A length is the number its four bytes spell. */
  lemma LengthOfBytes(n: int)
    requires 0 <= n < TWO32
    ensures n == n / 0x100_0000 * 0x100_0000 + n / 0x1_0000 % 0x100 * 0x1_0000 + n / 0x100 % 0x100 * 0x100 + n % 0x100
  {
    var high := n / 0x1_0000;
    assert n / 0x100_0000 == high / 0x100;
    assert n / 0x100 == high * 0x100 + n % 0x1_0000 / 0x100;
  }

  /** Four bytes are the bytes of the number they spell. */
  lemma BytesOfLength(b0: byte, b1: byte, b2: byte, b3: byte)
    ensures var m := b0 * 0x100_0000 + b1 * 0x1_0000 + b2 * 0x100 + b3;
      && 0 <= m < TWO32
      && m / 0x100_0000 == b0 && m / 0x1_0000 % 0x100 == b1 && m / 0x100 % 0x100 == b2 && m % 0x100 == b3
  {
    var m := b0 * 0x100_0000 + b1 * 0x1_0000 + b2 * 0x100 + b3;
    assert m / 0x100 == b0 * 0x1_0000 + b1 * 0x100 + b2;
    assert m / 0x1_0000 == b0 * 0x100 + b1;
  }

  /** An encoded string in front of other bytes is read back exactly when its length fits what the 32 bit check sees. */
  lemma StringRoundTrip(s: seq<byte>, tail: seq<byte>)
    requires |s| < TWO32
    ensures ParseString(EncodeString(s) + tail) == Some((s, tail)) <==> |s| <= (|s| + |tail|) % TWO32
  {
    var all := EncodeString(s) + tail;
    LengthOfBytes(|s|);
    assert Uint32(all) == |s|;
    assert all[4..] == s + tail;
    assert (s + tail)[..|s|] == s && (s + tail)[|s|..] == tail;
  }

  /** After enough bytes the count of what follows a string wraps around, and the string is refused. */
  lemma WrappedLength(s: seq<byte>)
    requires 0 < |s| < TWO32
    ensures exists tail :: ParseString(EncodeString(s) + tail) != Some((s, tail))
  {
    var tail: seq<byte> := seq(TWO32 - |s|, _ => 0);
    assert (|s| + |tail|) % TWO32 == 0;
    StringRoundTrip(s, tail);
  }

  /** What is read splits its input without loss. */
  lemma ParseIsLossless(s: seq<byte>)
    requires ParseString(s).Some?
    ensures var (out, rest) := ParseString(s).value; |out| < TWO32 && EncodeString(out) + rest == s
  {
    var (out, rest) := ParseString(s).value;
    BytesOfLength(s[0], s[1], s[2], s[3]);
    assert |out| == Uint32(s);
    assert EncodeString(out)[..4] == s[..4];
    assert s == s[..4] + s[4..];
  }

  /** A signature laid out as in section 6 of RFC 8709, and what follows it. */
  function EncodeSignature(sig: Signature, tail: seq<byte>): seq<byte>
    requires |sig.format| < TWO32 && |sig.blob| < TWO32
  {
    EncodeString(sig.format) + (EncodeString(sig.blob) + tail)
  }

  /** It is read back exactly when both lengths fit what the 32 bit checks see. */
  lemma SignatureRoundTrip(sig: Signature, tail: seq<byte>)
    requires |sig.format| < TWO32 && |sig.blob| < TWO32
    ensures ParseSSHSignature(EncodeSignature(sig, tail)) == Some(sig) <==>
      && |sig.format| <= (|sig.format| + |sig.blob| + 4 + |tail|) % TWO32
      && |sig.blob| <= (|sig.blob| + |tail|) % TWO32
  {
    StringRoundTrip(sig.format, EncodeString(sig.blob) + tail);
    StringRoundTrip(sig.blob, tail);
  }

  /** What is read as a signature is the beginning of the input, encoded. */
  lemma SignatureIsLossless(s: seq<byte>) returns (tail: seq<byte>)
    requires ParseSSHSignature(s).Some?
    ensures var sig := ParseSSHSignature(s).value;
      |sig.format| < TWO32 && |sig.blob| < TWO32 && EncodeSignature(sig, tail) == s
  {
    ParseIsLossless(s);
    ParseIsLossless(ParseString(s).value.1);
    tail := ParseString(ParseString(s).value.1).value.1;
  }

  /** In particular every signature on which nothing overflows, whatever follows it. */
  lemma SignatureReadBack(sig: Signature, tail: seq<byte>)
    requires |sig.format| + |sig.blob| + |tail| + 4 < TWO32
    ensures ParseSSHSignature(EncodeSignature(sig, tail)) == Some(sig)
  {
    SmallMod(|sig.format| + |sig.blob| + 4 + |tail|);
    SmallMod(|sig.blob| + |tail|);
    SignatureRoundTrip(sig, tail);
  }

  lemma SmallMod(n: nat)
    requires n < TWO32
    ensures n % TWO32 == n
  {
  }
}
