/** Unpadded base64 with the standard alphabet: RFC 4648, sections 3.2, 3.5 and 4. */
module Base64 {
  import opened Common

  type Byte = b: nat | b < 256

  type Sextet = v: nat | v < 64

  /** Table 1 of RFC 4648: A-Z, a-z, 0-9, then plus and slash. */
  function Digit(v: Sextet): char {
    if v < 26 then 'A' + v as char
    else if v < 52 then 'a' + (v - 26) as char
    else if v < 62 then '0' + (v - 52) as char
    else if v == 62 then '+'
    else '/'
  }

  const UPPER := "ABCDEFGHIJKLMNOPQRSTUVWXYZ"
  const LOWER := "abcdefghijklmnopqrstuvwxyz"
  const DECIMAL := "0123456789"
  const ALPHABET := UPPER + LOWER + DECIMAL + "+/"

  lemma AlphabetExactly(v: Sextet)
    ensures |ALPHABET| == 64 && Digit(v) == ALPHABET[v]
  {
    if v < 26 {
      Ascending(UPPER, v);
    } else if v < 52 {
      Ascending(LOWER, v - 26);
    } else if v < 62 {
      Ascending(DECIMAL, v - 52);
    }
    Joined(UPPER, LOWER, DECIMAL, "+/", v);
  }

  lemma Joined(a: string, b: string, c: string, d: string, k: nat)
    requires k < |a + b + c + d|
    ensures (a + b + c + d)[k] == if k < |a| then a[k] else if k < |a + b| then b[k - |a|] else if k < |a + b + c| then c[k - |a + b|] else d[k - |a + b + c|]
  {
  }

  /** Characters one after another, each the successor of the one before. */
  predicate IsAscending(s: string) {
    forall i | 0 < i < |s| :: s[i] as int == s[i - 1] as int + 1
  }

  lemma {:induction false} Ascending(s: string, k: nat)
    requires IsAscending(s) && k < |s|
    ensures s[k] as int == s[0] as int + k
  {
    if k > 0 { Ascending(s, k - 1); }
  }

  predicate IsDigit(c: char) {
    'A' <= c <= 'Z' || 'a' <= c <= 'z' || '0' <= c <= '9' || c == '+' || c == '/'
  }

  function Value(c: char): Sextet
    requires IsDigit(c)
  {
    if 'A' <= c <= 'Z' then (c - 'A') as nat
    else if 'a' <= c <= 'z' then (c - 'a') as nat + 26
    else if '0' <= c <= '9' then (c - '0') as nat + 52
    else if c == '+' then 62
    else 63
  }

  lemma DigitValue(v: Sextet)
    ensures IsDigit(Digit(v)) && Value(Digit(v)) == v
  {
  }

  lemma ValueDigit(c: char)
    requires IsDigit(c)
    ensures Digit(Value(c)) == c
  {
  }

  /** The sextets of one to three bytes; the bits a short group leaves over are zero. */
  function Sextets(b: seq<Byte>): (v: seq<Sextet>)
    requires 1 <= |b| <= 3
  {
    if |b| == 1 then [b[0] / 4, b[0] % 4 * 16]
    else if |b| == 2 then [b[0] / 4, b[0] % 4 * 16 + b[1] / 16, b[1] % 16 * 4]
    else [b[0] / 4, b[0] % 4 * 16 + b[1] / 16, b[1] % 16 * 4 + b[2] / 64, b[2] % 64]
  }

  function First(v: seq<Sextet>): Byte
    requires |v| >= 2
  {
    v[0] as int * 4 + v[1] as int / 16
  }

  function Second(v: seq<Sextet>): Byte
    requires |v| >= 3
  {
    v[1] as int % 16 * 16 + v[2] as int / 4
  }

  function Third(v: seq<Sextet>): Byte
    requires |v| >= 4
  {
    v[2] as int % 4 * 64 + v[3] as int
  }

  /** The bytes of two to four sextets; strict decoding refuses left-over bits that are not zero. */
  function Bytes(v: seq<Sextet>): Option<seq<Byte>>
    requires 2 <= |v| <= 4
  {
    if |v| == 2 then
      if v[1] % 16 != 0 then None else Some([First(v)])
    else if |v| == 3 then
      if v[2] % 4 != 0 then None else Some([First(v), Second(v)])
    else
      Some([First(v), Second(v), Third(v)])
  }

  /** Two bit fields written side by side can be read back. */
  lemma Fields(hi: nat, lo: nat)
    ensures lo < 4 ==> (hi * 4 + lo) / 4 == hi && (hi * 4 + lo) % 4 == lo
    ensures lo < 16 ==> (hi * 16 + lo) / 16 == hi && (hi * 16 + lo) % 16 == lo
    ensures lo < 64 ==> (hi * 64 + lo) / 64 == hi && (hi * 64 + lo) % 64 == lo
  {
  }

  lemma BytesOfSextets(b: seq<Byte>)
    requires 1 <= |b| <= 3
    ensures Bytes(Sextets(b)) == Some(b)
  {
    var v := Sextets(b);
    var x := b[0] as int;
    Fields(x % 4, if |b| > 1 then b[1] as int / 16 else 0);
    assert First(v) == b[0];
    if |b| > 1 {
      var y := b[1] as int;
      Fields(y % 16, if |b| > 2 then b[2] as int / 64 else 0);
      assert Second(v) == b[1];
    }
    if |b| > 2 {
      Fields(b[2] as int / 64, b[2] as int % 64);
      assert Third(v) == b[2];
    }
    assert Bytes(v).Some? && Bytes(v).value == b;
  }

  lemma SextetsOfBytes(v: seq<Sextet>)
    requires 2 <= |v| <= 4 && Bytes(v).Some?
    ensures var b := Bytes(v).value; |b| == |v| - 1 && Sextets(b) == v
  {
    var b := Bytes(v).value;
    var v0, v1 := v[0] as int, v[1] as int;
    Fields(v0, v1 / 16);
    assert b[0] / 4 == v[0] && b[0] as int % 4 == v1 / 16;
    if |v| > 2 {
      var v2 := v[2] as int;
      Fields(v1 % 16, v2 / 4);
      assert b[1] as int / 16 == v1 % 16 && b[1] as int % 16 == v2 / 4;
      if |v| > 3 {
        Fields(v2 % 4, v[3] as int);
        assert b[2] as int / 64 == v2 % 4 && b[2] % 64 == v[3];
      }
    }
  }

  function Digits(v: seq<Sextet>): (s: string)
    ensures |s| == |v|
  {
    seq(|v|, i requires 0 <= i < |v| => Digit(v[i]))
  }

  predicate AllDigits(s: string) {
    forall i | 0 <= i < |s| :: IsDigit(s[i])
  }

  function Values(s: string): (v: seq<Sextet>)
    requires AllDigits(s)
    ensures |v| == |s|
  {
    seq(|s|, i requires 0 <= i < |s| => Value(s[i]))
  }

  lemma ValuesOfDigits(v: seq<Sextet>)
    ensures AllDigits(Digits(v)) && Values(Digits(v)) == v
  {
    forall i | 0 <= i < |v| ensures IsDigit(Digit(v[i])) && Value(Digit(v[i])) == v[i] {
      DigitValue(v[i]);
    }
  }

  lemma DigitsOfValues(s: string)
    requires AllDigits(s)
    ensures Digits(Values(s)) == s
  {
    forall i | 0 <= i < |s| ensures Digit(Value(s[i])) == s[i] {
      ValueDigit(s[i]);
    }
  }

  /** Groups of three bytes make four digits; a shorter last group makes two or three, without padding. */
  function Encode(b: seq<Byte>): string {
    if |b| == 0 then ""
    else if |b| <= 3 then Digits(Sextets(b))
    else Digits(Sextets(b[..3])) + Encode(b[3..])
  }

  /** The strict decoder of a text that holds no newline. */
  function Decode(s: string): Option<seq<Byte>> {
    if |s| == 0 then
      Some([])
    else if |s| == 1 then
      None
    else if |s| <= 4 then
      if AllDigits(s) then Bytes(Values(s)) else None
    else if !AllDigits(s[..4]) then
      None
    else
      match Decode(s[4..])
      case None => None
      case Some(rest) => Some(Bytes(Values(s[..4])).value + rest)
  }

  predicate IsNewline(c: char) {
    c == '\r' || c == '\n'
  }

  predicate HasNewline(s: string) {
    exists c <- s :: IsNewline(c)
  }

  function StripNewlines(s: string): (r: string)
    ensures !HasNewline(r)
    ensures r == s <==> !HasNewline(s)
    ensures |r| <= |s|
  {
    if |s| == 0 then ""
    else if IsNewline(s[0]) then StripNewlines(s[1..])
    else [s[0]] + StripNewlines(s[1..])
  }

  /** Go's decoder skips CR and LF wherever they stand, in strict mode too. */
  function DecodeText(s: string): Option<seq<Byte>> {
    Decode(StripNewlines(s))
  }

  lemma {:induction false} EncodedDigits(b: seq<Byte>)
    ensures AllDigits(Encode(b))
    ensures 3 * |Encode(b)| <= 4 * |b| + 4
    ensures b != [] ==> Encode(b) != ""
  {
    if 0 < |b| <= 3 {
      ValuesOfDigits(Sextets(b));
    } else if |b| > 3 {
      ValuesOfDigits(Sextets(b[..3]));
      EncodedDigits(b[3..]);
    }
  }

  /** The decoder undoes the encoder on every byte sequence. */
  lemma {:induction false} DecodeEncode(b: seq<Byte>)
    ensures Decode(Encode(b)) == Some(b)
  {
    if 0 < |b| <= 3 {
      ValuesOfDigits(Sextets(b));
      BytesOfSextets(b);
    } else if |b| > 3 {
      var head, e := Sextets(b[..3]), Encode(b);
      ValuesOfDigits(head);
      BytesOfSextets(b[..3]);
      DecodeEncode(b[3..]);
      EncodedDigits(b[3..]);
      assert e[..4] == Digits(head) && e[4..] == Encode(b[3..]);
      assert b == b[..3] + b[3..];
    }
  }

  /** Strictness makes the encoding canonical: no other newline-free text decodes to the same bytes. */
  lemma {:induction false} EncodeDecode(s: string)
    requires Decode(s).Some?
    ensures Encode(Decode(s).value) == s
  {
    if 0 < |s| <= 4 {
      SextetsOfBytes(Values(s));
      DigitsOfValues(s);
    } else if |s| > 4 {
      var head, b := Values(s[..4]), Decode(s).value;
      SextetsOfBytes(head);
      DigitsOfValues(s[..4]);
      EncodeDecode(s[4..]);
      assert b[..3] == Bytes(head).value && b[3..] == Decode(s[4..]).value;
      assert b[3..] != [] by { assert s[4..] != "" && Encode(b[3..]) == s[4..]; }
      assert s == s[..4] + s[4..];
    }
  }

  lemma {:induction false} StripTrailing(s: string)
    requires !HasNewline(s)
    ensures StripNewlines(s + "\n") == s
  {
    if s != "" {
      assert (s + "\n")[1..] == s[1..] + "\n";
      StripTrailing(s[1..]);
    } else {
      assert StripNewlines("\n"[1..]) == "";
    }
  }

  lemma TextRoundTrip(b: seq<Byte>)
    ensures !HasNewline(Encode(b)) && DecodeText(Encode(b)) == Some(b)
  {
    EncodedDigits(b);
    DecodeEncode(b);
  }

  /** A text is what its bytes encode to exactly when it holds no newline. */
  lemma CanonicalText(s: string)
    requires DecodeText(s).Some?
    ensures Encode(DecodeText(s).value) == s <==> !HasNewline(s)
  {
    EncodeDecode(StripNewlines(s));
  }

  /** The test vectors of section 10 of RFC 4648, without their padding: those of one group, then those of two. */
  lemma TestVectors()
    ensures Encode([]) == "" && Encode([102]) == "Zg" && Encode([102, 111]) == "Zm8" && Encode([102, 111, 111]) == "Zm9v"
  {
  }

  lemma LongTestVectors()
    ensures Encode([102, 111, 111] + [98]) == "Zm9vYg"
    ensures Encode([102, 111, 111] + [98, 97]) == "Zm9vYmE"
    ensures Encode([102, 111, 111] + [98, 97, 114]) == "Zm9vYmFy"
  {
    LastGroups();
    AfterFoo([98], "Yg");
    AfterFoo([98, 97], "YmE");
    AfterFoo([98, 97, 114], "YmFy");
  }

  lemma LastGroups()
    ensures Encode([98]) == "Yg" && Encode([98, 97]) == "YmE" && Encode([98, 97, 114]) == "YmFy"
  {
  }

  lemma AfterFoo(rest: seq<Byte>, text: string)
    requires rest != [] && Encode(rest) == text
    ensures Encode([102, 111, 111] + rest) == "Zm9v" + text
  {
    TestVectors();
    Chunk([102, 111, 111], rest);
  }

  lemma Chunk(head: seq<Byte>, rest: seq<Byte>)
    requires |head| == 3 && rest != []
    ensures Encode(head + rest) == Digits(Sextets(head)) + Encode(rest)
  {
    assert (head + rest)[..3] == head && (head + rest)[3..] == rest;
  }

  function Zeros(n: nat): (b: seq<Byte>) {
    seq(n, _ => 0)
  }

  /** Bytes of zeros are a row of As. */
  lemma {:induction false} EncodedZeros(n: nat)
    ensures Encode(Zeros(n)) == seq((4 * n + 2) / 3, _ => 'A')
  {
    if 0 < n <= 3 {
      var v := Sextets(Zeros(n));
      assert forall i | 0 <= i < |v| :: v[i] == 0;
      assert |Digits(v)| == |v| == n + 1 == (4 * n + 2) / 3;
    } else if n > 3 {
      EncodedZeros(3);
      EncodedZeros(n - 3);
      assert Zeros(n) == Zeros(3) + Zeros(n - 3);
      Chunk(Zeros(3), Zeros(n - 3));
    }
  }
}
