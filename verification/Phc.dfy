/**
 The PHC text of an Argon2id hash. A text is a sequence of bytes, as a Go string is: each `char`
 stands for one byte.
 */
module Phc {
  import opened Common
  import opened Base64
  import opened Text

  const ALGORITHM := "argon2id"
  const VERSION: nat := 0x13
  const MAX_ENCODED_HASH_LENGTH: nat := 1024

  const MAX_UINT32: nat := 0xFFFF_FFFF
  const MAX_UINT8: nat := 0xFF

  const MIN_MEMORY: nat := 8 * 1024
  const MAX_MEMORY: nat := 256 * 1024
  const MIN_ITERATIONS: nat := 1
  const MAX_ITERATIONS: nat := 10
  const MIN_PARALLELISM: nat := 1
  const MAX_PARALLELISM: nat := 16
  const MIN_SALT_LENGTH: nat := 16
  const MAX_SALT_LENGTH: nat := 64
  const MIN_KEY_LENGTH: nat := 16
  const MAX_KEY_LENGTH: nat := 64

  datatype Error = InvalidHash | UnsupportedVersion

  datatype Params = Params(memory: nat, iterations: nat, parallelism: nat, saltLength: nat, keyLength: nat)

  datatype EncodedHash = EncodedHash(params: Params, salt: seq<Byte>, key: seq<Byte>)

  predicate CostsInRange(p: Params) {
    && MIN_MEMORY <= p.memory <= MAX_MEMORY
    && MIN_ITERATIONS <= p.iterations <= MAX_ITERATIONS
    && MIN_PARALLELISM <= p.parallelism <= MAX_PARALLELISM
  }

  /** `Params.validate`. */
  predicate ValidParams(p: Params) {
    && CostsInRange(p)
    && MIN_SALT_LENGTH <= p.saltLength <= MAX_SALT_LENGTH
    && MIN_KEY_LENGTH <= p.keyLength <= MAX_KEY_LENGTH
  }

  function EncodeHash(p: Params, salt: seq<Byte>, key: seq<Byte>): string {
    "" + "$" + ALGORITHM + "$" + ("v=" + Show(VERSION))
    + "$" + ("m=" + Show(p.memory) + "," + ("t=" + Show(p.iterations)) + "," + ("p=" + Show(p.parallelism)))
    + "$" + Encode(salt) + "$" + Encode(key)
  }

  function DecodeHash(value: string): Result<EncodedHash, Error> {
    if value == "" || |value| > MAX_ENCODED_HASH_LENGTH then Err(InvalidHash) else DecodeParts(Split(value, '$'))
  }

  function DecodeParts(parts: seq<string>): Result<EncodedHash, Error> {
    if |parts| != 6 || parts[0] != "" then Err(InvalidHash)
    else if parts[1] != ALGORITHM then Err(InvalidHash)
    else match ValidateVersion(parts[2])
      case Some(error) => Err(error)
      case None =>
        match ParseParams(parts[3])
        case Err(error) => Err(error)
        case Ok(params) =>
          match (DecodeField(parts[4]), DecodeField(parts[5]))
          case (Some(salt), Some(key)) =>
            if |salt| < MIN_SALT_LENGTH || |salt| > MAX_SALT_LENGTH then Err(InvalidHash)
            else if |key| < MIN_KEY_LENGTH || |key| > MAX_KEY_LENGTH then Err(InvalidHash)
            else Ok(EncodedHash(params.(saltLength := |salt|, keyLength := |key|), salt, key))
          case _ => Err(InvalidHash)
  }

  function ValidateVersion(value: string): Option<Error> {
    match ParseParam(value, "v=", MAX_UINT32)
    case None => Some(InvalidHash)
    case Some(version) => if version != VERSION then Some(UnsupportedVersion) else None
  }

  function ParseParams(value: string): Result<Params, Error> {
    var parts := Split(value, ',');
    if |parts| != 3 then Err(InvalidHash)
    else
      match (ParseParam(parts[0], "m=", MAX_UINT32), ParseParam(parts[1], "t=", MAX_UINT32), ParseParam(parts[2], "p=", MAX_UINT8))
      case (Some(memory), Some(iterations), Some(parallelism)) =>
        var p := Params(memory, iterations, parallelism, 0, 0);
        if CostsInRange(p) then Ok(p) else Err(InvalidHash)
      case _ => Err(InvalidHash)
  }

  function ParseParam(value: string, prefix: string, max: nat): Option<nat> {
    match CutPrefix(value, prefix)
    case None => None
    case Some(raw) => ParseUint(raw, max)
  }

  function DecodeField(value: string): Option<seq<Byte>> {
    if value == "" then None else DecodeText(value)
  }

  /** The fields between the dollar signs of an encoded hash. */
  function Fields(p: Params, salt: seq<Byte>, key: seq<Byte>): seq<string> {
    ["", ALGORITHM, "v=" + Show(VERSION), Join(Costs(p), ','), Encode(salt), Encode(key)]
  }

  function Costs(p: Params): seq<string> {
    ["m=" + Show(p.memory), "t=" + Show(p.iterations), "p=" + Show(p.parallelism)]
  }

  lemma JoinThree(a: string, b: string, c: string)
    ensures Join([a, b, c], ',') == a + "," + b + "," + c
  {
    assert [a, b, c][1..] == [b, c] && [b, c][1..] == [c];
    assert Join([b, c], ',') == b + "," + c;
    assert a + "," + b + "," + c == a + "," + (b + "," + c);
  }

  lemma JoinSix(a: string, b: string, c: string, d: string, e: string, f: string)
    ensures Join([a, b, c, d, e, f], '$') == a + "$" + b + "$" + c + "$" + d + "$" + e + "$" + f
  {
    assert [a, b, c, d, e, f][1..] == [b, c, d, e, f];
    assert [b, c, d, e, f][1..] == [c, d, e, f];
    assert [c, d, e, f][1..] == [d, e, f];
    assert [d, e, f][1..] == [e, f] && [e, f][1..] == [f];
    assert Join([e, f], '$') == e + "$" + f;
    assert Join([d, e, f], '$') == d + "$" + e + "$" + f;
    assert Join([c, d, e, f], '$') == c + "$" + d + "$" + e + "$" + f;
    assert Join([b, c, d, e, f], '$') == b + "$" + c + "$" + d + "$" + e + "$" + f;
  }

  lemma SplitFields(p: Params, salt: seq<Byte>, key: seq<Byte>)
    ensures EncodeHash(p, salt, key) == Join(Fields(p, salt, key), '$')
    ensures Split(EncodeHash(p, salt, key), '$') == Fields(p, salt, key)
    ensures Split(Join(Costs(p), ','), ',') == Costs(p)
  {
    var c, f := Costs(p), Fields(p, salt, key);
    JoinThree(c[0], c[1], c[2]);
    JoinSix(f[0], f[1], f[2], f[3], f[4], f[5]);
    FieldsLackSeparators(p, salt, key);
    SplitJoin(c, ',');
    SplitJoin(f, '$');
  }

  lemma ShownLacks(prefix: string, n: nat, sep: char)
    requires Lacks(prefix, sep) && sep in {'$', ','}
    ensures Lacks(prefix + Show(n), sep)
  {
    ShownValue(n);
  }

  lemma CostsLack(p: Params, sep: char)
    requires sep in {'$', ','}
    ensures forall k | 0 <= k < 3 :: Lacks(Costs(p)[k], sep)
  {
    ShownLacks("m=", p.memory, sep);
    ShownLacks("t=", p.iterations, sep);
    ShownLacks("p=", p.parallelism, sep);
  }

  lemma FieldsLackSeparators(p: Params, salt: seq<Byte>, key: seq<Byte>)
    ensures forall k | 0 <= k < 3 :: Lacks(Costs(p)[k], ',')
    ensures forall k | 0 <= k < 6 :: Lacks(Fields(p, salt, key)[k], '$')
  {
    CostsLack(p, ',');
    CostsLack(p, '$');
    var c := Costs(p);
    JoinThree(c[0], c[1], c[2]);
    ShownLacks("v=", VERSION, '$');
    EncodedDigits(salt);
    EncodedDigits(key);
  }

  lemma ParseShown(prefix: string, n: nat, max: nat)
    requires n <= max
    ensures ParseParam(prefix + Show(n), prefix, max) == Some(n)
  {
    ShownValue(n);
    assert (prefix + Show(n))[|prefix|..] == Show(n);
  }

  lemma EncodedLength(p: Params, salt: seq<Byte>, key: seq<Byte>)
    requires CostsInRange(p) && |salt| <= MAX_SALT_LENGTH && |key| <= MAX_KEY_LENGTH
    ensures 0 < |EncodeHash(p, salt, key)| < MAX_ENCODED_HASH_LENGTH
  {
    ShownValue(p.memory);
    ShownValue(p.iterations);
    ShownValue(p.parallelism);
    ShownValue(VERSION);
    EncodedDigits(salt);
    EncodedDigits(key);
  }

  lemma ParseShownParams(p: Params)
    requires CostsInRange(p)
    ensures ParseParams(Join(Costs(p), ',')) == Ok(p.(saltLength := 0, keyLength := 0))
  {
    CostsLack(p, ',');
    SplitJoin(Costs(p), ',');
    ParseShown("m=", p.memory, MAX_UINT32);
    ParseShown("t=", p.iterations, MAX_UINT32);
    ParseShown("p=", p.parallelism, MAX_UINT8);
  }

  lemma DecodeEncodedField(b: seq<Byte>)
    requires b != []
    ensures DecodeField(Encode(b)) == Some(b)
  {
    EncodedDigits(b);
    TextRoundTrip(b);
  }

  /** `decodeHash` undoes `encodeHash` for every salt and key of 16 to 64 bytes and all costs in range. */
  lemma DecodeEncodeHash(p: Params, salt: seq<Byte>, key: seq<Byte>)
    requires CostsInRange(p)
    requires MIN_SALT_LENGTH <= |salt| <= MAX_SALT_LENGTH
    requires MIN_KEY_LENGTH <= |key| <= MAX_KEY_LENGTH
    ensures DecodeHash(EncodeHash(p, salt, key)) == Ok(EncodedHash(p.(saltLength := |salt|, keyLength := |key|), salt, key))
  {
    EncodedLength(p, salt, key);
    SplitFields(p, salt, key);
    DecodeFields(p, salt, key);
  }

  lemma DecodeFields(p: Params, salt: seq<Byte>, key: seq<Byte>)
    requires CostsInRange(p)
    requires MIN_SALT_LENGTH <= |salt| <= MAX_SALT_LENGTH
    requires MIN_KEY_LENGTH <= |key| <= MAX_KEY_LENGTH
    ensures DecodeParts(Fields(p, salt, key)) == Ok(EncodedHash(p.(saltLength := |salt|, keyLength := |key|), salt, key))
  {
    ParseShown("v=", VERSION, MAX_UINT32);
    ParseShownParams(p);
    DecodeEncodedField(salt);
    DecodeEncodedField(key);
  }

  /** What `Argon2id.Hash` writes with validated parameters reads back as those parameters, the salt and the key. */
  lemma HashOutputDecodes(p: Params, salt: seq<Byte>, key: seq<Byte>)
    requires ValidParams(p) && |salt| == p.saltLength && |key| == p.keyLength
    ensures DecodeHash(EncodeHash(p, salt, key)) == Ok(EncodedHash(p, salt, key))
  {
    DecodeEncodeHash(p, salt, key);
  }

  /** What is accepted satisfies the bounds that hashing itself imposes. */
  lemma AcceptedIsValid(value: string)
    requires DecodeHash(value).Ok?
    ensures var h := DecodeHash(value).value;
      ValidParams(h.params) && |h.salt| == h.params.saltLength && |h.key| == h.params.keyLength
  {
  }

  /** Every accepted text re-encodes to a text that decodes to the same value. */
  lemma ReencodeAccepted(value: string)
    requires DecodeHash(value).Ok?
    ensures var h := DecodeHash(value).value;
      DecodeHash(EncodeHash(h.params, h.salt, h.key)) == Ok(h)
  {
    var h := DecodeHash(value).value;
    AcceptedIsValid(value);
    DecodeEncodeHash(h.params, h.salt, h.key);
  }

  /** No number is written with a leading zero and no newline is hidden in the base64 fields. */
  predicate IsCanonical(value: string) {
    var parts := Split(value, '$');
    && |parts| == 6
    && !LeadingZeroAfter(parts[2])
    && (forall part <- Split(parts[3], ',') :: !LeadingZeroAfter(part))
    && !HasNewline(parts[4]) && !HasNewline(parts[5])
  }

  /** A leading zero in the number that follows a two-character prefix. */
  predicate LeadingZeroAfter(field: string) {
    |field| >= 2 && HasLeadingZero(field[2..])
  }

  lemma CanonicalParam(value: string, prefix: string, max: nat)
    requires |prefix| == 2 && ParseParam(value, prefix, max).Some?
    ensures prefix + Show(ParseParam(value, prefix, max).value) == value <==> !LeadingZeroAfter(value)
  {
    var raw := value[2..];
    ShowOfValue(raw);
    assert value == prefix + raw;
    assert (prefix + Show(DecimalValue(raw)))[2..] == Show(DecimalValue(raw));
  }

  lemma CanonicalCosts(value: string)
    requires ParseParams(value).Ok?
    ensures Split(value, ',') == Costs(ParseParams(value).value) <==> forall part <- Split(value, ',') :: !LeadingZeroAfter(part)
  {
    var parts := Split(value, ',');
    CanonicalParam(parts[0], "m=", MAX_UINT32);
    CanonicalParam(parts[1], "t=", MAX_UINT32);
    CanonicalParam(parts[2], "p=", MAX_UINT8);
    assert parts == [parts[0], parts[1], parts[2]];
  }

  lemma CanonicalField(value: string)
    requires DecodeField(value).Some?
    ensures Encode(DecodeField(value).value) == value <==> !HasNewline(value)
  {
    CanonicalText(value);
  }

  lemma CanonicalParts(parts: seq<string>)
    requires DecodeParts(parts).Ok?
    ensures var h := DecodeParts(parts).value;
      Fields(h.params, h.salt, h.key) == parts <==>
      && !LeadingZeroAfter(parts[2])
      && (forall part <- Split(parts[3], ',') :: !LeadingZeroAfter(part))
      && !HasNewline(parts[4]) && !HasNewline(parts[5])
  {
    var h := DecodeParts(parts).value;
    var costs := Costs(h.params);
    assert costs == Costs(ParseParams(parts[3]).value);
    CanonicalParam(parts[2], "v=", MAX_UINT32);
    CanonicalCosts(parts[3]);
    JoinSplit(parts[3], ',');
    CostsLack(h.params, ',');
    SplitJoin(costs, ',');
    CanonicalField(parts[4]);
    CanonicalField(parts[5]);
    assert parts == [parts[0], parts[1], parts[2], parts[3], parts[4], parts[5]];
  }

  /** Different texts can be accepted as one hash; a text is the encoding of its hash exactly when it is canonical. */
  lemma AcceptedTextIsEncodingIffCanonical(value: string)
    requires DecodeHash(value).Ok?
    ensures var h := DecodeHash(value).value;
      EncodeHash(h.params, h.salt, h.key) == value <==> IsCanonical(value)
  {
    var h, parts := DecodeHash(value).value, Split(value, '$');
    SplitFields(h.params, h.salt, h.key);
    JoinSplit(value, '$');
    CanonicalParts(parts);
  }

  lemma TrailingNewlineIsSkipped(b: seq<Byte>)
    ensures DecodeField(Encode(b) + "\n") == DecodeText(Encode(b)) && HasNewline(Encode(b) + "\n")
  {
    TextRoundTrip(b);
    StripTrailing(Encode(b));
    assert (Encode(b) + "\n")[|Encode(b)|] == '\n';
  }

  /** Every hash has such another text: its encoding with a newline appended is accepted for the same value. */
  lemma TrailingNewlineIsAccepted(p: Params, salt: seq<Byte>, key: seq<Byte>)
    requires CostsInRange(p)
    requires MIN_SALT_LENGTH <= |salt| <= MAX_SALT_LENGTH
    requires MIN_KEY_LENGTH <= |key| <= MAX_KEY_LENGTH
    ensures DecodeHash(EncodeHash(p, salt, key) + "\n") == DecodeHash(EncodeHash(p, salt, key))
    ensures DecodeHash(EncodeHash(p, salt, key)).Ok? && !IsCanonical(EncodeHash(p, salt, key) + "\n")
  {
    var text, parts := EncodeHash(p, salt, key) + "\n", FieldsWithNewline(p, salt, key);
    EncodedLength(p, salt, key);
    SplitWithNewline(p, salt, key);
    SplitFields(p, salt, key);
    TrailingNewlineIsSkipped(key);
    DecodeFields(p, salt, key);
    assert Split(text, '$')[5] == parts[5];
  }

  function FieldsWithNewline(p: Params, salt: seq<Byte>, key: seq<Byte>): seq<string> {
    ["", ALGORITHM, "v=" + Show(VERSION), Join(Costs(p), ','), Encode(salt), Encode(key) + "\n"]
  }

  lemma SplitWithNewline(p: Params, salt: seq<Byte>, key: seq<Byte>)
    ensures Split(EncodeHash(p, salt, key) + "\n", '$') == FieldsWithNewline(p, salt, key)
  {
    var c, f, parts := Costs(p), Fields(p, salt, key), FieldsWithNewline(p, salt, key);
    FieldsLackSeparators(p, salt, key);
    JoinThree(c[0], c[1], c[2]);
    JoinSix(parts[0], parts[1], parts[2], parts[3], parts[4], parts[5]);
    assert Join(parts, '$') == EncodeHash(p, salt, key) + "\n";
    assert forall k | 0 <= k < 5 :: parts[k] == f[k];
    SplitJoin(parts, '$');
  }

  /** Rows of As, 22 and 43 long. */
  const A22 := "AAAAAAAAAAAAAAAAAAAAAA"
  const A43 := "AAAAAAAAAAAAAAAAAAAAAAAAAAAAAAAAAAAAAAAAAAA"

  /** One text in full: the default costs, 16 bytes of salt and 32 of key, all zero. Version 19 is 0x13. */
  lemma KnownText()
    ensures var p := Params(65536, 3, 2, 16, 32);
      var text := "$argon2id$v=19$m=65536,t=3,p=2$" + A22 + "$" + A43;
      EncodeHash(p, Zeros(16), Zeros(32)) == text && DecodeHash(text) == Ok(EncodedHash(p, Zeros(16), Zeros(32)))
  {
    var p := Params(65536, 3, 2, 16, 32);
    KnownFields();
    KnownNumbers();
    Shape(p, Zeros(16), Zeros(32), "19", "65536", "3", "2");
    KnownBeginning();
    HashOutputDecodes(p, Zeros(16), Zeros(32));
  }

  lemma KnownBeginning()
    ensures Beginning("19", "65536", "3", "2") == "$argon2id$v=19$m=65536,t=3,p=2$"
  {
    assert "m=" + "65536" + ",t=" + "3" == "m=65536,t=3";
  }

  lemma Shape(p: Params, salt: seq<Byte>, key: seq<Byte>, v: string, m: string, t: string, q: string)
    requires v == Show(VERSION) && m == Show(p.memory) && t == Show(p.iterations) && q == Show(p.parallelism)
    ensures EncodeHash(p, salt, key) == Beginning(v, m, t, q) + Encode(salt) + "$" + Encode(key)
  {
    assert "" + "$" + ALGORITHM + "$" + ("v=" + v) == "$argon2id$v=" + v;
    var version := "$argon2id$v=" + v;
    assert version + "$" + ("m=" + m + "," + ("t=" + t) + "," + ("p=" + q)) + "$" == version + "$m=" + m + ",t=" + t + ",p=" + q + "$";
  }

  lemma KnownFields()
    ensures Encode(Zeros(16)) == A22 && Encode(Zeros(32)) == A43
  {
    EncodedZeros(16);
    EncodedZeros(32);
  }

  lemma KnownNumbers()
    ensures Show(19) == "19" && Show(65536) == "65536" && Show(3) == "3" && Show(2) == "2"
  {
    assert Show(65) == "65" && Show(655) == "655" && Show(6553) == "6553";
  }

  function Beginning(version: string, memory: string, iterations: string, parallelism: string): string {
    "$argon2id$v=" + version + "$m=" + memory + ",t=" + iterations + ",p=" + parallelism + "$"
  }

  /** Another version is refused as such. */
  lemma OtherVersionsAreUnsupported(version: nat)
    requires version != 19 && version <= MAX_UINT32
    ensures ValidateVersion("v=" + Show(version)) == Some(UnsupportedVersion) && ValidateVersion("v=19") == None
  {
    ParseShown("v=", version, MAX_UINT32);
    ParseShown("v=", 19, MAX_UINT32);
    assert Show(19) == "19";
  }
}
