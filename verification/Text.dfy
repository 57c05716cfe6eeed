/** Decimal numbers and separated fields, as Go's strconv and strings packages treat them. */
module Text {
  import opened Common

  predicate IsDecimal(s: string) {
    forall i | 0 <= i < |s| :: '0' <= s[i] <= '9'
  }

  function DecimalValue(s: string): nat
    requires IsDecimal(s)
  {
    if |s| == 0 then 0
    else DecimalValue(s[..|s| - 1]) * 10 + (s[|s| - 1] - '0') as nat
  }

  /** `%d` of a number that is not negative. */
  function Show(n: nat): string {
    if n < 10 then [ '0' + n as char ]
    else Show(n / 10) + [ '0' + (n % 10) as char ]
  }

  predicate HasLeadingZero(s: string) {
    |s| > 1 && s[0] == '0'
  }

  /** `strconv.ParseUint(s, 10, bits)` where `max` is the greatest value of that width. */
  function ParseUint(s: string, max: nat): Option<nat> {
    if s == "" || !IsDecimal(s) || DecimalValue(s) > max then None else Some(DecimalValue(s))
  }

  lemma {:induction false} ShownValue(n: nat)
    ensures Show(n) != "" && IsDecimal(Show(n)) && DecimalValue(Show(n)) == n
    ensures !HasLeadingZero(Show(n))
    ensures n > 0 ==> Show(n)[0] != '0'
    ensures n < 1000000 ==> |Show(n)| <= 6
  {
    if n >= 10 {
      ShownValue(n / 10);
      var s := Show(n);
      assert s[..|s| - 1] == Show(n / 10);
      if n < 1000000 {
        ShownLength(n / 10, 5);
      }
    }
  }

  /** A leading zero changes nothing about what is parsed. */
  lemma {:induction false} LeadingZeroIsAccepted(s: string, max: nat)
    requires s != ""
    ensures ParseUint("0" + s, max) == ParseUint(s, max)
  {
    assert ("0" + s)[1..] == s;
    assert IsDecimal("0" + s) <==> IsDecimal(s) by {
      assert forall i | 0 <= i < |s| :: ("0" + s)[i + 1] == s[i];
    }
    if IsDecimal(s) {
      LeadingZeroValue(s);
    }
  }

  lemma {:induction false} LeadingZeroValue(s: string)
    requires IsDecimal(s)
    ensures IsDecimal("0" + s) && DecimalValue("0" + s) == DecimalValue(s)
  {
    if s != "" {
      var init := s[..|s| - 1];
      LeadingZeroValue(init);
      assert ("0" + s)[..|s|] == "0" + init;
    } else {
      assert "0"[..0] == "";
      assert "0" + s == "0";
    }
  }

  lemma {:induction false} ShownLength(n: nat, digits: nat)
    requires 1 <= digits <= 5
    requires n < [10, 100, 1000, 10000, 100000][digits - 1]
    ensures |Show(n)| <= digits
  {
    if n >= 10 {
      ShownLength(n / 10, digits - 1);
    }
  }

  /** A decimal text is what its value prints as exactly when it has no leading zero. */
  lemma {:induction false} ShowOfValue(s: string)
    requires s != "" && IsDecimal(s)
    ensures Show(DecimalValue(s)) == s <==> !HasLeadingZero(s)
    ensures s[0] != '0' ==> DecimalValue(s) > 0
  {
    var init, v := s[..|s| - 1], DecimalValue(s);
    var last := (s[|s| - 1] - '0') as nat;
    assert v == DecimalValue(init) * 10 + last;
    if |s| == 1 {
      assert DecimalValue(init) == 0 && s == ['0' + v as char];
    } else {
      ShowOfValue(init);
      if s[0] == '0' {
        ShownValue(v);
      } else {
        assert init[0] == s[0] && v / 10 == DecimalValue(init) && v % 10 == last;
        assert Show(v) == Show(v / 10) + [s[|s| - 1]];
      }
    }
  }

  predicate Lacks(s: string, sep: char) {
    forall i | 0 <= i < |s| :: s[i] != sep
  }

  /** `strings.Split` at a one-character separator. */
  function Split(s: string, sep: char): (parts: seq<string>)
    ensures |parts| >= 1
    ensures forall k | 0 <= k < |parts| :: Lacks(parts[k], sep)
  {
    if s == "" then [""]
    else
      var rest := Split(s[1..], sep);
      if s[0] == sep then [""] + rest else [[s[0]] + rest[0]] + rest[1..]
  }

  function Join(parts: seq<string>, sep: char): string
    requires |parts| >= 1
  {
    if |parts| == 1 then parts[0] else parts[0] + [sep] + Join(parts[1..], sep)
  }

  lemma {:induction false} JoinSplit(s: string, sep: char)
    ensures Join(Split(s, sep), sep) == s
  {
    if s != "" {
      JoinSplit(s[1..], sep);
      var parts, rest := Split(s, sep), Split(s[1..], sep);
      if s[0] == sep {
        assert parts[1..] == rest;
      } else if |rest| > 1 {
        assert parts[1..] == rest[1..];
      }
    }
  }

  lemma {:induction false} SplitPrefix(p: string, s: string, sep: char)
    requires Lacks(p, sep)
    ensures Split(p + [sep] + s, sep) == [p] + Split(s, sep)
    ensures Split(p, sep) == [p]
  {
    var whole := p + [sep] + s;
    if p == "" {
      assert whole[1..] == s;
      assert [""] + Split(s, sep) == Split(whole, sep);
    } else {
      SplitPrefix(p[1..], s, sep);
      assert whole[1..] == p[1..] + [sep] + s;
      assert [p[0]] + p[1..] == p;
    }
  }

  /** Fields that do not hold the separator come back from the joined text. */
  lemma {:induction false} SplitJoin(parts: seq<string>, sep: char)
    requires |parts| >= 1
    requires forall k | 0 <= k < |parts| :: Lacks(parts[k], sep)
    ensures Split(Join(parts, sep), sep) == parts
  {
    if |parts| == 1 {
      SplitPrefix(parts[0], "", sep);
    } else {
      SplitJoin(parts[1..], sep);
      SplitPrefix(parts[0], Join(parts[1..], sep), sep);
    }
  }

  /** `strings.CutPrefix`. */
  function CutPrefix(s: string, prefix: string): Option<string> {
    if prefix <= s then Some(s[|prefix|..]) else None
  }

  /** `unicode.IsSpace`. */
  predicate IsSpace(c: char) {
    || '\t' <= c <= '\r' || c == ' ' || c == '\U{85}' || c == '\U{A0}' || c == '\U{1680}'
    || '\U{2000}' <= c <= '\U{200A}' || c in {'\U{2028}', '\U{2029}', '\U{202F}', '\U{205F}', '\U{3000}'}
  }

  /** `strings.TrimSpace`. */
  function TrimSpace(s: string): string {
    if s == "" then ""
    else if IsSpace(s[0]) then TrimSpace(s[1..])
    else if IsSpace(s[|s| - 1]) then TrimSpace(s[..|s| - 1])
    else s
  }

  predicate AllSpace(s: string) {
    forall c <- s :: IsSpace(c)
  }

  /** Trimming takes off white space on both sides, and all of it. */
  lemma {:induction false} TrimmedExactly(s: string) returns (before: string, after: string)
    ensures s == before + TrimSpace(s) + after && AllSpace(before) && AllSpace(after)
    ensures TrimSpace(s) != "" ==> !IsSpace(TrimSpace(s)[0]) && !IsSpace(Last(TrimSpace(s)))
    decreases |s|
  {
    if s == "" {
      before, after := "", "";
    } else if IsSpace(s[0]) {
      before, after := TrimmedExactly(s[1..]);
      before := [s[0]] + before;
      assert s == before + TrimSpace(s) + after by { assert s == [s[0]] + s[1..]; }
    } else if IsSpace(s[|s| - 1]) {
      before, after := TrimmedExactly(s[..|s| - 1]);
      var rest := after;
      after := after + [s[|s| - 1]];
      assert s == before + TrimSpace(s) + after by { assert s == (before + TrimSpace(s) + rest) + [s[|s| - 1]]; }
    } else {
      before, after := "", "";
    }
  }

  /** `domain.NormalizeOptionalText`. */
  function NormalizeOptionalText(value: Option<string>): Option<string> {
    match value
    case None => None
    case Some(text) => if TrimSpace(text) == "" then None else Some(TrimSpace(text))
  }
}
