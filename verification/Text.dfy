/**
  Strings as the UTF-8 bytes the service works on, the decimal notation of
  revisions and cursors, and the two derived keys: the preimage of a rollout
  bucket and the evaluation id of one entry of a batch.
 */
module Text {
  import opened Results

  type byte = b: int | 0 <= b < 256
  type Text = seq<byte>

  const I64_MAX: int := 0x7FFF_FFFF_FFFF_FFFF
  const I64_MIN: int := -0x8000_0000_0000_0000
  type I64 = x: int | I64_MIN <= x <= I64_MAX witness 0
  const U64_MODULUS: int := 0x1_0000_0000_0000_0000
  const COLON: byte := 58
  const PLUS: byte := 43
  const MINUS: byte := 45
  const ZERO_DIGIT: byte := 48

  // ---------------------------------------------------------------- decimals

  predicate IsDigit(b: byte) {
    48 <= b <= 57
  }

  predicate AllDigits(s: Text) {
    forall i | 0 <= i < |s| :: IsDigit(s[i])
  }

  /** `to_string` of a non-negative integer. */
  function Decimal(n: nat): (s: Text)
    ensures |s| > 0 && AllDigits(s)
  {
    if n < 10 then [ZERO_DIGIT + n] else Decimal(n / 10) + [ZERO_DIGIT + n % 10]
  }

  function DigitsValue(s: Text): nat
    requires AllDigits(s)
  {
    if s == [] then 0 else 10 * DigitsValue(s[..|s| - 1]) + (s[|s| - 1] - 48)
  }

  /** `str::parse::<i64>`: an optional sign, at least one digit, in range. */
  function ParseI64(s: Text): Option<int> {
    var signed := |s| > 0 && (s[0] == PLUS || s[0] == MINUS);
    var digits := if signed then s[1..] else s;
    if digits == [] || !AllDigits(digits) then None
    else
      var magnitude: int := DigitsValue(digits);
      var value := if signed && s[0] == MINUS then -magnitude else magnitude;
      if I64_MIN <= value <= I64_MAX then Some(value) else None
  }

  /** A revision on the wire: a positive i64. */
  function ParseRevision(s: Text): Option<int> {
    match ParseI64(s)
    case Some(value) => if value > 0 then Some(value) else None
    case None => None
  }

  /** An optional cursor on the wire; a malformed one is an error. */
  function ParseCursor(s: Option<Text>): Result<Option<int>, ()> {
    match s
    case None => Success(None)
    case Some(text) =>
      match ParseRevision(text)
      case Some(value) => Success(Some(value))
      case None => Failure(())
  }

  lemma {:induction false} DecimalValue(n: nat)
    ensures DigitsValue(Decimal(n)) == n
  {
    if n >= 10 {
      DecimalValue(n / 10);
      var s := Decimal(n);
      assert s[..|s| - 1] == Decimal(n / 10);
    }
  }

  function Power(base: nat, exponent: nat): nat {
    if exponent == 0 then 1 else base * Power(base, exponent - 1)
  }

  lemma DigitIff(b: byte)
    ensures IsDigit(b) <==> '0' <= (b as char) <= '9'
  {
  }

  /** The value is positional, the first digit being the most significant. */
  lemma {:induction false} DigitsAreDecimal(digit: byte, rest: Text)
    requires IsDigit(digit) && AllDigits(rest)
    ensures AllDigits([digit] + rest)
    ensures DigitsValue([digit] + rest) == (digit - 48) * Power(10, |rest|) + DigitsValue(rest)
  {
    var s := [digit] + rest;
    if rest == [] {
      assert s[..0] == [];
    } else {
      var n := |rest| - 1;
      assert s[..|s| - 1] == [digit] + rest[..n] && s[|s| - 1] == rest[n];
      DigitsAreDecimal(digit, rest[..n]);
      assert (digit - 48) * Power(10, |rest|) == (digit - 48) * Power(10, n) * 10;
    }
  }

  /** A numeral without superfluous zeros. */
  lemma {:induction false} DecimalIsCanonical(n: nat)
    ensures |Decimal(n)| > 1 ==> Decimal(n)[0] != 48
    ensures n > 0 ==> Decimal(n)[0] != 48
  {
    if n >= 10 {
      DecimalIsCanonical(n / 10);
      assert Decimal(n)[0] == Decimal(n / 10)[0];
    }
  }

  /** `s` is a numeral for `n`: digits, perhaps after a plus, or a minus and digits. */
  ghost predicate Reads(s: Text, n: int) {
    || (s != [] && AllDigits(s) && n == DigitsValue(s))
    || (|s| > 1 && s[0] == 43 && AllDigits(s[1..]) && n == DigitsValue(s[1..]))
    || (|s| > 1 && s[0] == 45 && AllDigits(s[1..]) && n + DigitsValue(s[1..]) == 0)
  }

  /** A decimal is a numeral of its number. */
  lemma DecimalReads(n: nat)
    ensures Reads(Decimal(n), n)
  {
    DecimalValue(n);
  }

  /** Exactly the numerals of i64 values are parsed, to their values. */
  lemma ParseI64Iff(s: Text, n: int)
    ensures ParseI64(s) == Some(n)
            <==> Reads(s, n) && -0x8000_0000_0000_0000 <= n <= 0x7FFF_FFFF_FFFF_FFFF
    ensures ParseI64(s).None? <==>
              forall m: int | -0x8000_0000_0000_0000 <= m <= 0x7FFF_FFFF_FFFF_FFFF :: !Reads(s, m)
  {
    if s != [] && AllDigits(s) {
      assert IsDigit(s[0]);
    }
    if ParseI64(s).Some? {
      assert Reads(s, ParseI64(s).value);
    }
  }

  /** A revision or cursor is a numeral of a positive i64. */
  lemma ParseCursorIff(s: Text, n: int)
    ensures ParseRevision(s) == Some(n) <==> Reads(s, n) && 0 < n <= 0x7FFF_FFFF_FFFF_FFFF
    ensures ParseCursor(Some(s)) == Success(Some(n)) <==> Reads(s, n) && 0 < n <= 0x7FFF_FFFF_FFFF_FFFF
    ensures ParseCursor(None) == Success(None)
  {
    ParseI64Iff(s, n);
  }

  /** What the service writes as a revision or cursor it reads back unchanged. */
  lemma RevisionRoundTrip(n: nat)
    ensures ParseRevision(Decimal(n)) == if 0 < n <= I64_MAX then Some(n) else None
  {
    var s := Decimal(n);
    assert IsDigit(s[0]);
    DecimalValue(n);
  }

  lemma DecimalInjective(m: nat, n: nat)
    requires Decimal(m) == Decimal(n)
    ensures m == n
  {
    DecimalValue(m);
    DecimalValue(n);
  }

  // -------------------------------------------------------------- validation

  predicate KeyByte(b: byte) {
    48 <= b <= 57 || 65 <= b <= 90 || 97 <= b <= 122 || b == 46 || b == 95 || b == MINUS || b == COLON
  }

  predicate ValidKey(s: Text, max: nat) {
    s != [] && |s| <= max && forall i | 0 <= i < |s| :: KeyByte(s[i])
  }

  /** Keys are ASCII letters, digits and the four marks. */
  lemma ValidKeyIff(s: Text, max: nat)
    ensures ValidKey(s, max) <==>
              && 1 <= |s| <= max
              && forall i | 0 <= i < |s| ::
                   var c := s[i] as char;
                   || 'a' <= c <= 'z' || 'A' <= c <= 'Z' || '0' <= c <= '9'
                   || c == '.' || c == '_' || c == '-' || c == ':'
  {
  }

  /** Every key is also an admissible opaque id. */
  lemma KeysAreOpaqueIds(s: Text, max: nat)
    requires ValidKey(s, max) && max <= 512
    ensures ValidOpaqueId(s)
  {
  }

  /** Control characters in UTF-8: C0, DEL, and C1 encoded as 0xC2 0x80..0x9F. */
  predicate ControlAt(s: Text, i: nat)
    requires i < |s|
  {
    s[i] < 32 || s[i] == 127 || (s[i] == 0xC2 && i + 1 < |s| && 0x80 <= s[i + 1] <= 0x9F)
  }

  predicate ValidOpaqueId(s: Text) {
    s != [] && |s| <= 512 && 0 !in s && forall i | 0 <= i < |s| :: !ControlAt(s, i)
  }

  /** `valid_mutation`: the expected revision of a well-formed mutation. */
  function ValidMutation(key: Text, resource: Text, revision: Text): Option<int> {
    if ValidKey(key, 200) && ValidKey(resource, 128) then ParseRevision(revision) else None
  }

  /** Opaque ids are short UTF-8 texts without control characters. */
  lemma ValidOpaqueIdIff(s: Text)
    ensures ValidOpaqueId(s) <==>
              && 1 <= |s| <= 512
              && (forall i | 0 <= i < |s| :: s[i] >= 32 && s[i] != 127)
              && forall i | 0 < i < |s| :: s[i - 1] == 0xC2 ==> s[i] < 0x80 || s[i] > 0x9F
  {
    if ValidOpaqueId(s) {
      forall i | 0 <= i < |s| ensures s[i] >= 32 && s[i] != 127 {
        assert !ControlAt(s, i);
      }
      forall i | 0 < i < |s| && s[i - 1] == 0xC2 ensures s[i] < 0x80 || s[i] > 0x9F {
        assert !ControlAt(s, i - 1);
      }
    } else if 1 <= |s| <= 512 && 0 !in s {
      var i :| 0 <= i < |s| && ControlAt(s, i);
      assert s[i] == 0xC2 ==> i + 1 < |s| && s[(i + 1) - 1] == 0xC2;
    }
  }

  /** A mutation is admitted with a key, a resource and a positive i64 revision. */
  lemma ValidMutationIff(key: Text, resource: Text, revision: Text, n: int)
    ensures ValidMutation(key, resource, revision) == Some(n)
            <==> && ValidKey(key, 200) && ValidKey(resource, 128)
                 && Reads(revision, n) && 0 < n <= 0x7FFF_FFFF_FFFF_FFFF
  {
    ParseCursorIff(revision, n);
  }

  // ------------------------------------------------------------ derived keys

  /** The id of the receipt for entry `index` of the batch `key`. */
  function EvaluationId(key: Text, index: nat): Text {
    key + [COLON] + Decimal(index)
  }

  /** The last colon separates the two parts, whatever the key contains. */
  lemma EvaluationIdInjective(key: Text, index: nat, key': Text, index': nat)
    requires EvaluationId(key, index) == EvaluationId(key', index')
    ensures key == key' && index == index'
  {
    SplitAtLast(key, Decimal(index), key', Decimal(index'), COLON);
    DecimalInjective(index, index');
  }

  lemma SplitAtLast(a: Text, b: Text, a': Text, b': Text, separator: byte)
    requires separator !in b && separator !in b'
    requires a + [separator] + b == a' + [separator] + b'
    ensures a == a' && b == b'
  {
    var s, s' := a + [separator] + b, a' + [separator] + b';
    assert s[|a|] == separator && s'[|a'|] == separator;
    assert forall i | |a| < i < |s| :: s[i] == b[i - |a| - 1];
    assert forall i | |a'| < i < |s'| :: s'[i] == b'[i - |a'| - 1];
    assert |a| == |a'|;
    assert a == s[..|a|] == s'[..|a|] == a';
    assert b == s[|a| + 1..] == s'[|a| + 1..] == b';
  }

  /** The bytes fed to SHA-256: every part followed by a zero byte. */
  function Preimage(parts: seq<Text>): Text {
    if parts == [] then [] else parts[0] + [0] + Preimage(parts[1..])
  }

  lemma SplitAtFirst(a: Text, b: Text, a': Text, b': Text, separator: byte)
    requires separator !in a && separator !in a'
    requires a + [separator] + b == a' + [separator] + b'
    ensures a == a' && b == b'
  {
    var s, s' := a + [separator] + b, a' + [separator] + b';
    assert s[|a|] == separator && s'[|a'|] == separator;
    assert forall i | 0 <= i < |a| :: s[i] == a[i];
    assert forall i | 0 <= i < |a'| :: s'[i] == a'[i];
    assert |a| == |a'|;
    assert a == s[..|a|] == s'[..|a|] == a';
    assert b == s[|a| + 1..] == s'[|a| + 1..] == b';
  }

  /** Parts without zero bytes are determined by the preimage. */
  lemma {:induction false} PreimageInjective(parts: seq<Text>, parts': seq<Text>)
    requires |parts| == |parts'|
    requires forall i | 0 <= i < |parts| :: 0 !in parts[i] && 0 !in parts'[i]
    requires Preimage(parts) == Preimage(parts')
    ensures parts == parts'
  {
    if parts != [] {
      SplitAtFirst(parts[0], Preimage(parts[1..]), parts'[0], Preimage(parts'[1..]), 0);
      PreimageInjective(parts[1..], parts'[1..]);
      assert parts == [parts[0]] + parts[1..];
      assert parts' == [parts'[0]] + parts'[1..];
    }
  }

  /** The service's own admission checks are enough for an unambiguous bucket. */
  lemma BucketKeyInjective(org: Text, environment: Text, flag: Text, targeting: Text,
                           org': Text, environment': Text, flag': Text, targeting': Text)
    requires ValidOpaqueId(org) && ValidKey(environment, 128) && ValidKey(flag, 128) && ValidOpaqueId(targeting)
    requires ValidOpaqueId(org') && ValidKey(environment', 128) && ValidKey(flag', 128) && ValidOpaqueId(targeting')
    requires Preimage([org, environment, flag, targeting]) == Preimage([org', environment', flag', targeting'])
    ensures org == org' && environment == environment' && flag == flag' && targeting == targeting'
  {
    var parts, parts' := [org, environment, flag, targeting], [org', environment', flag', targeting'];
    PreimageInjective(parts, parts');
    assert parts[0] == parts'[0] && parts[1] == parts'[1] && parts[2] == parts'[2] && parts[3] == parts'[3];
  }
}
