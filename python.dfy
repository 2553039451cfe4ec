/**
  The few Python 2 value semantics the sync logic depends on: the values a track
  record holds, `str()` of them, truthiness, `==`, the `'{:02d}'` format, and the
  exceptions the core can raise.
*/
module Python {
  import opened Wrappers

  /** A value stored in a track dictionary (the remote service's JSON fields). */
  datatype Value = Text(s: string) | Int(n: int) | Bool(b: bool) | NoneValue

  /** A track record: Python dict from field name to value. */
  type Track = map<string, Value>

  /** The exceptions the modelled code can raise. */
  datatype Error =
    | KeyError(key: string)            // d[k] with k missing
    | ValueError                       // bad format code, or a tuple unpack of the wrong length
    | AttributeError                   // os.path.join given a non-string component
    | OSError                          // an `os` call that fails
    | IOError                          // `open` that fails (Python 2 raises IOError there)
    | PlaylistNotFound(name: string)   // Exception('playlist "<name>" not found')

  /** Python truthiness: `if not x` takes the branch exactly when this is false. */
  predicate Truthy(v: Value) {
    match v
    case Text(s) => s != ""
    case Int(n) => n != 0
    case Bool(b) => b
    case NoneValue => false
  }

  /** `bool` is a subclass of `int` in Python: both accept the `d` format code. */
  predicate IsInteger(v: Value) {
    v.Int? || v.Bool?
  }

  function IntValue(v: Value): int
    requires IsInteger(v)
  {
    if v.Int? then v.n else if v.b then 1 else 0
  }

  /** Python `==` between two values (True == 1, u'a' != 1, None == None). */
  predicate Equal(a: Value, b: Value) {
    if IsInteger(a) && IsInteger(b) then IntValue(a) == IntValue(b)
    else if a.Text? && b.Text? then a.s == b.s
    else a.NoneValue? && b.NoneValue?
  }

  // ---------------------------------------------------------------- decimal text

  function DigitChar(d: nat): char
    requires d < 10
  {
    ('0' as int + d) as char
  }

  predicate IsDigit(c: char) {
    '0' <= c <= '9'
  }

  predicate AllDigits(s: string) {
    forall i :: 0 <= i < |s| ==> IsDigit(s[i])
  }

  /** Decimal digits of a natural number, most significant first, no leading zero. */
  function NatDigits(n: nat): (r: string)
    ensures 1 <= |r| && AllDigits(r)
    ensures n >= 10 <==> |r| >= 2
  {
    if n < 10 then [DigitChar(n)] else NatDigits(n / 10) + [DigitChar(n % 10)]
  }

  /** The number a string of digits denotes (leading zeros allowed). */
  function DigitsValue(s: string): nat
    requires AllDigits(s)
  {
    if s == [] then 0
    else DigitsValue(s[..|s| - 1]) * 10 + (s[|s| - 1] as int - '0' as int)
  }

  /** `str(n)` for an integer. */
  function Decimal(n: int): string {
    if n < 0 then "-" + NatDigits(-n) else NatDigits(n)
  }

  /** Reads back what `Decimal` writes: an optional minus sign, then digits. */
  function ParseDecimal(s: string): Option<int> {
    if |s| >= 2 && s[0] == '-' && AllDigits(s[1..]) then Some(-(DigitsValue(s[1..]) as int))
    else if |s| >= 1 && AllDigits(s) then Some(DigitsValue(s))
    else None
  }

  lemma {:induction false} NatDigitsRoundTrip(n: nat)
    ensures DigitsValue(NatDigits(n)) == n
  {
    if n >= 10 {
      NatDigitsRoundTrip(n / 10);
      var r := NatDigits(n);
      assert r[..|r| - 1] == NatDigits(n / 10);
    }
  }

  /** `str(n)` is read back as `n` by `int()`: the decimal text of an integer is faithful. */
  lemma DecimalRoundTrip(n: int)
    ensures ParseDecimal(Decimal(n)) == Some(n)
  {
    NatDigitsRoundTrip(if n < 0 then -n else n);
    if n < 0 {
      assert Decimal(n)[1..] == NatDigits(-n);
    }
  }

  /** `'{:02d}'.format(n)`: at least two characters, zero-padded on the left; the sign of a
      negative number already makes it two characters wide. */
  function Pad2(n: int): string {
    if 0 <= n < 10 then "0" + Decimal(n) else Decimal(n)
  }

  /** A non-negative track number is rendered as at least two digits that denote it; a
      negative one as its plain decimal text. */
  lemma Pad2Spec(n: int)
    ensures |Pad2(n)| >= 2
    ensures n >= 0 ==> AllDigits(Pad2(n)) && DigitsValue(Pad2(n)) == n
    ensures n >= 10 || n < 0 ==> Pad2(n) == Decimal(n)
    ensures 0 <= n < 10 ==> Pad2(n) == ['0', DigitChar(n)]
  {
    if n >= 0 {
      NatDigitsRoundTrip(n);
      if n < 10 {
        var p := Pad2(n);
        assert p[..1] == "0";
      }
    }
  }

  /** `str(v)` (equally `format(v, '')`) for a stored value. */
  function Str(v: Value): string {
    match v
    case Text(s) => s
    case Int(n) => Decimal(n)
    case Bool(b) => if b then "True" else "False"
    case NoneValue => "None"
  }

  // ---------------------------------------------------------------- case mapping

  function LowerChar(c: char): char {
    if 'A' <= c <= 'Z' then (c as int + 32) as char else c
  }

  /** `str.lower()` on a byte string: only ASCII letters change. */
  function Lower(s: string): string
  {
    if s == [] then [] else [LowerChar(s[0])] + Lower(s[1..])
  }

  /** `lower()` maps each character on its own and keeps the length. */
  lemma {:induction false} LowerSpec(s: string)
    ensures |Lower(s)| == |s|
    ensures forall i :: 0 <= i < |s| ==> Lower(s)[i] == LowerChar(s[i])
  {
    if s != [] {
      LowerSpec(s[1..]);
    }
  }
}
