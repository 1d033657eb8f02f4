/** The behaviour of the few Python built-ins that the LS-8 CPU relies on:
    list indexing (a negative index counts from the end, anything else
    raises IndexError), `str.split(sep)[0]`, `str.strip()` and
    `int(text, 2)`. */
module PyBuiltins {

  /** The exceptions the CPU can raise. */
  datatype PyError =
    | IndexError                   // a list index out of range
    | ValueError(literal: string)  // `int(literal, 2)` rejected its argument
    | UnsupportedAluOperation      // the ALU was asked for an operation it lacks

  datatype Option<+T> = None | Some(value: T)

  /** A value, or the exception raised instead of producing it. */
  datatype Result<+T> = Ok(value: T) | Err(error: PyError)

  // ---------------------------------------------------------------------
  // List indexing
  // ---------------------------------------------------------------------

  /** The cell that `xs[i]` denotes in a list of length `n`, or None when
      Python raises IndexError. A negative index is the Euclidean residue. */
  function Index(i: int, n: nat): (r: Option<nat>)
    ensures r.Some? <==> -(n as int) <= i < n
    ensures r.Some? ==> r.value < n && r.value == i % n
  {
    if 0 <= i < n then Some(i)
    else if -(n as int) <= i < 0 then Some(i + n)
    else None
  }

  /** `xs[i]`. */
  function Get<T>(xs: seq<T>, i: int): Result<T> {
    match Index(i, |xs|)
    case Some(k) => Ok(xs[k])
    case None => Err(IndexError)
  }

  /** The list after `xs[i] = v`, or the IndexError that assignment raises. */
  function Set<T>(xs: seq<T>, i: int, v: T): (r: Result<seq<T>>)
    ensures r.Ok? <==> -|xs| <= i < |xs|
    ensures r.Ok? ==> |r.value| == |xs| && r.value[i % |xs|] == v
    ensures r.Ok? ==> forall j :: 0 <= j < |xs| && j != i % |xs| ==> r.value[j] == xs[j]
  {
    match Index(i, |xs|)
    case Some(k) => Ok(xs[k := v])
    case None => Err(IndexError)
  }

  /** Reading a cell right after writing a cell: the written value when both
      indices name the same cell (5 and -3 do in a list of 8), the old
      contents otherwise. */
  lemma GetAfterSet<T>(xs: seq<T>, i: int, v: T, j: int)
    requires Set(xs, i, v).Ok?
    ensures Get(Set(xs, i, v).value, j) ==
            if Index(j, |xs|) == Index(i, |xs|) then Ok(v) else Get(xs, j)
  {
  }

  // ---------------------------------------------------------------------
  // str.split(sep)[0] and str.strip()
  // ---------------------------------------------------------------------

  /** `s.split(sep)[0]`: the text before the first `sep`, or all of `s`. */
  function SplitHead(s: string, sep: char): (r: string)
    ensures r <= s
    ensures sep !in r
    ensures |r| < |s| ==> s[|r|] == sep
  {
    if s == [] || s[0] == sep then [] else [s[0]] + SplitHead(s[1..], sep)
  }

  /** The characters Python's `str.isspace()` accepts, which are the ones
      `str.strip()` removes when given no argument. */
  predicate IsSpace(c: char) {
    || '\U{9}' <= c <= '\U{D}'
    || '\U{1C}' <= c <= '\U{20}'
    || c == '\U{85}' || c == '\U{A0}' || c == '\U{1680}'
    || '\U{2000}' <= c <= '\U{200A}'
    || c == '\U{2028}' || c == '\U{2029}' || c == '\U{202F}' || c == '\U{205F}'
    || c == '\U{3000}'
  }

  /** `s.lstrip()`. */
  function TrimLeft(s: string): (r: string)
    ensures |r| <= |s|
  {
    if s != [] && IsSpace(s[0]) then TrimLeft(s[1..]) else s
  }

  /** `s.rstrip()`. */
  function TrimRight(s: string): string {
    if s != [] && IsSpace(s[|s| - 1]) then TrimRight(s[..|s| - 1]) else s
  }

  /** `s.strip()`. */
  function Strip(s: string): string {
    TrimRight(TrimLeft(s))
  }

  /** The number of whitespace characters `s` starts with. */
  function LeadingSpace(s: string): nat {
    |s| - |TrimLeft(s)|
  }

  /** `lstrip` keeps a suffix of `s`, drops only whitespace, and stops at the
      first character that is not whitespace. */
  lemma {:induction false} TrimLeftDropsLeadingSpace(s: string)
    ensures var r := TrimLeft(s);
      && |r| <= |s| && r == s[|s| - |r|..]
      && (forall k :: 0 <= k < |s| - |r| ==> IsSpace(s[k]))
      && (r != [] ==> !IsSpace(r[0]))
  {
    if s != [] && IsSpace(s[0]) {
      TrimLeftDropsLeadingSpace(s[1..]);
    }
  }

  /** `rstrip` keeps a prefix of `s`, drops only whitespace, and stops at the
      last character that is not whitespace. */
  lemma {:induction false} TrimRightDropsTrailingSpace(s: string)
    ensures var r := TrimRight(s);
      && r <= s
      && (forall k :: |r| <= k < |s| ==> IsSpace(s[k]))
      && (r != [] ==> !IsSpace(r[|r| - 1]))
  {
    if s != [] && IsSpace(s[|s| - 1]) {
      TrimRightDropsTrailingSpace(s[..|s| - 1]);
    }
  }

  /** `strip` keeps the part of `s` after its leading whitespace that neither
      starts nor ends with whitespace; it is empty exactly when `s` is all
      whitespace. */
  lemma StripTrims(s: string)
    ensures var r := Strip(s);
      && (r == [] <==> forall k :: 0 <= k < |s| ==> IsSpace(s[k]))
      && (r != [] ==> !IsSpace(r[0]) && !IsSpace(r[|r| - 1]))
      && LeadingSpace(s) + |r| <= |s| && r == s[LeadingSpace(s)..LeadingSpace(s) + |r|]
  {
    TrimLeftDropsLeadingSpace(s);
    TrimRightDropsTrailingSpace(TrimLeft(s));
  }

  /** What `strip` removes is whitespace, on both sides of what it keeps;
      with StripTrims this determines `strip()` completely. */
  lemma StripDropsOnlySpace(s: string)
    ensures LeadingSpace(s) + |Strip(s)| <= |s|
    ensures forall k :: 0 <= k < LeadingSpace(s) ==> IsSpace(s[k])
    ensures forall k :: LeadingSpace(s) + |Strip(s)| <= k < |s| ==> IsSpace(s[k])
  {
    var t := TrimLeft(s);
    TrimLeftDropsLeadingSpace(s);
    TrimRightDropsTrailingSpace(t);
    var a := LeadingSpace(s);
    forall k | a + |Strip(s)| <= k < |s|
      ensures IsSpace(s[k])
    {
      assert s[k] == t[k - a];
    }
  }

  // ---------------------------------------------------------------------
  // int(text, 2)
  // ---------------------------------------------------------------------

  predicate IsBit(c: char) { c == '0' || c == '1' }

  /** The digit part of a base-2 literal: one or more bits, with a single
      underscore allowed between two bits. Read from the right: a bit,
      preceded by nothing, by a shorter digit part, or by an underscore and
      a shorter digit part. */
  predicate WellFormedDigits(u: string)
    decreases |u|
  {
    && |u| > 0 && IsBit(u[|u| - 1])
    && (|u| == 1 ||
        if u[|u| - 2] == '_' then |u| >= 3 && WellFormedDigits(u[..|u| - 2])
        else WellFormedDigits(u[..|u| - 1]))
  }

  /** A literal made of bits alone is well formed whenever it is not empty. */
  lemma {:induction false} BitsAreWellFormed(u: string)
    requires |u| > 0 && forall k :: 0 <= k < |u| ==> IsBit(u[k])
    ensures WellFormedDigits(u)
  {
    if |u| > 1 {
      BitsAreWellFormed(u[..|u| - 1]);
    }
  }

  /** The number the bits of `u` spell, most significant first; underscores
      are skipped. */
  function DigitsValue(u: string): nat {
    if u == [] then 0
    else if u[|u| - 1] == '_' then DigitsValue(u[..|u| - 1])
    else 2 * DigitsValue(u[..|u| - 1]) + (if u[|u| - 1] == '1' then 1 else 0)
  }

  /** The digits left after the optional `0b`/`0B` prefix and the single
      underscore Python allows right after it. */
  function DropBasePrefix(t: string): string {
    if |t| >= 2 && t[0] == '0' && (t[1] == 'b' || t[1] == 'B') then
      if |t| >= 3 && t[2] == '_' then t[3..] else t[2..]
    else t
  }

  /** `int(s, 2)` for a string without surrounding whitespace: an optional
      sign, an optional `0b` prefix, then the digits; None where Python
      raises ValueError. */
  function ParseBinary(s: string): (r: Option<int>)
    ensures r.Some? ==> |s| > 0
    ensures r.Some? && r.value < 0 ==> s[0] == '-'
  {
    var negative := |s| > 0 && s[0] == '-';
    var unsigned := if |s| > 0 && (s[0] == '+' || s[0] == '-') then s[1..] else s;
    var digits := DropBasePrefix(unsigned);
    if WellFormedDigits(digits) then
      Some(if negative then -(DigitsValue(digits) as int) else DigitsValue(digits))
    else None
  }

  /** The characters a base-2 literal may contain anywhere. */
  predicate IsLiteralChar(c: char) {
    IsBit(c) || c == '_' || c == '+' || c == '-' || c == 'b' || c == 'B'
  }

  lemma {:induction false} WellFormedDigitsChars(u: string)
    requires WellFormedDigits(u)
    ensures forall k :: 0 <= k < |u| ==> IsBit(u[k]) || u[k] == '_'
    decreases |u|
  {
    if |u| > 1 {
      var p := if u[|u| - 2] == '_' then u[..|u| - 2] else u[..|u| - 1];
      WellFormedDigitsChars(p);
      assert forall k :: 0 <= k < |p| ==> u[k] == p[k];
    }
  }

  /** `int(s, 2)` raises ValueError on the empty string and on any string
      holding a character no base-2 literal contains (a space inside the
      digits, a '2', a '#'). */
  lemma ParseBinaryRejects(s: string, k: nat)
    requires s == [] || (k < |s| && !IsLiteralChar(s[k]))
    ensures ParseBinary(s) == None
  {
    if s != [] && ParseBinary(s).Some? {
      var unsigned := if s[0] == '+' || s[0] == '-' then s[1..] else s;
      var digits := DropBasePrefix(unsigned);
      WellFormedDigitsChars(digits);
      assert false;
    }
  }

  function BitChar(b: nat): char
    requires b < 2
  {
    if b == 1 then '1' else '0'
  }

  /** The shortest base-2 spelling of `n` (what `format(n, 'b')` prints). */
  function ToBinary(n: nat): (r: string)
    ensures |r| > 0
    decreases n
  {
    if n < 2 then [BitChar(n)] else ToBinary(n / 2) + [BitChar(n % 2)]
  }

  lemma {:induction false} ToBinaryDigits(n: nat)
    ensures DigitsValue(ToBinary(n)) == n
    ensures forall k :: 0 <= k < |ToBinary(n)| ==> IsBit(ToBinary(n)[k])
    ensures n >= 2 ==> ToBinary(n)[0] == '1'
    decreases n
  {
    var r := ToBinary(n);
    if n >= 2 {
      ToBinaryDigits(n / 2);
      var p := ToBinary(n / 2);
      assert r == p + [BitChar(n % 2)];
      assert r[..|r| - 1] == p;
    }
  }

  /** Parsing what ToBinary prints gives back the number, with or without
      a minus sign. */
  lemma BinaryRoundTrip(n: nat)
    ensures ParseBinary(ToBinary(n)) == Some(n)
    ensures ParseBinary(['-'] + ToBinary(n)) == Some(-(n as int))
  {
    ToBinaryDigits(n);
    var r := ToBinary(n);
    BitsAreWellFormed(r);
    assert DropBasePrefix(r) == r by {
      if |r| >= 2 { assert r[0] == '1'; }
    }
    assert (['-'] + r)[1..] == r;
  }

  /** A non-empty string of bits, leading zeros and all, is a literal
      whose value is the number its bits spell. */
  lemma BitsLiteralValue(s: string)
    requires |s| > 0 && forall k :: 0 <= k < |s| ==> IsBit(s[k])
    ensures ParseBinary(s) == Some(DigitsValue(s) as int)
  {
    assert DropBasePrefix(s) == s by {
      if |s| >= 2 { assert IsBit(s[1]); }
    }
    assert IsBit(s[0]);
    BitsAreWellFormed(s);
  }

  /** `k` zero characters. */
  function Zeros(k: nat): (r: string)
    ensures |r| == k && forall j :: 0 <= j < k ==> r[j] == '0'
  {
    seq(k, _ => '0')
  }

  /** Leading zeros do not change the value a string of bits spells. */
  lemma {:induction false} DigitsValueLeadingZeros(k: nat, u: string)
    ensures DigitsValue(Zeros(k) + u) == DigitsValue(u)
    decreases |u|, k
  {
    if u == [] {
      assert Zeros(k) + u == Zeros(k);
      if k > 0 {
        assert Zeros(k)[..k - 1] == Zeros(k - 1);
        DigitsValueLeadingZeros(k - 1, u);
        assert Zeros(k - 1) + u == Zeros(k - 1);
      }
    } else {
      var z := Zeros(k) + u;
      assert z[..|z| - 1] == Zeros(k) + u[..|u| - 1];
      assert z[|z| - 1] == u[|u| - 1];
      DigitsValueLeadingZeros(k, u[..|u| - 1]);
    }
  }

  /** The base-2 spelling of `n` padded with any number of leading zeros,
      as LS-8 programs write their bytes, parses back to `n`. */
  lemma PaddedBinary(k: nat, n: nat)
    ensures ParseBinary(Zeros(k) + ToBinary(n)) == Some(n as int)
  {
    var s := Zeros(k) + ToBinary(n);
    ToBinaryDigits(n);
    assert forall j :: 0 <= j < |s| ==> IsBit(s[j]) by {
      forall j | 0 <= j < |s| ensures IsBit(s[j]) {
        if j >= k { assert s[j] == ToBinary(n)[j - k]; }
      }
    }
    BitsLiteralValue(s);
    DigitsValueLeadingZeros(k, ToBinary(n));
  }

  lemma {:induction false} DigitsValueBound(u: string)
    requires forall k :: 0 <= k < |u| ==> IsBit(u[k])
    ensures DigitsValue(u) < Pow2(|u|)
  {
    if u != [] {
      DigitsValueBound(u[..|u| - 1]);
    }
  }

  function Pow2(k: nat): (r: nat)
    ensures r > 0
  {
    if k == 0 then 1 else 2 * Pow2(k - 1)
  }

  /** An eight-character line of bits, the way LS-8 programs are written,
      parses to the byte its bits spell. */
  lemma ByteLiteral(s: string)
    requires |s| == 8 && forall k :: 0 <= k < 8 ==> IsBit(s[k])
    ensures ParseBinary(s) == Some(DigitsValue(s) as int) && DigitsValue(s) < 256
  {
    BitsLiteralValue(s);
    DigitsValueBound(s);
    assert Pow2(8) == 256;
  }
}
