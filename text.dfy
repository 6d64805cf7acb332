/** The string operations the screens use — `toLowerCase`, `trim`, `includes`,
    `replace(/[^0-9]/g, '')` and the decimal rendering of small numbers — on
    an explicit character model: case folding is ASCII's, white space is the
    set JavaScript's `trim` removes. */
module Text {
  import Seqs

  /** The characters `String.prototype.trim` strips: the ECMAScript WhiteSpace
      and LineTerminator code points. */
  predicate IsWhitespace(c: char)
  {
    var n := c as int;
    n == 0x09 || n == 0x0A || n == 0x0B || n == 0x0C || n == 0x0D || n == 0x20
    || n == 0xA0 || n == 0x1680 || (0x2000 <= n <= 0x200A) || n == 0x2028 || n == 0x2029
    || n == 0x202F || n == 0x205F || n == 0x3000 || n == 0xFEFF
  }

  /** Space, tab and the line breaks are white space; no letter or digit
      is, so trimming never removes one. */
  lemma WhitespaceClass(c: char)
    ensures c == ' ' || c == '\t' || c == '\n' || c == '\r' ==> IsWhitespace(c)
    ensures IsWhitespace(c) ==> !IsDigit(c) && !IsUpper(c) && !('a' <= c <= 'z')
  {
  }

  predicate IsUpper(c: char) { 'A' <= c <= 'Z' }

  function LowerChar(c: char): (r: char)
    ensures !IsUpper(r)
    ensures !IsUpper(c) ==> r == c
    ensures IsWhitespace(r) <==> IsWhitespace(c)
  {
    if IsUpper(c) then (c as int + 32) as char else c
  }

  /** `s.toLowerCase()` on ASCII letters. */
  function ToLower(s: string): (r: string)
    ensures |r| == |s|
    ensures forall i :: 0 <= i < |s| ==> r[i] == LowerChar(s[i])
  {
    if s == [] then [] else [LowerChar(s[0])] + ToLower(s[1..])
  }

  ghost predicate IsLowered(s: string)
  {
    forall i :: 0 <= i < |s| ==> !IsUpper(s[i])
  }

  /** Lower-casing yields a lowered string and leaves lowered strings alone. */
  lemma ToLowerFacts(s: string)
    ensures IsLowered(ToLower(s))
    ensures IsLowered(s) ==> ToLower(s) == s
  {
  }

  /** Every slice of a lowered string is lowered. */
  lemma LoweredSlice(s: string, i: nat, j: nat)
    requires i <= j <= |s| && IsLowered(s)
    ensures IsLowered(s[i..j])
  {
    forall k | 0 <= k < j - i ensures !IsUpper(s[i..j][k]) {
      assert s[i..j][k] == s[i + k];
    }
  }

  /** Lower-casing commutes with slicing. */
  lemma {:induction false} ToLowerSlice(s: string, i: nat, j: nat)
    requires i <= j <= |s|
    ensures ToLower(s[i..j]) == ToLower(s)[i..j]
  {
    var w, l := s[i..j], ToLower(s);
    forall k | 0 <= k < |w| ensures ToLower(w)[k] == l[i..j][k] {
      assert w[k] == s[i + k];
    }
  }

  /** Remove leading white space. */
  function TrimStart(s: string): (r: string)
    ensures |r| <= |s| && r == s[|s| - |r|..]
    ensures r != [] ==> !IsWhitespace(r[0])
    ensures forall i :: 0 <= i < |s| - |r| ==> IsWhitespace(s[i])
  {
    if s != [] && IsWhitespace(s[0]) then TrimStart(s[1..]) else s
  }

  /** Remove trailing white space. */
  function TrimEnd(s: string): (r: string)
    ensures |r| <= |s| && r == s[..|r|]
    ensures r != [] ==> !IsWhitespace(r[|r| - 1])
    ensures forall i :: |r| <= i < |s| ==> IsWhitespace(s[i])
  {
    if s != [] && IsWhitespace(s[|s| - 1]) then TrimEnd(s[..|s| - 1]) else s
  }

  /** `s.trim()`: white space removed at both ends. */
  function Trim(s: string): (r: string)
    ensures |r| <= |s|
    ensures r != [] ==> !IsWhitespace(r[0]) && !IsWhitespace(r[|r| - 1])
  {
    TrimEnd(TrimStart(s))
  }

  /** The trimmed string is the slice `s[i..j]`, and everything outside the
      slice is white space. */
  lemma {:induction false} TrimSlice(s: string) returns (i: nat, j: nat)
    ensures i <= j <= |s| && Trim(s) == s[i..j]
    ensures forall k :: 0 <= k < i ==> IsWhitespace(s[k])
    ensures forall k :: j <= k < |s| ==> IsWhitespace(s[k])
  {
    var t := TrimStart(s);
    i := |s| - |t|;
    j := i + |TrimEnd(t)|;
    assert forall k :: j <= k < |s| ==> s[k] == t[k - i];
  }

  /** A string that neither starts nor ends with white space is its own trim. */
  lemma {:induction false} TrimOfTrimmed(s: string)
    requires s != [] ==> !IsWhitespace(s[0]) && !IsWhitespace(s[|s| - 1])
    ensures Trim(s) == s
  {
    assert TrimStart(s) == s;
    assert TrimEnd(s) == s;
  }

  /** Trimming is idempotent. */
  lemma TrimIdempotent(s: string)
    ensures Trim(Trim(s)) == Trim(s)
  {
    TrimOfTrimmed(Trim(s));
  }

  /** `hay.includes(needle)`: `needle` occurs in `hay` at some offset (see
      `IncludesMeansOccurs`). A prefix, the empty needle among them, is
      included, and nothing longer than `hay` is. */
  function Includes(hay: string, needle: string): (b: bool)
    ensures needle <= hay ==> b
    ensures b ==> |needle| <= |hay|
    decreases |hay|
  {
    needle <= hay || (hay != [] && Includes(hay[1..], needle))
  }

  /** `needle` sits in `hay` starting at offset `i`. */
  ghost predicate OccursAt(hay: string, needle: string, i: int)
  {
    0 <= i && i + |needle| <= |hay| && hay[i..i + |needle|] == needle
  }

  /** `includes` means: `needle` sits in `hay` at some offset. */
  lemma {:induction false} IncludesMeansOccurs(hay: string, needle: string)
    ensures Includes(hay, needle) <==> exists i :: OccursAt(hay, needle, i)
    decreases |hay|
  {
    if hay == [] {
      if needle == [] {
        assert OccursAt(hay, needle, 0);
      }
    } else {
      IncludesMeansOccurs(hay[1..], needle);
      if needle <= hay {
        assert OccursAt(hay, needle, 0);
      }
      if Includes(hay[1..], needle) {
        var i :| OccursAt(hay[1..], needle, i);
        assert hay[1..][i..i + |needle|] == hay[i + 1..i + 1 + |needle|];
        assert OccursAt(hay, needle, i + 1);
      }
      if exists i :: OccursAt(hay, needle, i) {
        var i :| OccursAt(hay, needle, i);
        if i == 0 {
          assert needle <= hay;
        } else {
          assert hay[1..][i - 1..i - 1 + |needle|] == hay[i..i + |needle|];
          assert OccursAt(hay[1..], needle, i - 1);
        }
      }
    }
  }

  /** The empty string is included in every string. */
  lemma EmptyIncluded(hay: string)
    ensures Includes(hay, "")
  {
  }

  predicate IsDigit(c: char) { '0' <= c <= '9' }

  /** `s.replace(/[^0-9]/g, '')`: the decimal digits of `s`, in order. Only
      digits survive and every digit survives. */
  function DigitsOnly(s: string): (r: string)
    ensures |r| <= |s|
    ensures forall i :: 0 <= i < |r| ==> IsDigit(r[i])
    ensures forall c :: c in s && IsDigit(c) ==> c in r
  {
    assert forall i :: 0 <= i < |Seqs.Filter(s, IsDigit)| ==> Seqs.Filter(s, IsDigit)[i] in Seqs.Filter(s, IsDigit);
    Seqs.Filter(s, IsDigit)
  }

  /** What the phone-number cleaning promises beyond `DigitsOnly`'s own
      contract: the order is kept, and cleaning twice is cleaning once. */
  lemma DigitsOnlyFacts(s: string)
    ensures Seqs.IsSubsequence(DigitsOnly(s), s)
    ensures DigitsOnly(DigitsOnly(s)) == DigitsOnly(s)
  {
    Seqs.FilterIsSubsequence(s, IsDigit);
    Seqs.FilterIdempotent(s, IsDigit);
  }

  function DigitChar(d: nat): (c: char)
    requires d < 10
    ensures IsDigit(c)
  {
    ('0' as int + d) as char
  }

  lemma DigitCharInjective(d: nat, e: nat)
    requires d < 10 && e < 10 && d != e
    ensures DigitChar(d) != DigitChar(e)
  {
  }

  /** Decimal rendering of a natural number (template-literal `${n}`). */
  function NatToString(n: nat): (r: string)
    ensures r != []
    ensures forall i :: 0 <= i < |r| ==> IsDigit(r[i])
    ensures n < 10 ==> r == [DigitChar(n)]
  {
    if n < 10 then [DigitChar(n)] else NatToString(n / 10) + [DigitChar(n % 10)]
  }
}
