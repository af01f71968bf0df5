/**
 The text of anonymous speaker names (service.rs): "Speaker <n>", read and written in decimal.
 */
module SpeakerNames {
  import opened Wrappers

  const U32_MAX: nat := 0xFFFF_FFFF
  const PREFIX := "Speaker "

  predicate IsDigit(c: char) { '0' <= c <= '9' }

  predicate AllDigits(s: string) {
    forall i :: 0 <= i < |s| ==> IsDigit(s[i])
  }

  /** Characters that trimming removes: those with the Unicode White_Space property. */
  predicate IsSpace(c: char) {
    || '\t' <= c <= '\r' || c == ' ' || c == '\U{0085}' || c == '\U{00A0}' || c == '\U{1680}'
    || '\U{2000}' <= c <= '\U{200A}' || c == '\U{2028}' || c == '\U{2029}' || c == '\U{202F}'
    || c == '\U{205F}' || c == '\U{3000}'
  }

  function Trim(s: string): string {
    if s == [] then s
    else if IsSpace(s[0]) then Trim(s[1..])
    else if IsSpace(s[|s| - 1]) then Trim(s[..|s| - 1])
    else s
  }

  ghost predicate SpacesIn(s: string, low: nat, high: nat)
    requires high <= |s|
  {
    forall i :: low <= i < high ==> IsSpace(s[i])
  }

  ghost predicate AllSpaces(s: string) {
    SpacesIn(s, 0, |s|)
  }

  /** A stretch of the text that neither begins nor ends with a space, and nothing but spaces around it. */
  ghost predicate Between(s: string, low: nat, high: nat, t: string)
    requires low <= high <= |s|
  {
    && t == s[low..high] && SpacesIn(s, 0, low) && SpacesIn(s, high, |s|)
    && (t != "" ==> !IsSpace(t[0]) && !IsSpace(t[|t| - 1]))
  }

  ghost predicate WithoutSpacesAround(s: string, t: string) {
    exists low, high | 0 <= low <= high <= |s| :: Between(s, low, high, t)
  }

  lemma SpaceInFront(s: string, low: nat, high: nat, t: string)
    requires s != "" && IsSpace(s[0]) && low <= high < |s| && Between(s[1..], low, high, t)
    ensures Between(s, low + 1, high + 1, t)
  {
    assert forall i :: 0 < i < |s| ==> s[i] == s[1..][i - 1];
    assert s[low + 1..high + 1] == s[1..][low..high];
  }

  lemma SpaceBehind(s: string, low: nat, high: nat, t: string)
    requires s != "" && IsSpace(s[|s| - 1]) && low <= high < |s| && Between(s[..|s| - 1], low, high, t)
    ensures Between(s, low, high, t)
  {
    assert forall i :: 0 <= i < |s| - 1 ==> s[i] == s[..|s| - 1][i];
    assert s[low..high] == s[..|s| - 1][low..high];
  }

  lemma {:induction false} TrimmingTakesSpacesOff(s: string) returns (low: nat, high: nat)
    ensures low <= high <= |s| && Between(s, low, high, Trim(s))
  {
    if s == [] {
      low, high := 0, 0;
    } else if IsSpace(s[0]) {
      low, high := TrimmingTakesSpacesOff(s[1..]);
      SpaceInFront(s, low, high, Trim(s));
      low, high := low + 1, high + 1;
    } else if IsSpace(s[|s| - 1]) {
      low, high := TrimmingTakesSpacesOff(s[..|s| - 1]);
      SpaceBehind(s, low, high, Trim(s));
    } else {
      low, high := 0, |s|;
    }
  }

  /** There is only one such stretch. */
  lemma OneStretchIsLeft(s: string, low: nat, high: nat, t: string, from: nat, to: nat, u: string)
    requires low <= high <= |s| && Between(s, low, high, t)
    requires from <= to <= |s| && Between(s, from, to, u)
    ensures t == u
  {
    assert t != "" ==> s[low] == t[0] && s[high - 1] == t[|t| - 1];
    assert u != "" ==> s[from] == u[0] && s[to - 1] == u[|u| - 1];
  }

  /** Trimming leaves the one stretch with only spaces around it, and nothing of a text of spaces. */
  lemma TrimLeavesTheStretch(s: string, t: string)
    ensures WithoutSpacesAround(s, t) <==> t == Trim(s)
    ensures Trim(s) == "" <==> AllSpaces(s)
  {
    var low, high := TrimmingTakesSpacesOff(s);
    if WithoutSpacesAround(s, t) {
      var from, to :| 0 <= from <= to <= |s| && Between(s, from, to, t);
      OneStretchIsLeft(s, low, high, Trim(s), from, to, t);
    }
  }

  function DigitsValue(s: string): nat
    requires AllDigits(s)
  {
    if s == [] then 0 else 10 * DigitsValue(s[..|s| - 1]) + (s[|s| - 1] - '0') as nat
  }

  /** Parsing a u32: an optional plus sign, then decimal digits that fit 32 bits. */
  function ParseU32(s: string): Option<nat> {
    var digits := if |s| > 0 && s[0] == '+' then s[1..] else s;
    if digits == [] || !AllDigits(digits) || DigitsValue(digits) > U32_MAX then None
    else Some(DigitsValue(digits))
  }

  function Decimal(n: nat): string {
    var last := [('0' as int + n % 10) as char];
    if n < 10 then last else Decimal(n / 10) + last
  }

  lemma {:induction false} DecimalReadsBack(n: nat)
    ensures Decimal(n) != [] && AllDigits(Decimal(n)) && DigitsValue(Decimal(n)) == n
  {
    var s := Decimal(n);
    assert (s[|s| - 1] - '0') as nat == n % 10;
    if n < 10 {
      assert s[..|s| - 1] == [];
    } else {
      DecimalReadsBack(n / 10);
      assert s[..|s| - 1] == Decimal(n / 10);
    }
  }

  lemma DecimalParses(n: nat)
    ensures ParseU32(Decimal(n)) == if n <= U32_MAX then Some(n) else None
  {
    DecimalReadsBack(n);
    assert IsDigit(Decimal(n)[0]);
  }

  /** The number in a name of the form "Speaker <n>" with n positive. */
  function NumberedName(name: string): Option<nat> {
    var trimmed := Trim(name);
    if PREFIX <= trimmed then
      var parsed := ParseU32(trimmed[|PREFIX|..]);
      if parsed.Some? && parsed.value > 0 then parsed else None
    else None
  }

  /** The prefix and a number in decimal, with or without a plus sign. */
  ghost predicate WritesNumber(t: string, digits: string, n: nat) {
    && digits != "" && AllDigits(digits) && DigitsValue(digits) == n
    && (t == "Speaker " + digits || t == "Speaker +" + digits)
  }

  lemma PrefixedNumbers(t: string, n: nat) returns (digits: string)
    requires PREFIX <= t && ParseU32(t[|PREFIX|..]) == Some(n)
    ensures WritesNumber(t, digits, n) && n <= U32_MAX
  {
    var rest := t[|PREFIX|..];
    assert t == PREFIX + rest;
    if rest[0] == '+' {
      digits := rest[1..];
      assert rest == "+" + digits;
      assert t == "Speaker +" + digits;
    } else {
      digits := rest;
    }
  }

  lemma WrittenNumbersParse(t: string, digits: string, n: nat)
    requires WritesNumber(t, digits, n) && n <= U32_MAX
    ensures PREFIX <= t && ParseU32(t[|PREFIX|..]) == Some(n)
  {
    assert IsDigit(digits[0]);
    if t == "Speaker " + digits {
      assert t[|PREFIX|..] == digits;
    } else {
      assert t[|PREFIX|..] == "+" + digits;
      assert ("+" + digits)[1..] == digits;
    }
  }

  /** A name is numbered exactly if, without the spaces around it, it is the prefix and a positive number of 32 bits. */
  lemma NumberedNamesReadExactly(name: string, n: nat)
    ensures NumberedName(name) == Some(n)
       <==> 0 < n <= U32_MAX && exists t, digits :: WithoutSpacesAround(name, t) && WritesNumber(t, digits, n)
  {
    TrimLeavesTheStretch(name, Trim(name));
    if NumberedName(name) == Some(n) {
      var digits := PrefixedNumbers(Trim(name), n);
    }
    if 0 < n <= U32_MAX {
      forall t, digits | WithoutSpacesAround(name, t) && WritesNumber(t, digits, n) ensures NumberedName(name) == Some(n) {
        TrimLeavesTheStretch(name, t);
        WrittenNumbersParse(t, digits, n);
      }
    }
  }

  function AnonymousName(n: nat): string { PREFIX + Decimal(n) }

  lemma AnonymousNameReadsBack(n: nat)
    requires 0 < n <= U32_MAX
    ensures NumberedName(AnonymousName(n)) == Some(n)
  {
    DecimalReadsBack(n);
    DecimalParses(n);
    var name := AnonymousName(n);
    assert name[0] == 'S' && IsDigit(name[|name| - 1]);
    assert Trim(name) == name;
    assert PREFIX <= name && name[|PREFIX|..] == Decimal(n);
  }

  function TrailingDigits(cluster: string): (digits: string)
    ensures AllDigits(digits)
  {
    if cluster != [] && IsDigit(cluster[|cluster| - 1]) then
      TrailingDigits(cluster[..|cluster| - 1]) + [cluster[|cluster| - 1]]
    else []
  }

  /** The number a cluster label prefers: its trailing digits plus one, if that fits. */
  function NumberFromLabel(cluster: string): (preferred: Option<nat>)
    ensures preferred.Some? ==> 0 < preferred.value <= U32_MAX
  {
    var parsed := ParseU32(TrailingDigits(cluster));
    if parsed.Some? && parsed.value < U32_MAX then Some(parsed.value + 1) else None
  }

  lemma {:induction false} TrailingDigitsAreTheLast(stem: string, digits: string)
    requires AllDigits(digits) && (stem != "" ==> !IsDigit(stem[|stem| - 1]))
    ensures TrailingDigits(stem + digits) == digits
    decreases |digits|
  {
    if digits != "" {
      var all, rest := stem + digits, digits[..|digits| - 1];
      assert all[..|all| - 1] == stem + rest;
      TrailingDigitsAreTheLast(stem, rest);
      assert all[|all| - 1] == digits[|digits| - 1];
    } else {
      assert stem + digits == stem;
    }
  }

  /** A label that ends in the number n stands for speaker n + 1, if that fits 32 bits. */
  lemma LabelNumberReadsBack(stem: string, n: nat)
    requires stem != "" ==> !IsDigit(stem[|stem| - 1])
    ensures NumberFromLabel(stem + Decimal(n)) == if n < U32_MAX then Some(n + 1) else None
  {
    DecimalReadsBack(n);
    TrailingDigitsAreTheLast(stem, Decimal(n));
    DecimalParses(n);
  }

  /** A label without a number at its end stands for none. */
  lemma UnnumberedLabelHasNoNumber(cluster: string)
    requires cluster != "" ==> !IsDigit(cluster[|cluster| - 1])
    ensures NumberFromLabel(cluster) == None
  {
    assert TrailingDigits(cluster) == "";
  }

  function DefaultName(cluster: string): string {
    AnonymousName(NumberFromLabel(cluster).GetOr(1))
  }

  /** A default name is the first anonymous one unless the label ends in a number. */
  lemma DefaultNamesFollowTheLabel(stem: string, n: nat)
    requires stem != "" ==> !IsDigit(stem[|stem| - 1])
    ensures DefaultName(stem) == AnonymousName(1)
    ensures n < U32_MAX ==> DefaultName(stem + Decimal(n)) == AnonymousName(n + 1)
  {
    UnnumberedLabelHasNoNumber(stem);
    LabelNumberReadsBack(stem, n);
  }

  predicate IsPlaceholder(name: string) {
    name == "Unknown" || name == "Unknown speaker"
  }
}
