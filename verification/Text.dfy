/** Strings as Python compares, strips and prints them: lexicographic order, whitespace, decimal numerals. */
module Text {
  import opened Common
  import opened Sorting

  // ----- Lexicographic order -----

  /** Python's comparison of two sequences: the first difference decides, a proper prefix is smaller. */
  predicate LexLe<T(==)>(le: (T, T) -> bool, a: seq<T>, b: seq<T>) {
    a == [] || (b != [] && if a[0] == b[0] then LexLe(le, a[1..], b[1..]) else le(a[0], b[0]))
  }

  lemma {:induction false} LexTotal<T(!new)>(le: (T, T) -> bool, a: seq<T>, b: seq<T>)
    requires TotalOrder(le)
    ensures LexLe(le, a, b) || LexLe(le, b, a)
  {
    if a != [] && b != [] && a[0] == b[0] {
      LexTotal(le, a[1..], b[1..]);
    }
  }

  lemma {:induction false} LexAntisymmetric<T(!new)>(le: (T, T) -> bool, a: seq<T>, b: seq<T>)
    requires TotalOrder(le)
    requires LexLe(le, a, b) && LexLe(le, b, a)
    ensures a == b
  {
    if a != [] && b != [] {
      assert a[0] == b[0];
      LexAntisymmetric(le, a[1..], b[1..]);
    }
  }

  lemma {:induction false} LexTransitive<T(!new)>(le: (T, T) -> bool, a: seq<T>, b: seq<T>, c: seq<T>)
    requires TotalOrder(le)
    requires LexLe(le, a, b) && LexLe(le, b, c)
    ensures LexLe(le, a, c)
  {
    if a != [] && b != [] && c != [] {
      if a[0] == b[0] == c[0] {
        LexTransitive(le, a[1..], b[1..], c[1..]);
      }
    }
  }

  /** Comparing two sequences of one length from a place on. */
  lemma LexDecides<T>(le: (T, T) -> bool, k: seq<T>, l: seq<T>, i: nat)
    requires |k| == |l| && i < |k|
    ensures LexLe(le, k[i..], l[i..]) <==> if k[i] == l[i] then LexLe(le, k[i + 1..], l[i + 1..]) else le(k[i], l[i])
  {
    assert k[i..][1..] == k[i + 1..] && l[i..][1..] == l[i + 1..];
  }

  predicate CharLe(a: char, b: char) {
    a <= b
  }

  predicate StringLe(a: string, b: string) {
    LexLe(CharLe, a, b)
  }

  /** The order of Python tuples of strings. */
  predicate TupleLe(a: seq<string>, b: seq<string>) {
    LexLe(StringLe, a, b)
  }

  lemma StringOrder()
    ensures TotalOrder(StringLe)
  {
    assert TotalOrder(CharLe);
    forall a, b
      ensures StringLe(a, b) || StringLe(b, a)
      ensures StringLe(a, b) && StringLe(b, a) ==> a == b
    {
      LexTotal(CharLe, a, b);
      if StringLe(a, b) && StringLe(b, a) {
        LexAntisymmetric(CharLe, a, b);
      }
    }
    forall a, b, c | StringLe(a, b) && StringLe(b, c)
      ensures StringLe(a, c)
    {
      LexTransitive(CharLe, a, b, c);
    }
  }

  lemma TupleOrder()
    ensures TotalOrder(TupleLe)
  {
    StringOrder();
    forall a, b
      ensures TupleLe(a, b) || TupleLe(b, a)
      ensures TupleLe(a, b) && TupleLe(b, a) ==> a == b
    {
      LexTotal(StringLe, a, b);
      if TupleLe(a, b) && TupleLe(b, a) {
        LexAntisymmetric(StringLe, a, b);
      }
    }
    forall a, b, c | TupleLe(a, b) && TupleLe(b, c)
      ensures TupleLe(a, c)
    {
      LexTransitive(StringLe, a, b, c);
    }
  }

  /** The texts agree up to here, where the first has the smaller character. */
  predicate FirstDiffersAt(a: string, b: string, i: nat) {
    i < |a| && i < |b| && a[..i] == b[..i] && a[i] < b[i]
  }

  /** The earlier text is a proper prefix, or has the smaller character where the two first differ. */
  ghost predicate TextBefore(a: string, b: string) {
    a < b || exists i: nat :: FirstDiffersAt(a, b, i)
  }

  lemma DiffersBehindSameHead(a: string, b: string, i: nat)
    requires a != [] && b != [] && a[0] == b[0]
    ensures FirstDiffersAt(a, b, i + 1) <==> FirstDiffersAt(a[1..], b[1..], i)
    ensures !FirstDiffersAt(a, b, 0)
  {
    if i < |a[1..]| && i < |b[1..]| {
      assert a[..i + 1] == [a[0]] + a[1..][..i] && b[..i + 1] == [b[0]] + b[1..][..i];
      assert a[..i + 1][1..] == a[1..][..i] && b[..i + 1][1..] == b[1..][..i];
    }
  }

  lemma BehindSameHead(a: string, b: string)
    requires a != [] && b != [] && a[0] == b[0]
    ensures TextBefore(a, b) <==> TextBefore(a[1..], b[1..])
  {
    assert a == [a[0]] + a[1..] && b == [b[0]] + b[1..];
    if i: nat :| FirstDiffersAt(a, b, i) {
      DiffersBehindSameHead(a, b, if i == 0 then 0 else i - 1);
    }
    if i: nat :| FirstDiffersAt(a[1..], b[1..], i) {
      DiffersBehindSameHead(a, b, i);
      assert FirstDiffersAt(a, b, i + 1);
    }
  }

  lemma OtherHead(a: string, b: string)
    requires a != [] && b != [] && a[0] != b[0]
    ensures TextBefore(a, b) <==> a[0] < b[0]
  {
    assert a[..0] == b[..0];
    assert FirstDiffersAt(a, b, 0) <==> a[0] < b[0];
    forall i: nat | 0 < i < |a| && i < |b|
      ensures a[..i] != b[..i]
    {
      assert a[..i][0] != b[..i][0];
    }
  }

  lemma {:induction false} TextBeforeExactly(a: string, b: string)
    ensures StringLe(a, b) && a != b <==> TextBefore(a, b)
  {
    if a != [] && b != [] {
      if a[0] == b[0] {
        BehindSameHead(a, b);
        TextBeforeExactly(a[1..], b[1..]);
        assert a == [a[0]] + a[1..] && b == [b[0]] + b[1..];
      } else {
        OtherHead(a, b);
      }
    }
  }

  // ----- Whitespace -----

  /** The characters `str.strip` removes. */
  predicate IsSpace(c: char) {
    || '\U{0009}' <= c <= '\U{000D}'
    || '\U{001C}' <= c <= '\U{0020}'
    || c in {'\U{0085}', '\U{00A0}', '\U{1680}', '\U{2028}', '\U{2029}', '\U{202F}', '\U{205F}', '\U{3000}'}
    || '\U{2000}' <= c <= '\U{200A}'
  }

  /** The characters Python strips, by code point. */
  lemma SpacesByCode(c: char)
    ensures IsSpace(c) <==>
            c as int in {9, 10, 11, 12, 13, 28, 29, 30, 31, 32, 133, 160, 5760, 8192, 8193, 8194, 8195, 8196, 8197,
                         8198, 8199, 8200, 8201, 8202, 8232, 8233, 8239, 8287, 12288}
  {
  }

  function StripLeft(s: string): string {
    if s != [] && IsSpace(s[0]) then StripLeft(s[1..]) else s
  }

  function StripRight(s: string): string {
    if s != [] && IsSpace(s[|s| - 1]) then StripRight(s[..|s| - 1]) else s
  }

  function Strip(s: string): string {
    StripRight(StripLeft(s))
  }

  /** Truth of `not s.strip()`. */
  predicate IsBlank(s: string) {
    Strip(s) == []
  }

  // ----- Decimal numerals -----

  /** The ASCII digits: other characters `str.isdigit` accepts are not modelled. */
  predicate IsDigit(c: char) {
    '0' <= c <= '9'
  }

  predicate AllDigits(s: string) {
    forall i :: 0 <= i < |s| ==> IsDigit(s[i])
  }

  function DigitValue(c: char): (d: nat)
    requires IsDigit(c)
    ensures d < 10
  {
    (c - '0') as nat
  }

  function DigitChar(d: nat): (c: char)
    requires d < 10
    ensures IsDigit(c) && DigitValue(c) == d
  {
    '0' + d as char
  }

  /** Python's `str(n)`. */
  function Decimal(n: nat): (s: string)
    ensures s != [] && AllDigits(s)
  {
    if n < 10 then [DigitChar(n)] else Decimal(n / 10) + [DigitChar(n % 10)]
  }

  function DigitsValue(s: string): nat
    requires AllDigits(s)
  {
    if s == [] then 0 else 10 * DigitsValue(s[..|s| - 1]) + DigitValue(s[|s| - 1])
  }

  /** Python's `int(s)` guarded by `s.isdigit()`. */
  function ParseDecimal(s: string): Option<nat> {
    if s != [] && AllDigits(s) then Some(DigitsValue(s)) else None
  }

  lemma {:induction false} ParseUndoesDecimal(n: nat)
    ensures ParseDecimal(Decimal(n)) == Some(n)
  {
    var s := Decimal(n);
    if n >= 10 {
      ParseUndoesDecimal(n / 10);
      assert s[..|s| - 1] == Decimal(n / 10);
      assert s[|s| - 1] == DigitChar(n % 10);
      assert DigitsValue(s) == 10 * DigitsValue(Decimal(n / 10)) + n % 10;
    }
  }

  lemma {:induction false} StripOfSpaceless(s: string)
    requires forall i :: 0 <= i < |s| ==> !IsSpace(s[i])
    ensures Strip(s) == s
  {
  }

  lemma NumeralIsStripped(s: string)
    requires AllDigits(s)
    ensures Strip(s) == s
  {
    forall i | 0 <= i < |s|
      ensures !IsSpace(s[i])
    {
      assert IsDigit(s[i]);
    }
    StripOfSpaceless(s);
  }

  /** The text between whitespace. */
  ghost predicate Padded(text: string, core: string) {
    exists left, right :: AllSpace(left) && AllSpace(right) && text == left + core + right
  }

  predicate AllSpace(s: string) {
    forall i :: 0 <= i < |s| ==> IsSpace(s[i])
  }

  predicate SpaceOutside(s: string) {
    s != [] && (IsSpace(s[0]) || IsSpace(s[|s| - 1]))
  }

  lemma {:induction false} LeftIsStripped(s: string) returns (left: string)
    ensures AllSpace(left) && s == left + StripLeft(s)
    ensures StripLeft(s) != [] ==> !IsSpace(StripLeft(s)[0])
  {
    left := [];
    if s != [] && IsSpace(s[0]) {
      var rest := LeftIsStripped(s[1..]);
      left := [s[0]] + rest;
    }
  }

  lemma {:induction false} RightIsStripped(s: string) returns (right: string)
    ensures AllSpace(right) && s == StripRight(s) + right
    ensures StripRight(s) != [] ==> !IsSpace(StripRight(s)[|StripRight(s)| - 1])
  {
    right := [];
    if s != [] && IsSpace(s[|s| - 1]) {
      var rest := RightIsStripped(s[..|s| - 1]);
      right := rest + [s[|s| - 1]];
      assert s == s[..|s| - 1] + [s[|s| - 1]];
    }
  }

  lemma StripIsInside(s: string)
    ensures Padded(s, Strip(s)) && !SpaceOutside(Strip(s))
  {
    var left := LeftIsStripped(s);
    var right := RightIsStripped(StripLeft(s));
    assert s == left + Strip(s) + right;
  }

  lemma {:induction false} StripLeftOf(left: string, core: string)
    requires AllSpace(left) && (core != [] ==> !IsSpace(core[0]))
    ensures StripLeft(left + core) == core
  {
    if left == [] {
      assert left + core == core;
    } else {
      assert (left + core)[1..] == left[1..] + core;
      StripLeftOf(left[1..], core);
    }
  }

  lemma {:induction false} StripRightOf(core: string, right: string)
    requires AllSpace(right) && (core != [] ==> !IsSpace(core[|core| - 1]))
    ensures StripRight(core + right) == core
  {
    if right == [] {
      assert core + right == core;
    } else {
      var n := |right| - 1;
      assert (core + right)[..|core + right| - 1] == core + right[..n];
      StripRightOf(core, right[..n]);
    }
  }

  lemma {:induction false} AllSpaceStripsAway(s: string)
    requires AllSpace(s)
    ensures Strip(s) == []
  {
    StripLeftOf(s, []);
    assert s + [] == s;
  }

  /** Stripping gives the one text without outer whitespace that the text pads. */
  lemma StripExactly(text: string, core: string)
    requires !SpaceOutside(core)
    ensures Strip(text) == core <==> Padded(text, core)
  {
    StripIsInside(text);
    if Padded(text, core) {
      var left, right :| AllSpace(left) && AllSpace(right) && text == left + core + right;
      if core == [] {
        AllSpaceStripsAway(text);
      } else {
        assert text == left + (core + right);
        StripLeftOf(left, core + right);
        StripRightOf(core, right);
      }
    }
  }

  lemma BlankIsSpace(s: string)
    ensures IsBlank(s) <==> AllSpace(s)
  {
    StripExactly(s, []);
    if AllSpace(s) {
      AllSpaceStripsAway(s);
    }
  }
}
