/** The CPF input mask of the web form: keep the digits, at most eleven of
    them, and punctuate them as `ddd.ddd.ddd-dd` while the user types.

    `FormatCpf` follows `formatCpf` step by step, each regular-expression
    replacement as a leftmost-match search; `Mask` states the intended
    layout directly, and `FormatCpfIsMask` proves the two agree. */
module CpfFormat {
  import opened Wrappers
  import opened Text

  /** `if (v.length > 11) v = v.slice(0, 11)`. */
  function Take11(v: string): (r: string)
    ensures |r| == if |v| > 11 then 11 else |v|
    ensures r == v[..|r|]
  {
    if |v| > 11 then v[..11] else v
  }

  // ---------------------------------------------------------------------
  // `formatCpf`'s replacements, as written
  // ---------------------------------------------------------------------

  /** `/(\d{3})(\d)/` matches at `k`: four digits start there. */
  predicate GroupAt(v: string, k: int) {
    0 <= k && k + 4 <= |v| && IsDigit(v[k]) && IsDigit(v[k + 1]) && IsDigit(v[k + 2]) && IsDigit(v[k + 3])
  }

  /** The leftmost match of `/(\d{3})(\d)/` at or after `i`. */
  function FindGroup(v: string, i: nat): (r: Option<nat>)
    ensures r.Some? ==> i <= r.value && GroupAt(v, r.value)
    ensures r.Some? ==> forall k :: i <= k < r.value ==> !GroupAt(v, k)
    ensures r.None? ==> forall k :: i <= k ==> !GroupAt(v, k)
    decreases |v| - i
  {
    if i + 4 > |v| then None
    else if GroupAt(v, i) then Some(i)
    else FindGroup(v, i + 1)
  }

  /** `v.replace(/(\d{3})(\d)/, '$1.$2')`: without the `g` flag only the
      leftmost match is replaced, by inserting a dot after its third digit. */
  function DotFirstGroup(v: string): string {
    match FindGroup(v, 0)
    case None => v
    case Some(j) => v[..j + 3] + "." + v[j + 3..]
  }

  /** `/(\d{3})(\d{1,2})$/` matches at `k`: from there to the end of the
      string there are four or five characters, all digits. */
  predicate TailAt(v: string, k: int) {
    0 <= k <= |v| && (|v| - k == 4 || |v| - k == 5) && AllDigits(v[k..])
  }

  /** The leftmost match of `/(\d{3})(\d{1,2})$/` at or after `i`. */
  function FindTail(v: string, i: nat): (r: Option<nat>)
    ensures r.Some? ==> i <= r.value && TailAt(v, r.value)
    ensures r.Some? ==> forall k :: i <= k < r.value ==> !TailAt(v, k)
    ensures r.None? ==> forall k :: i <= k ==> !TailAt(v, k)
    decreases |v| - i
  {
    if i + 4 > |v| then None
    else if TailAt(v, i) then Some(i)
    else FindTail(v, i + 1)
  }

  /** `v.replace(/(\d{3})(\d{1,2})$/, '$1-$2')`: a dash after the third
      digit of the match. */
  function DashTail(v: string): string {
    match FindTail(v, 0)
    case None => v
    case Some(j) => v[..j + 3] + "-" + v[j + 3..]
  }

  /** `formatCpf(value)`. */
  function FormatCpf(value: string): string {
    var v := Take11(StripNonDigits(value));
    DashTail(DotFirstGroup(DotFirstGroup(v)))
  }

  // ---------------------------------------------------------------------
  // The intended layout
  // ---------------------------------------------------------------------

  /** Up to eleven digits laid out as `ddd.ddd.ddd-dd`: a dot after the
      third digit when there is a fourth, a dot after the sixth when there
      is a seventh, a dash after the ninth when there is a tenth. */
  function Mask(d: string): string
    requires |d| <= 11
  {
    if |d| <= 3 then d
    else if |d| <= 6 then d[..3] + "." + d[3..]
    else if |d| <= 9 then d[..3] + "." + d[3..6] + "." + d[6..]
    else d[..3] + "." + d[3..6] + "." + d[6..9] + "-" + d[9..]
  }

  /** How many punctuation characters the mask places before position `i`
      of its output. */
  function PunctBefore(i: nat): nat {
    if i <= 3 then 0 else if i <= 7 then 1 else if i <= 11 then 2 else 3
  }

  /** Where each character of the mask sits: dots at positions 3 and 7, a
      dash at 11, and the digits, in order, everywhere else. */
  lemma MaskLayout(d: string)
    requires |d| <= 11
    ensures var m := Mask(d);
      && |m| == (if |d| <= 3 then |d| else if |d| <= 6 then |d| + 1 else if |d| <= 9 then |d| + 2 else |d| + 3)
      && forall i :: 0 <= i < |m| ==>
           m[i] == if i == 3 || i == 7 then '.' else if i == 11 then '-' else d[i - PunctBefore(i)]
  {
  }

  // ---------------------------------------------------------------------
  // The replacements produce the layout
  // ---------------------------------------------------------------------

  lemma FirstDot(d: string)
    requires AllDigits(d) && |d| >= 4
    ensures DotFirstGroup(d) == d[..3] + "." + d[3..]
  {
    assert GroupAt(d, 0);
  }

  lemma NoDotUnderFour(d: string)
    requires |d| <= 3
    ensures DotFirstGroup(d) == d && DashTail(d) == d
  {
    assert FindTail(d, 0) == None;
  }

  /** In `ddd.` followed by digits no match can start at positions 0 to 3. */
  lemma DotBlocksFront(v: string)
    requires |v| >= 4 && v[3] == '.'
    ensures forall k :: 0 <= k <= 3 ==> !GroupAt(v, k)
    ensures forall k :: 0 <= k <= 3 ==> !TailAt(v, k)
  {
    forall k | 0 <= k <= 3
      ensures !TailAt(v, k)
    {
      assert v[k..][3 - k] == '.';
    }
  }

  lemma SecondDot(d: string)
    requires AllDigits(d) && 7 <= |d| <= 11
    ensures var v1 := d[..3] + "." + d[3..];
      DotFirstGroup(v1) == d[..3] + "." + d[3..6] + "." + d[6..]
  {
    var v1 := d[..3] + "." + d[3..];
    DotBlocksFront(v1);
    assert GroupAt(v1, 4);
    var r := FindGroup(v1, 0);
    assert r == Some(4);
    assert v1[..7] == d[..3] + "." + d[3..6];
    assert v1[7..] == d[6..];
  }

  lemma NoSecondDot(d: string)
    requires AllDigits(d) && 4 <= |d| <= 6
    ensures var v1 := d[..3] + "." + d[3..];
      DotFirstGroup(v1) == v1 && DashTail(v1) == v1
  {
    var v1 := d[..3] + "." + d[3..];
    DotBlocksFront(v1);
    assert FindGroup(v1, 0) == None;
    assert FindTail(v1, 0) == None;
  }

  lemma NoDash(d: string)
    requires AllDigits(d) && 7 <= |d| <= 9
    ensures var v2 := d[..3] + "." + d[3..6] + "." + d[6..];
      DashTail(v2) == v2
  {
    var v2 := d[..3] + "." + d[3..6] + "." + d[6..];
    assert v2[7] == '.';
    forall k | 0 <= k <= 7
      ensures !TailAt(v2, k)
    {
      assert v2[k..][7 - k] == '.';
    }
    assert FindTail(v2, 0) == None;
  }

  lemma Dash(d: string)
    requires AllDigits(d) && 10 <= |d| <= 11
    ensures var v2 := d[..3] + "." + d[3..6] + "." + d[6..];
      DashTail(v2) == d[..3] + "." + d[3..6] + "." + d[6..9] + "-" + d[9..]
  {
    var v2 := d[..3] + "." + d[3..6] + "." + d[6..];
    assert v2[7] == '.';
    assert v2[8..] == d[6..];
    assert TailAt(v2, 8);
    forall k | 0 <= k < 8
      ensures !TailAt(v2, k)
    {
      if k <= 7 { assert v2[k..][7 - k] == '.'; }
    }
    assert FindTail(v2, 0) == Some(8);
    assert v2[..11] == d[..3] + "." + d[3..6] + "." + d[6..9];
    assert v2[11..] == d[9..];
  }

  /** The three replacements of `formatCpf` lay the kept digits out exactly
      as the mask does. */
  lemma FormatCpfIsMask(value: string)
    ensures FormatCpf(value) == Mask(Take11(StripNonDigits(value)))
  {
    var d := Take11(StripNonDigits(value));
    assert AllDigits(d);
    var n := |d|;
    if n <= 3 {
      NoDotUnderFour(d);
    } else {
      FirstDot(d);
      if n <= 6 {
        NoSecondDot(d);
      } else {
        SecondDot(d);
        if n <= 9 {
          NoDash(d);
        } else {
          Dash(d);
        }
      }
    }
  }

  // ---------------------------------------------------------------------
  // What the form relies on
  // ---------------------------------------------------------------------

  /** The mask adds only punctuation: stripping it gives the digits back. */
  lemma MaskDigits(d: string)
    requires AllDigits(d) && |d| <= 11
    ensures StripNonDigits(Mask(d)) == d
  {
    if |d| <= 3 {
      StripNonDigitsOfDigits(d);
      return;
    }
    StripNonDigitsOfDigits(d[..3]);
    if |d| <= 6 {
      StripPunct(d[..3], ".", d[3..]);
      assert d[..3] + d[3..] == d;
    } else if |d| <= 9 {
      StripPunct(d[..3], ".", d[3..6]);
      StripPunct(d[..3] + "." + d[3..6], ".", d[6..]);
      assert d[..3] + d[3..6] + d[6..] == d;
    } else {
      StripPunct(d[..3], ".", d[3..6]);
      StripPunct(d[..3] + "." + d[3..6], ".", d[6..9]);
      StripPunct(d[..3] + "." + d[3..6] + "." + d[6..9], "-", d[9..]);
      assert d[..3] + d[3..6] + d[6..9] + d[9..] == d;
    }
  }

  /** Stripping `x`, then one punctuation character, then digits. */
  lemma StripPunct(x: string, p: string, b: string)
    requires AllDigits(b) && |p| == 1 && !IsDigit(p[0])
    ensures StripNonDigits(x + p + b) == StripNonDigits(x) + b
  {
    StripNonDigitsAppend(x + p, b);
    StripNonDigitsAppend(x, p);
    StripNonDigitsOfDigits(b);
    StripNonDigitsOfNonDigits(p);
    assert StripNonDigits(x) + [] == StripNonDigits(x);
  }

  /** The output keeps exactly the first min(11, n) digits of the input, in order. */
  lemma FormatCpfDigits(value: string)
    ensures StripNonDigits(FormatCpf(value)) == Take11(StripNonDigits(value))
  {
    FormatCpfIsMask(value);
    MaskDigits(Take11(StripNonDigits(value)));
  }

  /** Formatting an already formatted value changes nothing. */
  lemma FormatCpfIdempotent(value: string)
    ensures FormatCpf(FormatCpf(value)) == FormatCpf(value)
  {
    var f := FormatCpf(value);
    FormatCpfDigits(value);
    FormatCpfIsMask(f);
    FormatCpfIsMask(value);
  }

  /** Eleven digits give `ddd.ddd.ddd-dd`, fourteen characters; fewer give
      a shorter string. So the button's `length < 14` test and the submit
      handler's eleven-digit test agree on every value the field can hold. */
  lemma FormatCpfLength(value: string)
    ensures |FormatCpf(value)| <= 14
    ensures |FormatCpf(value)| == 14 <==> |StripNonDigits(FormatCpf(value))| == 11
    ensures |StripNonDigits(FormatCpf(value))| == 11 ==>
      var m := FormatCpf(value);
      && m[3] == '.' && m[7] == '.' && m[11] == '-'
      && forall i :: 0 <= i < 14 && i != 3 && i != 7 && i != 11 ==> IsDigit(m[i])
  {
    var d := Take11(StripNonDigits(value));
    FormatCpfIsMask(value);
    FormatCpfDigits(value);
    MaskLayout(d);
  }
}
