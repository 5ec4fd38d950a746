/** The JavaScript string operations the handlers and the form rely on:
    `trim()`, the regular-expression classes `\s` and `\D`, the collapse
    `replace(/\s+/g, ' ')`, `includes` and the single-occurrence
    `replace(':', '')`. Strings are sequences of Unicode scalar values. */
module Text {

  /** ECMAScript's WhiteSpace and LineTerminator code points outside the
      range U+2000..U+200A. */
  const WsChars: set<char> := {
    '\t', '\U{000B}', '\U{000C}', ' ', '\U{00A0}', '\U{FEFF}', '\U{1680}',
    '\U{202F}', '\U{205F}', '\U{3000}', '\n', '\r', '\U{2028}', '\U{2029}'
  }

  /** ECMAScript's WhiteSpace and LineTerminator code points: the one set that
      both `String.prototype.trim` and the regular-expression class `\s` use. */
  predicate IsWs(c: char) {
    c in WsChars || '\U{2000}' <= c <= '\U{200A}'
  }

  /** The class `\d`; `\D` is its complement. */
  predicate IsDigit(c: char) {
    '0' <= c <= '9'
  }

  predicate AllWs(s: string) {
    forall i :: 0 <= i < |s| ==> IsWs(s[i])
  }

  predicate AllDigits(s: string) {
    forall i :: 0 <= i < |s| ==> IsDigit(s[i])
  }

  // ---------------------------------------------------------------------
  // trim()
  // ---------------------------------------------------------------------

  /** Drops the leading whitespace. */
  function TrimStart(s: string): (r: string)
    ensures |r| <= |s|
    ensures r == [] || !IsWs(r[0])
    ensures s != [] && IsWs(s[0]) ==> |r| < |s|
    decreases |s|
  {
    if s != [] && IsWs(s[0]) then TrimStart(s[1..]) else s
  }

  /** What `TrimStart` drops is whitespace: the result is the suffix of `s`
      that starts at its first non-whitespace character. */
  lemma {:induction false} TrimStartIsSuffix(s: string)
    ensures var r := TrimStart(s);
      && r == s[|s| - |r|..] && AllWs(s[..|s| - |r|])
      && (r == [] <==> AllWs(s))
    decreases |s|
  {
    if s != [] && IsWs(s[0]) {
      TrimStartIsSuffix(s[1..]);
      var r := TrimStart(s);
      assert s[1..][|s| - 1 - |r|..] == s[|s| - |r|..];
      assert s[..|s| - |r|] == [s[0]] + s[1..][..|s| - 1 - |r|];
    }
  }

  /** Drops the trailing whitespace. */
  function TrimEnd(s: string): (r: string)
    ensures |r| <= |s|
    ensures r == [] || !IsWs(r[|r| - 1])
    decreases |s|
  {
    if s != [] && IsWs(s[|s| - 1]) then TrimEnd(s[..|s| - 1]) else s
  }

  /** What `TrimEnd` drops is whitespace: the result is the prefix of `s`
      that ends at its last non-whitespace character. */
  lemma {:induction false} TrimEndIsPrefix(s: string)
    ensures var r := TrimEnd(s);
      && r == s[..|r|] && AllWs(s[|r|..])
      && (r == [] <==> AllWs(s))
    decreases |s|
  {
    if s != [] && IsWs(s[|s| - 1]) {
      var n := |s| - 1;
      TrimEndIsPrefix(s[..n]);
      var r := TrimEnd(s);
      assert s[..n][..|r|] == s[..|r|];
      assert s[|r|..] == s[..n][|r|..] + [s[n]];
    }
  }

  /** How many whitespace characters `trim()` removes at the front. */
  function LeadingWs(s: string): (n: nat)
    ensures n <= |s|
  {
    |s| - |TrimStart(s)|
  }

  /** `s.trim()`: neither end of the result is whitespace, and it is empty
      exactly when `s` is all whitespace. */
  function Trim(s: string): (r: string)
    ensures r == [] || (!IsWs(r[0]) && !IsWs(r[|r| - 1]))
    ensures r == [] <==> AllWs(s)
  {
    TrimIsInfix(s);
    TrimEndIsPrefix(TrimStart(s));
    TrimEnd(TrimStart(s))
  }

  /** What `trim()` removes is whitespace and nothing else: the result is the
      infix of `s` between a whitespace prefix and a whitespace suffix. */
  lemma TrimIsInfix(s: string)
    ensures var r := TrimEnd(TrimStart(s)); var a := LeadingWs(s);
      && a + |r| <= |s| && r == s[a..a + |r|]
      && AllWs(s[..a]) && AllWs(s[a + |r|..])
      && (r == [] <==> AllWs(s))
  {
    var t := TrimStart(s);
    var r := TrimEnd(t);
    var a := LeadingWs(s);
    TrimStartIsSuffix(s);
    TrimEndIsPrefix(t);
    assert t == s[a..];
    assert r == t[..|r|];
    assert r == s[a..a + |r|];
    assert s[a + |r|..] == t[|r|..];
  }

  /** A string with no whitespace at either end is its own trim. */
  lemma TrimUnpadded(s: string)
    requires s != [] && !IsWs(s[0]) && !IsWs(s[|s| - 1])
    ensures Trim(s) == s
  {
    assert TrimStart(s) == s;
  }

  // ---------------------------------------------------------------------
  // replace(/\s+/g, ' ')
  // ---------------------------------------------------------------------

  /** Replaces every maximal run of whitespace by one space. */
  function CollapseWs(s: string): (r: string)
    ensures |r| <= |s|
    ensures r == [] <==> s == []
    ensures s != [] ==> r[0] == if IsWs(s[0]) then ' ' else s[0]
    ensures forall i :: 0 <= i < |r| && IsWs(r[i]) ==> r[i] == ' '
    ensures forall i :: 0 <= i < |r| - 1 ==> !(IsWs(r[i]) && IsWs(r[i + 1]))
    decreases |s|
  {
    if s == [] then []
    else if IsWs(s[0]) then
      [' '] + CollapseWs(TrimStart(s))
    else
      [s[0]] + CollapseWs(s[1..])
  }

  /** The words of `s`: its maximal runs of non-whitespace characters, in
      order. This is the independent reference for what collapsing keeps. */
  function Words(s: string): (ws: seq<string>)
    ensures s != [] && !IsWs(s[0]) ==> |ws| > 0
    decreases |s|
  {
    if s == [] then []
    else if IsWs(s[0]) then Words(s[1..])
    else
      var rest := Words(s[1..]);
      if |s| > 1 && !IsWs(s[1]) then [[s[0]] + rest[0]] + rest[1..]
      else [[s[0]]] + rest
  }

  lemma {:induction false} WordsSkipLeadingWs(s: string)
    ensures Words(TrimStart(s)) == Words(s)
    decreases |s|
  {
    if s != [] && IsWs(s[0]) {
      WordsSkipLeadingWs(s[1..]);
      assert TrimStart(s) == TrimStart(s[1..]);
    }
  }

  /** Collapsing whitespace keeps every word, in order, and introduces none. */
  lemma {:induction false} CollapseWsKeepsWords(s: string)
    ensures Words(CollapseWs(s)) == Words(s)
    decreases |s|
  {
    if s == [] {
    } else if IsWs(s[0]) {
      var rest := TrimStart(s);
      CollapseWsKeepsWords(rest);
      WordsSkipLeadingWs(s);
      assert CollapseWs(s) == [' '] + CollapseWs(rest);
      assert ([' '] + CollapseWs(rest))[1..] == CollapseWs(rest);
    } else {
      CollapseWsKeepsWords(s[1..]);
      var c := CollapseWs(s);
      assert c == [s[0]] + CollapseWs(s[1..]);
      assert c[1..] == CollapseWs(s[1..]);
    }
  }

  /** A string that ends in a non-whitespace character still does so once
      collapsed: collapsing never adds trailing whitespace. */
  lemma {:induction false} CollapseWsKeepsLastChar(s: string)
    requires s != [] && !IsWs(s[|s| - 1])
    ensures CollapseWs(s) != [] && CollapseWs(s)[|CollapseWs(s)| - 1] == s[|s| - 1]
    decreases |s|
  {
    if |s| == 1 {
    } else if IsWs(s[0]) {
      var rest := TrimStart(s);
      TrimStartIsSuffix(s);
      assert !AllWs(s);
      assert rest[|rest| - 1] == s[|s| - 1];
      CollapseWsKeepsLastChar(rest);
    } else {
      CollapseWsKeepsLastChar(s[1..]);
    }
  }

  /** A trailing whitespace run becomes one trailing space. */
  lemma {:induction false} CollapseWsTrailingSpace(s: string)
    requires s != [] && IsWs(s[|s| - 1])
    ensures CollapseWs(s) != [] && CollapseWs(s)[|CollapseWs(s)| - 1] == ' '
    decreases |s|
  {
    if IsWs(s[0]) {
      var rest := TrimStart(s);
      if rest != [] {
        TrimStartIsSuffix(s);
        assert rest[|rest| - 1] == s[|s| - 1];
        CollapseWsTrailingSpace(rest);
      }
    } else {
      assert |s| > 1;
      CollapseWsTrailingSpace(s[1..]);
    }
  }

  // ---------------------------------------------------------------------
  // includes(...)
  // ---------------------------------------------------------------------

  predicate StartsWith(s: string, p: string) {
    |p| <= |s| && s[..|p|] == p
  }

  /** `s.includes(p)`, searched from the left. */
  predicate Contains(s: string, p: string)
    decreases |s|
  {
    StartsWith(s, p) || (s != [] && Contains(s[1..], p))
  }

  /** `p` occurs in `s` at position `i`. */
  ghost predicate OccursAt(s: string, p: string, i: int) {
    0 <= i <= |s| - |p| && s[i..i + |p|] == p
  }

  /** The left-to-right search finds `p` exactly when `p` occurs somewhere in `s`. */
  lemma {:induction false} ContainsIffOccurs(s: string, p: string)
    ensures Contains(s, p) <==> exists i :: OccursAt(s, p, i)
    decreases |s|
  {
    if StartsWith(s, p) {
      assert OccursAt(s, p, 0);
    }
    if s != [] {
      ContainsIffOccurs(s[1..], p);
      if Contains(s[1..], p) {
        var i :| OccursAt(s[1..], p, i);
        assert s[1..][i..i + |p|] == s[i + 1..i + 1 + |p|];
        assert OccursAt(s, p, i + 1);
      }
      if exists i :: OccursAt(s, p, i) {
        var i :| OccursAt(s, p, i);
        if i > 0 {
          assert s[1..][i - 1..i - 1 + |p|] == s[i..i + |p|];
          assert OccursAt(s[1..], p, i - 1);
        }
      }
    } else {
      if exists i :: OccursAt(s, p, i) {
        var i :| OccursAt(s, p, i);
        assert StartsWith(s, p);
      }
    }
  }

  // ---------------------------------------------------------------------
  // replace(/\D/g, '')
  // ---------------------------------------------------------------------

  /** Removes every character outside `0`-`9`, keeping the digits in order. */
  function StripNonDigits(s: string): (r: string)
    ensures |r| <= |s|
    ensures AllDigits(r)
    decreases |s|
  {
    if s == [] then []
    else (if IsDigit(s[0]) then [s[0]] else []) + StripNonDigits(s[1..])
  }

  /** Stripping distributes over concatenation, so the digits stay in their
      original order. */
  lemma {:induction false} StripNonDigitsAppend(a: string, b: string)
    ensures StripNonDigits(a + b) == StripNonDigits(a) + StripNonDigits(b)
    decreases |a|
  {
    if a == [] {
      assert a + b == b;
    } else {
      assert (a + b)[0] == a[0];
      assert (a + b)[1..] == a[1..] + b;
      StripNonDigitsAppend(a[1..], b);
    }
  }

  /** Every digit occurs as often in the result as in the input. */
  lemma {:induction false} StripNonDigitsKeepsDigits(s: string)
    ensures forall c :: IsDigit(c) ==> multiset(StripNonDigits(s))[c] == multiset(s)[c]
    decreases |s|
  {
    if s != [] {
      StripNonDigitsKeepsDigits(s[1..]);
      assert s == [s[0]] + s[1..];
    }
  }

  /** A string without digits is removed entirely. */
  lemma {:induction false} StripNonDigitsOfNonDigits(s: string)
    requires forall i :: 0 <= i < |s| ==> !IsDigit(s[i])
    ensures StripNonDigits(s) == []
    decreases |s|
  {
    if s != [] {
      StripNonDigitsOfNonDigits(s[1..]);
    }
  }

  /** A string of digits is left unchanged. */
  lemma {:induction false} StripNonDigitsOfDigits(s: string)
    requires AllDigits(s)
    ensures StripNonDigits(s) == s
    decreases |s|
  {
    if s != [] {
      StripNonDigitsOfDigits(s[1..]);
    }
  }

  // ---------------------------------------------------------------------
  // replace(':', '')
  // ---------------------------------------------------------------------

  /** The position of the first colon. */
  function IndexOfColon(s: string): (k: nat)
    requires ':' in s
    ensures k < |s| && s[k] == ':' && ':' !in s[..k]
  {
    if s[0] == ':' then 0 else 1 + IndexOfColon(s[1..])
  }

  /** `s.replace(':', '')`: a string pattern replaces only its first
      occurrence, wherever it is. */
  function RemoveFirstColon(s: string): (r: string)
    ensures ':' !in s ==> r == s
    ensures ':' in s ==> r == s[..IndexOfColon(s)] + s[IndexOfColon(s) + 1..]
  {
    if s == [] then []
    else if s[0] == ':' then s[1..]
    else [s[0]] + RemoveFirstColon(s[1..])
  }

  /** A label whose only colon is its last character loses just that colon. */
  lemma RemoveTrailingColon(s: string)
    requires s != [] && s[|s| - 1] == ':' && ':' !in s[..|s| - 1]
    ensures RemoveFirstColon(s) == s[..|s| - 1]
  {
    var n := |s| - 1;
    var k := IndexOfColon(s);
    assert forall j :: 0 <= j < n ==> s[..n][j] == s[j];
    assert k == n;
    assert s[k + 1..] == [];
  }
}
