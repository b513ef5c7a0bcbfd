/** The JavaScript string operations the chat core relies on, over Dafny's
    `string` (a sequence of characters): `toLowerCase`, `startsWith`,
    `includes`, `replace` with a string pattern, `replace(/\s+/g, '-')`,
    `split(' ')`, `join(' ')` and number-to-text conversion in templates. */
module JsString {
  import opened Types

  // ---------------------------------------------------------------- case

  /** `toLowerCase` on one character, for the letters A to Z. */
  function LowerChar(c: char): (r: char)
    ensures 'A' <= c <= 'Z' ==> 'a' <= r <= 'z' && r as int == c as int + 32
    ensures !('A' <= c <= 'Z') ==> r == c
  {
    if 'A' <= c <= 'Z' then (c as int + 32) as char else c
  }

  /** True when `s` holds no letter A to Z. */
  predicate IsLowered(s: string) {
    forall i :: 0 <= i < |s| ==> !('A' <= s[i] <= 'Z')
  }

  /** `s.toLowerCase()`: every letter A to Z becomes its lower-case form,
      every other character is kept, in place. */
  function Lower(s: string): (r: string)
    ensures |r| == |s|
    ensures forall i :: 0 <= i < |s| ==> r[i] == LowerChar(s[i])
    ensures IsLowered(r)
  {
    if s == [] then [] else [LowerChar(s[0])] + Lower(s[1..])
  }

  /** Lowering changes exactly the strings that hold a letter A to Z, so
      lowering twice is lowering once. */
  lemma LowerFixedPoint(s: string)
    ensures Lower(s) == s <==> IsLowered(s)
    ensures Lower(Lower(s)) == Lower(s)
  {
    if IsLowered(s) {
      LowerKeeps(s);
    } else {
      var i :| 0 <= i < |s| && 'A' <= s[i] <= 'Z';
      assert Lower(s)[i] != s[i];
    }
    LowerKeeps(Lower(s));
  }

  lemma LowerKeeps(s: string)
    requires IsLowered(s)
    ensures Lower(s) == s
  {
    assert forall i :: 0 <= i < |s| ==> Lower(s)[i] == s[i];
  }

  // ---------------------------------------------------------------- search

  predicate StartsWith(s: string, p: string) {
    |p| <= |s| && s[..|p|] == p
  }

  /** `p` occurs in `s` starting at index `k`. */
  predicate IsMatchAt(s: string, p: string, k: int) {
    0 <= k && k + |p| <= |s| && s[k..k + |p|] == p
  }

  lemma MatchShift(s: string, p: string)
    requires s != []
    ensures StartsWith(s, p) <==> IsMatchAt(s, p, 0)
    ensures forall k :: 1 <= k ==> (IsMatchAt(s, p, k) <==> IsMatchAt(s[1..], p, k - 1))
  {
    forall k | 1 <= k ensures IsMatchAt(s, p, k) <==> IsMatchAt(s[1..], p, k - 1) {
      if k + |p| <= |s| {
        assert s[1..][k - 1..k - 1 + |p|] == s[k..k + |p|];
      }
    }
  }

  /** `s.indexOf(p)`: the first index where `p` occurs, if any. */
  function FindFirst(s: string, p: string): (r: Option<nat>)
    ensures r.Some? ==> IsMatchAt(s, p, r.value)
    ensures r.Some? ==> forall k :: 0 <= k < r.value ==> !IsMatchAt(s, p, k)
    ensures r.None? ==> forall k :: !IsMatchAt(s, p, k)
    decreases |s|
  {
    if s == [] then (if p == [] then Some(0) else None)
    else
      MatchShift(s, p);
      if StartsWith(s, p) then Some(0) else
      match FindFirst(s[1..], p)
      case Some(k) => Some(k + 1)
      case None => None
  }

  /** `s.includes(p)`. */
  predicate Contains(s: string, p: string)
    ensures Contains(s, p) <==> exists k :: IsMatchAt(s, p, k)
  {
    FindFirst(s, p).Some?
  }

  lemma ContainsAt(s: string, p: string, k: int)
    requires IsMatchAt(s, p, k)
    ensures Contains(s, p)
  {
  }

  /** A pattern whose first character `s` lacks does not occur in `s`. */
  lemma ContainsNot(s: string, p: string)
    requires p != [] && p[0] !in s
    ensures !Contains(s, p)
  {
    forall k ensures !IsMatchAt(s, p, k) {
      if 0 <= k && k + |p| <= |s| {
        assert s[k..k + |p|][0] == s[k] && s[k] in s;
      }
    }
  }

  /** `s.replace(p, '')`: the first occurrence of `p` removed; `s` itself when
      `p` does not occur. Putting `p` back where it was gives `s`. */
  function RemoveFirst(s: string, p: string): (r: string)
    ensures !Contains(s, p) ==> r == s
    ensures Contains(s, p) ==>
      var k := FindFirst(s, p).value;
      |r| == |s| - |p| && s == r[..k] + p + r[k..]
  {
    match FindFirst(s, p)
    case None => s
    case Some(k) =>
      var r := s[..k] + s[k + |p|..];
      assert r[..k] == s[..k] && r[k..] == s[k + |p|..];
      assert s == s[..k] + s[k..k + |p|] + s[k + |p|..];
      r
  }

  // ---------------------------------------------------------------- whitespace

  /** A character matched by the regular-expression class `\s`: the
      ECMAScript WhiteSpace and LineTerminator code points. */
  predicate IsSpace(c: char) {
    var n := c as int;
    (0x09 <= n <= 0x0D) || n == 0x20 || n == 0xA0 || n == 0x1680
    || (0x2000 <= n <= 0x200A) || n == 0x2028 || n == 0x2029
    || n == 0x202F || n == 0x205F || n == 0x3000 || n == 0xFEFF
  }

  predicate NoSpace(s: string) {
    forall i :: 0 <= i < |s| ==> !IsSpace(s[i])
  }

  predicate AllSpace(s: string) {
    forall i :: 0 <= i < |s| ==> IsSpace(s[i])
  }

  /** `s` with its leading whitespace run removed (`SkipRun` says which
      prefix goes). */
  function SkipSpaces(s: string): (r: string)
    ensures |r| <= |s|
    ensures r == s[|s| - |r|..]
    ensures r != [] ==> !IsSpace(r[0])
  {
    if s != [] && IsSpace(s[0]) then SkipSpaces(s[1..])
    else s
  }

  /** `s.replace(/\s+/g, '-')`: every maximal whitespace run becomes one
      hyphen; every other character is kept. */
  function Hyphenate(s: string): (r: string)
    ensures NoSpace(r)
    ensures |r| <= |s|
    decreases |s|
  {
    if s == [] then []
    else if IsSpace(s[0]) then "-" + Hyphenate(SkipSpaces(s[1..]))
    else [s[0]] + Hyphenate(s[1..])
  }

  /** The replacement brings in no character but the hyphen. */
  lemma {:induction false} HyphenateChars(s: string)
    ensures forall c :: c in Hyphenate(s) ==> c == '-' || c in s
    decreases |s|
  {
    if s != [] {
      if IsSpace(s[0]) {
        var t := SkipSpaces(s[1..]);
        HyphenateChars(t);
        assert forall c :: c in t ==> c in s;
      } else {
        HyphenateChars(s[1..]);
        assert forall c :: c in s[1..] ==> c in s;
      }
    }
  }

  /** A string without whitespace is left alone. */
  lemma {:induction false} HyphenateNoSpace(s: string)
    requires NoSpace(s)
    ensures Hyphenate(s) == s
  {
    if s != [] {
      HyphenateNoSpace(s[1..]);
    }
  }

  /** The regular-expression contract: a word, then a whitespace run, then the
      rest, becomes the word, one hyphen, and the rest so treated. */
  lemma {:induction false} HyphenateWord(w: string, run: string, rest: string)
    requires NoSpace(w)
    requires run != [] && AllSpace(run)
    requires rest == [] || !IsSpace(rest[0])
    ensures Hyphenate(w + run + rest) == w + "-" + Hyphenate(rest)
  {
    calc {
      Hyphenate(w + run + rest);
      { assert w + run + rest == w + (run + rest); }
      Hyphenate(w + (run + rest));
      { HyphenatePrefix(w, run + rest); }
      w + Hyphenate(run + rest);
      { HyphenateRun(run, rest); }
      w + ("-" + Hyphenate(rest));
    }
  }

  /** A prefix without whitespace is kept. */
  lemma {:induction false} HyphenatePrefix(w: string, t: string)
    requires NoSpace(w)
    ensures Hyphenate(w + t) == w + Hyphenate(t)
  {
    if w == [] {
      assert w + t == t;
    } else {
      assert w + t == [w[0]] + (w[1..] + t);
      assert NoSpace(w[1..]) && !IsSpace(w[0]);
      HyphenateCons(w[0], w[1..] + t);
      HyphenatePrefix(w[1..], t);
      assert w == [w[0]] + w[1..];
    }
  }

  /** A character other than whitespace is kept. */
  lemma HyphenateCons(c: char, t: string)
    requires !IsSpace(c)
    ensures Hyphenate([c] + t) == [c] + Hyphenate(t)
  {
    assert ([c] + t)[1..] == t;
  }

  /** A whitespace run at the front becomes one hyphen. */
  lemma HyphenateRun(run: string, rest: string)
    requires run != [] && AllSpace(run)
    requires rest == [] || !IsSpace(rest[0])
    ensures Hyphenate(run + rest) == "-" + Hyphenate(rest)
  {
    var s := run + rest;
    assert s[0] == run[0] && IsSpace(s[0]);
    assert s[1..] == run[1..] + rest;
    SkipRun(run[1..], rest);
  }

  lemma {:induction false} SkipRun(run: string, rest: string)
    requires AllSpace(run)
    requires rest == [] || !IsSpace(rest[0])
    ensures SkipSpaces(run + rest) == rest
  {
    if run != [] {
      assert (run + rest)[1..] == run[1..] + rest;
      SkipRun(run[1..], rest);
    } else {
      assert run + rest == rest;
    }
  }

  // ---------------------------------------------------------------- split / join

  /** `s.split(' ')`: the pieces between single spaces (empty pieces
      included); there is always at least one, and exactly one iff `s` holds
      no space. */
  function Split(s: string): (r: seq<string>)
    ensures |r| >= 1
    ensures forall i :: 0 <= i < |r| ==> ' ' !in r[i]
    ensures |r| == 1 <==> ' ' !in s
  {
    if s == [] then [[]]
    else if s[0] == ' ' then [[]] + Split(s[1..])
    else
      var t := Split(s[1..]);
      assert ' ' in s <==> ' ' in s[1..] by {
        assert s == [s[0]] + s[1..];
      }
      [[s[0]] + t[0]] + t[1..]
  }

  /** `parts.join(' ')`. */
  function Join(parts: seq<string>): string {
    if parts == [] then []
    else if |parts| == 1 then parts[0]
    else parts[0] + " " + Join(parts[1..])
  }

  /** Joining the pieces of a split restores the string. */
  lemma {:induction false} JoinSplit(s: string)
    ensures Join(Split(s)) == s
  {
    if s == [] {
    } else if s[0] == ' ' {
      JoinSplit(s[1..]);
      assert Join(Split(s)) == [] + " " + Join(Split(s[1..]));
    } else {
      var t := Split(s[1..]);
      JoinSplit(s[1..]);
      if |t| == 1 {
        assert Split(s) == [[s[0]] + t[0]];
      } else {
        assert Split(s)[1..] == t[1..];
        assert Join(t) == t[0] + " " + Join(t[1..]);
      }
    }
  }

  lemma {:induction false} SplitWord(w: string, rest: string)
    requires ' ' !in w
    ensures Split(w + rest) == [w + Split(rest)[0]] + Split(rest)[1..]
  {
    if w != [] {
      assert (w + rest)[0] == w[0];
      assert (w + rest)[1..] == w[1..] + rest;
      SplitWord(w[1..], rest);
      assert [w[0]] + (w[1..] + Split(rest)[0]) == w + Split(rest)[0];
    } else {
      var t := Split(rest);
      assert w + rest == rest;
      assert w + t[0] == t[0];
      assert t == [t[0]] + t[1..];
    }
  }

  /** Splitting a join of space-free pieces gives the pieces back. */
  lemma {:induction false} SplitJoin(parts: seq<string>)
    requires |parts| >= 1
    requires forall i :: 0 <= i < |parts| ==> ' ' !in parts[i]
    ensures Split(Join(parts)) == parts
  {
    if |parts| == 1 {
      SplitWord(parts[0], []);
      assert parts[0] + [] == parts[0];
    } else {
      var rest := Join(parts[1..]);
      SplitJoin(parts[1..]);
      assert parts[0] + " " + rest == parts[0] + (" " + rest);
      SplitWord(parts[0], " " + rest);
      assert (" " + rest)[1..] == rest;
      assert Split(" " + rest) == [[]] + Split(rest);
      assert parts[0] + [] == parts[0];
      assert parts == [parts[0]] + parts[1..];
    }
  }

  /** `[first, ...rest] = s.split(' ')`: `first` is `s` up to its first space,
      and `rest.join(' ')` is what follows that space (empty when there is no
      space). */
  lemma SplitFirstRest(s: string)
    ensures ' ' !in Split(s)[0]
    ensures ' ' !in s ==> Split(s)[0] == s && Join(Split(s)[1..]) == []
    ensures ' ' in s ==> s == Split(s)[0] + " " + Join(Split(s)[1..])
  {
    JoinSplit(s);
  }

  // ---------------------------------------------------------------- templates

  /** A template literal: its literal chunks and interpolated values, in
      order, joined with nothing between them. */
  function Template(chunks: seq<string>): string {
    if chunks == [] then [] else chunks[0] + Template(chunks[1..])
  }

  /** A template is the template of its first chunks followed by the
      template of the rest. */
  lemma {:induction false} TemplateSplit(a: seq<string>, b: seq<string>)
    ensures Template(a + b) == Template(a) + Template(b)
  {
    if a == [] {
      assert a + b == b;
    } else {
      assert (a + b)[1..] == a[1..] + b;
      TemplateSplit(a[1..], b);
    }
  }

  lemma Template3(x: string, y: string, z: string)
    ensures Template([x, y, z]) == x + y + z
  {
    assert [x, y, z][1..] == [y, z] && [y, z][1..] == [z] && [z][1..] == [];
    assert Template([z]) == z;
    assert Template([y, z]) == y + z;
  }

  // ---------------------------------------------------------------- numbers

  function DigitChar(d: nat): (c: char)
    requires d < 10
    ensures '0' <= c <= '9'
  {
    ('0' as int + d) as char
  }

  /** The decimal text of a natural number, as a template literal writes it. */
  function NatToString(n: nat): (r: string)
    ensures |r| >= 1
    ensures forall i :: 0 <= i < |r| ==> '0' <= r[i] <= '9'
    ensures n >= 10 ==> r[0] != '0'
    decreases n
  {
    if n < 10 then [DigitChar(n)] else NatToString(n / 10) + [DigitChar(n % 10)]
  }

  /** The decimal text of an integer, with a leading minus when negative. */
  function IntToString(i: int): (r: string)
    ensures |r| >= 1
    ensures i < 0 <==> r[0] == '-'
  {
    if i < 0 then "-" + NatToString(-i) else NatToString(i)
  }

  /** The number a string of decimal digits denotes, read left to right. */
  function DigitsValue(s: string): int
    decreases |s|
  {
    if s == [] then 0 else DigitsValue(s[..|s| - 1]) * 10 + (s[|s| - 1] as int - '0' as int)
  }

  /** Reading the decimal text of `n` back gives `n`. */
  lemma {:induction false} NatToStringValue(n: nat)
    ensures DigitsValue(NatToString(n)) == n
    decreases n
  {
    if n >= 10 {
      NatToStringValue(n / 10);
      var t := NatToString(n / 10) + [DigitChar(n % 10)];
      assert t[..|t| - 1] == NatToString(n / 10);
    }
  }

  lemma NatToStringInjective(m: nat, n: nat)
    ensures NatToString(m) == NatToString(n) ==> m == n
  {
    NatToStringValue(m);
    NatToStringValue(n);
  }

  /** Two integers have the same decimal text exactly when they are equal. */
  lemma IntToStringInjective(a: int, b: int)
    ensures IntToString(a) == IntToString(b) <==> a == b
  {
    var sa, sb := IntToString(a), IntToString(b);
    if sa == sb {
      if a < 0 {
        assert b < 0;
        assert sa[1..] == NatToString(-a) && sb[1..] == NatToString(-b);
        NatToStringInjective(-a, -b);
      } else {
        assert b >= 0;
        NatToStringInjective(a, b);
      }
    }
  }


}
