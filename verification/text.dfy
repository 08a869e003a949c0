/** The handful of Go string primitives the scoring rules rely on
    (`strings.TrimSpace`, `strings.Fields`, `strings.ToLower`,
    `strings.Contains`, `strings.TrimPrefix`, `strings.EqualFold` and
    `strconv.Atoi`), over strings taken as sequences of Unicode code points. */
module Text {

  const MinInt64: int := -0x8000_0000_0000_0000
  const MaxInt64: int := 0x7FFF_FFFF_FFFF_FFFF

  /** White space as Go's `unicode.IsSpace` classifies it. */
  predicate IsSpace(c: char) {
    || c == ' ' || c == '\t' || c == '\n' || c == '\U{000B}' || c == '\U{000C}' || c == '\r'
    || c == '\U{0085}' || c == '\U{00A0}' || c == '\U{1680}'
    || ('\U{2000}' <= c <= '\U{200A}')
    || c == '\U{2028}' || c == '\U{2029}' || c == '\U{202F}' || c == '\U{205F}' || c == '\U{3000}'
  }

  /** Every character of `t` is white space. */
  predicate AllSpace(t: string) {
    forall i :: 0 <= i < |t| ==> IsSpace(t[i])
  }

  /** A non-empty run of non-space characters: what `strings.Fields` yields. */
  predicate IsWord(w: string) {
    |w| > 0 && forall i :: 0 <= i < |w| ==> !IsSpace(w[i])
  }

  // ---------------------------------------------------------------------------
  // Trimming
  // ---------------------------------------------------------------------------

  /** Drops leading white space. */
  function TrimLeftSpace(s: string): (r: string)
    ensures |r| <= |s| && r == s[|s| - |r|..]
    ensures r == [] || !IsSpace(r[0])
    ensures AllSpace(s[..|s| - |r|])
  {
    if s != [] && IsSpace(s[0]) then
      var r := TrimLeftSpace(s[1..]);
      assert s[..|s| - |r|] == [s[0]] + s[1..][..|s| - 1 - |r|];
      r
    else s
  }

  /** Drops trailing white space. */
  function TrimRightSpace(s: string): (r: string)
    ensures |r| <= |s| && r == s[..|r|]
    ensures r == [] || !IsSpace(r[|r| - 1])
    ensures AllSpace(s[|r|..])
  {
    if s != [] && IsSpace(s[|s| - 1]) then
      var r := TrimRightSpace(s[..|s| - 1]);
      assert s[|r|..] == s[..|s| - 1][|r|..] + [s[|s| - 1]];
      r
    else s
  }

  /** Number of white-space characters `TrimSpace` cuts from the front. */
  function LeadingSpaces(s: string): (n: nat)
    ensures n <= |s|
    ensures AllSpace(s[..n])
    ensures n == |s| || !IsSpace(s[n])
  {
    |s| - |TrimLeftSpace(s)|
  }

  /** `strings.TrimSpace`: the result is the piece of the input that starts
      after its leading white space, neither starts nor ends with white space,
      and is followed only by white space. */
  function TrimSpace(s: string): (r: string)
    ensures LeadingSpaces(s) + |r| <= |s|
    ensures r == s[LeadingSpaces(s)..LeadingSpaces(s) + |r|]
    ensures AllSpace(s[LeadingSpaces(s) + |r|..])
    ensures r == [] || (!IsSpace(r[0]) && !IsSpace(r[|r| - 1]))
  {
    var l := TrimLeftSpace(s);
    var r := TrimRightSpace(l);
    SliceOfSuffix(s, l, r);
    r
  }

  /** A prefix `r` of a suffix `l` of `s` is the slice of `s` it occupies. */
  lemma SliceOfSuffix<T>(s: seq<T>, l: seq<T>, r: seq<T>)
    requires |l| <= |s| && l == s[|s| - |l|..] && |r| <= |l| && r == l[..|r|]
    ensures r == s[|s| - |l|..|s| - |l| + |r|]
    ensures l[|r|..] == s[|s| - |l| + |r|..]
    ensures r != [] ==> r[0] == l[0]
  {
  }

  /** Drops the leading characters that belong to `cut`. */
  function TrimLeftCut(s: string, cut: set<char>): (r: string)
    ensures |r| <= |s| && r == s[|s| - |r|..]
    ensures r == [] || r[0] !in cut
    ensures forall i :: 0 <= i < |s| - |r| ==> s[i] in cut
  {
    if s != [] && s[0] in cut then
      var r := TrimLeftCut(s[1..], cut);
      assert forall i :: 1 <= i < |s| - |r| ==> s[i] == s[1..][i - 1];
      r
    else s
  }

  /** Drops the trailing characters that belong to `cut`. */
  function TrimRightCut(s: string, cut: set<char>): (r: string)
    ensures |r| <= |s| && r == s[..|r|]
    ensures r == [] || r[|r| - 1] !in cut
    ensures forall i :: |r| <= i < |s| ==> s[i] in cut
  {
    if s != [] && s[|s| - 1] in cut then
      var r := TrimRightCut(s[..|s| - 1], cut);
      assert forall i :: |r| <= i < |s| - 1 ==> s[i] == s[..|s| - 1][i];
      r
    else s
  }

  /** `strings.Trim(s, cutset)`: the input without its leading and trailing
      runs of cut characters. The result sits in the input at some offset `i`;
      everything before `i` and after the result is a cut character, and the
      result neither starts nor ends with one. */
  function TrimCut(s: string, cut: set<char>): (r: string)
    ensures r == [] || (r[0] !in cut && r[|r| - 1] !in cut)
    ensures exists i :: TrimmedAt(s, r, i, cut)
  {
    var l := TrimLeftCut(s, cut);
    var r := TrimRightCut(l, cut);
    TrimmedBoth(s, l, r, cut);
    r
  }

  /** Trimming the left and then the right leaves the result at offset
      `|s| - |l|`, with only cut characters around it. */
  lemma TrimmedBoth(s: string, l: string, r: string, cut: set<char>)
    requires |l| <= |s| && l == s[|s| - |l|..] && forall k :: 0 <= k < |s| - |l| ==> s[k] in cut
    requires |r| <= |l| && r == l[..|r|] && forall k :: |r| <= k < |l| ==> l[k] in cut
    ensures TrimmedAt(s, r, |s| - |l|, cut)
  {
    var i := |s| - |l|;
    assert s[i..i + |r|] == r by {
      SliceOfSuffix(s, l, r);
    }
    forall k | i + |r| <= k < |s| ensures s[k] in cut {
      assert s[k] == l[k - i];
    }
  }

  /** `r` sits in `s` at offset `i`, with only cut characters around it. */
  predicate TrimmedAt(s: string, r: string, i: int, cut: set<char>) {
    && OccursAt(s, r, i)
    && (forall k | 0 <= k < i :: s[k] in cut)
    && (forall k | i + |r| <= k < |s| :: s[k] in cut)
  }

  // ---------------------------------------------------------------------------
  // Splitting into fields
  // ---------------------------------------------------------------------------

  /** Length of the leading run of non-space characters. */
  function WordLength(t: string): (n: nat)
    ensures n <= |t|
    ensures forall i :: 0 <= i < n ==> !IsSpace(t[i])
    ensures n == |t| || IsSpace(t[n])
  {
    if t == [] || IsSpace(t[0]) then 0 else 1 + WordLength(t[1..])
  }

  predicate AllWords(ws: seq<string>) {
    forall i :: 0 <= i < |ws| ==> IsWord(ws[i])
  }

  /** `strings.Fields`: the maximal runs of non-space characters, in order. */
  function Fields(s: string): (fs: seq<string>)
    ensures AllWords(fs)
    ensures |fs| <= |s|
    decreases |s|
  {
    var t := TrimLeftSpace(s);
    if t == [] then []
    else
      var n := WordLength(t);
      WordPrefix(t);
      var rest := Fields(t[n..]);
      AllWordsCons(t[..n], rest);
      [t[..n]] + rest
  }

  /** The leading run of a text that starts with a non-space is a word. */
  lemma WordPrefix(t: string)
    requires t != [] && !IsSpace(t[0])
    ensures WordLength(t) > 0 && IsWord(t[..WordLength(t)])
  {
    var n := WordLength(t);
    forall i | 0 <= i < n ensures !IsSpace(t[..n][i]) {
      assert t[..n][i] == t[i];
    }
  }

  lemma AllWordsCons(w: string, rest: seq<string>)
    requires IsWord(w) && AllWords(rest)
    ensures AllWords([w] + rest)
  {
    forall i | 0 <= i < |[w] + rest| ensures IsWord(([w] + rest)[i]) {
      if i > 0 {
        assert ([w] + rest)[i] == rest[i - 1];
      }
    }
  }

  /** A text has no fields exactly when it is all white space. */
  lemma FieldsEmpty(s: string)
    ensures Fields(s) == [] <==> AllSpace(s)
  {
    var t := TrimLeftSpace(s);
    assert t == [] ==> s[..|s|] == s;
    assert t != [] ==> s[|s| - |t|] == t[0];
  }

  /** The non-space characters of a text, in order. */
  function NonSpace(s: string): string {
    if s == [] then [] else (if IsSpace(s[0]) then [] else [s[0]]) + NonSpace(s[1..])
  }

  /** Words glued together without separators. */
  function Concat(ws: seq<string>): string {
    if ws == [] then [] else ws[0] + Concat(ws[1..])
  }

  lemma {:induction false} NonSpaceAppend(a: string, b: string)
    ensures NonSpace(a + b) == NonSpace(a) + NonSpace(b)
  {
    if a != [] {
      assert (a + b)[1..] == a[1..] + b;
      NonSpaceAppend(a[1..], b);
    } else {
      assert a + b == b;
    }
  }

  lemma {:induction false} NonSpaceOfSpace(a: string)
    requires AllSpace(a)
    ensures NonSpace(a) == []
  {
    if a != [] {
      NonSpaceOfSpace(a[1..]);
    }
  }

  lemma {:induction false} NonSpaceOfWord(w: string)
    requires forall i :: 0 <= i < |w| ==> !IsSpace(w[i])
    ensures NonSpace(w) == w
  {
    if w != [] {
      NonSpaceOfWord(w[1..]);
    }
  }

  /** Glued back together, the fields are exactly the text's non-space
      characters, in order: `Fields` drops white space and nothing else. */
  lemma {:induction false} FieldsJoinNonSpace(s: string)
    ensures Concat(Fields(s)) == NonSpace(s)
    decreases |s|
  {
    var t := TrimLeftSpace(s);
    NonSpaceSkipsSpace(s);
    if t != [] {
      var n := WordLength(t);
      WordPrefix(t);
      NonSpaceOfWordThen(t, n);
      FieldsJoinNonSpace(t[n..]);
      var fs := [t[..n]] + Fields(t[n..]);
      assert Fields(s) == fs && fs[0] == t[..n] && fs[1..] == Fields(t[n..]);
    }
  }

  lemma NonSpaceSkipsSpace(s: string)
    ensures NonSpace(s) == NonSpace(TrimLeftSpace(s))
  {
    var t := TrimLeftSpace(s);
    var pre := s[..|s| - |t|];
    assert s == pre + t;
    NonSpaceAppend(pre, t);
    NonSpaceOfSpace(pre);
  }

  lemma NonSpaceOfWordThen(t: string, n: nat)
    requires n <= |t| && forall i :: 0 <= i < n ==> !IsSpace(t[i])
    ensures NonSpace(t) == t[..n] + NonSpace(t[n..])
  {
    assert t == t[..n] + t[n..];
    NonSpaceAppend(t[..n], t[n..]);
    NonSpaceOfWord(t[..n]);
  }


  /** Words joined with single spaces: the inverse of `Fields` on words. */
  function Unwords(ws: seq<string>): string {
    if ws == [] then []
    else if |ws| == 1 then ws[0]
    else ws[0] + " " + Unwords(ws[1..])
  }

  lemma {:induction false} WordLengthOfWordThenRest(w: string, rest: string)
    requires IsWord(w)
    requires rest == [] || IsSpace(rest[0])
    ensures WordLength(w + rest) == |w|
    decreases |w|
  {
    if |w| == 1 {
      assert (w + rest)[1..] == rest;
    } else {
      assert (w + rest)[1..] == w[1..] + rest;
      WordLengthOfWordThenRest(w[1..], rest);
    }
  }

  lemma FieldsOfWordThen(w: string, rest: string)
    requires IsWord(w)
    requires rest == [] || IsSpace(rest[0])
    ensures Fields(w + rest) == [w] + Fields(rest)
  {
    WordLengthOfWordThenRest(w, rest);
    assert TrimLeftSpace(w + rest) == w + rest;
    assert (w + rest)[..|w|] == w;
    assert (w + rest)[|w|..] == rest;
  }

  lemma HeadTail<T>(s: seq<T>)
    requires |s| > 0
    ensures [s[0]] + s[1..] == s
  {
  }

  lemma FieldsOfWord(w: string)
    requires IsWord(w)
    ensures Fields(w) == [w]
  {
    assert w + [] == w;
    FieldsOfWordThen(w, []);
    assert TrimLeftSpace([]) == [];
    assert [w] + Fields([]) == [w];
  }

  lemma FieldsSkipsSpace(s: string)
    ensures Fields(" " + s) == Fields(s)
  {
    assert (" " + s)[1..] == s;
    assert TrimLeftSpace(" " + s) == TrimLeftSpace(s);
  }

  /** Splitting at any white-space character splits the fields: with
      `FieldsOfWord` and `FieldsEmpty` this pins `Fields` down to the maximal
      runs of non-space characters. */
  lemma {:induction false} FieldsSplitAtSpace(a: string, c: char, b: string)
    requires IsSpace(c)
    ensures Fields(a + [c] + b) == Fields(a) + Fields(b)
    decreases |a|
  {
    if a == [] {
      SplitAtSpaceEmpty(c, b);
    } else if IsSpace(a[0]) {
      FieldsSplitAtSpace(a[1..], c, b);
      SplitAtSpaceSpace(a, c, b);
      Rejoin(Fields(a + [c] + b), Fields(a[1..] + [c] + b), Fields(a), [], Fields(a[1..]), Fields(b));
    } else {
      var n := WordLength(a);
      WordPrefix(a);
      var w, r := a[..n], a[n..];
      assert a == w + r;
      FieldsSplitAtSpace(r, c, b);
      SplitAtSpaceWord(w, r, c, b);
      Rejoin(Fields(a + [c] + b), Fields(r + [c] + b), Fields(a), [w], Fields(r), Fields(b));
    }
  }

  /** `x` is `p` followed by `y`, which splits into `u` and `v`; so with
      `z == p + u`, `x` is `z` followed by `v`. */
  lemma Rejoin<T>(x: seq<T>, y: seq<T>, z: seq<T>, p: seq<T>, u: seq<T>, v: seq<T>)
    requires x == p + y && y == u + v && z == p + u
    ensures x == z + v
  {
  }

  lemma SplitAtSpaceEmpty(c: char, b: string)
    requires IsSpace(c)
    ensures Fields([] + [c] + b) == Fields([]) + Fields(b)
  {
    var s := [] + [c] + b;
    assert s == [c] + b && s[1..] == b;
    FieldsSkipsLeadingSpace(s);
    assert Fields([]) == [];
  }

  lemma SplitAtSpaceSpace(a: string, c: char, b: string)
    requires IsSpace(c) && a != [] && IsSpace(a[0])
    ensures Fields(a + [c] + b) == [] + Fields(a[1..] + [c] + b)
    ensures Fields(a) == [] + Fields(a[1..])
  {
    var s := a + [c] + b;
    assert s[0] == a[0] && s[1..] == a[1..] + [c] + b;
    FieldsSkipsLeadingSpace(s);
    FieldsSkipsLeadingSpace(a);
    assert [] + Fields(a[1..] + [c] + b) == Fields(a[1..] + [c] + b);
    assert [] + Fields(a[1..]) == Fields(a[1..]);
  }

  lemma SplitAtSpaceWord(w: string, r: string, c: char, b: string)
    requires IsWord(w) && IsSpace(c) && (r == [] || IsSpace(r[0]))
    ensures Fields(w + r + [c] + b) == [w] + Fields(r + [c] + b)
    ensures Fields(w + r) == [w] + Fields(r)
  {
    assert w + r + [c] + b == w + (r + [c] + b);
    assert r != [] ==> (r + [c] + b)[0] == r[0];
    assert r == [] ==> r + [c] + b == [c] + b;
    FieldsOfWordThen(w, r + [c] + b);
    FieldsOfWordThen(w, r);
  }

  lemma FieldsSkipsLeadingSpace(s: string)
    requires s != [] && IsSpace(s[0])
    ensures Fields(s) == Fields(s[1..])
  {
    assert TrimLeftSpace(s) == TrimLeftSpace(s[1..]);
  }

  lemma FieldsOfWordStart(s: string)
    requires s != [] && !IsSpace(s[0])
    ensures WordLength(s) > 0
    ensures Fields(s) == [s[..WordLength(s)]] + Fields(s[WordLength(s)..])
  {
    assert TrimLeftSpace(s) == s;
  }

  /** Text that starts with white space does not lengthen a word before it. */
  lemma {:induction false} WordLengthAppend(a: string, r: string)
    requires r == [] || IsSpace(r[0])
    ensures WordLength(a + r) == WordLength(a)
  {
    if a == [] {
      assert a + r == r;
    } else {
      assert (a + r)[0] == a[0] && (a + r)[1..] == a[1..] + r;
      WordLengthAppend(a[1..], r);
    }
  }

  /** Splitting space-joined words gives the words back. */
  lemma {:induction false} FieldsOfUnwords(ws: seq<string>)
    requires AllWords(ws)
    ensures Fields(Unwords(ws)) == ws
  {
    if ws == [] {
    } else if |ws| == 1 {
      assert IsWord(ws[0]);
      FieldsOfWord(ws[0]);
      HeadTail(ws);
      assert ws[1..] == [];
    } else {
      var tail := ws[1..];
      assert AllWords(tail) by {
        forall i | 0 <= i < |tail| ensures IsWord(tail[i]) {
          assert tail[i] == ws[i + 1];
        }
      }
      FieldsOfUnwords(tail);
      FieldsOfUnwordsStep(ws);
    }
  }

  /** One word in front of space-joined words whose fields are known. */
  lemma FieldsOfUnwordsStep(ws: seq<string>)
    requires |ws| >= 2 && IsWord(ws[0])
    requires Fields(Unwords(ws[1..])) == ws[1..]
    ensures Fields(Unwords(ws)) == ws
  {
    var tail := ws[1..];
    var rest := " " + Unwords(tail);
    assert Unwords(ws) == ws[0] + rest;
    assert IsSpace(rest[0]);
    FieldsOfWordThen(ws[0], rest);
    FieldsSkipsSpace(Unwords(tail));
    HeadTail(ws);
    assert Fields(Unwords(ws)) == [ws[0]] + Fields(rest) == [ws[0]] + tail;
  }

  // ---------------------------------------------------------------------------
  // Case mapping and matching
  // ---------------------------------------------------------------------------

  /** `unicode.ToLower` restricted to what can change a comparison with ASCII
      text: ASCII capitals, U+0130 (capital I with dot, lowered to 'i') and
      U+212A (Kelvin sign, lowered to 'k') are the only characters Go lowers
      into ASCII; every other character is kept as it is. */
  function LowerChar(c: char): (d: char)
    ensures 'a' <= d <= 'z' <==> ('a' <= c <= 'z' || 'A' <= c <= 'Z' || c == '\U{0130}' || c == '\U{212A}')
    ensures IsSpace(d) <==> IsSpace(c)
  {
    if 'A' <= c <= 'Z' then (c as int + 32) as char
    else if c == '\U{0130}' then 'i'
    else if c == '\U{212A}' then 'k'
    else c
  }

  /** `strings.ToLower`, character by character. */
  function ToLower(s: string): (r: string)
    ensures |r| == |s|
    ensures forall i :: 0 <= i < |s| ==> r[i] == LowerChar(s[i])
  {
    seq(|s|, i requires 0 <= i < |s| => LowerChar(s[i]))
  }

  /** `strings.Contains`: `sub` occurs somewhere in `s`. */
  predicate Contains(s: string, sub: string) {
    exists i | 0 <= i <= |s| - |sub| :: OccursAt(s, sub, i)
  }

  predicate OccursAt(s: string, sub: string, i: int) {
    0 <= i <= |s| - |sub| && s[i..i + |sub|] == sub
  }

  /** `strings.TrimPrefix`. */
  function TrimPrefix(s: string, prefix: string): (r: string)
    ensures prefix <= s ==> prefix + r == s
    ensures !(prefix <= s) ==> r == s
  {
    if prefix <= s then s[|prefix|..] else s
  }

  /** `strings.EqualFold(c, "yes")` under Go's simple case folding, where the
      only characters folding to 'y', 'e' or 's' are the two ASCII cases and,
      for 's', the long s U+017F. */
  predicate EqualFoldYes(c: string) {
    && |c| == 3
    && (c[0] == 'y' || c[0] == 'Y')
    && (c[1] == 'e' || c[1] == 'E')
    && (c[2] == 's' || c[2] == 'S' || c[2] == '\U{017F}')
  }

  // ---------------------------------------------------------------------------
  // Integer parsing
  // ---------------------------------------------------------------------------

  predicate IsDigit(c: char) { '0' <= c <= '9' }

  predicate AllDigits(s: string) { forall i :: 0 <= i < |s| ==> IsDigit(s[i]) }

  /** The value of a string of decimal digits, most significant first. */
  function DigitsValue(ds: string): nat
    requires AllDigits(ds)
  {
    if ds == [] then 0
    else DigitsValue(ds[..|ds| - 1]) * 10 + (ds[|ds| - 1] as int - '0' as int)
  }

  /** The text after an optional leading sign. */
  function Unsigned(s: string): (u: string)
    ensures |u| <= |s|
  {
    if s != [] && (s[0] == '+' || s[0] == '-') then s[1..] else s
  }

  predicate Negative(s: string) { s != [] && s[0] == '-' }

  /** What `strconv.Atoi` accepts: an optional sign followed by at least one
      ASCII digit. */
  predicate IsDecimal(s: string) {
    Unsigned(s) != [] && AllDigits(Unsigned(s))
  }

  /** Length of the leading run of ASCII digits. */
  function DigitRun(s: string): (k: nat)
    ensures k <= |s| && AllDigits(s[..k])
    ensures k == |s| || !IsDigit(s[k])
  {
    if s == [] || !IsDigit(s[0]) then 0
    else
      var k := 1 + DigitRun(s[1..]);
      assert forall i :: 1 <= i < k ==> s[..k][i] == s[1..][..k - 1][i - 1];
      k
  }

  const MaxUint64: int := 0xFFFF_FFFF_FFFF_FFFF

  /** The digits after the sign reach past 64 unsigned bits before the first
      non-digit: `ParseUint` stops at the digit that overflows and reports the
      largest value, whatever follows. */
  predicate Saturates(s: string) {
    var u := Unsigned(s);
    DigitsValue(u[..DigitRun(u)]) > MaxUint64
  }

  function Clamp64(x: int): (r: int)
    ensures MinInt64 <= r <= MaxInt64
    ensures MinInt64 <= x <= MaxInt64 ==> r == x
  {
    if x < MinInt64 then MinInt64 else if x > MaxInt64 then MaxInt64 else x
  }

  /** `n, _ := strconv.Atoi(s)`: the signed value of a decimal string, clamped
      to the 64-bit range as `ParseInt` does on overflow; the clamped bound
      when the leading digits already overflow, whatever follows them; 0 for
      any other text (the error is discarded by every caller). */
  function Atoi(s: string): (n: int)
    ensures MinInt64 <= n <= MaxInt64
    ensures !IsDecimal(s) && !Saturates(s) ==> n == 0
    ensures Saturates(s) ==> n == (if Negative(s) then MinInt64 else MaxInt64)
    ensures IsDecimal(s) ==>
              var v: int := DigitsValue(Unsigned(s));
              n == Clamp64(if Negative(s) then -v else v)
  {
    var u := Unsigned(s);
    var k := DigitRun(u);
    var v: int := DigitsValue(u[..k]);
    assert AllDigits(u) ==> k == |u| && u[..k] == u;
    if k > 0 && (k == |u| || v > MaxUint64) then Clamp64(if Negative(s) then -v else v)
    else 0
  }

  /** Decimal rendering of a natural number, without leading zeros. */
  function Decimal(n: nat): (s: string)
    ensures AllDigits(s) && |s| > 0
  {
    if n < 10 then [('0' as int + n) as char]
    else Decimal(n / 10) + [('0' as int + n % 10) as char]
  }

  lemma {:induction false} DigitsValueOfDecimal(n: nat)
    ensures DigitsValue(Decimal(n)) == n
  {
    var s := Decimal(n);
    if n >= 10 {
      DigitsValueOfDecimal(n / 10);
      assert s[..|s| - 1] == Decimal(n / 10);
    }
  }

  /** `Atoi` reads back every 64-bit integer written in decimal, with or
      without an explicit sign. */
  lemma AtoiOfDecimal(n: nat)
    requires n <= MaxInt64
    ensures Atoi(Decimal(n)) == n
    ensures Atoi("+" + Decimal(n)) == n
    ensures Atoi("-" + Decimal(n)) == -(n as int)
  {
    DigitsValueOfDecimal(n);
    var d := Decimal(n);
    assert IsDigit(d[0]) && Unsigned(d) == d && !Negative(d);
    assert ("+" + d)[1..] == d && Unsigned("+" + d) == d && !Negative("+" + d);
    assert ("-" + d)[1..] == d && Unsigned("-" + d) == d && Negative("-" + d);
    assert IsDecimal(d) && IsDecimal("+" + d) && IsDecimal("-" + d);
  }

  /** Digits worth more than 64 unsigned bits saturate `Atoi`, whatever text
      follows them: the largest 64-bit value, or the smallest after a minus. */
  lemma AtoiSaturates(sign: string, ds: string, rest: string)
    requires sign == "" || sign == "+" || sign == "-"
    requires AllDigits(ds) && DigitsValue(ds) > MaxUint64
    requires rest == [] || !IsDigit(rest[0])
    ensures Atoi(sign + ds + rest) == if sign == "-" then MinInt64 else MaxInt64
  {
    var t := ds + rest;
    assert t[0] == ds[0];
    assert sign + ds + rest == sign + t;
    UnsignedOfSigned(sign, t);
    AtoiOfSaturating(sign + t, ds, rest);
  }

  lemma UnsignedOfSigned(sign: string, t: string)
    requires sign == "" || sign == "+" || sign == "-"
    requires t != [] && IsDigit(t[0])
    ensures Unsigned(sign + t) == t
    ensures Negative(sign + t) <==> sign == "-"
  {
    if sign == "" {
      assert sign + t == t;
    } else {
      assert (sign + t)[0] == sign[0] && (sign + t)[1..] == t;
    }
  }

  lemma AtoiOfSaturating(x: string, ds: string, rest: string)
    requires AllDigits(ds) && DigitsValue(ds) > MaxUint64
    requires rest == [] || !IsDigit(rest[0])
    requires Unsigned(x) == ds + rest
    ensures Atoi(x) == if Negative(x) then MinInt64 else MaxInt64
  {
    SaturatesOfUnsigned(x, ds, rest);
  }

  lemma SaturatesOfUnsigned(x: string, ds: string, rest: string)
    requires AllDigits(ds) && DigitsValue(ds) > MaxUint64
    requires rest == [] || !IsDigit(rest[0])
    requires Unsigned(x) == ds + rest
    ensures Saturates(x)
  {
    DigitRunOfDigitsThen(ds, rest);
    assert (ds + rest)[..|ds|] == ds;
  }

  /** The leading digit run of digits followed by a non-digit is those digits. */
  lemma {:induction false} DigitRunOfDigitsThen(ds: string, rest: string)
    requires AllDigits(ds)
    requires rest == [] || !IsDigit(rest[0])
    ensures DigitRun(ds + rest) == |ds|
  {
    if ds != [] {
      assert (ds + rest)[1..] == ds[1..] + rest;
      DigitRunOfDigitsThen(ds[1..], rest);
    } else {
      assert ds + rest == rest;
    }
  }
}
