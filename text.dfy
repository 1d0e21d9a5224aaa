// Python string operations that the repository relies on, written out on seq<char>.
module Text {
  import opened Wrappers

  /** Python's str.isspace(): the code points str.strip() and str.split() treat as blanks. */
  predicate IsSpace(c: char)
  {
    c == ' ' || ('\t' <= c <= '\r') || ('\U{1C}' <= c <= '\U{1F}') || c == '\U{85}' || c == '\U{A0}'
    || c == '\U{1680}' || ('\U{2000}' <= c <= '\U{200A}') || c == '\U{2028}' || c == '\U{2029}'
    || c == '\U{202F}' || c == '\U{205F}' || c == '\U{3000}'
  }

  predicate IsDigit(c: char) { '0' <= c <= '9' }

  predicate AllDigits(s: string) { forall i :: 0 <= i < |s| ==> IsDigit(s[i]) }

  /** Lower-casing of ASCII and basic Cyrillic capitals (what lower()/casefold() do on them). */
  function LowerChar(c: char): (r: char)
    ensures 'A' <= c <= 'Z' ==> r as int == c as int + 32
    ensures !('A' <= c <= 'Z') && !('\U{400}' <= c <= '\U{42F}') ==> r == c
  {
    if 'A' <= c <= 'Z' then (c as int + 32) as char
    else if '\U{410}' <= c <= '\U{42F}' then (c as int + 32) as char
    else if '\U{400}' <= c <= '\U{40F}' then (c as int + 80) as char
    else c
  }

  function Lower(s: string): (r: string)
    ensures |r| == |s|
    ensures forall i :: 0 <= i < |s| ==> r[i] == LowerChar(s[i])
  {
    if s == [] then [] else [LowerChar(s[0])] + Lower(s[1..])
  }

  predicate StartsWith(s: string, p: string) { p <= s }

  predicate EndsWith(s: string, t: string) { |t| <= |s| && s[|s| - |t|..] == t }

  /** No item appears twice. */
  predicate Distinct<T(==)>(s: seq<T>) { forall i, j :: 0 <= i < j < |s| ==> s[i] != s[j] }

  /** Two lists without repeats and without a common item join into a list without repeats. */
  lemma DistinctAppend<T>(a: seq<T>, b: seq<T>)
    requires Distinct(a) && Distinct(b) && forall x :: x in a ==> x !in b
    ensures Distinct(a + b)
  {
    forall i, j | 0 <= i < j < |a + b| ensures (a + b)[i] != (a + b)[j] {
      if j < |a| {
        assert (a + b)[i] == a[i] && (a + b)[j] == a[j];
      } else if i >= |a| {
        assert (a + b)[i] == b[i - |a|] && (a + b)[j] == b[j - |a|];
      } else {
        assert (a + b)[i] == a[i] && (a + b)[j] == b[j - |a|];
        assert a[i] in a && b[j - |a|] in b;
      }
    }
  }

  /** str.lstrip() */
  function TrimLeft(s: string): (r: string)
    ensures |r| <= |s| && r == s[|s| - |r|..]
    ensures r != [] ==> !IsSpace(r[0])
    ensures forall i :: 0 <= i < |s| - |r| ==> IsSpace(s[i])
  {
    if s != [] && IsSpace(s[0]) then TrimLeft(s[1..]) else s
  }

  /** str.rstrip() */
  function TrimRight(s: string): (r: string)
    ensures |r| <= |s| && r == s[..|r|]
    ensures r != [] ==> !IsSpace(r[|r| - 1])
    ensures forall i :: |r| <= i < |s| ==> IsSpace(s[i])
  {
    if s != [] && IsSpace(s[|s| - 1]) then TrimRight(s[..|s| - 1]) else s
  }

  /** str.rstrip(c): s without its trailing run of c. */
  function TrimRightChar(s: string, c: char): (r: string)
    ensures |r| <= |s| && r == s[..|r|]
    ensures r != [] ==> r[|r| - 1] != c
    ensures forall i :: |r| <= i < |s| ==> s[i] == c
  {
    if s != [] && s[|s| - 1] == c then TrimRightChar(s[..|s| - 1], c) else s
  }

  /** str.strip(): the longest slice of s with no blank at either end. */
  function Strip(s: string): (r: string)
    ensures |r| <= |s|
    ensures r != [] ==> !IsSpace(r[0]) && !IsSpace(r[|r| - 1])
  {
    TrimRight(TrimLeft(s))
  }

  lemma StripEmptyIffBlank(s: string)
    ensures Strip(s) == [] <==> forall i :: 0 <= i < |s| ==> IsSpace(s[i])
  {
    var l := TrimLeft(s);
    if Strip(s) == [] {
      assert |l| == 0;
    } else {
      var r := Strip(s);
      assert l[..|r|] == r;
      assert s[|s| - |l|] == r[0];
    }
  }

  /** sep.join(parts) */
  function Join(parts: seq<string>, sep: string): string
  {
    if parts == [] then "" else if |parts| == 1 then parts[0] else parts[0] + sep + Join(parts[1..], sep)
  }

  /** str.split(c) with an explicit one-character separator: keeps empty pieces. */
  function Split(s: string, c: char): (r: seq<string>)
    ensures |r| >= 1
    ensures forall i :: 0 <= i < |r| ==> c !in r[i]
  {
    if s == [] then [""]
    else
      var rest := Split(s[1..], c);
      if s[0] == c then [""] + rest else [[s[0]] + rest[0]] + rest[1..]
  }

  lemma SplitNoSep(s: string, c: char)
    requires c !in s
    ensures Split(s, c) == [s]
  {
    if s != [] {
      SplitNoSep(s[1..], c);
      assert [s[0]] + s[1..] == s;
    }
  }

  lemma {:induction false} SplitAtSep(s: string, c: char, t: string)
    ensures Split(s + [c] + t, c) == Split(s, c) + Split(t, c)
  {
    if s == [] {
      assert s + [c] + t == [c] + t;
      SplitCons(c, t, c);
    } else {
      var v := s[1..];
      SplitAtSep(v, c, t);
      assert s == [s[0]] + v;
      assert s + [c] + t == [s[0]] + (v + [c] + t);
      SplitCons(s[0], v + [c] + t, c);
      SplitCons(s[0], v, c);
      ConsPiece(s[0], c, Split(v, c), Split(t, c));
    }
  }

  /** The sequence algebra of one step of SplitAtSep. */
  lemma ConsPiece(x: char, c: char, rest: seq<string>, tail: seq<string>)
    requires rest != []
    ensures (if x == c then [""] + (rest + tail) else [[x] + (rest + tail)[0]] + (rest + tail)[1..])
      == (if x == c then [""] + rest else [[x] + rest[0]] + rest[1..]) + tail
  {
    if x == c {
      assert [""] + (rest + tail) == [""] + rest + tail;
    } else {
      var head: seq<string> := [[x] + rest[0]];
      assert (rest + tail)[0] == rest[0] && (rest + tail)[1..] == rest[1..] + tail;
      assert head + (rest[1..] + tail) == head + rest[1..] + tail;
    }
  }

  /** One unfolding of Split on a non-empty string. */
  lemma SplitCons(x: char, v: string, c: char)
    ensures var rest := Split(v, c);
      Split([x] + v, c) == if x == c then [""] + rest else [[x] + rest[0]] + rest[1..]
  {
    assert ([x] + v)[0] == x && ([x] + v)[1..] == v;
  }

  /** str.split(): maximal runs of non-blank characters. */
  function Words(s: string): (r: seq<string>)
    ensures forall w <- r :: IsWord(w)
    decreases |s|
  {
    var t := TrimLeft(s);
    if t == [] then []
    else
      var w := WordPrefix(t);
      var rest := Words(t[|w|..]);
      [w] + rest
  }

  predicate IsWord(w: string) { w != [] && forall j :: 0 <= j < |w| ==> !IsSpace(w[j]) }

  /** The leading run of non-blank characters. */
  function WordPrefix(s: string): (r: string)
    requires s != [] && !IsSpace(s[0])
    ensures r != [] && r <= s
    ensures forall j :: 0 <= j < |r| ==> !IsSpace(r[j])
    ensures |r| < |s| ==> IsSpace(s[|r|])
  {
    if |s| == 1 || IsSpace(s[1]) then s[..1] else [s[0]] + WordPrefix(s[1..])
  }

  /** str.find(pat) for a one-or-more-character pattern: the first index, or -1. */
  function Find(s: string, pat: string): (r: int)
    requires pat != []
    ensures r == -1 || 0 <= r <= |s| - |pat|
    ensures r >= 0 ==> OccursAt(s, pat, r) && forall k :: 0 <= k < r ==> !OccursAt(s, pat, k)
    ensures r == -1 ==> forall k :: 0 <= k <= |s| - |pat| ==> !OccursAt(s, pat, k)
  {
    FindFrom(s, pat, 0)
  }

  function FindFrom(s: string, pat: string, from: nat): (r: int)
    requires pat != [] && from <= |s|
    ensures r == -1 || from <= r <= |s| - |pat|
    ensures r >= 0 ==> OccursAt(s, pat, r) && forall k :: from <= k < r ==> !OccursAt(s, pat, k)
    ensures r == -1 ==> forall k :: from <= k <= |s| - |pat| ==> !OccursAt(s, pat, k)
    decreases |s| - from
  {
    if |s| - from < |pat| then -1
    else if OccursAt(s, pat, from) then from
    else FindFrom(s, pat, from + 1)
  }

  /** pat occurs in s starting at index k. */
  predicate OccursAt(s: string, pat: string, k: int)
  {
    0 <= k <= |s| - |pat| && s[k..k + |pat|] == pat
  }

  predicate Contains(s: string, pat: string)
  {
    exists k :: 0 <= k <= |s| - |pat| && OccursAt(s, pat, k)
  }

  /** str.rfind(c) for one character: the last index, or -1. */
  function LastIndexOf(s: string, c: char): (r: int)
    ensures -1 <= r < |s|
    ensures r >= 0 ==> s[r] == c
    ensures forall k :: r < k < |s| ==> s[k] != c
  {
    if s == [] then -1 else if s[|s| - 1] == c then |s| - 1 else LastIndexOf(s[..|s| - 1], c)
  }

  function DigitChar(d: nat): char
    requires d < 10
  {
    (48 + d) as char
  }

  function DigitValue(c: char): nat
    requires IsDigit(c)
  {
    c as int - 48
  }

  /** str(n) for a natural number. */
  function NatToStr(n: nat): (r: string)
    ensures r != [] && AllDigits(r)
    ensures n >= 10 ==> r[0] != '0'
  {
    if n < 10 then [DigitChar(n)] else NatToStr(n / 10) + [DigitChar(n % 10)]
  }

  /** int(s) for a string of decimal digits. */
  function ParseNat(s: string): nat
    requires AllDigits(s)
  {
    if s == [] then 0 else 10 * ParseNat(s[..|s| - 1]) + DigitValue(s[|s| - 1])
  }

  lemma {:induction false} ParseNatToStr(n: nat)
    ensures ParseNat(NatToStr(n)) == n
  {
    if n >= 10 {
      ParseNatToStr(n / 10);
      var s := NatToStr(n);
      assert s[..|s| - 1] == NatToStr(n / 10);
    }
  }

  function Zeros(k: nat): (r: string)
    ensures |r| == k && AllDigits(r)
    ensures forall i :: 0 <= i < k ==> r[i] == '0'
  {
    if k == 0 then "" else "0" + Zeros(k - 1)
  }

  lemma {:induction false} ParseNatLeadingZeros(k: nat, s: string)
    requires AllDigits(s)
    ensures ParseNat(Zeros(k) + s) == ParseNat(s)
    decreases |s|
  {
    if s == [] {
      assert Zeros(k) + s == Zeros(k);
      ParseNatZeros(k);
    } else {
      ParseNatLeadingZeros(k, s[..|s| - 1]);
      assert (Zeros(k) + s)[..|Zeros(k) + s| - 1] == Zeros(k) + s[..|s| - 1];
    }
  }

  lemma {:induction false} ParseNatZeros(k: nat)
    ensures ParseNat(Zeros(k)) == 0
  {
    if k > 0 {
      ParseNatZeros(k - 1);
      assert Zeros(k)[..k - 1] == Zeros(k - 1);
    }
  }

  /** f"{n:03d}": decimal, left-padded with zeros to at least three digits. */
  function Pad3(n: nat): (r: string)
    ensures |r| >= 3 && AllDigits(r)
  {
    var d := NatToStr(n);
    if |d| >= 3 then d else Zeros(3 - |d|) + d
  }

  /** The padded index reads back as the number it encodes, so distinct indices give distinct names. */
  lemma Pad3RoundTrip(n: nat)
    ensures ParseNat(Pad3(n)) == n
  {
    ParseNatToStr(n);
    var d := NatToStr(n);
    if |d| < 3 { ParseNatLeadingZeros(3 - |d|, d); }
  }

  lemma Pad3Injective(m: nat, n: nat)
    requires Pad3(m) == Pad3(n)
    ensures m == n
  {
    Pad3RoundTrip(m);
    Pad3RoundTrip(n);
  }

  /** What follows the last separator is determined by the string: x c d == y c e forces d == e. */
  lemma TailAfterSeparator(x: string, d: string, y: string, e: string, c: char)
    requires x + [c] + d == y + [c] + e && c !in d && c !in e
    ensures d == e
  {
    var s := x + [c] + d;
    assert forall k :: |s| - |d| <= k < |s| ==> s[k] == d[k - (|s| - |d|)];
    assert forall k :: |s| - |e| <= k < |s| ==> s[k] == e[k - (|s| - |e|)];
    assert s[|s| - |d| - 1] == c && s[|s| - |e| - 1] == c;
    assert |d| == |e|;
    assert d == s[|s| - |d|..] && e == s[|s| - |e|..];
  }

  // ---- what str.split() makes of joined and stripped strings ----

  lemma TrimLeftIdempotent(s: string)
    ensures TrimLeft(TrimLeft(s)) == TrimLeft(s)
  {
  }

  lemma WordsTrimLeft(s: string)
    ensures Words(TrimLeft(s)) == Words(s)
  {
    TrimLeftIdempotent(s);
  }

  lemma {:induction false} TrimLeftAppend(a: string, b: string)
    ensures TrimLeft(a) != [] ==> TrimLeft(a + b) == TrimLeft(a) + b
    ensures TrimLeft(a) == [] ==> TrimLeft(a + b) == TrimLeft(b)
  {
    if a != [] {
      assert (a + b)[0] == a[0] && (a + b)[1..] == a[1..] + b;
      if IsSpace(a[0]) {
        TrimLeftAppend(a[1..], b);
      }
    } else {
      assert a + b == b;
    }
  }

  lemma ConcatAssoc<T>(a: seq<T>, b: seq<T>, c: seq<T>)
    ensures a + (b + c) == (a + b) + c
  {
  }

  lemma SliceAppend<T>(t: seq<T>, b: seq<T>, k: nat)
    requires k <= |t|
    ensures (t + b)[k..] == t[k..] + b
  {
  }

  /** One step of split(): the first word of the left-trimmed string, then the words after it. */
  lemma WordsAt(s: string, t: string)
    requires t == TrimLeft(s) && t != []
    ensures Words(s) == [WordPrefix(t)] + Words(t[|WordPrefix(t)|..])
  {
  }

  lemma {:induction false} WordPrefixAppend(t: string, b: string)
    requires t != [] && !IsSpace(t[0]) && (b == [] || IsSpace(b[0]))
    ensures WordPrefix(t + b) == WordPrefix(t)
  {
    var u := t + b;
    if |t| == 1 || IsSpace(t[1]) {
      assert u[..1] == t[..1];
    } else {
      assert u[1..] == t[1..] + b;
      WordPrefixAppend(t[1..], b);
    }
  }

  /** Words do not run across a blank: split() of a + b, b empty or starting blank, is that of a then that of b. */
  lemma {:induction false} WordsAppend(a: string, b: string)
    requires b == [] || IsSpace(b[0])
    ensures Words(a + b) == Words(a) + Words(b)
    decreases |a|
  {
    var t := TrimLeft(a);
    TrimLeftAppend(a, b);
    if t == [] {
      assert Words(a + b) == Words(b);
    } else {
      var w := WordPrefix(t);
      WordPrefixAppend(t, b);
      var rest := t[|w|..];
      SliceAppend(t, b, |w|);
      WordsAppend(rest, b);
      WordsAt(a + b, t + b);
      WordsAt(a, t);
      var wr, wb := Words(rest), Words(b);
      assert Words(a + b) == [w] + (wr + wb);
      assert Words(a) == [w] + wr;
      ConcatAssoc([w], wr, wb);
    }
  }

  lemma BlankWords(s: string)
    requires forall i :: 0 <= i < |s| ==> IsSpace(s[i])
    ensures Words(s) == []
  {
    if s != [] {
      assert TrimLeft(s) == TrimLeft(s[1..]);
      BlankWords(s[1..]);
    }
  }

  /** strip() does not change what split() returns. */
  lemma WordsStrip(s: string)
    ensures Words(Strip(s)) == Words(s)
  {
    var l := TrimLeft(s);
    var r := Strip(s);
    var tail := l[|r|..];
    TakeDrop(l, |r|);
    WordsAppend(r, tail);
    BlankWords(tail);
    WordsTrimLeft(s);
    AppendEmpty(Words(r));
  }

  lemma TakeDrop<T>(s: seq<T>, k: nat)
    requires k <= |s|
    ensures s == s[..k] + s[k..]
  {
  }

  lemma AppendEmpty<T>(s: seq<T>)
    ensures s + [] == s
  {
  }

  /** Joining one more part appends the separator and the part. */
  lemma {:induction false} JoinSnoc(parts: seq<string>, t: string, sep: string)
    ensures Join(parts + [t], sep) == if parts == [] then t else Join(parts, sep) + sep + t
  {
    if |parts| >= 1 {
      var q := parts + [t];
      assert q[0] == parts[0] && q[1..] == parts[1..] + [t];
      assert Join(q, sep) == parts[0] + sep + Join(parts[1..] + [t], sep);
      JoinSnoc(parts[1..], t, sep);
      if |parts| == 1 {
        assert parts[1..] == [];
        assert Join(parts, sep) == parts[0];
      } else {
        assert Join(parts, sep) == parts[0] + sep + Join(parts[1..], sep);
        ConcatAssoc(parts[0] + sep, Join(parts[1..], sep), sep + t);
        ConcatAssoc(parts[0], sep, Join(parts[1..], sep) + sep + t);
      }
    } else {
      assert parts + [t] == [t];
    }
  }
}
