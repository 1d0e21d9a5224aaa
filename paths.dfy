// POSIX paths as pathlib handles them: parsing, joining, resolving "..", names, suffixes and stems.
module Paths {
  import opened Wrappers
  import opened Text

  /** An absolute path, as its components below "/"; [] is the root. */
  type Path = seq<string>

  /** A component of a resolved path: non-empty, no separator, not "." or "..". */
  predicate CleanComponent(c: string) { c != "" && '/' !in c && c != "." && c != ".." }

  predicate Clean(p: Path) { forall i :: 0 <= i < |p| ==> CleanComponent(p[i]) }

  /** "/a/b" for [a, b]; "" for the root (see Render). */
  function Concat(p: Path): string
  {
    if p == [] then "" else "/" + p[0] + Concat(p[1..])
  }

  /** str(path). */
  function Render(p: Path): string
  {
    if p == [] then "/" else Concat(p)
  }

  /** The components pathlib keeps when it parses s: empty pieces and "." are dropped, ".." is kept. */
  function Parts(s: string): (r: seq<string>)
    ensures forall i :: 0 <= i < |r| ==> r[i] != "" && r[i] != "." && '/' !in r[i]
  {
    Kept(Split(s, '/'))
  }

  function Kept(pieces: seq<string>): (r: seq<string>)
    ensures forall i :: 0 <= i < |r| ==> r[i] != "" && r[i] != "."
    ensures (forall i :: 0 <= i < |pieces| ==> '/' !in pieces[i]) ==> forall i :: 0 <= i < |r| ==> '/' !in r[i]
  {
    if pieces == [] then []
    else if pieces[0] == "" || pieces[0] == "." then Kept(pieces[1..])
    else [pieces[0]] + Kept(pieces[1..])
  }

  lemma {:induction false} KeptAppend(a: seq<string>, b: seq<string>)
    ensures Kept(a + b) == Kept(a) + Kept(b)
  {
    if a != [] {
      KeptAppend(a[1..], b);
      assert (a + b)[1..] == a[1..] + b;
    } else {
      assert a + b == b;
    }
  }

  /** `base / s` before resolution: an absolute s replaces the base. */
  function JoinStr(base: Path, s: string): (r: seq<string>)
    ensures Clean(base) ==> forall i :: 0 <= i < |r| ==> r[i] != "" && r[i] != "." && '/' !in r[i]
  {
    if s != [] && s[0] == '/' then Parts(s) else base + Parts(s)
  }

  /** Path.resolve() without symbolic links: ".." drops the previous component (the root stays). */
  function Normalize(acc: Path, rest: seq<string>): Path
    decreases |rest|
  {
    if rest == [] then acc
    else if rest[0] == ".." then Normalize(if acc == [] then [] else acc[..|acc| - 1], rest[1..])
    else Normalize(acc + [rest[0]], rest[1..])
  }

  lemma {:induction false} NormalizeClean(acc: Path, rest: seq<string>)
    requires Clean(acc)
    requires forall i :: 0 <= i < |rest| ==> rest[i] != "" && '/' !in rest[i] && rest[i] != "."
    ensures Clean(Normalize(acc, rest))
    decreases |rest|
  {
    if rest != [] {
      if rest[0] == ".." {
        NormalizeClean(if acc == [] then [] else acc[..|acc| - 1], rest[1..]);
      } else {
        NormalizeClean(acc + [rest[0]], rest[1..]);
      }
    }
  }

  /** Resolution keeps an already clean suffix unchanged. */
  lemma {:induction false} NormalizeOfClean(acc: Path, rest: seq<string>)
    requires Clean(rest)
    ensures Normalize(acc, rest) == acc + rest
    decreases |rest|
  {
    if rest != [] {
      NormalizeOfClean(acc + [rest[0]], rest[1..]);
      assert acc + [rest[0]] + rest[1..] == acc + rest;
    }
  }

  lemma {:induction false} NormalizeAppend(acc: Path, a: seq<string>, b: seq<string>)
    ensures Normalize(acc, a + b) == Normalize(Normalize(acc, a), b)
    decreases |a|
  {
    if a == [] {
      assert a + b == b;
    } else {
      assert (a + b)[1..] == a[1..] + b;
      if a[0] == ".." {
        NormalizeAppend(if acc == [] then [] else acc[..|acc| - 1], a[1..], b);
      } else {
        NormalizeAppend(acc + [a[0]], a[1..], b);
      }
    }
  }

  /** (base / s).resolve() */
  function Resolve(base: Path, s: string): Path
  {
    Normalize([], JoinStr(base, s))
  }

  lemma ResolveClean(base: Path, s: string)
    requires Clean(base)
    ensures Clean(Resolve(base, s))
  {
    NormalizeClean([], JoinStr(base, s));
  }

  /** Joining a clean base with one clean component and resolving appends that component. */
  lemma ResolveComponent(base: Path, c: string)
    requires Clean(base) && CleanComponent(c)
    ensures Resolve(base, c) == base + [c]
  {
    SplitNoSep(c, '/');
    assert Kept([c]) == [c] + Kept([]);
    assert Parts(c) == [c];
    assert c[0] != '/';
    assert Clean(base + [c]);
    NormalizeOfClean([], base + [c]);
    assert [] + (base + [c]) == base + [c];
  }

  /** _ensure_within_base: str(p) starts with str(base) + "/", or p is base itself. */
  predicate WithinBase(base: Path, p: Path)
  {
    StartsWith(Render(p), Render(base) + "/") || p == base
  }

  predicate IsPrefixPath(base: Path, p: Path) { |base| <= |p| && p[..|base|] == base }

  /**
   * For a base other than the root, the string test of _ensure_within_base accepts exactly the
   * paths that have base as a component prefix.
   */
  lemma WithinBaseIffPrefix(base: Path, p: Path)
    requires base != [] && Clean(base) && Clean(p)
    ensures WithinBase(base, p) <==> IsPrefixPath(base, p)
  {
    if p == base {
    } else if IsPrefixPath(base, p) {
      ConcatPrefix(base, p);
    } else if StartsWith(Render(p), Render(base) + "/") {
      ConcatStartsImpliesPrefix(base, p);
    }
  }

  lemma {:induction false} ConcatPrefix(base: Path, p: Path)
    requires IsPrefixPath(base, p) && |p| > |base|
    ensures StartsWith(Concat(p), Concat(base) + "/")
  {
    if base == [] {
      assert Concat(p) == "/" + p[0] + Concat(p[1..]);
    } else {
      assert p[0] == base[0];
      assert p[1..][..|base| - 1] == base[1..];
      ConcatPrefix(base[1..], p[1..]);
      assert Concat(p) == "/" + p[0] + Concat(p[1..]);
      assert Concat(base) + "/" == "/" + base[0] + (Concat(base[1..]) + "/");
    }
  }

  lemma {:induction false} ConcatStartsImpliesPrefix(base: Path, p: Path)
    requires Clean(base) && Clean(p)
    requires StartsWith(Concat(p), Concat(base) + "/")
    ensures IsPrefixPath(base, p)
  {
    if base != [] {
      var b0 := base[0];
      var pre := Concat(base) + "/";
      assert pre == "/" + b0 + (Concat(base[1..]) + "/");
      assert pre[1 + |b0|] == '/' by {
        if base[1..] == [] {
        } else {
          assert Concat(base[1..])[0] == '/';
        }
      }
      var c := Concat(p);
      assert |c| > 0;
      assert p != [];
      var p0 := p[0];
      assert c == "/" + p0 + Concat(p[1..]);
      // p0 and b0 contain no separator, and each is followed by one (or by the end of the string).
      assert c[1 + |p0|..] == Concat(p[1..]);
      assert forall k :: 0 <= k < |b0| ==> c[1 + k] == b0[k];
      assert c[1 + |b0|] == '/';
      assert p[1..] == [] ==> |c| == 1 + |p0|;
      assert p[1..] != [] ==> Concat(p[1..])[0] == '/' && c[1 + |p0|] == '/';
      assert |p0| == |b0|;
      assert p0 == c[1..1 + |p0|] == pre[1..1 + |b0|] == b0;
      assert StartsWith(Concat(p[1..]), Concat(base[1..]) + "/") by {
        assert c[1 + |p0|..] == Concat(p[1..]);
        assert pre[1 + |b0|..] == Concat(base[1..]) + "/";
      }
      ConcatStartsImpliesPrefix(base[1..], p[1..]);
      assert p[..|base|] == [p0] + p[1..][..|base| - 1];
    }
  }

  /** Under the root "/", the test accepts only the root itself: str("/") + "/" is "//". */
  lemma WithinRootOnlyRoot(p: Path)
    requires Clean(p)
    ensures WithinBase([], p) <==> p == []
  {
    if p != [] {
      var c := Concat(p);
      assert c == "/" + p[0] + Concat(p[1..]);
      assert c[1] == p[0][0];
    }
  }

  /** The last component of a parsed path string (Path(s).name); "" when there is none. */
  function NameOf(s: string): string
  {
    var ps := Parts(s);
    if ps == [] then "" else ps[|ps| - 1]
  }

  /** PurePath.suffix of a file name: from the last dot, unless the dot leads or ends the name. */
  function Suffix(name: string): (r: string)
    ensures r == "" || (r[0] == '.' && |r| >= 2 && EndsWith(name, r) && |r| < |name|)
  {
    var i := LastIndexOf(name, '.');
    if 0 < i < |name| - 1 then name[i..] else ""
  }

  /** PurePath.stem: the name without its suffix. */
  function Stem(name: string): string
  {
    name[..|name| - |Suffix(name)|]
  }

  /** The stem and the suffix put back together give the name. */
  lemma StemSuffix(name: string)
    ensures Stem(name) + Suffix(name) == name
  {
    var i := |name| - |Suffix(name)|;
    assert name[i..] == Suffix(name);
    assert name[..i] + name[i..] == name;
  }

  /** str() tells clean paths apart: each component is read back between two separators. */
  lemma {:induction false} ConcatInjective(p: Path, q: Path)
    requires Clean(p) && Clean(q) && Concat(p) == Concat(q)
    ensures p == q
  {
    if p != [] && q != [] {
      var s := Concat(p);
      var a, b := p[0], q[0];
      assert CleanComponent(a) && CleanComponent(b);
      assert s == "/" + a + Concat(p[1..]) == "/" + b + Concat(q[1..]);
      assert a + Concat(p[1..]) == s[1..] == b + Concat(q[1..]);
      assert p[1..] != [] ==> Concat(p[1..])[0] == '/';
      assert q[1..] != [] ==> Concat(q[1..])[0] == '/';
      ComponentLength(a, Concat(p[1..]), b, Concat(q[1..]));
      assert a == s[1..1 + |a|] == b;
      assert Concat(p[1..]) == s[1 + |a|..] == Concat(q[1..]);
      assert Clean(p[1..]) && Clean(q[1..]) by {
        forall i | 0 <= i < |p| - 1 ensures CleanComponent(p[1..][i]) { assert p[1..][i] == p[i + 1]; }
        forall i | 0 <= i < |q| - 1 ensures CleanComponent(q[1..][i]) { assert q[1..][i] == q[i + 1]; }
      }
      ConcatInjective(p[1..], q[1..]);
      assert p == [a] + p[1..] && q == [b] + q[1..];
    }
  }

  /** Two components followed by a separator or by nothing have the same length when the texts agree. */
  lemma ComponentLength(a: string, x: string, b: string, y: string)
    requires '/' !in a && '/' !in b && a + x == b + y
    requires (x == "" || x[0] == '/') && (y == "" || y[0] == '/')
    ensures |a| == |b|
  {
    if |a| < |b| {
      SeparatorAt(a, x, b, y);
      assert false;
    } else if |b| < |a| {
      SeparatorAt(b, y, a, x);
      assert false;
    }
  }

  /** Where the shorter component ends, its text has a separator and the longer one has a character of its own. */
  lemma SeparatorAt(a: string, x: string, b: string, y: string)
    requires a + x == b + y && |a| < |b|
    ensures x != "" && (a + x)[|a|] == x[0] && (b + y)[|a|] == b[|a|]
  {
    assert |a| + |x| == |b| + |y|;
  }

  /** A suffix such as ".jpg": a dot followed by at least one character, no other dot, no separator. */
  predicate Extension(e: string)
  {
    |e| >= 2 && e[0] == '.' && '.' !in e[1..] && '/' !in e
  }

  /** A stem followed by an extension splits back into exactly that stem and that extension. */
  lemma SuffixOfStemExt(s: string, e: string)
    requires s != [] && Extension(e)
    ensures Suffix(s + e) == e && Stem(s + e) == s
  {
    var n := s + e;
    var i := LastIndexOf(n, '.');
    assert n[|s|] == '.';
    forall k | |s| < k < |n| ensures n[k] != '.' {
      assert n[k] == e[1..][k - |s| - 1];
    }
    assert i == |s|;
    assert n[i..] == e;
  }

  /** A name without a dot has no suffix. */
  lemma SuffixNoDot(s: string)
    requires '.' !in s
    ensures Suffix(s) == "" && Stem(s) == s
  {
  }

  /** PurePath.with_suffix(suf) on a name; pathlib refuses a path whose name is empty. */
  function WithSuffix(name: string, suf: string): string
  {
    Stem(name) + suf
  }

  /** os.path.splitext on a bare file name: the extension starts at the last dot, unless only dots precede it. */
  function SplitExt(name: string): (r: (string, string))
    ensures r.0 + r.1 == name
  {
    var i := LastIndexOf(name, '.');
    if i > 0 && exists j :: 0 <= j < i && name[j] != '.' then (name[..i], name[i..]) else (name, "")
  }

  /** splitext of a name that does not start with a dot, followed by an extension. */
  lemma SplitExtStemExt(s: string, e: string)
    requires s != [] && s[0] != '.' && Extension(e)
    ensures SplitExt(s + e) == (s, e)
  {
    var n := s + e;
    assert n[|s|] == '.';
    forall k | |s| < k < |n| ensures n[k] != '.' {
      assert n[k] == e[1..][k - |s| - 1];
    }
    assert LastIndexOf(n, '.') == |s|;
    assert n[0] != '.';
  }

  /** The position of the first component equal to c, or -1 (list.index, guarded by `in`). */
  function IndexOfComponent(p: Path, c: string): (r: int)
    ensures -1 <= r < |p|
    ensures r >= 0 ==> p[r] == c && forall j :: 0 <= j < r ==> p[j] != c
    ensures r == -1 <==> c !in p
  {
    if p == [] then -1
    else if p[0] == c then 0
    else
      var k := IndexOfComponent(p[1..], c);
      assert c in p[1..] ==> c in p;
      if k == -1 then -1 else k + 1
  }

  /**
   * _extract_group_uuid_from_path on a resolved path: the component right after the first "groups",
   * or None when there is no "groups" or it is the last component.
   */
  function GroupFromPath(p: Path): (r: Option<string>)
    ensures r.Some? <==> "groups" in p && IndexOfComponent(p, "groups") + 1 < |p|
    ensures r.Some? ==> exists i :: 0 <= i < |p| - 1 && p[i] == "groups" && r.value == p[i + 1]
  {
    var i := IndexOfComponent(p, "groups");
    if i >= 0 && i + 1 < |p| then Some(p[i + 1]) else None
  }

  /** A directory below a group's root names that group, whatever the group id. */
  lemma GroupFromGroupPath(prefix: Path, gid: string, rest: Path)
    requires "groups" !in prefix
    ensures GroupFromPath(prefix + ["groups", gid] + rest) == Some(gid)
  {
    var p := prefix + ["groups", gid] + rest;
    var i := IndexOfComponent(p, "groups");
    assert p[|prefix|] == "groups";
    assert forall j :: 0 <= j < |prefix| ==> p[j] == prefix[j];
    assert i == |prefix|;
  }

  /** Group ids and other identifiers reused as a single path component. */
  function Child(p: Path, name: string): Path { p + [name] }
}
