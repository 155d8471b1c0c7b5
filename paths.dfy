/**
 * POSIX path handling as the downloader uses it: `pathlib.Path` parsing,
 * the `/` operator, `str()` and `absolute()`, and `os.path.splitext` /
 * `os.path.basename`.
 *
 * A parsed path keeps its root ("", "/", or exactly "//", which POSIX
 * lets an implementation treat specially) and its components, with empty
 * components and "." dropped, as `pathlib` does.
 */
module Paths {
  import opened Text

  datatype Path = Path(root: string, parts: seq<string>)

  /** A component that survives parsing: not empty, not ".", no separator. */
  predicate IsPart(s: string) {
    s != "" && s != "." && '/' !in s
  }

  predicate WellFormed(p: Path) {
    && (p.root == "" || p.root == "/" || p.root == "//")
    && forall i :: 0 <= i < |p.parts| ==> IsPart(p.parts[i])
  }

  /** The root of a path string and the text after it. */
  function SplitRoot(s: string): (string, string) {
    if |s| == 0 || s[0] != '/' then ("", s)
    else if |s| == 1 || s[1] != '/' || (|s| >= 3 && s[2] == '/') then ("/", s[1..])
    else ("//", s[2..])
  }

  /** Drops the empty and "." pieces of a split path. */
  function KeepParts(pieces: seq<string>): (r: seq<string>)
    requires forall k :: 0 <= k < |pieces| ==> '/' !in pieces[k]
    ensures forall k :: 0 <= k < |r| ==> IsPart(r[k])
    ensures (forall k :: 0 <= k < |pieces| ==> IsPart(pieces[k])) ==> r == pieces
  {
    if pieces == [] then []
    else (if pieces[0] == "" || pieces[0] == "." then [] else [pieces[0]]) + KeepParts(pieces[1..])
  }

  /** `Path(s)`. */
  function Parse(s: string): (p: Path)
    ensures WellFormed(p)
  {
    var (root, rel) := SplitRoot(s);
    Path(root, KeepParts(Split(rel, '/')))
  }

  /** `str(p)`: the root, then the components joined by "/", or "." for the empty path. */
  function Render(p: Path): string {
    var t := p.root + JoinWith(p.parts, '/');
    if t == "" then "." else t
  }

  /** `p / q`: an absolute right-hand side replaces the left one. */
  function Join(p: Path, q: Path): (r: Path)
    ensures WellFormed(p) && WellFormed(q) ==> WellFormed(r)
    ensures q.root == "" ==> r.root == p.root && r.parts == p.parts + q.parts
    ensures q.root != "" ==> r == q
  {
    if q.root != "" then q else Path(p.root, p.parts + q.parts)
  }

  /** `p.absolute()`, with `cwd` the working directory the process reports. */
  function Absolute(p: Path, cwd: string): (r: Path)
    ensures WellFormed(p) ==> WellFormed(r)
    ensures p.root != "" ==> r == p
    ensures p.root == "" ==> r.root == Parse(cwd).root && r.parts == Parse(cwd).parts + p.parts
  {
    if p.root != "" then p else Join(Parse(cwd), p)
  }

  /** `os.path.basename(s)`: the text after the last separator. */
  function Basename(s: string): string {
    s[RFind(s, '/') + 1..]
  }

  /** Every character of `s` is a dot (vacuously so for ""). */
  predicate AllDots(s: string) {
    forall i :: 0 <= i < |s| ==> s[i] == '.'
  }

  /**
   * `os.path.splitext(p)`: the extension runs from the last dot of the
   * final component, unless that dot is only preceded by dots in it.
   */
  function SplitExt(p: string): (r: (string, string))
    ensures r.0 + r.1 == p
    ensures r.1 == "" || (r.1[0] == '.' && '/' !in r.1 && '.' !in r.1[1..])
  {
    var sepIndex := RFind(p, '/');
    var dotIndex := RFind(p, '.');
    if dotIndex <= sepIndex then (p, "")
    else
      var ext := p[dotIndex..];
      assert '/' !in ext && '.' !in ext[1..];
      if AllDots(p[sepIndex + 1..dotIndex]) then (p, "") else (p[..dotIndex], ext)
  }

  // ---------------------------------------------------------------- lemmas

  /** Parsing the rendering of a normalised path gives the path back. */
  lemma ParseRender(p: Path)
    requires WellFormed(p)
    ensures Parse(Render(p)) == p
  {
    if p.parts != [] {
      var j := JoinWith(p.parts, '/');
      assert j == p.parts[0] + j[|p.parts[0]|..];
      assert j[0] == p.parts[0][0] && j[0] != '/';
      var t := p.root + j;
      if p.root == "/" {
        assert t[0] == '/' && t[1] == j[0] && t[1..] == j;
      } else if p.root == "//" {
        assert t[0] == '/' && t[1] == '/' && t[2] == j[0] && t[2..] == j;
      } else {
        assert t == j;
      }
      assert SplitRoot(t) == (p.root, j);
      SplitJoin(p.parts, '/');
    } else {
      SplitNoSep(".", '/');
      SplitNoSep("", '/');
      assert Split("", '/') == [""];
      assert KeepParts([""]) == [] && KeepParts(["."]) == [];
    }
  }

  /** Rendering is a normal form: parsing what it prints changes nothing further. */
  lemma ParseIsNormal(s: string)
    ensures Parse(Render(Parse(s))) == Parse(s)
  {
    ParseRender(Parse(s));
  }

  /** A single component parses to a relative path of that component. */
  lemma ParsePart(n: string)
    requires IsPart(n)
    ensures Parse(n) == Path("", [n])
  {
    assert n[0] != '/';
    SplitNoSep(n, '/');
  }

  /** The text `Render` puts before a component appended to `d`. */
  function DirPrefix(d: Path): string {
    if d.parts == [] then d.root else d.root + JoinWith(d.parts, '/') + "/"
  }

  /** Appending one component to a directory prints as the directory's prefix and the component. */
  lemma RenderJoinPart(d: Path, n: string)
    requires IsPart(n)
    ensures Render(Join(d, Path("", [n]))) == DirPrefix(d) + n
  {
    if d.parts == [] {
      assert d.parts + [n] == [n];
    } else {
      JoinWithSnoc(d.parts, n, '/');
    }
  }

  /** A string joined below `/` where `/` is absent: its basename is decided by the part without it. */
  lemma BasenameConcat(a: string, b: string)
    ensures Basename(a + b) == if '/' in b then Basename(b) else Basename(a) + b
  {
    RFindConcat(a, b, '/');
    if '/' in b {
      SliceConcat(a, b, RFind(b, '/') + 1);
    } else {
      SliceInLeft(a, b, RFind(a, '/') + 1);
    }
  }

  /** A string that is empty or ends in a separator has an empty basename. */
  lemma BasenameAfterSep(a: string)
    requires a == [] || a[|a| - 1] == '/'
    ensures Basename(a) == ""
  {
  }

  /** A string without separators is its own basename. */
  lemma BasenameNoSep(a: string)
    requires '/' !in a
    ensures Basename(a) == a
  {
    assert RFind(a, '/') == -1;
  }

  /** The last piece of `s.split('/')` is `basename(s)`. */
  lemma {:induction false} LastSplit(s: string)
    ensures var pieces := Split(s, '/'); pieces[|pieces| - 1] == Basename(s)
  {
    if s == [] {
      assert Basename(s) == "";
    } else if '/' !in s {
      SplitNoSep(s, '/');
      BasenameNoSep(s);
    } else {
      LastSplit(s[1..]);
      if s[0] == '/' {
        LastSplitAtSep(s);
      } else {
        LastSplitLater(s);
      }
    }
  }

  /** `LastSplit` for a string that starts with the separator. */
  lemma LastSplitAtSep(s: string)
    requires s != [] && s[0] == '/'
    requires var rest := Split(s[1..], '/'); rest[|rest| - 1] == Basename(s[1..])
    ensures var pieces := Split(s, '/'); pieces[|pieces| - 1] == Basename(s)
  {
    SplitHeadSep(s, '/');
    BasenameDropFirst(s);
    LastAfterCons(Split(s, '/'), "", Split(s[1..], '/'));
  }

  /** Putting an element in front of a non-empty sequence keeps its last element. */
  lemma LastAfterCons(q: seq<string>, x: string, r: seq<string>)
    requires |r| >= 1 && q == [x] + r
    ensures q[|q| - 1] == r[|r| - 1]
  {
  }

  /** `LastSplit` for a string whose first character is not the separator but which holds one later. */
  lemma LastSplitLater(s: string)
    requires s != [] && s[0] != '/' && '/' in s[1..]
    requires var rest := Split(s[1..], '/'); rest[|rest| - 1] == Basename(s[1..])
    ensures var pieces := Split(s, '/'); pieces[|pieces| - 1] == Basename(s)
  {
    var t := s[1..];
    var rest := Split(t, '/');
    assert |rest| > 1 by {
      JoinSplit(t, '/');
    }
    var pieces := Split(s, '/');
    assert pieces[|pieces| - 1] == rest[|rest| - 1] by {
      SplitHeadOther(s, '/');
    }
    BasenameDropFirst(s);
  }

  /** Dropping the first character keeps the basename when that character is a separator or another one follows. */
  lemma BasenameDropFirst(s: string)
    requires s != [] && (s[0] == '/' || '/' in s[1..])
    ensures Basename(s) == Basename(s[1..])
  {
    var t := s[1..];
    assert s == [s[0]] + t;
    BasenameConcat([s[0]], t);
    if '/' !in t {
      BasenameNoSep(t);
      assert Basename([s[0]]) == "";
    }
  }

  /** Dropping empty and "." pieces keeps a final piece that is a real component. */
  lemma {:induction false} KeepPartsLast(pieces: seq<string>)
    requires forall k :: 0 <= k < |pieces| ==> '/' !in pieces[k]
    requires |pieces| >= 1 && IsPart(pieces[|pieces| - 1])
    ensures var r := KeepParts(pieces); |r| >= 1 && r[|r| - 1] == pieces[|pieces| - 1]
  {
    if |pieces| > 1 {
      KeepPartsLast(pieces[1..]);
    }
  }

  /** A single piece survives exactly when it is a real component. */
  lemma KeepPartsSingle(x: string)
    requires '/' !in x
    ensures KeepParts([x]) == if IsPart(x) then [x] else []
  {
    assert [x][1..] == [];
  }

  /** The real components of a list of pieces survive in order: dropping works piece by piece. */
  lemma {:induction false} KeepPartsConcat(a: seq<string>, b: seq<string>)
    requires forall k :: 0 <= k < |a| ==> '/' !in a[k]
    requires forall k :: 0 <= k < |b| ==> '/' !in b[k]
    ensures KeepParts(a + b) == KeepParts(a) + KeepParts(b)
  {
    if a == [] {
      assert a + b == b;
    } else {
      var t := a + b;
      assert t[0] == a[0] && t[1..] == a[1..] + b;
      KeepPartsConcat(a[1..], b);
    }
  }

  /** The root `pathlib` splits off a string never reaches into its basename. */
  lemma BasenameAfterRoot(s: string)
    ensures Basename(SplitRoot(s).1) == Basename(s)
  {
    var rel := SplitRoot(s).1;
    var k := |s| - |rel|;
    var root := s[..k];
    assert s == root + rel;
    assert root == [] || root[|root| - 1] == '/';
    BasenameConcat(root, rel);
    if '/' !in rel {
      BasenameNoSep(rel);
      BasenameAfterSep(root);
    }
  }

  /** When a string's basename is a real component, it is the last component of the parsed path. */
  lemma ParseLast(s: string)
    requires IsPart(Basename(s))
    ensures var p := Parse(s); |p.parts| >= 1 && p.parts[|p.parts| - 1] == Basename(s)
  {
    var rel := SplitRoot(s).1;
    assert Parse(s).parts == KeepParts(Split(rel, '/'));
    BasenameAfterRoot(s);
    LastSplit(rel);
    KeepPartsLast(Split(rel, '/'));
  }

  /** A rendered path is the text before its last component, ending in a separator if non-empty, then that component. */
  lemma RenderLast(p: Path)
    requires WellFormed(p) && |p.parts| >= 1
    ensures |Render(p)| >= |p.parts[|p.parts| - 1]|
    ensures var pre := Render(p)[..|Render(p)| - |p.parts[|p.parts| - 1]|];
      && Render(p) == pre + p.parts[|p.parts| - 1]
      && (pre == [] || pre[|pre| - 1] == '/')
  {
    var n := |p.parts|;
    var last := p.parts[n - 1];
    var pre := if n == 1 then p.root else p.root + JoinWith(p.parts[..n - 1], '/') + "/";
    assert Render(p) == pre + last by {
      if n > 1 {
        assert p.parts == p.parts[..n - 1] + [last];
        JoinWithSnoc(p.parts[..n - 1], last, '/');
      }
    }
    assert pre == [] || pre[|pre| - 1] == '/';
    assert Render(p)[..|Render(p)| - |last|] == pre;
  }

  /** The basename of a printed path is its last component. */
  lemma RenderBasename(p: Path)
    requires WellFormed(p) && |p.parts| >= 1
    ensures Basename(Render(p)) == p.parts[|p.parts| - 1]
  {
    var last := p.parts[|p.parts| - 1];
    var t := Render(p);
    RenderLast(p);
    BasenameAfterDir(t, t[..|t| - |last|], last);
  }

  /** A string made of a directory prefix and a component has that component as its basename. */
  lemma BasenameAfterDir(t: string, pre: string, last: string)
    requires t == pre + last && '/' !in last
    requires pre == [] || pre[|pre| - 1] == '/'
    ensures Basename(t) == last
  {
    BasenameConcat(pre, last);
    BasenameAfterSep(pre);
  }

  /** A path resolved against an absolute working directory has a root. */
  lemma AbsoluteRooted(p: Path, cwd: string)
    requires WellFormed(p)
    requires |cwd| >= 1 && cwd[0] == '/'
    ensures var r := Absolute(p, cwd); r.root == "/" || r.root == "//"
  {
  }

  /** A rooted path prints with a leading separator. */
  lemma RenderRooted(p: Path)
    requires p.root == "/" || p.root == "//"
    ensures |Render(p)| >= 1 && Render(p)[0] == '/'
  {
    var t := p.root + JoinWith(p.parts, '/');
    assert t[0] == p.root[0];
  }

  /** Making a path absolute commutes with appending a relative path to it. */
  lemma AbsoluteJoin(d: Path, q: Path, cwd: string)
    requires q.root == ""
    ensures Absolute(Join(d, q), cwd) == Join(Absolute(d, cwd), q)
  {
  }

  /** `splitext` with the two indices it searched for already found. */
  lemma SplitExtAt(p: string, sepIndex: int, dotIndex: int)
    requires sepIndex == RFind(p, '/') && dotIndex == RFind(p, '.')
    ensures SplitExt(p) ==
      if dotIndex <= sepIndex || AllDots(p[sepIndex + 1..dotIndex]) then (p, "")
      else (p[..dotIndex], p[dotIndex..])
  {
  }

  /** Every dot of `p` after index `from` is preceded, back to `from`, only by dots. */
  predicate OnlyLeadingDots(p: string, from: int) {
    forall i, j :: 0 <= i && from < i < j < |p| && p[j] == '.' ==> p[i] == '.'
  }

  /**
   * `splitext` finds no extension exactly when every dot of the final
   * component is preceded only by dots in it (`.bashrc`, `..x`, `...`, or no
   * dot at all); otherwise the extension starts at the last dot.
   */
  lemma SplitExtNoExtension(p: string)
    ensures SplitExt(p).1 == "" <==> OnlyLeadingDots(p, RFind(p, '/'))
  {
    var sepIndex, dotIndex := RFind(p, '/'), RFind(p, '.');
    SplitExtAt(p, sepIndex, dotIndex);
    if dotIndex <= sepIndex {
      NoDotAfter(p, sepIndex);
    } else if AllDots(p[sepIndex + 1..dotIndex]) {
      DotsBeforeLastDot(p, sepIndex);
    } else {
      NotAllDotsBeforeLastDot(p, sepIndex);
    }
  }

  /** With no dot after `from`, the condition holds vacuously. */
  lemma NoDotAfter(p: string, from: int)
    requires RFind(p, '.') <= from
    ensures OnlyLeadingDots(p, from)
  {
    assert forall j :: from < j < |p| ==> p[j] != '.';
  }

  /** When only dots lie between `from` and the last dot, every dot has only dots before it. */
  lemma DotsBeforeLastDot(p: string, from: int)
    requires -1 <= from < RFind(p, '.')
    requires AllDots(p[from + 1..RFind(p, '.')])
    ensures OnlyLeadingDots(p, from)
  {
    var d := RFind(p, '.');
    var between := p[from + 1..d];
    forall i, j | 0 <= i && from < i < j < |p| && p[j] == '.' ensures p[i] == '.' {
      assert j <= d;
      if i < d {
        assert p[i] == between[i - from - 1];
      }
    }
  }

  /** A character other than a dot before the last dot breaks the condition. */
  lemma NotAllDotsBeforeLastDot(p: string, from: int)
    requires -1 <= from < RFind(p, '.')
    requires !AllDots(p[from + 1..RFind(p, '.')])
    ensures !OnlyLeadingDots(p, from)
  {
    var d := RFind(p, '.');
    var between := p[from + 1..d];
    var k :| 0 <= k < |between| && between[k] != '.';
    assert p[from + 1 + k] == between[k];
    assert from < from + 1 + k < d < |p| && p[d] == '.';
  }

  /** Slicing a concatenation inside its right operand. */
  lemma SliceConcat(a: string, b: string, i: int)
    requires 0 <= i <= |b|
    ensures (a + b)[..|a| + i] == a + b[..i]
    ensures (a + b)[|a| + i..] == b[i..]
    ensures (a + b)[|a|..|a| + i] == b[..i]
  {
  }

  /** Slicing a concatenation from inside its left operand. */
  lemma SliceInLeft(a: string, b: string, i: int)
    requires 0 <= i <= |a|
    ensures (a + b)[i..] == a[i..] + b
  {
  }

  /** A string that is empty or ends in a separator has no dot at its end. */
  lemma RFindBeforeSep(a: string)
    requires a == [] || a[|a| - 1] == '/'
    ensures RFind(a, '.') < |a| - 1 || RFind(a, '.') == -1
  {
  }

  /** Below a directory prefix, `splitext` only looks at the last component. */
  lemma SplitExtBelow(pre: string, b: string)
    requires pre == [] || pre[|pre| - 1] == '/'
    requires '/' !in b
    ensures SplitExt(pre + b) == (pre + SplitExt(b).0, SplitExt(b).1)
  {
    var k := |pre|;
    assert RFind(b, '/') == -1 by {
      BasenameNoSep(b);
    }
    assert RFind(pre + b, '/') == k - 1 by {
      RFindConcat(pre, b, '/');
      BasenameAfterSep(pre);
    }
    var d := RFind(pre + b, '.');
    SplitExtAt(pre + b, k - 1, d);
    if '.' in b {
      var db := RFind(b, '.');
      assert d == k + db by {
        RFindConcat(pre, b, '.');
      }
      SplitExtAt(b, -1, db);
      SliceConcat(pre, b, db);
    } else {
      assert d == RFind(pre, '.') by {
        RFindConcat(pre, b, '.');
      }
      SplitExtAt(b, -1, -1);
      RFindBeforeSep(pre);
    }
  }

  /** The extension depends only on the basename; the stem keeps everything before it. */
  lemma SplitExtBasename(s: string)
    ensures var pre := s[..RFind(s, '/') + 1];
      SplitExt(s) == (pre + SplitExt(Basename(s)).0, SplitExt(Basename(s)).1)
  {
    var k := RFind(s, '/') + 1;
    assert s == s[..k] + Basename(s);
    SplitExtBelow(s[..k], Basename(s));
  }

  /**
   * Replacing the extension round-trips: appending "." and an extension free
   * of dots and separators to a stem whose final component is not all dots,
   * `splitext` gives back exactly that stem and extension.
   */
  lemma ReplaceExt(stem: string, e: string)
    requires '.' !in e && '/' !in e
    requires !AllDots(Basename(stem))
    ensures SplitExt(stem + "." + e) == (stem, "." + e)
  {
    var ext := "." + e;
    var s := stem + ext;
    assert stem + "." + e == s;
    var sepIndex := RFind(stem, '/');
    assert RFind(s, '/') == sepIndex by {
      assert '/' !in ext;
      RFindConcat(stem, ext, '/');
    }
    assert RFind(s, '.') == |stem| by {
      RFindConcat(".", e, '.');
      RFindConcat(stem, ext, '.');
    }
    SplitExtAt(s, sepIndex, |stem|);
    assert s[sepIndex + 1..|stem|] == Basename(stem);
    assert s[..|stem|] == stem && s[|stem|..] == ext;
  }

  /** A stem keeps a final component that is not all dots, if the path had one. */
  lemma SplitExtStem(p: string)
    requires !AllDots(Basename(p))
    ensures !AllDots(Basename(SplitExt(p).0))
  {
    var (stem, ext) := SplitExt(p);
    if ext != "" {
      RFindConcat(stem, ext, '/');
      assert Basename(stem) == p[RFind(p, '/') + 1..RFind(p, '.')];
    }
  }
}
