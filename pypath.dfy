/** The `posixpath` functions the client relies on (`join`, `basename`,
    `splitext`, `relpath`) and the extension filter that the packager and the
    converter share. */
module PyPath {
  import opened Wrappers
  import opened PyStr

  /** `s.rfind(c)`: the index of the last `c` in `s`, or -1. */
  function LastIndex(s: string, c: char): (r: int)
    ensures -1 <= r < |s|
    ensures r >= 0 ==> s[r] == c
    ensures forall k :: r < k < |s| ==> s[k] != c
  {
    if s == [] then -1
    else if s[|s| - 1] == c then |s| - 1
    else LastIndex(s[..|s| - 1], c)
  }

  /** A name as a directory listing returns it: not empty and without a slash. */
  predicate ValidName(n: string)
  {
    n != "" && '/' !in n
  }

  /** `os.path.basename(p)`: the longest suffix of `p` without a slash. */
  function Basename(p: string): (r: string)
    ensures |r| <= |p| && p[|p| - |r|..] == r
    ensures '/' !in r
    ensures |r| < |p| ==> p[|p| - |r| - 1] == '/'
  {
    var i := LastIndex(p, '/');
    AbsentAfter(p, '/', i);
    p[i + 1..]
  }

  /** Nothing after the last occurrence of `c` is `c`. */
  lemma AbsentAfter(s: string, c: char, i: int)
    requires -1 <= i < |s|
    requires forall k :: i < k < |s| ==> s[k] != c
    ensures c !in s[i + 1..]
  {
    var t := s[i + 1..];
    forall k | 0 <= k < |t| ensures t[k] != c {
      assert t[k] == s[i + 1 + k];
    }
  }

  /** `LastIndex` is the one index holding `c` with no `c` after it. */
  lemma LastIndexIs(s: string, c: char, i: int)
    requires i == -1 || (0 <= i < |s| && s[i] == c)
    requires forall k :: i < k < |s| ==> s[k] != c
    ensures LastIndex(s, c) == i
  {
  }

  /** No position of a suffix holds a character the suffix lacks. */
  lemma SuffixAbsent(s: string, t: string, c: char)
    requires |t| <= |s| && s[|s| - |t|..] == t && c !in t
    ensures forall k :: |s| - |t| <= k < |s| ==> s[k] != c
  {
    forall k | |s| - |t| <= k < |s| ensures s[k] != c {
      assert s[k] == t[k - (|s| - |t|)];
    }
  }

  /** `os.path.join(a, b)`. */
  function Join(a: string, b: string): string
  {
    if b != [] && b[0] == '/' then b
    else if a == [] || a[|a| - 1] == '/' then a + b
    else a + "/" + b
  }

  /** The joined path ends with its last component. */
  lemma JoinSuffix(a: string, b: string)
    ensures |b| <= |Join(a, b)| && Join(a, b)[|Join(a, b)| - |b|..] == b
  {
    var r := Join(a, b);
    if !(b != [] && b[0] == '/') {
      if a == [] || a[|a| - 1] == '/' {
        assert r == a + b;
      } else {
        assert r == (a + "/") + b;
      }
    }
  }

  /** Joining a listed name makes the path longer and `basename` gives the
      name back. */
  lemma JoinName(a: string, b: string)
    requires ValidName(b)
    ensures |Join(a, b)| > |a|
    ensures Basename(Join(a, b)) == b
  {
    var j := Join(a, b);
    JoinSuffix(a, b);
    if a == [] || a[|a| - 1] == '/' {
      assert j == a + b;
      if a != [] {
        assert j[|a| - 1] == a[|a| - 1];
      }
    } else {
      assert j == a + "/" + b;
      assert j[|a|] == '/';
    }
    SuffixAbsent(j, b, '/');
    LastIndexIs(j, '/', |j| - |b| - 1);
  }

  /** `os.path.splitext(p)` on POSIX: split at the last dot of the base name,
      unless everything before that dot in the base name is dots. */
  function SplitExt(p: string): (r: (string, string))
    ensures r.0 + r.1 == p
    ensures r.1 == "" || (r.1[0] == '.' && '.' !in r.1[1..] && '/' !in r.1)
  {
    var sepIndex := LastIndex(p, '/');
    var dotIndex := LastIndex(p, '.');
    if dotIndex > sepIndex && exists k :: sepIndex + 1 <= k < dotIndex && p[k] != '.' then
      var e := p[dotIndex..];
      assert forall k :: 0 <= k < |e| ==> e[k] == p[dotIndex + k];
      (p[..dotIndex], e)
    else (p, "")
  }

  /** `s` has a character other than a dot. */
  predicate HasNonDot(s: string)
  {
    exists k :: 0 <= k < |s| && s[k] != '.'
  }

  /** The base name starts just after the last slash. */
  lemma BasenameAfterLastSlash(b: string)
    ensures LastIndex(b, '/') == |b| - |Basename(b)| - 1
  {
    var base := Basename(b);
    SuffixAbsent(b, base, '/');
    LastIndexIs(b, '/', |b| - |base| - 1);
  }

  /** `splitext` splits at the last dot when a non-dot character lies
      between the last slash and it. */
  lemma SplitExtAt(p: string, sep: int, dot: int, k: int)
    requires LastIndex(p, '/') == sep && LastIndex(p, '.') == dot
    requires sep + 1 <= k < dot && p[k] != '.'
    ensures SplitExt(p) == (p[..dot], p[dot..])
  {
  }

  /** When `splitext` splits: there is an extension exactly when the base
      name has a character other than a dot before its last dot. With an
      extension, the stem's base name is not all dots; without one, every
      character of the base name before its last dot is a dot (or it has no
      dot at all). */
  lemma SplitExtRule(p: string)
    ensures SplitExt(p).1 != "" ==> HasNonDot(Basename(SplitExt(p).0))
    ensures SplitExt(p).1 == "" ==>
      var b := Basename(p); forall m :: 0 <= m < LastIndex(b, '.') ==> b[m] == '.'
  {
    var sep, dot := LastIndex(p, '/'), LastIndex(p, '.');
    if dot > sep && exists k :: sep + 1 <= k < dot && p[k] != '.' {
      var k :| sep + 1 <= k < dot && p[k] != '.';
      SplitExtAt(p, sep, dot, k);
      StemBaseHasNonDot(p, sep, dot, k);
    } else {
      assert SplitExt(p).1 == "";
      BaseAllDots(p, sep, dot);
    }
  }

  lemma StemBaseHasNonDot(p: string, sep: int, dot: int, k: int)
    requires LastIndex(p, '/') == sep && sep + 1 <= k < dot < |p| && p[k] != '.'
    ensures HasNonDot(Basename(p[..dot]))
  {
    var q := p[..dot];
    LastIndexPrefix(p, '/', dot);
    assert Basename(q) == q[sep + 1..];
    assert q[sep + 1..][k - sep - 1] == p[k];
  }

  /** Cutting a string after its last `c` keeps that index. */
  lemma LastIndexPrefix(p: string, c: char, n: nat)
    requires LastIndex(p, c) < n <= |p|
    ensures LastIndex(p[..n], c) == LastIndex(p, c)
  {
    var i, q := LastIndex(p, c), p[..n];
    forall j | i < j < |q| ensures q[j] != c {
      assert q[j] == p[j];
    }
    LastIndexIs(q, c, i);
  }

  lemma BaseAllDots(p: string, sep: int, dot: int)
    requires LastIndex(p, '/') == sep && LastIndex(p, '.') == dot
    requires forall k :: sep + 1 <= k < dot ==> p[k] == '.'
    ensures var b := Basename(p); forall m :: 0 <= m < LastIndex(b, '.') ==> b[m] == '.'
  {
    var b := Basename(p);
    assert b == p[sep + 1..];
    var d := LastIndexSuffix(p, '.', sep + 1);
    forall m | 0 <= m < d ensures b[m] == '.' {
      assert b[m] == p[sep + 1 + m];
    }
  }

  /** The last `c` of a suffix is the last `c` of the whole, shifted, or
      none when that lies before the suffix. */
  lemma LastIndexSuffix(p: string, c: char, n: nat) returns (d: int)
    requires n <= |p|
    ensures d == LastIndex(p[n..], c)
    ensures d == if LastIndex(p, c) >= n then LastIndex(p, c) - n else -1
  {
    var i, t := LastIndex(p, c), p[n..];
    forall j | 0 <= j < |t| ensures t[j] == p[n + j] {
    }
    if i >= n {
      LastIndexIs(t, c, i - n);
    } else {
      LastIndexIs(t, c, -1);
    }
    d := LastIndex(t, c);
  }

  /** A base name made of dots followed by a name without dots (".bashrc",
      "..", "...x") has no extension: leading dots do not start one. */
  lemma SplitExtLeadingDots(dir: string, dots: string, name: string)
    requires dir == "" || dir[|dir| - 1] == '/'
    requires forall k :: 0 <= k < |dots| ==> dots[k] == '.'
    requires '.' !in name && '/' !in name
    ensures SplitExt(dir + dots + name) == (dir + dots + name, "")
  {
    var p := dir + dots + name;
    var t := dots + name;
    assert p == dir + t;
    assert forall k :: 0 <= k < |t| ==> t[k] != '/' by {
      forall k | 0 <= k < |t| ensures t[k] != '/' {
        if k < |dots| { assert t[k] == dots[k]; } else { assert t[k] == name[k - |dots|]; }
      }
    }
    forall k | |dir| <= k < |p| ensures p[k] != '/' {
      assert p[k] == t[k - |dir|];
    }
    LastIndexIs(p, '/', |dir| - 1);
    forall k | |dir| + |dots| <= k < |p| ensures p[k] != '.' {
      assert p[k] == name[k - |dir| - |dots|];
    }
    forall k | |dir| <= k < |dir| + |dots| ensures p[k] == '.' {
      assert p[k] == dots[k - |dir|];
    }
  }

  /** The lower-cased extension of `name` is one of `exts`; the list itself is
      taken as given, not lower-cased. */
  predicate HasExt(name: string, exts: seq<string>)
  {
    Lower(SplitExt(name).1) in exts
  }

  /** An extension is in two lists together when it is in one of them. */
  lemma HasExtConcat(name: string, a: seq<string>, b: seq<string>)
    ensures HasExt(name, a + b) <==> HasExt(name, a) || HasExt(name, b)
  {
    var e := Lower(SplitExt(name).1);
    assert e in a + b <==> e in a || e in b;
  }

  /** No extension list is given: `ext is None or len(ext) == 0`. */
  predicate NoExt(ext: Option<seq<string>>)
  {
    ext.None? || ext.value == []
  }

  /** `[k for k in names if os.path.splitext(k)[1].lower() in exts]`. */
  function FilterByExt(names: seq<string>, exts: seq<string>): (r: seq<string>)
    ensures forall x :: x in r <==> x in names && HasExt(x, exts)
    ensures |r| <= |names|
  {
    if names == [] then []
    else (if HasExt(names[0], exts) then [names[0]] else []) + FilterByExt(names[1..], exts)
  }

  /** The filter keeps order: filtering a concatenation concatenates the
      filtered parts, and a single name is kept or dropped. */
  lemma {:induction false} FilterByExtConcat(a: seq<string>, b: seq<string>, exts: seq<string>)
    ensures FilterByExt(a + b, exts) == FilterByExt(a, exts) + FilterByExt(b, exts)
  {
    if a == [] {
      assert a + b == b;
    } else {
      assert (a + b)[1..] == a[1..] + b;
      FilterByExtConcat(a[1..], b, exts);
    }
  }

  /** Filtering a non-empty list keeps or drops its last name after the
      filtered rest. */
  lemma FilterByExtSnoc(names: seq<string>, exts: seq<string>)
    requires names != []
    ensures FilterByExt(names, exts) ==
      FilterByExt(names[..|names| - 1], exts) + (if HasExt(names[|names| - 1], exts) then [names[|names| - 1]] else [])
  {
    var n := |names|;
    assert names == names[..n - 1] + [names[n - 1]];
    FilterByExtConcat(names[..n - 1], [names[n - 1]], exts);
  }

  /** `os.path.relpath(path, start)` for a path below `start`, which is all
      the client asks of it; other paths are returned unchanged. */
  function RelPath(path: string, start: string): string
  {
    var prefix := if start != "" && start[|start| - 1] == '/' then start else start + "/";
    if |prefix| <= |path| && path[..|prefix|] == prefix then path[|prefix|..] else path
  }

  /** A resource path built by three joins is archived under
      `collection/deployment/file`. */
  lemma RelPathOfJoins(root: string, c: string, d: string, f: string)
    requires root != ""
    requires ValidName(c) && ValidName(d) && ValidName(f)
    ensures RelPath(Join(Join(Join(root, c), d), f), root) == c + "/" + d + "/" + f
  {
    var prefix := if root[|root| - 1] == '/' then root else root + "/";
    var p1 := Join(root, c);
    assert p1 == prefix + c;
    assert p1[|p1| - 1] == c[|c| - 1] && c[|c| - 1] in c;
    var p2 := Join(p1, d);
    assert p2 == p1 + "/" + d;
    assert p2[|p2| - 1] == d[|d| - 1] && d[|d| - 1] in d;
    var p3 := Join(p2, f);
    assert p3 == p2 + "/" + f;
    var rest := c + "/" + d + "/" + f;
    assert p3 == prefix + rest;
    assert p3[..|prefix|] == prefix && p3[|prefix|..] == rest;
  }
}
