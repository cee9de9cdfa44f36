/** The path mapper: the local path a URL path is mapped to, POSIX path
    arithmetic (`os.path.splitext`, `join`, `dirname`, `abspath`, `relpath`) and the
    link value a rewritten attribute receives. */
module Paths {
  import opened Strings

  /** The characters `sanitize_filename` replaces by `_`. The class includes `/`. */
  const Invalid: set<char> := {'\\', '/', '*', '?', ':', '"', '<', '>', '|'}

  /** `sanitize_filename`: each character of `Invalid` becomes `_`, every other is kept. */
  function Sanitize(name: string): (r: string)
    ensures |r| == |name|
    ensures forall i :: 0 <= i < |name| && name[i] !in Invalid ==> r[i] == name[i]
    ensures forall i :: 0 <= i < |name| && name[i] in Invalid ==> r[i] == '_'
    ensures forall i :: 0 <= i < |r| ==> r[i] !in Invalid
  {
    Substitute(name, Invalid, '_')
  }

  /** Sanitising twice is sanitising once. */
  lemma SanitizeIdempotent(name: string)
    ensures Sanitize(Sanitize(name)) == Sanitize(name)
  {
    var once := Sanitize(name);
    assert forall i :: 0 <= i < |once| ==> Sanitize(once)[i] == once[i];
  }

  /** `os.path.splitext(p)` on POSIX: the extension starts at the last `.` after the
      last `/`, and only when some character of the final segment before that dot is
      not a dot (leading dots do not start an extension). */
  function SplitExt(p: string): (r: (string, string))
    ensures r.0 + r.1 == p
    ensures r.1 == [] || (r.1[0] == '.' && '.' !in r.1[1..] && '/' !in r.1)
  {
    var sep := RFind(p, '/');
    var dot := RFind(p, '.');
    if dot > sep && exists j :: sep < j < dot && p[j] != '.' then
      assert forall k :: dot <= k < |p| ==> p[k] != '/';
      assert forall k :: 1 <= k < |p[dot..]| ==> p[dot..][k] == p[dot + k] != '.';
      (p[..dot], p[dot..])
    else (p, "")
  }

  /** `os.path.splitext(p)[1]`: a suffix of the path, empty or one dot followed by
      neither a dot nor a slash. */
  function Ext(p: string): (r: string)
    ensures EndsWith(p, r)
    ensures r == [] || (r[0] == '.' && '.' !in r[1..] && '/' !in r)
  {
    var (root, ext) := SplitExt(p);
    assert p == root + ext;
    ext
  }

  /** A non-empty extension lies in the final segment, after some character that is
      neither a dot nor a slash. */
  lemma ExtWitness(p: string) returns (j: nat)
    requires Ext(p) != ""
    ensures j < |p| - |Ext(p)| && p[j] != '.' && p[j] != '/'
    ensures forall k :: j <= k < |p| ==> p[k] != '/'
  {
    var sep := RFind(p, '/');
    var dot := RFind(p, '.');
    assert dot > sep && exists j :: sep < j < dot && p[j] != '.';
    var w :| sep < w < dot && p[w] != '.';
    j := w;
  }

  /** Conversely, a dot in the final segment after a character that is not a dot starts
      an extension, and the extension runs from the last dot of the path. */
  lemma ExtFound(p: string, j: nat, d: nat)
    requires j < d < |p| && p[d] == '.' && p[j] != '.'
    requires forall k :: j <= k < |p| ==> p[k] != '/'
    ensures Ext(p) != "" && Ext(p) == p[RFind(p, '.')..] && RFind(p, '.') >= d
  {
    var sep := RFind(p, '/');
    var dot := RFind(p, '.');
    assert sep < j;
    assert dot >= d;
    assert sep < j < dot && p[j] != '.';
  }

  /** The extension of a path ending in `/index.html` is `.html`. */
  lemma ExtOfIndexHtml(x: string)
    ensures Ext(x + "/index.html") == ".html"
  {
    var p := x + "/index.html";
    var n := |x|;
    assert p[n] == '/' && p[n + 1] == 'i' && p[n + 6] == '.';
    assert forall k :: n < k < |p| ==> p[k] != '/';
    assert forall k :: n + 6 < k < |p| ==> p[k] != '.';
    assert RFind(p, '/') == n;
    assert RFind(p, '.') == n + 6;
    assert p[n + 6..] == ".html";
  }

  /** The page path of a fetched URL's path: a directory path receives `index.html`,
      an extension-less path receives `/index.html`, anything else is kept. */
  function PagePath(p: string): (r: string)
    ensures p <= r
    ensures r != p ==> EndsWith(r, "index.html")
  {
    if |p| > 0 && p[|p| - 1] == '/' then p + "index.html"
    else if Ext(p) == "" then p + "/index.html"
    else p
  }

  /** Every page path has an extension: it names a file, never a directory. */
  lemma PagePathHasExtension(p: string)
    ensures Ext(PagePath(p)) != ""
  {
    if |p| > 0 && p[|p| - 1] == '/' {
      var x := p[..|p| - 1];
      assert p + "index.html" == x + "/index.html";
      ExtOfIndexHtml(x);
    } else if Ext(p) == "" {
      ExtOfIndexHtml(p);
    }
  }

  /** Mapping a page path again changes nothing. */
  lemma PagePathIdempotent(p: string)
    ensures PagePath(PagePath(p)) == PagePath(p)
  {
    var q := PagePath(p);
    PagePathHasExtension(p);
    var e := Ext(q);
    assert q == SplitExt(q).0 + e;
    assert q[|q| - 1] == e[|e| - 1];
    assert e[|e| - 1] != '/';
  }

  /** A directory path, or a path without extension, maps to an `index.html` in that
      directory; a path with an extension maps to itself. */
  lemma PagePathIndex(p: string)
    ensures (|p| > 0 && p[|p| - 1] == '/') || Ext(p) == "" <==>
            PagePath(p) != p
    ensures PagePath(p) != p ==>
            PagePath(p) == (if |p| > 0 && p[|p| - 1] == '/' then p[..|p| - 1] else p) + "/index.html"
  {
    if |p| > 0 && p[|p| - 1] == '/' {
      assert PagePath(p) == p[..|p| - 1] + "/index.html";
    } else if Ext(p) == "" {
      assert PagePath(p) == p + "/index.html";
    }
  }

  /** `os.path.join(a, b)` for two components. */
  function Join(a: string, b: string): (r: string)
    ensures b != [] ==> r != []
    ensures b != [] && b[0] == '/' ==> r == b
    ensures b == [] || b[0] != '/' ==> a <= r && EndsWith(r, b)
  {
    if |b| > 0 && b[0] == '/' then b
    else if a == [] || a[|a| - 1] == '/' then a + b
    else a + "/" + b
  }

  /** Where a page is mapped (inidirici.py:113): the page path with its leading
      slashes removed, joined under the output directory. */
  function SavePath(saveDir: string, urlPath: string): (r: string)
    ensures saveDir <= r
    ensures EndsWith(r, LStrip(PagePath(urlPath), {'/'}))
  {
    var p := PagePath(urlPath);
    JoinStripped(saveDir, p);
    Join(saveDir, LStrip(p, {'/'}))
  }

  /** A component stripped of its leading slashes is joined after the directory. */
  lemma JoinStripped(a: string, p: string)
    ensures var q := LStrip(p, {'/'}); var r := Join(a, q);
            a <= r && EndsWith(r, q)
  {
    var q := LStrip(p, {'/'});
    assert q == [] || q[0] != '/';
  }

  /** Where a resource is mapped (inidirici.py:141): its URL path with the leading
      slashes removed and then sanitised, which turns every inner `/` into `_`. */
  function ResourcePath(saveDir: string, urlPath: string): (r: string)
    ensures saveDir <= r
    ensures EndsWith(r, ResourceName(urlPath))
  {
    var q := ResourceName(urlPath);
    assert q == [] || q[0] != '/' by {
      if q != [] { assert q[0] in q; }
    }
    Join(saveDir, q)
  }

  function ResourceName(urlPath: string): (r: string)
    ensures '/' !in r && '\\' !in r
  {
    var r := Sanitize(LStrip(urlPath, {'/'}));
    assert forall i :: 0 <= i < |r| ==> r[i] !in Invalid;
    r
  }

  /** `os.path.dirname(p)` on POSIX. */
  function Dirname(p: string): (r: string)
    ensures r <= p
    ensures '/' !in p ==> r == ""
  {
    TrimSlashes(p[..RFind(p, '/') + 1])
  }

  /** The head of a path up to its last slash, less its trailing slashes unless it is
      made of slashes only. */
  function TrimSlashes(head: string): (r: string)
    ensures r <= head
  {
    if head != [] && exists j :: 0 <= j < |head| && head[j] != '/' then RStrip(head, {'/'})
    else head
  }

  /** `dirname` gives the parent: joining the last segment of `p` back onto
      `Dirname(p)` resolves to `p` itself. */
  lemma DirnameParent(cwd: string, p: string)
    ensures Abs(cwd, Join(Dirname(p), p[RFind(p, '/') + 1..])) == Abs(cwd, p)
  {
    var i := RFind(p, '/');
    var d := Dirname(p);
    assert d == TrimSlashes(p[..i + 1]);
    ParentAt(cwd, p, i);
  }

  /** Splitting `p` after the slash at `i`, the last one, and joining the trimmed head
      with the rest resolves to `p`. */
  lemma ParentAt(cwd: string, p: string, i: int)
    requires -1 <= i < |p| && (0 <= i ==> p[i] == '/') && forall k :: i < k < |p| ==> p[k] != '/'
    ensures Abs(cwd, Join(TrimSlashes(p[..i + 1]), p[i + 1..])) == Abs(cwd, p)
  {
    var head := p[..i + 1];
    var base := p[i + 1..];
    SplitAtSlash(p, i);
    AbsJoin(cwd, TrimSlashes(head), base);
    AbsJoin(cwd, head, base);
    TrimSlashesAbs(cwd, head);
  }

  /** A path is its head up to the slash at `i` joined with the segment after it. */
  lemma SplitAtSlash(p: string, i: int)
    requires -1 <= i < |p| && (0 <= i ==> p[i] == '/') && forall k :: i < k < |p| ==> p[k] != '/'
    ensures var base := p[i + 1..]; (base == [] || base[0] != '/') && Join(p[..i + 1], base) == p
  {
    var head := p[..i + 1];
    var base := p[i + 1..];
    if head == [] {
      assert base == p;
    } else {
      assert head[|head| - 1] == '/';
      assert head + base == p;
    }
  }

  lemma TrimSlashesAbs(cwd: string, h: string)
    ensures Abs(cwd, TrimSlashes(h)) == Abs(cwd, h)
  {
    if h != [] && exists j :: 0 <= j < |h| && h[j] != '/' {
      RStripSlashes(cwd, h);
    }
  }

  /** Removing the trailing slashes of a path that is not all slashes keeps where it resolves. */
  lemma RStripSlashes(cwd: string, h: string)
    requires exists j :: 0 <= j < |h| && h[j] != '/'
    ensures Abs(cwd, RStrip(h, {'/'})) == Abs(cwd, h)
  {
    var d := RStrip(h, {'/'});
    KeepsNonSlash(h, d);
    AbsSlashes(cwd, h, |d|);
    assert h[..|d|] == d;
  }

  /** A prefix that drops only slashes keeps every other character. */
  lemma KeepsNonSlash(h: string, d: string)
    requires d <= h && forall i :: |d| <= i < |h| ==> h[i] in {'/'}
    requires exists j :: 0 <= j < |h| && h[j] != '/'
    ensures d != [] && forall i :: |d| <= i < |h| ==> h[i] == '/'
  {
    var j :| 0 <= j < |h| && h[j] != '/';
    assert h[j] !in {'/'};
  }

  /** Trailing slashes after a non-empty prefix do not change where a path resolves. */
  lemma {:induction false} AbsSlashes(cwd: string, h: string, n: nat)
    requires 0 < n <= |h| && forall i :: n <= i < |h| ==> h[i] == '/'
    ensures Abs(cwd, h) == Abs(cwd, h[..n])
    decreases |h|
  {
    if n < |h| {
      var h' := h[..|h| - 1];
      assert h == h' + ['/'];
      AbsSlash(cwd, h');
      AbsSlashes(cwd, h', n);
      assert h'[..n] == h[..n];
    } else {
      assert h[..n] == h;
    }
  }

  lemma AbsSlash(cwd: string, x: string)
    requires x != []
    ensures Abs(cwd, x + ['/']) == Abs(cwd, x)
  {
    if x[0] == '/' {
      assert Join(cwd, x + ['/']) == x + ['/'] && Join(cwd, x) == x;
      NormSlash([], x);
    } else {
      assert Join(cwd, x + ['/']) == Join(cwd, x) + ['/'];
      NormSlash([], Join(cwd, x));
    }
  }

  /** A trailing slash only adds an empty segment, which vanishes. */
  lemma NormSlash(acc: seq<string>, x: string)
    ensures Norm(acc, Split(x + ['/'], '/')) == Norm(acc, Split(x, '/'))
  {
    assert x + ['/'] == x + ['/'] + [];
    SplitAppend(x, [], '/');
    NormAppend(acc, Split(x, '/'), [""]);
    NormSkipsEmpty(Norm(acc, Split(x, '/')), []);
  }

  /** A path segment that a normalised absolute path can hold. */
  predicate Normal(seg: string) {
    seg != "" && seg != "." && seg != ".." && '/' !in seg
  }

  predicate Normalized(segs: seq<string>) {
    forall i :: 0 <= i < |segs| ==> Normal(segs[i])
  }

  predicate NoSlash(segs: seq<string>) {
    forall i :: 0 <= i < |segs| ==> '/' !in segs[i]
  }

  predicate Avoids(segs: seq<string>, d: char) {
    forall i :: 0 <= i < |segs| ==> d !in segs[i]
  }

  /** `os.path.normpath` on segments, from an already normalised absolute prefix `acc`:
      empty and `.` segments vanish, `..` removes the last segment (and stays at the root). */
  function Norm(acc: seq<string>, segs: seq<string>): (r: seq<string>)
    ensures Normalized(acc) && NoSlash(segs) ==> Normalized(r)
    decreases |segs|
  {
    if segs == [] then acc
    else if segs[0] == "" || segs[0] == "." then Norm(acc, segs[1..])
    else if segs[0] == ".." then Norm(if acc == [] then [] else acc[..|acc| - 1], segs[1..])
    else Norm(acc + [segs[0]], segs[1..])
  }

  /** The segments of `os.path.abspath(p)`, where `cwd` is the (absolute) working
      directory; this is the list `relpath` builds from `abspath(p).split('/')`. */
  function Abs(cwd: string, p: string): (r: seq<string>)
    ensures Normalized(r)
  {
    Norm([], Split(Join(cwd, p), '/'))
  }

  /** The length of the longest common prefix (`os.path.commonprefix` of two lists). */
  function CommonPrefix(a: seq<string>, b: seq<string>): (n: nat)
    ensures n <= |a| && n <= |b| && a[..n] == b[..n]
    ensures n < |a| && n < |b| ==> a[n] != b[n]
    decreases |a|
  {
    if a != [] && b != [] && a[0] == b[0] then
      var n := 1 + CommonPrefix(a[1..], b[1..]);
      assert a[..n] == [a[0]] + a[1..][..n - 1];
      assert b[..n] == [b[0]] + b[1..][..n - 1];
      n
    else 0
  }

  function Parents(n: nat): (r: seq<string>)
    ensures |r| == n && forall i :: 0 <= i < n ==> r[i] == ".."
  {
    if n == 0 then [] else [".."] + Parents(n - 1)
  }

  /** The segments of a relative path from `start` to `target`. */
  function RelSegments(start: seq<string>, target: seq<string>): seq<string> {
    var n := CommonPrefix(start, target);
    Parents(|start| - n) + target[n..]
  }

  /** `os.path.relpath(path, start)` on POSIX. Python raises for an empty `path`. */
  function RelPath(cwd: string, path: string, start: string): (r: string)
    requires path != ""
    ensures r != ""
  {
    var rel := RelSegments(Abs(cwd, start), Abs(cwd, path));
    if rel == [] then "."
    else
      RelSegmentsHead(Abs(cwd, start), Abs(cwd, path));
      IntercalateHead(rel, '/');
      Intercalate(rel, '/')
  }

  /** The first relative segment is `..` or a normal segment, never empty. */
  lemma RelSegmentsHead(start: seq<string>, target: seq<string>)
    requires Normalized(target)
    ensures RelSegments(start, target) == [] || RelSegments(start, target)[0] != ""
  {
    var n := CommonPrefix(start, target);
    var rel := RelSegments(start, target);
    if rel != [] && |start| - n == 0 {
      assert rel[0] == target[n];
    }
  }

  /** The value a rewritten attribute receives (inidirici.py:147-148):
      the relative path with every backslash replaced by a slash. */
  function RelLink(cwd: string, path: string, start: string): (r: string)
    requires path != ""
    ensures '\\' !in r
    ensures |r| == |RelPath(cwd, path, start)|
  {
    var r := Substitute(RelPath(cwd, path, start), {'\\'}, '/');
    assert forall i :: 0 <= i < |r| ==> r[i] != '\\';
    r
  }

  // ---------------------------------------------------------------------------
  // Normalisation facts

  lemma {:induction false} NormAppend(acc: seq<string>, x: seq<string>, y: seq<string>)
    ensures Norm(acc, x + y) == Norm(Norm(acc, x), y)
    decreases |x|
  {
    if x != [] {
      assert (x + y)[0] == x[0] && (x + y)[1..] == x[1..] + y;
      if x[0] == "" || x[0] == "." {
        NormAppend(acc, x[1..], y);
      } else if x[0] == ".." {
        NormAppend(if acc == [] then [] else acc[..|acc| - 1], x[1..], y);
      } else {
        NormAppend(acc + [x[0]], x[1..], y);
      }
    } else {
      assert x + y == y;
    }
  }

  /** Normal segments are simply appended. */
  lemma {:induction false} NormOfNormal(acc: seq<string>, segs: seq<string>)
    requires Normalized(segs)
    ensures Norm(acc, segs) == acc + segs
    decreases |segs|
  {
    if segs != [] {
      NormOfNormal(acc + [segs[0]], segs[1..]);
      assert acc + [segs[0]] + segs[1..] == acc + segs;
    }
  }

  lemma ParentsStep(n: nat, rest: seq<string>)
    requires n > 0
    ensures (Parents(n) + rest)[0] == ".." && (Parents(n) + rest)[1..] == Parents(n - 1) + rest
  {
    assert Parents(n) == [".."] + Parents(n - 1);
  }

  /** A `..` removes the last segment of a non-empty prefix. */
  lemma NormUp(acc: seq<string>, ps: seq<string>)
    requires acc != [] && ps != [] && ps[0] == ".."
    ensures Norm(acc, ps) == Norm(acc[..|acc| - 1], ps[1..])
  {
  }

  lemma PrefixOfPrefix<T>(s: seq<T>, a: nat, b: nat)
    requires b <= a <= |s|
    ensures s[..a][..b] == s[..b]
  {
  }

  /** Each `..` removes one segment. */
  lemma {:induction false} NormParents(acc: seq<string>, m: nat, rest: seq<string>)
    requires m <= |acc|
    ensures Norm(acc, Parents(|acc| - m) + rest) == Norm(acc[..m], rest)
    decreases |acc| - m
  {
    if |acc| > m {
      ParentsStep(|acc| - m, rest);
      NormUp(acc, Parents(|acc| - m) + rest);
      var up := acc[..|acc| - 1];
      assert |up| - m == |acc| - m - 1;
      NormParents(up, m, rest);
      PrefixOfPrefix(acc, |acc| - 1, m);
    } else {
      assert acc[..m] == acc && Parents(0) + rest == rest;
    }
  }

  /** The segments of a normalised path are made of the characters of its inputs. */
  lemma {:induction false} NormAvoids(acc: seq<string>, segs: seq<string>, d: char)
    requires Avoids(acc, d) && Avoids(segs, d)
    ensures Avoids(Norm(acc, segs), d)
    decreases |segs|
  {
    if segs != [] {
      if segs[0] == "" || segs[0] == "." {
        NormAvoids(acc, segs[1..], d);
      } else if segs[0] == ".." {
        NormAvoids(if acc == [] then [] else acc[..|acc| - 1], segs[1..], d);
      } else {
        NormAvoids(acc + [segs[0]], segs[1..], d);
      }
    }
  }

  /** Leading slashes do not change what a path normalises to. */
  lemma {:induction false} NormLStrip(acc: seq<string>, p: string)
    ensures Norm(acc, Split(LStrip(p, {'/'}), '/')) == Norm(acc, Split(p, '/'))
    decreases |p|
  {
    if p != [] && p[0] == '/' {
      var q := p[1..];
      assert LStrip(p, {'/'}) == LStrip(q, {'/'});
      NormLStrip(acc, q);
      SplitLeadingSlash(p);
      NormSkipsEmpty(acc, Split(q, '/'));
    }
  }

  lemma SplitLeadingSlash(p: string)
    requires p != [] && p[0] == '/'
    ensures Split(p, '/') == [""] + Split(p[1..], '/')
  {
  }

  lemma NormSkipsEmpty(acc: seq<string>, segs: seq<string>)
    ensures Norm(acc, [""] + segs) == Norm(acc, segs)
  {
    assert ([""] + segs)[1..] == segs;
  }

  /** Normalising a join continues from the normalised first component. */
  lemma NormJoin(acc: seq<string>, a: string, b: string)
    requires b == [] || b[0] != '/'
    ensures Norm(acc, Split(Join(a, b), '/')) == Norm(Norm(acc, Split(a, '/')), Split(b, '/'))
  {
    if a == [] {
      assert Join(a, b) == b;
      assert Split(a, '/') == [""];
      NormSkipsEmpty(acc, []);
    } else if a[|a| - 1] == '/' {
      var x := a[..|a| - 1];
      assert a == x + ['/'];
      assert Join(a, b) == x + ['/'] + b;
      NormAfterSlash(acc, x, b);
    } else {
      assert Join(a, b) == a + ['/'] + b;
      SplitAppend(a, b, '/');
      NormAppend(acc, Split(a, '/'), Split(b, '/'));
    }
  }

  /** The trailing slash of `x/` only adds an empty segment, which vanishes. */
  lemma NormAfterSlash(acc: seq<string>, x: string, b: string)
    ensures Norm(acc, Split(x + ['/'] + b, '/')) == Norm(Norm(acc, Split(x + ['/'], '/')), Split(b, '/'))
  {
    assert x + ['/'] == x + ['/'] + [];
    SplitAppend(x, [], '/');
    SplitAppend(x, b, '/');
    NormAppend(acc, Split(x, '/'), [""]);
    NormAppend(acc, Split(x, '/'), Split(b, '/'));
  }

  /** Resolving a relative path `r` from directory `start` continues from the
      normalised `start`. */
  lemma AbsJoin(cwd: string, start: string, r: string)
    requires r == [] || r[0] != '/'
    ensures Abs(cwd, Join(start, r)) == Norm(Abs(cwd, start), Split(r, '/'))
  {
    if start != [] && start[0] == '/' {
      assert Join(start, r)[0] == '/';
      NormJoin([], start, r);
    } else {
      var j := Join(start, r);
      assert j == [] || j[0] != '/';
      NormJoin([], cwd, j);
      NormJoin(Norm([], Split(cwd, '/')), start, r);
      NormJoin([], cwd, start);
    }
  }

  // ---------------------------------------------------------------------------
  // The page and resource locations

  /** A page is mapped under the output directory, at its page path. */
  lemma SavePathUnderSaveDir(cwd: string, saveDir: string, urlPath: string)
    ensures Abs(cwd, SavePath(saveDir, urlPath)) ==
            Norm(Abs(cwd, saveDir), Split(PagePath(urlPath), '/'))
  {
    var q := LStrip(PagePath(urlPath), {'/'});
    AbsJoin(cwd, saveDir, q);
    NormLStrip(Abs(cwd, saveDir), PagePath(urlPath));
  }

  /** The file name of a resource is one normal segment when its path has an extension. */
  lemma ResourceNameNormal(urlPath: string)
    requires Ext(urlPath) != ""
    ensures Normal(ResourceName(urlPath))
  {
    var j := ExtWitness(urlPath);
    NameKeepsNonDot(urlPath, j);
  }

  /** A character that is neither a dot nor a slash survives into the resource name. */
  lemma NameKeepsNonDot(urlPath: string, j: nat)
    requires j < |urlPath| && urlPath[j] != '.' && urlPath[j] != '/'
    ensures Normal(ResourceName(urlPath))
  {
    var s := LStrip(urlPath, {'/'});
    var i := StrippedIndex(urlPath, j);
    SanitizeKeepsNonDot(s, i);
    NotDots(Sanitize(s), i);
  }

  /** A character other than `/` survives the stripping of leading slashes. */
  lemma StrippedIndex(p: string, j: nat) returns (i: nat)
    requires j < |p| && p[j] != '/'
    ensures var s := LStrip(p, {'/'}); i < |s| && s[i] == p[j]
  {
    var s := LStrip(p, {'/'});
    i := j - (|p| - |s|);
    assert p[j] !in {'/'};
  }

  lemma SanitizeKeepsNonDot(s: string, i: nat)
    requires i < |s| && s[i] != '.'
    ensures Sanitize(s)[i] != '.'
  {
    if s[i] in Invalid {
      assert Sanitize(s)[i] == '_';
    } else {
      assert Sanitize(s)[i] == s[i];
    }
  }

  lemma ResourcePathNonEmpty(saveDir: string, urlPath: string)
    requires Ext(urlPath) != ""
    ensures ResourcePath(saveDir, urlPath) != ""
  {
    ResourceNameNormal(urlPath);
  }

  /** A segment with a character other than a dot is neither `.` nor `..`. */
  lemma NotDots(name: string, i: nat)
    requires i < |name| && name[i] != '.'
    ensures name != "" && name != "." && name != ".."
  {
  }

  /** A resource is mapped directly inside the output directory (the flattening of
      inidirici.py:141): its mapped path is one child segment of `saveDir`. */
  lemma ResourceIsChildOfSaveDir(cwd: string, saveDir: string, urlPath: string)
    requires Ext(urlPath) != ""
    ensures Abs(cwd, ResourcePath(saveDir, urlPath)) ==
            Abs(cwd, saveDir) + [ResourceName(urlPath)]
  {
    var name := ResourceName(urlPath);
    assert ResourcePath(saveDir, urlPath) == Join(saveDir, name);
    ResourceNameNormal(urlPath);
    AbsOfJoinedName(cwd, saveDir, name);
  }

  /** Joining a normal segment onto a directory adds that one segment. */
  lemma AbsOfJoinedName(cwd: string, dir: string, name: string)
    requires Normal(name)
    ensures Abs(cwd, Join(dir, name)) == Abs(cwd, dir) + [name]
  {
    assert name[0] != '/' by { assert name[0] in name; }
    AbsJoin(cwd, dir, name);
    SplitNoSep(name, '/');
    assert Normalized([name]) by { assert [name][0] == name; }
    NormOfNormal(Abs(cwd, dir), [name]);
  }

  // ---------------------------------------------------------------------------
  // Relative links

  /** Walking the relative segments from `start` reaches `target`. */
  lemma RelSegmentsResolve(start: seq<string>, target: seq<string>)
    requires Normalized(start) && Normalized(target)
    ensures Norm(start, RelSegments(start, target)) == target
  {
    var n := CommonPrefix(start, target);
    var rest := target[n..];
    assert RelSegments(start, target) == Parents(|start| - n) + rest;
    NormalizedSuffix(target, n);
    NormUpThenDown(start, n, rest);
    SplitAt(target, n);
  }

  lemma NormalizedSuffix(segs: seq<string>, n: nat)
    requires Normalized(segs) && n <= |segs|
    ensures Normalized(segs[n..])
  {
    var rest := segs[n..];
    assert forall i :: 0 <= i < |rest| ==> rest[i] == segs[n + i];
  }

  lemma SplitAt<T>(s: seq<T>, n: nat)
    requires n <= |s|
    ensures s[..n] + s[n..] == s
  {
  }

  /** Going up to the first `n` segments and then down normal segments. */
  lemma NormUpThenDown(start: seq<string>, n: nat, rest: seq<string>)
    requires n <= |start| && Normalized(rest)
    ensures Norm(start, Parents(|start| - n) + rest) == start[..n] + rest
  {
    NormParents(start, n, rest);
    NormOfNormal(start[..n], rest);
  }

  /** The pieces of a relative path are `..` or segments copied from the target. */
  lemma RelSegmentsAvoid(start: seq<string>, target: seq<string>, d: char)
    requires Avoids(target, d) && d != '.'
    ensures Avoids(RelSegments(start, target), d)
  {
    var n := CommonPrefix(start, target);
    var rel := RelSegments(start, target);
    forall i | 0 <= i < |rel| ensures d !in rel[i] {
      if i >= |start| - n {
        assert rel[i] == target[n + i - (|start| - n)];
      } else {
        assert rel[i] == "..";
      }
    }
  }

  lemma IntercalateHead(parts: seq<string>, c: char)
    requires |parts| >= 1 && parts[0] != ""
    ensures Intercalate(parts, c) != "" && Intercalate(parts, c)[0] == parts[0][0]
  {
  }

  /** `relpath(path, start)`, split at its slashes and walked from `start`, reaches `path`. */
  lemma RelPathResolves(cwd: string, path: string, start: string)
    requires path != ""
    ensures var r := RelPath(cwd, path, start);
            (r == [] || r[0] != '/') &&
            Norm(Abs(cwd, start), Split(r, '/')) == Abs(cwd, path)
  {
    var s, t := Abs(cwd, start), Abs(cwd, path);
    var rel := RelSegments(s, t);
    RelSegmentsAvoid(s, t, '/');
    RelSegmentsResolve(s, t);
    var r := RelPath(cwd, path, start);
    if rel == [] {
      assert r == ".";
      SplitNoSep(".", '/');
    } else {
      SplitIntercalate(rel, '/');
      assert rel[0] != "" && '/' !in rel[0];
      IntercalateHead(rel, '/');
      assert rel[0][0] in rel[0];
    }
  }

  /** `relpath` adds no backslash beyond those of the target's segments. */
  lemma RelPathAvoidsBackslash(cwd: string, path: string, start: string)
    requires path != ""
    requires Avoids(Abs(cwd, path), '\\')
    ensures '\\' !in RelPath(cwd, path, start)
  {
    var rel := RelSegments(Abs(cwd, start), Abs(cwd, path));
    RelSegmentsAvoid(Abs(cwd, start), Abs(cwd, path), '\\');
    if rel != [] {
      IntercalateChars(rel, '/', '\\');
    }
  }

  /** Replacing a character that does not occur changes nothing. */
  lemma SubstituteAbsent(s: string, d: char, sub: char)
    requires d !in s
    ensures Substitute(s, {d}, sub) == s
  {
    var r := Substitute(s, {d}, sub);
    assert forall i :: 0 <= i < |s| ==> r[i] == s[i];
  }

  /** The rewritten link leads from `start` back to `path`, whenever none of the
      segments it copies contains a backslash (so the backslash replacement of
      inidirici.py:148 leaves it intact). */
  lemma RewrittenLinkResolves(cwd: string, path: string, start: string)
    requires path != ""
    requires Avoids(Abs(cwd, path), '\\')
    ensures Abs(cwd, Join(start, RelLink(cwd, path, start))) == Abs(cwd, path)
  {
    RelPathAvoidsBackslash(cwd, path, start);
    SubstituteAbsent(RelPath(cwd, path, start), '\\', '/');
    RelPathResolves(cwd, path, start);
    AbsJoin(cwd, start, RelPath(cwd, path, start));
  }

  /** A resource link written into a page reaches the resource's path, provided the
      working directory and the output directory hold no backslash. */
  lemma ResourceLinkResolves(cwd: string, saveDir: string, urlPath: string, start: string)
    requires Ext(urlPath) != ""
    requires '\\' !in cwd && '\\' !in saveDir
    ensures Abs(cwd, Join(start, RelLink(cwd, ResourcePath(saveDir, urlPath), start))) ==
            Abs(cwd, ResourcePath(saveDir, urlPath))
  {
    var path := ResourcePath(saveDir, urlPath);
    ResourcePathNonEmpty(saveDir, urlPath);
    ResourceAvoidsBackslash(cwd, saveDir, urlPath);
    RewrittenLinkResolves(cwd, path, start);
  }

  /** No segment of a resource's absolute path holds a backslash when neither the
      working directory nor the output directory does. */
  lemma ResourceAvoidsBackslash(cwd: string, saveDir: string, urlPath: string)
    requires Ext(urlPath) != ""
    requires '\\' !in cwd && '\\' !in saveDir
    ensures Avoids(Abs(cwd, ResourcePath(saveDir, urlPath)), '\\')
  {
    ResourceIsChildOfSaveDir(cwd, saveDir, urlPath);
    AbsAvoids(cwd, saveDir, '\\');
    ResourceNameNormal(urlPath);
    AvoidsSnoc(Abs(cwd, saveDir), ResourceName(urlPath), '\\');
  }

  /** A character in neither the working directory nor the path is in no segment. */
  lemma AbsAvoids(cwd: string, p: string, d: char)
    requires d !in cwd && d !in p && d != '/'
    ensures Avoids(Abs(cwd, p), d)
  {
    var j := Join(cwd, p);
    assert d !in j;
    SplitKeepsChars(j, '/', d);
    NormAvoids([], Split(j, '/'), d);
  }

  lemma AvoidsSnoc(segs: seq<string>, name: string, d: char)
    requires Avoids(segs, d) && d !in name
    ensures Avoids(segs + [name], d)
  {
    var r := segs + [name];
    assert forall i :: 0 <= i < |segs| ==> r[i] == segs[i];
    assert r[|segs|] == name;
  }

  // ---------------------------------------------------------------------------
  // Where the files are written

  /** The file actually opened for a save path: `save_file` (inidirici.py:67) and
      `parse_and_download` (inidirici.py:152) sanitise the WHOLE path again, so every
      directory separator, including the one after the output directory, becomes `_`. */
  function WrittenFile(path: string): (r: string)
    ensures '/' !in r && |r| == |path|
  {
    var r := Sanitize(path);
    assert forall i :: 0 <= i < |r| ==> r[i] != '/';
    r
  }

  /** For a page at `/` that links `/a.png` from output directory `site`, the page is
      written to `site_index.html` and the image to `site_a.png`, both in the working
      directory, while the rewritten link `a.png` names neither. */
  lemma FlattenedLinkMisses()
    ensures var page := SavePath("site", "/");
            var res := ResourcePath("site", "/a.png");
            var link := RelLink("/w", res, Dirname(page));
            page == "site/index.html" && res == "site/a.png" && link == "a.png" &&
            WrittenFile(page) == "site_index.html" && WrittenFile(res) == "site_a.png" &&
            Abs("/w", Join(Dirname(WrittenFile(page)), link)) != Abs("/w", WrittenFile(res))
  {
    ExampleLocations();
    ExampleLink();
    ExampleFiles();
    ExampleMiss();
  }

  lemma ExampleLocations()
    ensures SavePath("site", "/") == "site/index.html"
    ensures ResourcePath("site", "/a.png") == "site/a.png"
    ensures Dirname("site/index.html") == "site"
  {
    ExamplePage();
    ExampleResource();
    ExampleDirname();
  }

  lemma ExamplePage()
    ensures SavePath("site", "/") == "site/index.html"
  {
    ExamplePagePath();
    ExampleStrip();
    ExampleJoin();
  }

  lemma ExampleJoin()
    ensures Join("site", "index.html") == "site/index.html"
  {
    assert "site"[3] != '/';
    assert "site" + "/" + "index.html" == "site/index.html";
  }

  lemma ExamplePagePath()
    ensures PagePath("/") == "/index.html"
  {
  }

  lemma ExampleStrip()
    ensures LStrip("/index.html", {'/'}) == "index.html"
  {
    var p := "/index.html";
    assert p[0] == '/' && p[1] == 'i';
    LStripOneSlash(p);
    assert p[1..] == "index.html";
  }

  lemma ExampleResource()
    ensures ResourcePath("site", "/a.png") == "site/a.png"
  {
    ExampleStripImage();
    ExampleSanitizeImage();
    assert ResourceName("/a.png") == "a.png";
    var a, b := "site", "a.png";
    assert a[|a| - 1] != '/' && b[0] != '/';
    assert Join(a, b) == a + "/" + b;
    assert a + "/" + b == "site/a.png";
  }

  lemma ExampleStripImage()
    ensures LStrip("/a.png", {'/'}) == "a.png"
  {
    var p := "/a.png";
    assert p[0] == '/' && p[1] == 'a';
    LStripOneSlash(p);
    assert p[1..] == "a.png";
  }

  /** One leading slash is stripped and nothing more. */
  lemma LStripOneSlash(p: string)
    requires |p| > 1 && p[0] == '/' && p[1] != '/'
    ensures LStrip(p, {'/'}) == p[1..]
  {
    assert p[0] in {'/'} && p[1] !in {'/'};
    LStripOne(p, {'/'});
  }

  lemma LStripOne(p: string, chars: set<char>)
    requires |p| > 1 && p[0] in chars && p[1] !in chars
    ensures LStrip(p, chars) == p[1..]
  {
    var q := p[1..];
    assert q[0] == p[1];
    assert LStrip(q, chars) == q;
  }

  lemma ExampleSanitizeImage()
    ensures Sanitize("a.png") == "a.png"
  {
    var s := "a.png";
    assert s[0] == 'a' && s[1] == '.' && s[2] == 'p' && s[3] == 'n' && s[4] == 'g';
    assert forall i :: 0 <= i < |s| ==> s[i] !in Invalid;
  }

  lemma ExampleDirname()
    ensures Dirname("site/index.html") == "site"
  {
    RFindAt("site/index.html", '/', 4);
    assert "site/index.html"[..5] == "site/" && "site/"[0] != '/';
    assert "site/"[..4] == "site" && RStrip("site", {'/'}) == "site";
  }

  lemma AbsOfSlashFree(cwdSeg: string, p: string)
    requires Normal(cwdSeg) && Normal(p)
    ensures Abs("/" + cwdSeg, p) == [cwdSeg, p]
  {
    var a := "/" + cwdSeg;
    SplitNoSep(cwdSeg, '/');
    SplitNoSep(p, '/');
    assert a == [] + ['/'] + cwdSeg;
    SplitAppend([], cwdSeg, '/');
    assert Split(a, '/') == ["", cwdSeg];
    assert Join(a, p) == a + ['/'] + p;
    SplitAppend(a, p, '/');
    assert Split(Join(a, p), '/') == ["", cwdSeg, p];
    NormSkipsEmpty([], [cwdSeg, p]);
    assert ["", cwdSeg, p] == [""] + [cwdSeg, p];
    NormOfNormal([], [cwdSeg, p]);
  }

  lemma ExampleAbs(p: string)
    requires Normal(p)
    ensures Abs("/w", p) == ["w", p]
  {
    assert "/" + "w" == "/w";
    AbsOfSlashFree("w", p);
  }

  lemma ExampleAbsResource()
    ensures Abs("/w", "site/a.png") == ["w", "site", "a.png"]
  {
    var w, dir, name := "w", "site", "a.png";
    assert Normal(w) && Normal(dir) && Normal(name);
    AbsOfChild(w, dir, name);
    assert "/" + w == "/w" && dir + "/" + name == "site/a.png";
  }

  /** A two-segment relative path under a one-segment working directory. */
  lemma AbsOfChild(cwdSeg: string, dir: string, name: string)
    requires Normal(cwdSeg) && Normal(dir) && Normal(name)
    ensures Abs("/" + cwdSeg, dir + "/" + name) == [cwdSeg, dir, name]
  {
    var cwd := "/" + cwdSeg;
    AbsOfSlashFree(cwdSeg, dir);
    JoinPlain(dir, name);
    AbsOfJoinedName(cwd, dir, name);
    assert [cwdSeg, dir] + [name] == [cwdSeg, dir, name];
  }

  lemma JoinPlain(dir: string, name: string)
    requires Normal(dir) && Normal(name)
    ensures Join(dir, name) == dir + "/" + name
  {
    assert dir[|dir| - 1] in dir && name[0] in name;
  }

  lemma ExampleRelSegments()
    ensures RelSegments(Abs("/w", "site"), Abs("/w", "site/a.png")) == ["a.png"]
  {
    ExampleAbs("site");
    ExampleAbsResource();
    assert CommonPrefix(["w", "site"], ["w", "site", "a.png"]) == 2;
  }

  lemma ExampleLink()
    ensures RelLink("/w", "site/a.png", "site") == "a.png"
  {
    ExampleRelSegments();
    assert RelPath("/w", "site/a.png", "site") == "a.png";
    SubstituteAbsent("a.png", '\\', '/');
  }

  lemma ExampleFiles()
    ensures WrittenFile("site/index.html") == "site_index.html"
    ensures WrittenFile("site/a.png") == "site_a.png"
  {
  }

  lemma ExampleMiss()
    ensures Abs("/w", Join(Dirname("site_index.html"), "a.png")) != Abs("/w", "site_a.png")
  {
    var page, link, res := "site_index.html", "a.png", "site_a.png";
    assert '/' !in page;
    assert Dirname(page) == "";
    assert Join("", link) == link;
    assert Normal(link) && Normal(res);
    ExampleAbs(link);
    ExampleAbs(res);
    assert |link| != |res|;
    assert ["w", link][1] != ["w", res][1];
  }

}
