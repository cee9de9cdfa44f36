/** The reference classifier: which tag/attribute pairs are examined, which
    references are skipped, and whether an accepted reference is queued for download,
    followed as a page, or left alone. */
module Classify {
  import opened Wrappers
  import opened Strings
  import opened Paths

  /** A URL as `urlparse` splits it. `rest` is the text after the path (parameters,
      query and fragment with their delimiters), so two URLs are equal when their
      components are. */
  datatype Url = Url(scheme: string, netloc: string, path: string, rest: string)

  /** `is_valid_url`: both the scheme and the network location are present. */
  predicate IsValidUrl(u: Url) {
    u.scheme != "" && u.netloc != ""
  }

  /** A parsed element: its tag name and its attribute values. A `rel` value is kept as
      the attribute's text; `NoFollow` says how the parser turns it into a list. */
  datatype Element = Element(name: string, attrs: map<string, string>)

  type Page = seq<Element>

  /** The tags examined and the attribute read from each, in processing order. */
  const TagTable: seq<(string, string)> := [
    ("img", "src"), ("script", "src"), ("link", "href"), ("a", "href"),
    ("video", "src"), ("audio", "src"), ("source", "src")
  ]

  /** `RESOURCE_TYPES`: the extensions downloaded as resources. The program only
      tests membership in this list, so it is a set here. */
  const ResourceTypes: set<string> := {
    ".css", ".js", ".png", ".jpg", ".jpeg", ".gif", ".svg", ".woff", ".woff2",
    ".ttf", ".eot", ".otf", ".ico", ".mp4", ".webm", ".ogg", ".mp3", ".wav", ".pdf"
  }

  /** `resource.get(attr)`, with a missing attribute read as the empty string
      (both fail the `not src` test alike). */
  function AttrValue(el: Element, attr: string): string {
    if attr in el.attrs then el.attrs[attr] else ""
  }

  /** `'nofollow' in resource.attrs.get('rel', [])`. The HTML parser splits `rel` into
      whitespace-separated tokens on `a` and `link` elements only, so there the test is
      token membership; on the other tags `rel` stays a string and `in` is a substring
      test. */
  predicate NoFollow(tag: string, el: Element) {
    "rel" in el.attrs &&
    if tag == "a" || tag == "link" then HasToken(el.attrs["rel"], "nofollow")
    else Occurs("nofollow", el.attrs["rel"])
  }

  /** `os.path.splitext(path)[1].lower()` of a resolved reference. */
  function RefExt(u: Url): string {
    Lower(Ext(u.path))
  }

  /** A reference whose extension is a resource type has a non-empty extension. */
  lemma ResourceHasExt(u: Url)
    requires RefExt(u) in ResourceTypes
    ensures Ext(u.path) != ""
  {
    NoEmptyType();
    assert |RefExt(u)| == |Ext(u.path)|;
  }

  lemma NoEmptyType()
    ensures "" !in ResourceTypes
  {
    assert forall e :: e in ResourceTypes ==> |e| >= 3;
  }

  /** What the dispatch loop does with one element. */
  datatype Action =
    | Skip                              // one of the `continue`s
    | Download(url: Url, path: string)  // enqueue `(url, path)` and rewrite the attribute
    | Follow(url: Url)                  // recurse one level deeper
    | Ignore                            // no action

  /** The three reasons to skip a reference: no value, a `nofollow` marker, or an
      extension outside a non-empty include list. */
  predicate Filtered(tag: string, attr: string, el: Element, target: Url, includeTypes: seq<string>) {
    AttrValue(el, attr) == "" || NoFollow(tag, el) ||
    (includeTypes != [] && RefExt(target) !in includeTypes)
  }

  /** The decision for element `el` found for `(tag, attr)`, whose value resolves to
      `target`, given the include list, the follow flag, the output directory and the
      URLs visited so far. */
  function Decide(tag: string, attr: string, el: Element, target: Url, includeTypes: seq<string>,
                  follow: bool, saveDir: string, visited: set<Url>): (r: Action)
    ensures r.Skip? <==> Filtered(tag, attr, el, target, includeTypes)
    ensures r.Download? <==>
              !Filtered(tag, attr, el, target, includeTypes) &&
              RefExt(target) in ResourceTypes && IsValidUrl(target) && target !in visited
    ensures r.Follow? <==>
              !Filtered(tag, attr, el, target, includeTypes) &&
              RefExt(target) !in ResourceTypes && tag == "a" && follow &&
              IsValidUrl(target) && target !in visited
    ensures r.Download? ==>
              r.url == target && r.path == ResourcePath(saveDir, target.path) &&
              Ext(target.path) != "" && r.path != ""
    ensures r.Follow? ==> r.url == target
  {
    if Filtered(tag, attr, el, target, includeTypes) then Skip
    else
      var ext := RefExt(target);
      if ext in ResourceTypes || tag == "a" then
        if IsValidUrl(target) && target !in visited then
          if ext in ResourceTypes then
            ResourceHasExt(target);
            ResourcePathNonEmpty(saveDir, target.path);
            Download(target, ResourcePath(saveDir, target.path))
          else if tag == "a" && follow then Follow(target)
          else Ignore
        else Ignore
      else Ignore
  }

  // ---------------------------------------------------------------------------
  // The include list

  /** `--include-types` as the program builds it: `"." + piece.strip()` for every
      comma-separated piece, or no list when the option is absent or empty. */
  function IncludeTypes(arg: Option<string>): (r: seq<string>)
    ensures arg.None? || arg == Some("") ==> r == []
    ensures arg.Some? && arg.value != "" ==> |r| == |Split(arg.value, ',')|
  {
    if arg.None? || arg.value == "" then []
    else
      var pieces := Split(arg.value, ',');
      seq(|pieces|, i requires 0 <= i < |pieces| => "." + Strip(pieces[i]))
  }

  /** Every entry of the include list starts with the dot the program prepends. */
  lemma IncludeTypesDotted(arg: Option<string>)
    ensures forall i :: 0 <= i < |IncludeTypes(arg)| ==>
              IncludeTypes(arg)[i] != "" && IncludeTypes(arg)[i][0] == '.'
  {
  }

  /** The include list of comma-free pieces joined by commas: one entry per piece, the
      piece stripped with a dot in front, in order. */
  lemma IncludeTypesOfPieces(ps: seq<string>)
    requires forall i :: 0 <= i < |ps| ==> ',' !in ps[i]
    ensures Intercalate(ps, ',') == "" ==> IncludeTypes(Some(Intercalate(ps, ','))) == []
    ensures Intercalate(ps, ',') != "" ==>
              IncludeTypes(Some(Intercalate(ps, ','))) ==
              seq(|ps|, i requires 0 <= i < |ps| => "." + Strip(ps[i]))
  {
    if ps != [] {
      SplitIntercalate(ps, ',');
    }
  }

  /** The form of the help text's example, `--include-types .jpg,.png`: two dotted words
      joined by a comma give two entries, each with two dots. */
  lemma DottedIncludePair(v: string, w: string)
    requires PlainWord(v) && PlainWord(w)
    ensures IncludeTypes(Some(Intercalate(["." + v, "." + w], ','))) == [".." + v, ".." + w]
  {
    var ps := ["." + v, "." + w];
    DottedPlain(v);
    DottedPlain(w);
    IncludeTypesOfPieces(ps);
    assert Intercalate(ps, ',') != "";
    DoubleDot(v);
    DoubleDot(w);
  }

  lemma DoubleDot(w: string)
    ensures "." + ("." + w) == ".." + w
  {
    assert forall i :: 2 <= i < |w| + 2 ==> ("." + ("." + w))[i] == w[i - 2];
  }

  /** A dotted plain word has no comma and strips to itself. */
  lemma DottedPlain(w: string)
    requires PlainWord(w)
    ensures ',' !in "." + w && Strip("." + w) == "." + w
  {
    var s := "." + w;
    assert forall i :: 0 <= i < |s| ==> s[i] !in Whitespace && s[i] != ',' by {
      assert forall i :: 1 <= i < |s| ==> s[i] == w[i - 1];
    }
    StripPlain(s);
  }

  /** A lowercased extension has its one dot at the front. */
  lemma RefExtOneDot(u: Url)
    ensures RefExt(u) == "" || (RefExt(u)[0] == '.' && '.' !in RefExt(u)[1..])
  {
    LowerOneDot(Ext(u.path));
  }

  lemma LowerOneDot(e: string)
    requires e == [] || (e[0] == '.' && '.' !in e[1..])
    ensures var l := Lower(e); l == [] || (l[0] == '.' && '.' !in l[1..])
  {
    var l := Lower(e);
    if e != [] {
      NotInTail(e, '.');
      assert forall i :: 1 <= i < |l| ==> l[i] == LowerChar(e[i]) != '.';
      NotInTail(l, '.');
    }
  }

  lemma NotInTail(s: string, c: char)
    requires s != []
    ensures c !in s[1..] <==> forall i :: 1 <= i < |s| ==> s[i] != c
  {
    assert forall i :: 1 <= i < |s| ==> s[1..][i - 1] == s[i];
  }

  /** A word without commas, dots and whitespace. */
  predicate PlainWord(w: string) {
    w != "" && forall i :: 0 <= i < |w| ==> w[i] != ',' && w[i] != '.' && w[i] !in Whitespace
  }

  lemma StripPlain(w: string)
    requires w != "" && forall i :: 0 <= i < |w| ==> w[i] !in Whitespace
    ensures Strip(w) == w
  {
    assert RStrip(w, Whitespace) == w;
    assert LStrip(w, Whitespace) == w;
  }

  /** The include list of one piece. */
  lemma IncludeOne(s: string)
    requires s != "" && ',' !in s && forall i :: 0 <= i < |s| ==> s[i] !in Whitespace
    ensures IncludeTypes(Some(s)) == ["." + s]
  {
    SplitNoSep(s, ',');
    StripPlain(s);
  }

  /** The form the help text documents, `--include-types .jpg`, yields the entry
      `..jpg`, which no reference extension equals: every reference is then skipped. */
  lemma DottedIncludeSkipsAll(w: string, tag: string, attr: string, el: Element, target: Url,
                              follow: bool, saveDir: string, visited: set<Url>)
    requires PlainWord(w)
    ensures IncludeTypes(Some("." + w)) == [".." + w]
    ensures Decide(tag, attr, el, target, IncludeTypes(Some("." + w)), follow, saveDir, visited) == Skip
  {
    DottedIncludeList(w);
    DoubleDotSkipped(w, tag, attr, el, target, follow, saveDir, visited);
  }

  lemma DottedIncludeList(w: string)
    requires PlainWord(w)
    ensures IncludeTypes(Some("." + w)) == [".." + w]
  {
    var s := "." + w;
    assert forall i :: 0 <= i < |s| ==> s[i] !in Whitespace && s[i] != ',' by {
      assert forall i :: 1 <= i < |s| ==> s[i] == w[i - 1];
    }
    IncludeOne(s);
    assert "." + s == ".." + w;
  }

  /** No reference extension has two leading dots. */
  lemma DoubleDotSkipped(w: string, tag: string, attr: string, el: Element, target: Url,
                         follow: bool, saveDir: string, visited: set<Url>)
    ensures Decide(tag, attr, el, target, [".." + w], follow, saveDir, visited) == Skip
  {
    RefExtOneDot(target);
    assert (".." + w)[1..][0] == '.';
  }

  /** The include list as the help text intends it: a piece given with its dot is
      taken as it is, one given without receives the dot. */
  function IncludeTypesCorrected(arg: Option<string>): (r: seq<string>)
    ensures arg.None? || arg == Some("") ==> r == []
    ensures arg.Some? && arg.value != "" ==> |r| == |Split(arg.value, ',')|
    ensures forall i :: 0 <= i < |r| ==> r[i] != "" && r[i][0] == '.'
  {
    if arg.None? || arg.value == "" then []
    else
      var pieces := Split(arg.value, ',');
      seq(|pieces|, i requires 0 <= i < |pieces| => WithDot(Strip(pieces[i])))
  }

  /** The corrected include list of comma-free pieces joined by commas. */
  lemma IncludeTypesCorrectedOfPieces(ps: seq<string>)
    requires forall i :: 0 <= i < |ps| ==> ',' !in ps[i]
    ensures Intercalate(ps, ',') == "" ==> IncludeTypesCorrected(Some(Intercalate(ps, ','))) == []
    ensures Intercalate(ps, ',') != "" ==>
              IncludeTypesCorrected(Some(Intercalate(ps, ','))) ==
              seq(|ps|, i requires 0 <= i < |ps| => WithDot(Strip(ps[i])))
  {
    if ps != [] {
      SplitIntercalate(ps, ',');
    }
  }

  function WithDot(piece: string): (r: string)
    ensures r != "" && r[0] == '.'
  {
    if piece != "" && piece[0] == '.' then piece else "." + piece
  }

  /** With the corrected list, `.jpg` and `jpg` both give the entry `.jpg`, and it is
      the entry a `.jpg` reference's extension matches. */
  lemma CorrectedIncludeAcceptsBothForms(w: string)
    requires PlainWord(w)
    ensures IncludeTypesCorrected(Some("." + w)) == ["." + w]
    ensures IncludeTypesCorrected(Some(w)) == ["." + w]
  {
    var s := "." + w;
    assert forall i :: 0 <= i < |s| ==> s[i] !in Whitespace && s[i] != ',' by {
      assert forall i :: 1 <= i < |s| ==> s[i] == w[i - 1];
    }
    IncludeOneCorrected(s);
    assert WithDot(s) == s;
    IncludeOneCorrected(w);
    assert WithDot(w) == s;
  }

  /** The corrected include list of one piece. */
  lemma IncludeOneCorrected(s: string)
    requires s != "" && ',' !in s && forall i :: 0 <= i < |s| ==> s[i] !in Whitespace
    ensures IncludeTypesCorrected(Some(s)) == [WithDot(s)]
  {
    SplitNoSep(s, ',');
    StripPlain(s);
  }

  // ---------------------------------------------------------------------------
  // Examples of the decision

  function Img(src: string): Element {
    Element("img", map["src" := src])
  }

  function Anchor(href: string, rel: string): Element {
    Element("a", map["href" := href, "rel" := rel])
  }

  /** The extension of a reference to `/a.w`, for a lower-case word `w` without dots
      or slashes, is `.w`. */
  lemma RefExtOfWord(u: Url, w: string)
    requires u.path == "/a." + w && LowerWord(w)
    ensures RefExt(u) == "." + w
  {
    ExtOfWord(u.path, w);
    LowerFixed("." + w);
  }

  /** A word of lower-case ASCII letters. */
  predicate LowerWord(w: string) {
    forall j :: 0 <= j < |w| ==> 'a' <= w[j] <= 'z'
  }

  /** The two image references of the examples below. */
  lemma ImageWords()
    ensures "/a.png" == "/a." + "png" && ".png" == "." + "png" && LowerWord("png")
    ensures "/a.jpg" == "/a." + "jpg" && ".jpg" == "." + "jpg" && LowerWord("jpg")
  {
  }

  lemma LowerFixed(s: string)
    requires forall j :: 0 <= j < |s| ==> !('A' <= s[j] <= 'Z')
    ensures Lower(s) == s
  {
    assert forall j :: 0 <= j < |s| ==> Lower(s)[j] == s[j];
  }

  lemma ExtOfWord(p: string, w: string)
    requires p == "/a." + w
    requires forall j :: 0 <= j < |w| ==> w[j] != '.' && w[j] != '/'
    ensures Ext(p) == "." + w
  {
    assert forall j :: 3 <= j < |p| ==> p[j] == w[j - 3];
    assert p[2..] == "." + w;
    RFindAt(p, '.', 2);
    ExtFound(p, 1, 2);
  }

  lemma NofollowToken()
    ensures HasToken("nofollow", "nofollow")
  {
    assert TokenAt("nofollow", "nofollow", 0);
  }

  /** An image reference is queued for download; an anchor marked `nofollow` is
      skipped whatever the follow flag says. */
  lemma ImageQueuedNofollowSkipped(site: string, saveDir: string, follow: bool)
    requires site != ""
    ensures var img := Url("https", site, "/a.png", "");
            Decide("img", "src", Img("/a.png"), img, [], follow, saveDir, {}) ==
              Download(img, ResourcePath(saveDir, "/a.png"))
    ensures Decide("a", "href", Anchor("/b.html", "nofollow"), Url("https", site, "/b.html", ""),
                   [], follow, saveDir, {}) == Skip
  {
    ImageQueued(site, saveDir, follow);
    NofollowSkipped(site, saveDir, follow);
  }

  lemma ImageQueued(site: string, saveDir: string, follow: bool)
    requires site != ""
    ensures var img := Url("https", site, "/a.png", "");
            Decide("img", "src", Img("/a.png"), img, [], follow, saveDir, {}) ==
              Download(img, ResourcePath(saveDir, "/a.png"))
  {
    var el, img := Img("/a.png"), Url("https", site, "/a.png", "");
    assert AttrValue(el, "src") == "/a.png";
    assert !NoFollow("img", el) by {
      assert "rel" !in el.attrs;
    }
    ImageWords();
    RefExtOfWord(img, "png");
    assert !Filtered("img", "src", el, img, []);
  }

  lemma NofollowSkipped(site: string, saveDir: string, follow: bool)
    ensures Decide("a", "href", Anchor("/b.html", "nofollow"), Url("https", site, "/b.html", ""),
                   [], follow, saveDir, {}) == Skip
  {
    var el := Anchor("/b.html", "nofollow");
    assert "rel" in el.attrs && el.attrs["rel"] == "nofollow";
    NofollowToken();
    assert NoFollow("a", el);
  }

  /** With the include list `[".jpg"]`, a `.jpg` image is queued and a `.png` image
      is skipped. */
  lemma IncludeFilterSelects(site: string, saveDir: string, follow: bool)
    requires site != ""
    ensures var jpg := Url("https", site, "/a.jpg", "");
            Decide("img", "src", Img("/a.jpg"), jpg, [".jpg"], follow, saveDir, {}) ==
              Download(jpg, ResourcePath(saveDir, "/a.jpg"))
    ensures Decide("img", "src", Img("/a.png"), Url("https", site, "/a.png", ""),
                   [".jpg"], follow, saveDir, {}) == Skip
  {
    IncludeKeepsJpg(site, saveDir, follow);
    IncludeDropsPng(site, saveDir, follow);
  }

  lemma IncludeKeepsJpg(site: string, saveDir: string, follow: bool)
    requires site != ""
    ensures var jpg := Url("https", site, "/a.jpg", "");
            Decide("img", "src", Img("/a.jpg"), jpg, [".jpg"], follow, saveDir, {}) ==
              Download(jpg, ResourcePath(saveDir, "/a.jpg"))
  {
    JpgNotFiltered(site);
    ImageWords();
    RefExtOfWord(Url("https", site, "/a.jpg", ""), "jpg");
    assert ".jpg" in ResourceTypes;
  }

  lemma JpgNotFiltered(site: string)
    ensures !Filtered("img", "src", Img("/a.jpg"), Url("https", site, "/a.jpg", ""), [".jpg"])
  {
    var el, u := Img("/a.jpg"), Url("https", site, "/a.jpg", "");
    ImageWords();
    RefExtOfWord(u, "jpg");
    assert "rel" !in el.attrs;
    assert AttrValue(el, "src") == "/a.jpg";
  }

  lemma IncludeDropsPng(site: string, saveDir: string, follow: bool)
    requires site != ""
    ensures Decide("img", "src", Img("/a.png"), Url("https", site, "/a.png", ""),
                   [".jpg"], follow, saveDir, {}) == Skip
  {
    ImageWords();
    RefExtOfWord(Url("https", site, "/a.png", ""), "png");
    assert ".png" !in [".jpg"];
  }
}
