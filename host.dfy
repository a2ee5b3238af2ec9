/** What the scanners take from their environment, as data: the files
    on disk, and the regex engine, MD5 and `ast.parse` as functions the
    model does not look inside. */
module Host {
  import opened Common
  import opened Strings
  import opened Lines

  /** `match.start()` and `match.end()` of one regex match. */
  datatype Span = Span(start: nat, end: nat)

  /** What `finditer` promises: matches lie inside the text, in order,
      and do not overlap. */
  predicate WellFormedSpans(spans: seq<Span>, content: string) {
    (forall k :: 0 <= k < |spans| ==> spans[k].start <= spans[k].end <= |content|)
    && (forall k :: 0 < k < |spans| ==> spans[k - 1].end <= spans[k].start)
  }

  /** Every match lies inside the text. */
  predicate InBounds(spans: seq<Span>, content: string) {
    forall k :: 0 <= k < |spans| ==> spans[k].start <= spans[k].end <= |content|
  }

  /** Later matches of a pattern never start before earlier ones. */
  lemma {:induction false} SpanStartsAscending(spans: seq<Span>, content: string, a: nat, b: nat)
    requires WellFormedSpans(spans, content) && a <= b < |spans|
    ensures spans[a].start <= spans[b].start
    decreases b - a
  {
    if a < b {
      SpanStartsAscending(spans, content, a, b - 1);
      assert spans[b - 1].start <= spans[b - 1].end <= spans[b].start;
    }
  }

  /** A pattern as `re` sees it: its source and the flags it was compiled with. */
  datatype Regex = Regex(source: string, ignoreCase: bool, multiline: bool)

  /** The nodes `ast.walk` visits: string constants, with their line
      range, and everything else. */
  datatype AstNode = StrNode(lineno: nat, endLineno: nat) | OtherNode

  /** `ast.parse(content)`: the nodes in walk order, or a syntax error. */
  datatype ParseOutcome = SyntaxError | Parsed(nodes: seq<AstNode>)

  /** The foreign functions the scan uses: `re.finditer`, the hex digest
      of `hashlib.md5` over a byte stream, and `ast.parse`. */
  datatype Environment = Environment(
    finditer: (Regex, string) -> seq<Span>,
    md5: seq<bv8> -> string,
    parse: string -> ParseOutcome)
  {
    ghost predicate Valid() {
      forall r, content :: WellFormedSpans(finditer(r, content), content)
    }
  }

  /** A file as the scanners see it. Each field is None where the Python
      call that produces it raises: `stat()` (size), `open(.., "rb")`
      (bytes), `open(.., 'r', encoding='utf-8').read()` before newline
      translation (decoded), `magic.from_file` (magic). */
  datatype FileRecord = FileRecord(
    path: string,
    size: Option<nat>,
    bytes: Option<seq<bv8>>,
    decoded: Option<string>,
    magic: Option<string>)
  {
    /** What a text-mode read returns: universal newlines turn "\r\n"
        and '\r' into '\n'. */
    function Content(): Option<string>
      requires decoded.Some?
    {
      Some(TranslateNewlines(decoded.value))
    }
  }

  /** `Path(path).name`: the last component of a '/'-separated path. */
  function Name(path: string): (r: string)
    ensures EndsWith(path, r)
    ensures forall k :: 0 <= k < |r| ==> r[k] != '/'
    decreases |path|
  {
    if path == [] || path[|path| - 1] == '/' then []
    else Name(path[..|path| - 1]) + [path[|path| - 1]]
  }

  /** The name is the whole last component: either the path has no '/'
      at all, or a '/' stands right before the name. */
  lemma {:induction false} NameIsLastComponent(path: string)
    ensures Name(path) == path || path[|path| - |Name(path)| - 1] == '/'
    decreases |path|
  {
    if path != [] && path[|path| - 1] != '/' {
      var init := path[..|path| - 1];
      NameIsLastComponent(init);
      assert init + [path[|path| - 1]] == path;
      if Name(init) != init {
        assert path[|path| - |Name(path)| - 1] == init[|init| - |Name(init)| - 1];
      }
    }
  }

  /** The index of the last `c` in `s` (Python's `s.rfind(c)`), None for -1. */
  function RFind(s: string, c: char): (r: Option<nat>)
    ensures r.Some? ==> (r.value < |s| && s[r.value] == c && forall k :: r.value < k < |s| ==> s[k] != c)
    ensures r.None? ==> forall k :: 0 <= k < |s| ==> s[k] != c
    decreases |s|
  {
    if s == [] then None
    else if s[|s| - 1] == c then Some(|s| - 1)
    else RFind(s[..|s| - 1], c)
  }

  /** `Path(path).suffix`: from the last '.' of the name, when that dot
      is neither the first nor the last character of the name. */
  function Suffix(path: string): (r: string)
    ensures r == [] || (|r| >= 2 && r[0] == '.' && EndsWith(Name(path), r) && |r| < |Name(path)|)
    ensures forall k :: 0 < k < |r| ==> r[k] != '.'
  {
    var name := Name(path);
    match RFind(name, '.')
    case Some(i) =>
      if 0 < i < |name| - 1 then name[i..] else []
    case None => []
  }

  /** A name made of a non-empty stem and an extension ".x" with no
      further dot has that extension as its suffix. */
  lemma SuffixOfExtension(dir: string, stem: string, ext: string)
    requires stem != [] && forall k :: 0 <= k < |stem| ==> stem[k] != '/'
    requires |ext| >= 2 && ext[0] == '.' && forall k :: 0 < k < |ext| ==> ext[k] != '.' && ext[k] != '/'
    ensures Suffix(dir + "/" + stem + ext) == ext
  {
    var name := stem + ext;
    var path := dir + "/" + name;
    assert dir + "/" + stem + ext == path;
    NoSlashConcat(stem, ext);
    NameAfterSlash(dir, name);
    LastDotOfExtension(stem, ext);
    SuffixAtDot(path, |stem|);
    assert name[|stem|..] == ext;
  }

  lemma SuffixAtDot(path: string, i: nat)
    requires RFind(Name(path), '.') == Some(i) && 0 < i < |Name(path)| - 1
    ensures Suffix(path) == Name(path)[i..]
  {
  }

  lemma NoSlashConcat(a: string, b: string)
    requires forall k :: 0 <= k < |a| ==> a[k] != '/'
    requires forall k :: 0 <= k < |b| ==> b[k] != '/'
    ensures forall k :: 0 <= k < |a + b| ==> (a + b)[k] != '/'
  {
    forall k | 0 <= k < |a + b| ensures (a + b)[k] != '/' {
      if k >= |a| {
        assert (a + b)[k] == b[k - |a|];
      }
    }
  }

  lemma LastDotOfExtension(stem: string, ext: string)
    requires |ext| >= 1 && ext[0] == '.' && forall k :: 0 < k < |ext| ==> ext[k] != '.'
    ensures RFind(stem + ext, '.') == Some(|stem|)
  {
    var name := stem + ext;
    assert name[|stem|] == '.';
    forall k | |stem| < k < |name| ensures name[k] != '.' {
      assert name[k] == ext[k - |stem|];
    }
    var i := RFind(name, '.');
    assert i.Some?;
  }

  /** The name of `dir/name` is `name` when `name` holds no '/'. */
  lemma {:induction false} NameAfterSlash(dir: string, name: string)
    requires forall k :: 0 <= k < |name| ==> name[k] != '/'
    ensures Name(dir + "/" + name) == name
    decreases |name|
  {
    var path := dir + "/" + name;
    if name == [] {
      assert path[|path| - 1] == '/';
    } else {
      var init := name[..|name| - 1];
      assert path[..|path| - 1] == dir + "/" + init;
      NameAfterSlash(dir, init);
      assert init + [name[|name| - 1]] == name;
    }
  }

  /** `directory.rglob(f"*{ext}")`: the entries of the directory tree,
      in walk order, whose name ends with `ext`. */
  function Rglob(tree: seq<FileRecord>, ext: string): (r: seq<FileRecord>)
    ensures |r| <= |tree|
    decreases |tree|
  {
    if tree == [] then []
    else
      var f := tree[|tree| - 1];
      Rglob(tree[..|tree| - 1], ext) + (if EndsWith(Name(f.path), ext) then [f] else [])
  }

  /** `rglob` yields exactly the entries whose name ends with `ext`. */
  lemma {:induction false} RglobMembers(tree: seq<FileRecord>, ext: string, f: FileRecord)
    ensures f in Rglob(tree, ext) <==> f in tree && EndsWith(Name(f.path), ext)
    decreases |tree|
  {
    if tree != [] {
      var init, last := tree[..|tree| - 1], tree[|tree| - 1];
      RglobMembers(init, ext, f);
      assert tree == init + [last];
    }
  }

  /** The `rglob` result of each extension, in extension order. */
  function RglobEach(tree: seq<FileRecord>, extensions: seq<string>): (r: seq<seq<FileRecord>>)
    ensures |r| == |extensions|
    decreases |extensions|
  {
    if extensions == [] then []
    else RglobEach(tree, extensions[..|extensions| - 1]) + [Rglob(tree, extensions[|extensions| - 1])]
  }

  /** The `k`-th part is the `rglob` result of the `k`-th extension. */
  lemma {:induction false} RglobEachAt(tree: seq<FileRecord>, extensions: seq<string>, k: nat)
    requires k < |extensions|
    ensures RglobEach(tree, extensions)[k] == Rglob(tree, extensions[k])
    decreases |extensions|
  {
    var init := extensions[..|extensions| - 1];
    var last := Rglob(tree, extensions[|extensions| - 1]);
    var parts := RglobEach(tree, init);
    assert RglobEach(tree, extensions) == parts + [last];
    if k < |init| {
      RglobEachAt(tree, init, k);
      assert init[k] == extensions[k];
      assert (parts + [last])[k] == parts[k];
    } else {
      assert (parts + [last])[k] == last;
    }
  }

  /** `files_to_scan` after `for ext in extensions:
      files_to_scan.extend(directory.rglob(f"*{ext}"))`. */
  function CollectFiles(tree: seq<FileRecord>, extensions: seq<string>): seq<FileRecord> {
    Flatten(RglobEach(tree, extensions))
  }

  /** The files collected are exactly the entries whose name ends with
      one of the extensions (an entry matched by two extensions is
      collected twice). */
  lemma CollectFilesMembers(tree: seq<FileRecord>, extensions: seq<string>, f: FileRecord)
    ensures f in CollectFiles(tree, extensions) <==>
      f in tree && exists k :: 0 <= k < |extensions| && EndsWith(Name(f.path), extensions[k])
  {
    var parts := RglobEach(tree, extensions);
    FlattenMembership(parts, f);
    if f in CollectFiles(tree, extensions) {
      var k :| 0 <= k < |parts| && f in parts[k];
      RglobEachAt(tree, extensions, k);
      RglobMembers(tree, extensions[k], f);
    }
    if f in tree && exists k :: 0 <= k < |extensions| && EndsWith(Name(f.path), extensions[k]) {
      var k :| 0 <= k < |extensions| && EndsWith(Name(f.path), extensions[k]);
      RglobEachAt(tree, extensions, k);
      RglobMembers(tree, extensions[k], f);
      assert f in parts[k];
    }
  }

  /** One step of the collection loop. */
  lemma CollectFilesSnoc(tree: seq<FileRecord>, extensions: seq<string>, ext: string)
    ensures CollectFiles(tree, extensions + [ext]) == CollectFiles(tree, extensions) + Rglob(tree, ext)
  {
    var all := extensions + [ext];
    assert all[..|all| - 1] == extensions;
    FlattenSnoc(RglobEach(tree, extensions), Rglob(tree, ext));
  }

  /** The collection loop both `scan_directory` methods run before scanning
      (scanner_core.py:201-203, scan_engine.py:127-129). */
  method CollectFilesToScan(tree: seq<FileRecord>, exts: seq<string>) returns (files: seq<FileRecord>)
    ensures files == CollectFiles(tree, exts)
  {
    files := [];
    var e := 0;
    while e < |exts|
      invariant e <= |exts|
      invariant files == CollectFiles(tree, exts[..e])
    {
      CollectFilesSnoc(tree, exts[..e], exts[e]);
      assert exts[..e + 1] == exts[..e] + [exts[e]];
      files := files + Rglob(tree, exts[e]);
      e := e + 1;
    }
    assert exts[..e] == exts;
  }
}
