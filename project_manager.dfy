/** The project manager `project_manager.py`: the sanitisers of names and paths, the
    classification of files by extension and size, and the project directory with its
    metadata files, as far as creation, update and the two listings go.

    The projects directory is a `ProjectStore` object whose `entries` map each directory
    entry to a project folder (its `metadata.json` and its files) or to a plain file.
    `os.listdir` and `os.walk` orders are parameters or the stored order. */
module Projects {
  import opened Wrappers
  import opened Strings
  import Sorting
  import App

  // ---------------------------------------------------------------- names

  /** `[\w\-]` on ASCII: letters, digits, `_` and `-`. */
  predicate WordOrDash(c: char) {
    IsAsciiAlnum(c) || c == '_' || c == '-'
  }

  function ScrubChar(c: char): char {
    if WordOrDash(c) then c else '_'
  }

  /** `re.sub(r'[^\w\-]', '_', name)`: one replacement per offending character. */
  function Scrub(name: string): (r: string)
    ensures |r| == |name|
    ensures forall i :: 0 <= i < |r| ==> r[i] == ScrubChar(name[i])
  {
    if name == [] then [] else [ScrubChar(name[0])] + Scrub(name[1..])
  }

  const MaxNameLength: nat := 50

  /** `_clean_name`: every character outside `[\w\-]` becomes `_`, one for one, and the
      result is cut to 50 characters. */
  function CleanName(name: string): (r: string)
    ensures |r| == if |name| < MaxNameLength then |name| else MaxNameLength
    ensures forall i :: 0 <= i < |r| ==> r[i] == (if WordOrDash(name[i]) then name[i] else '_')
    ensures forall i :: 0 <= i < |r| ==> WordOrDash(r[i])
  {
    var s := Scrub(name);
    if |s| <= MaxNameLength then s else s[..MaxNameLength]
  }

  /** Cleaning a clean name changes nothing. */
  lemma CleanNameIdempotent(name: string)
    ensures CleanName(CleanName(name)) == CleanName(name)
  {
    var r := CleanName(name);
    var r2 := CleanName(r);
    assert |r2| == |r|;
    forall i | 0 <= i < |r| ensures r2[i] == r[i] {
      assert WordOrDash(r[i]);
    }
  }

  /** The id `create_project` gives a project: the cleaned name, `_` and the creation
      time in whole seconds. It holds no path separator and no dot. */
  function ProjectId(name: string, timestamp: int): (id: string)
    ensures StartsWith(id, CleanName(name))
    ensures |id| > |CleanName(name)| && id[|CleanName(name)|] == '_'
    ensures forall i :: 0 <= i < |id| ==> WordOrDash(id[i])
    ensures id[|CleanName(name)| + 1..] == IntToString(timestamp)
    ensures timestamp >= 0 ==> id[|CleanName(name)| + 1..] == NatToString(timestamp)
                               && DigitsValue(NatToString(timestamp)) == timestamp
  {
    var c := CleanName(name);
    var t := IntToString(timestamp);
    IdParts(c, t);
    NatToStringValue(if timestamp >= 0 then timestamp else 0);
    c + "_" + t
  }

  /** The parts of `c_t` for a cleaned name `c` and a rendered number `t`. */
  lemma IdParts(c: string, t: string)
    requires forall i :: 0 <= i < |c| ==> WordOrDash(c[i])
    requires forall i :: 0 <= i < |t| ==> IsAsciiDigit(t[i]) || t[i] == '-'
    ensures var id := c + "_" + t;
            && StartsWith(id, c) && id[|c|] == '_' && id[|c| + 1..] == t
            && forall i :: 0 <= i < |id| ==> WordOrDash(id[i])
  {
    var id := c + "_" + t;
    assert forall i :: |c| < i < |id| ==> id[i] == t[i - |c| - 1];
  }

  // ---------------------------------------------------------------- paths

  /** `posixpath.normpath` keeps one leading slash, or two exactly when the path starts
      with `//` but not `///`. */
  function InitialSlashes(path: string): (n: nat)
    ensures n <= 2
    ensures n == 0 <==> !StartsWith(path, "/")
  {
    if StartsWith(path, "//") && !StartsWith(path, "///") then 2
    else if StartsWith(path, "/") then 1
    else 0
  }

  /** The segments normpath has kept so far: none empty or `.`; `..` only at the front,
      and not at all under a leading slash. */
  predicate Collapsed(comps: seq<string>, rooted: bool) {
    && (forall k :: 0 <= k < |comps| ==> comps[k] != "" && comps[k] != ".")
    && (rooted ==> forall k :: 0 <= k < |comps| ==> comps[k] != "..")
    && (forall a, b :: 0 <= a < b < |comps| && comps[b] == ".." ==> comps[a] == "..")
  }

  /** One segment of normpath's loop: skip `''` and `.`, let `..` cancel the last real
      segment, and keep any other segment. */
  function Step(acc: seq<string>, comp: string, rooted: bool): (r: seq<string>)
    requires Collapsed(acc, rooted)
    ensures Collapsed(r, rooted)
    ensures forall k :: 0 <= k < |r| ==> r[k] in acc || r[k] == comp
  {
    if comp == "" || comp == "." then acc
    else if comp != ".." || (!rooted && acc == []) || (acc != [] && acc[|acc| - 1] == "..") then
      acc + [comp]
    else if acc != [] then acc[..|acc| - 1]
    else acc
  }

  /** normpath's loop over all segments. */
  function Collapse(comps: seq<string>, rooted: bool): (r: seq<string>)
    ensures Collapsed(r, rooted)
    ensures forall k :: 0 <= k < |r| ==> r[k] in comps
    decreases |comps|
  {
    if comps == [] then []
    else
      var prefix := comps[..|comps| - 1];
      var acc := Collapse(prefix, rooted);
      var r := Step(acc, comps[|comps| - 1], rooted);
      assert forall k :: 0 <= k < |r| ==> r[k] in comps by {
        forall k | 0 <= k < |r| ensures r[k] in comps {
          if r[k] in acc {
            assert r[k] in prefix;
          }
        }
      }
      r
  }

  /** Segments that are already normalised come back unchanged. */
  lemma {:induction false} CollapseKeepsCollapsed(comps: seq<string>, rooted: bool)
    requires Collapsed(comps, rooted)
    ensures Collapse(comps, rooted) == comps
    decreases |comps|
  {
    if comps != [] {
      var prefix := comps[..|comps| - 1];
      assert Collapsed(prefix, rooted);
      CollapseKeepsCollapsed(prefix, rooted);
      assert comps == prefix + [comps[|comps| - 1]];
    }
  }

  /** A segment other than `''`, `.` and `..` followed by `..` cancels: `a/x/..` is `a`. */
  lemma CollapseCancels(a: seq<string>, x: string, rooted: bool)
    requires x != "" && x != "." && x != ".."
    ensures Collapse(a + [x, ".."], rooted) == Collapse(a, rooted)
  {
    assert (a + [x, ".."])[..|a| + 1] == a + [x];
    assert (a + [x])[..|a|] == a;
  }

  function Slashes(n: nat): (r: string)
    ensures |r| == n && forall k :: 0 <= k < n ==> r[k] == '/'
  {
    if n == 0 then "" else "/" + Slashes(n - 1)
  }

  /** `posixpath.normpath`. */
  function NormPath(path: string): (r: string)
    ensures r != []
  {
    if path == "" then "."
    else
      var n := InitialSlashes(path);
      var p := Slashes(n) + Join(Collapse(Split(path, '/'), n > 0), "/");
      if p == "" then "." else p
  }

  /** `_clean_path`: normpath, then one leading `/` removed. */
  function CleanPath(path: string): (r: string)
    ensures NormPath(path) == r || NormPath(path) == "/" + r
    ensures r != [] && r[0] == '/' ==> StartsWith(NormPath(path), "//")
  {
    var p := NormPath(path);
    if p[0] == '/' then p[1..] else p
  }

  /** Segments of the split path contain no separator, nor do the ones kept. */
  lemma CollapsedHaveNoSlash(path: string, rooted: bool)
    ensures var c := Collapse(Split(path, '/'), rooted);
            forall k :: 0 <= k < |c| ==> '/' !in c[k]
  {
    var parts := Split(path, '/');
    var c := Collapse(parts, rooted);
    forall k | 0 <= k < |c| ensures '/' !in c[k] {
      var j :| 0 <= j < |parts| && parts[j] == c[k];
    }
  }

  /** The first character of a join is that of the first part, when it is non-empty. */
  lemma JoinHead(parts: seq<string>, sep: string)
    requires parts != [] && parts[0] != ""
    ensures Join(parts, sep) != [] && Join(parts, sep)[0] == parts[0][0]
  {
  }

  /** Without exactly two leading slashes, the cleaned path is relative: segments are
      never empty, so the normalised path has at most one leading slash, which goes. */
  lemma CleanPathRelative(path: string)
    requires !StartsWith(path, "//") || StartsWith(path, "///")
    ensures CleanPath(path) == [] || CleanPath(path)[0] != '/'
  {
    if path != "" {
      var n := InitialSlashes(path);
      var c := Collapse(Split(path, '/'), n > 0);
      var body := Join(c, "/");
      if c != [] {
        JoinHead(c, "/");
        CollapsedHaveNoSlash(path, n > 0);
        assert c[0][0] in c[0];
      }
      var p := Slashes(n) + body;
      if n == 1 && p != "" {
        assert p[1..] == body;
      }
    }
  }

  /** A plain segment: what normpath keeps as it is. */
  predicate PlainSegment(name: string) {
    name != "" && name != "." && name != ".." && '/' !in name
  }

  lemma SplitDoubleSlash(name: string)
    requires PlainSegment(name)
    ensures Split("//" + name, '/') == ["", "", name]
  {
    var path := "//" + name;
    var tail := "/" + name;
    assert path[0] == '/';
    FirstIndexIs(path, '/', 0);
    assert path[1..] == tail;
    FirstIndexIs(tail, '/', 0);
    assert tail[1..] == name;
    assert Split(tail, '/') == ["", name];
  }

  lemma CollapseDoubleSlash(name: string)
    requires PlainSegment(name)
    ensures Collapse(["", "", name], true) == [name]
  {
    var parts: seq<string> := ["", "", name];
    assert parts[..2] == ["", ""] && parts[..2][..1] == [""] && parts[..2][..1][..0] == [];
    assert Collapse([""], true) == [];
    assert Collapse(["", ""], true) == [];
  }

  /** As written, a path with exactly two leading slashes stays absolute: `//etc`
      cleans to `/etc`. */
  lemma CleanPathKeepsRoot(name: string)
    requires PlainSegment(name)
    ensures CleanPath("//" + name) == "/" + name
  {
    var path := "//" + name;
    NormPathDoubleSlash(name);
    assert path[1..] == "/" + name;
  }

  lemma NormPathDoubleSlash(name: string)
    requires PlainSegment(name)
    ensures NormPath("//" + name) == "//" + name
  {
    var path := "//" + name;
    SplitDoubleSlash(name);
    CollapseDoubleSlash(name);
    DoubleSlashCount(name);
    assert Slashes(2) == "//" by {
      assert Slashes(1) == "/";
    }
    assert Join([name], "/") == name;
  }

  lemma DoubleSlashCount(name: string)
    requires PlainSegment(name)
    ensures InitialSlashes("//" + name) == 2
  {
    var path := "//" + name;
    assert name[0] in name;
    assert path[..2] == "//" && path[..3] == "//" + [name[0]];
  }

  /** As written, leading `..` segments survive: `../x` cleans to itself. */
  lemma CleanPathKeepsParent(name: string)
    requires PlainSegment(name)
    ensures CleanPath("../" + name) == "../" + name
  {
    var path := "../" + name;
    assert path[0] == '.' && path[1] == '.' && path[2] == '/';
    assert '/' !in path[..2] by { assert path[..2] == ".."; }
    FirstIndexIs(path, '/', 2);
    assert path[..2] == ".." && path[3..] == name;
    assert Split(path, '/') == ["..", name];
    var parts: seq<string> := ["..", name];
    assert parts[..1] == [".."] && parts[..1][..0] == [];
    assert Collapse([".."], false) == [".."];
    assert Collapse(parts, false) == ["..", name];
    assert InitialSlashes(path) == 0;
    assert Join(parts, "/") == path;
    assert NormPath(path) == path;
  }

  /** `..` only occurs at the front of collapsed segments, so dropping the leading ones
      removes them all. */
  function DropParents(comps: seq<string>, rooted: bool): (r: seq<string>)
    requires Collapsed(comps, rooted)
    ensures Collapsed(r, true)
    ensures |r| <= |comps| && r == comps[|comps| - |r|..]
  {
    if comps != [] && comps[0] == ".." then DropParents(comps[1..], rooted) else comps
  }

  /** The path `_clean_path` evidently intends: normalised, relative, and without any
      `..` segment, so that joining it to a project folder stays inside it. */
  function SafePath(path: string): (r: string)
    ensures r != [] && r[0] != '/'
    ensures forall k :: 0 <= k < |Split(r, '/')| ==> Split(r, '/')[k] != ".."
  {
    var rooted := InitialSlashes(path) > 0;
    var whole := Collapse(Split(path, '/'), rooted);
    var c := DropParents(whole, rooted);
    if c == [] then "."
    else
      CollapsedHaveNoSlash(path, rooted);
      SafeJoin(whole, rooted);
      Join(c, "/")
  }

  /** No kept segment holds a separator, so none of those left after the `..` ones do. */
  lemma DropParentsNoSlash(comps: seq<string>, rooted: bool)
    requires Collapsed(comps, rooted)
    requires forall k :: 0 <= k < |comps| ==> '/' !in comps[k]
    ensures var c := DropParents(comps, rooted);
            forall k :: 0 <= k < |c| ==> '/' !in c[k]
  {
    var c := DropParents(comps, rooted);
    var d := |comps| - |c|;
    forall k | 0 <= k < |c| ensures '/' !in c[k] {
      assert c[k] == comps[d + k];
      assert '/' !in comps[d + k];
    }
  }

  /** Joining the segments left after the `..` ones gives a relative path whose
      segments are those, none of them `..`. */
  lemma SafeJoin(comps: seq<string>, rooted: bool)
    requires Collapsed(comps, rooted)
    requires forall k :: 0 <= k < |comps| ==> '/' !in comps[k]
    requires DropParents(comps, rooted) != []
    ensures var r := Join(DropParents(comps, rooted), "/");
            && r != [] && r[0] != '/'
            && forall k :: 0 <= k < |Split(r, '/')| ==> Split(r, '/')[k] != ".."
  {
    var c := DropParents(comps, rooted);
    DropParentsNoSlash(comps, rooted);
    SplitJoin(c, '/');
    JoinHead(c, "/");
    assert c[0][0] in c[0];
  }

  /** Where the written code is already safe (no `..` kept, not two leading slashes),
      the intended path is what it returns. */
  lemma SafePathAgrees(path: string)
    requires path != ""
    requires !StartsWith(path, "//") || StartsWith(path, "///")
    requires ".." !in Collapse(Split(path, '/'), InitialSlashes(path) > 0)
    requires Collapse(Split(path, '/'), InitialSlashes(path) > 0) != []
    ensures SafePath(path) == CleanPath(path)
  {
    var rooted := InitialSlashes(path) > 0;
    var c := Collapse(Split(path, '/'), rooted);
    assert c[0] != "..";
    assert DropParents(c, rooted) == c;
    CleanPathOfSegments(path);
  }

  /** Without exactly two leading slashes and with some segment kept, the cleaned path
      is the kept segments joined. */
  lemma CleanPathOfSegments(path: string)
    requires path != ""
    requires !StartsWith(path, "//") || StartsWith(path, "///")
    requires Collapse(Split(path, '/'), InitialSlashes(path) > 0) != []
    ensures CleanPath(path) == Join(Collapse(Split(path, '/'), InitialSlashes(path) > 0), "/")
  {
    var n := InitialSlashes(path);
    var c := Collapse(Split(path, '/'), n > 0);
    var body := Join(c, "/");
    JoinHead(c, "/");
    CollapsedHaveNoSlash(path, n > 0);
    assert c[0][0] in c[0];
    var p := Slashes(n) + body;
    assert NormPath(path) == p;
    if n == 1 {
      assert p[1..] == body;
    } else {
      assert p == body;
    }
  }

  // ---------------------------------------------------------------- file types and sizes

  const CodeExtensions: seq<string> :=
    [".py", ".js", ".html", ".css", ".java", ".cpp", ".c", ".h", ".sh", ".ts", ".jsx", ".tsx", ".php"]
  const MarkdownExtensions: seq<string> := [".md", ".markdown"]
  const TextExtensions: seq<string> :=
    [".txt", ".rst", ".log", ".ini", ".csv", ".json", ".yml", ".yaml", ".xml"]
  const ImageExtensions: seq<string> := [".jpg", ".jpeg", ".png", ".gif", ".bmp", ".svg", ".webp"]
  const DocumentExtensions: seq<string> := [".pdf", ".doc", ".docx", ".xls", ".xlsx", ".ppt", ".pptx", ".odt"]

  /** `_get_file_type`: total, with `text` for every extension not listed. The lists are
      disjoint, so each listed extension gets its own list's category. */
  function FileType(extension: string): (t: string)
    ensures extension in CodeExtensions ==> t == "code"
    ensures extension in MarkdownExtensions ==> t == "markdown"
    ensures extension in ImageExtensions ==> t == "image"
    ensures extension in DocumentExtensions ==> t == "document"
    ensures t == "text" <==> extension !in CodeExtensions + MarkdownExtensions + ImageExtensions + DocumentExtensions
    ensures t in {"code", "markdown", "text", "image", "document"}
  {
    if extension in CodeExtensions then "code"
    else if extension in MarkdownExtensions then "markdown"
    else if extension in TextExtensions then "text"
    else if extension in ImageExtensions then "image"
    else if extension in DocumentExtensions then "document"
    else "text"
  }

  /** The index of the last `c` in `s`. */
  function LastIndex(s: string, c: char): (i: Option<nat>)
    ensures i.Some? ==> i.value < |s| && s[i.value] == c && c !in s[i.value + 1..]
    ensures i.None? ==> c !in s
  {
    if s == [] then None
    else if s[|s| - 1] == c then Some(|s| - 1)
    else
      var r := LastIndex(s[..|s| - 1], c);
      assert s == s[..|s| - 1] + [s[|s| - 1]];
      r
  }

  /** `os.path.splitext(filename)[1]` of a file name without separator: from the last
      dot on, unless only dots precede it (`.bashrc` has no extension). */
  function Extension(filename: string): (e: string)
    ensures e == [] || (e[0] == '.' && '.' !in e[1..] && EndsWith(filename, e))
    ensures e != [] ==> exists k :: 0 <= k < |filename| - |e| && filename[k] != '.'
  {
    match LastIndex(filename, '.')
    case None => ""
    case Some(d) =>
      if exists k :: 0 <= k < d && filename[k] != '.' then filename[d..] else ""
  }

  /** The extension is exactly the text from the last dot on when something other
      than a dot precedes that dot, and empty when only dots do. */
  lemma ExtensionAtLastDot(filename: string, d: nat)
    requires d < |filename| && filename[d] == '.' && '.' !in filename[d + 1..]
    ensures (exists k :: 0 <= k < d && filename[k] != '.') ==> Extension(filename) == filename[d..]
    ensures (forall k :: 0 <= k < d ==> filename[k] == '.') ==> Extension(filename) == ""
  {
    assert filename[d] in filename;
  }

  datatype SizeUnit = B | KB | MB | GB

  const Kibi: nat := 1024

  /** The unit `_format_size` chooses. */
  function UnitOf(size: nat): (u: SizeUnit)
    ensures u == B <==> size < Kibi
    ensures u == KB <==> Kibi <= size < Kibi * Kibi
    ensures u == MB <==> Kibi * Kibi <= size < Kibi * Kibi * Kibi
    ensures u == GB <==> Kibi * Kibi * Kibi <= size
  {
    if size < Kibi then B
    else if size < Kibi * Kibi then KB
    else if size < Kibi * Kibi * Kibi then MB
    else GB
  }

  function UnitRank(u: SizeUnit): nat {
    match u
    case B => 0
    case KB => 1
    case MB => 2
    case GB => 3
  }

  /** A larger size never gets a smaller unit. */
  lemma UnitMonotone(a: nat, b: nat)
    requires a <= b
    ensures UnitRank(UnitOf(a)) <= UnitRank(UnitOf(b))
  {
  }

  /** The byte count as `_format_size` prints it below 1 KiB; larger sizes are printed
      with one decimal, which this model does not render. */
  function ByteLabel(size: nat): (s: string)
    requires size < Kibi
    ensures EndsWith(s, " B") && |s| >= 3
    ensures forall k :: 0 <= k < |s| - 2 ==> IsAsciiDigit(s[k])
    ensures DigitsValue(s[..|s| - 2]) == size
  {
    NatToStringValue(size);
    var s := NatToString(size) + " B";
    assert s[..|s| - 2] == NatToString(size);
    s
  }

  // ---------------------------------------------------------------- metadata

  type Metadata = map<string, App.Json>

  /** `update_project` copies only these keys of the update. */
  const AllowedFields: seq<string> := ["name", "description", "github_repo"]

  /** The metadata after `update_project` copied the allowed keys of `update`: those
      come from the update, every other key is the old one. */
  function Merged(meta: Metadata, update: Metadata): (m: Metadata)
    ensures forall k :: k in m <==> k in meta || (k in AllowedFields && k in update)
    ensures forall k :: k in m ==> m[k] == (if k in AllowedFields && k in update then update[k] else meta[k])
  {
    map k | k in meta.Keys + (update.Keys * set f | f in AllowedFields) ::
      if k in AllowedFields && k in update then update[k] else meta[k]
  }

  /** Keys outside the allow-list make no difference. */
  lemma MergedIgnoresOtherKeys(meta: Metadata, update: Metadata, key: string, v: App.Json)
    requires key !in AllowedFields
    ensures Merged(meta, update[key := v]) == Merged(meta, update)
  {
    var m1 := Merged(meta, update[key := v]);
    var m2 := Merged(meta, update);
    assert m1.Keys == m2.Keys;
  }

  /** Applying the same update twice is applying it once. */
  lemma MergedIdempotent(meta: Metadata, update: Metadata)
    ensures Merged(Merged(meta, update), update) == Merged(meta, update)
  {
    var m1 := Merged(meta, update);
    var m2 := Merged(m1, update);
    assert m1.Keys == m2.Keys;
  }

  /** `metadata.json` of a project folder: absent, unreadable, or a JSON object. */
  datatype MetaFile = NoMetadata | Unreadable | Parsed(fields: Metadata)

  /** A file under a project folder: its path relative to the folder, its base name and
      its size in bytes. */
  datatype StoredFile = StoredFile(path: string, name: string, size: nat)

  /** An entry of the projects directory. */
  datatype Entry = Folder(meta: MetaFile, files: seq<StoredFile>) | PlainFile

  /** `os.path.join(projects_dir, project_id)`. */
  function ProjectPath(root: string, id: string): string {
    root + "/" + id
  }

  /** The metadata `create_project` writes. */
  function NewMetadata(name: string, description: string, now: string): (m: Metadata)
    ensures m.Keys == {"name", "description", "created_at", "updated_at", "github_repo"}
    ensures m["created_at"] == m["updated_at"] == App.JStr(now)
  {
    map["name" := App.JStr(name), "description" := App.JStr(description), "created_at" := App.JStr(now),
        "updated_at" := App.JStr(now), "github_repo" := App.JNull]
  }

  /** The metadata returned to callers: what is stored plus `id` and `path`. */
  function WithLocation(m: Metadata, root: string, id: string): (r: Metadata)
    ensures r.Keys == m.Keys + {"id", "path"}
    ensures r["id"] == App.JStr(id)
  {
    m["id" := App.JStr(id)]["path" := App.JStr(ProjectPath(root, id))]
  }

  /** What `get_projects` makes of one directory entry: nothing for a plain file, a
      folder without readable metadata, or metadata lacking `name` or `created_at`;
      otherwise the metadata with its location and an `updated_at` defaulting to
      `created_at`. */
  function Load(root: string, id: string, e: Entry): (r: Option<Metadata>)
    ensures r.Some? <==> e.Folder? && e.meta.Parsed? && "name" in e.meta.fields && "created_at" in e.meta.fields
    ensures r.Some? ==> {"name", "created_at", "updated_at", "id", "path"} <= r.value.Keys
    ensures r.Some? ==> r.value["id"] == App.JStr(id)
    ensures r.Some? ==> (r.value["updated_at"] ==
              if "updated_at" in e.meta.fields then e.meta.fields["updated_at"] else e.meta.fields["created_at"])
  {
    if e.Folder? && e.meta.Parsed? && "name" in e.meta.fields && "created_at" in e.meta.fields then
      var m := WithLocation(e.meta.fields, root, id);
      Some(if "updated_at" in m then m else m["updated_at" := m["created_at"]])
    else None
  }

  /** The projects loaded from the entries named by `listing`, in listing order. */
  function Loaded(root: string, entries: map<string, Entry>, listing: seq<string>): (ps: seq<Metadata>)
    ensures |ps| <= |listing|
    ensures forall k :: 0 <= k < |ps| ==> {"name", "created_at", "updated_at", "id", "path"} <= ps[k].Keys
  {
    if listing == [] then []
    else
      var id := listing[|listing| - 1];
      var rest := Loaded(root, entries, listing[..|listing| - 1]);
      if id in entries && Load(root, id, entries[id]).Some? then rest + [Load(root, id, entries[id]).value]
      else rest
  }

  /** A project is listed iff some entry of the listing loads to it. */
  lemma {:induction false} LoadedMembers(root: string, entries: map<string, Entry>, listing: seq<string>, p: Metadata)
    ensures p in Loaded(root, entries, listing) <==>
            exists k :: 0 <= k < |listing| && listing[k] in entries && Load(root, listing[k], entries[listing[k]]) == Some(p)
    decreases |listing|
  {
    if listing != [] {
      var init := listing[..|listing| - 1];
      LoadedMembers(root, entries, init, p);
      assert forall k :: 0 <= k < |init| ==> init[k] == listing[k];
    }
  }

  /** `x.get('updated_at', '')` is a value Python can order: a string, or a boolean,
      integer or float (these compare with each other as numbers). */
  predicate Orderable(m: Metadata) {
    "updated_at" !in m || m["updated_at"].JStr? || m["updated_at"].JBool? || m["updated_at"].JInt?
    || m["updated_at"].JFloat?
  }

  /** `x.get('updated_at', '')` as a sort key: strings as strings, numbers by value. A
      value that is not orderable never reaches a comparison (see `SortsWithoutError`). */
  function UpdatedKey(m: Metadata): (k: Sorting.Key)
    ensures "updated_at" !in m ==> k == Sorting.Str("")
    ensures "updated_at" in m && m["updated_at"].JStr? ==> k == Sorting.Str(m["updated_at"].s)
    ensures "updated_at" in m && m["updated_at"].JInt? ==> k == Sorting.Num(m["updated_at"].i as real)
    ensures "updated_at" in m && m["updated_at"].JFloat? ==> k == Sorting.Num(m["updated_at"].r)
    ensures k.Num? <==> Orderable(m) && "updated_at" in m && !m["updated_at"].JStr?
  {
    if "updated_at" !in m then Sorting.Str("")
    else
      match m["updated_at"]
      case JStr(s) => Sorting.Str(s)
      case JInt(i) => Sorting.Num(i as real)
      case JFloat(r) => Sorting.Num(r)
      case JBool(b) => Sorting.Num(if b then 1.0 else 0.0)
      case _ => Sorting.Str("")
  }

  /** `list.sort` compares every element with another as soon as there are two, so it
      finishes only when all keys are orderable and of one kind (all strings or all
      numbers); otherwise it raises `TypeError`. */
  predicate SortsWithoutError(projects: seq<Metadata>) {
    |projects| <= 1
    || ((forall k :: 0 <= k < |projects| ==> Orderable(projects[k]))
        && ((forall k :: 0 <= k < |projects| ==> UpdatedKey(projects[k]).Str?)
            || (forall k :: 0 <= k < |projects| ==> UpdatedKey(projects[k]).Num?)))
  }

  /** One entry of `get_project_files`. */
  datatype FileRecord = FileRecord(name: string, path: string, fileType: string, extension: string,
                                   size: nat, unit: SizeUnit)

  predicate Listed(f: StoredFile) {
    !StartsWith(f.name, ".") && f.name != "metadata.json"
  }

  function RecordOf(f: StoredFile): (r: FileRecord)
    ensures r.name == f.name && r.path == f.path && r.size == f.size
    ensures r.fileType == FileType(r.extension) && r.unit == UnitOf(f.size)
  {
    var ext := Lower(Extension(f.name));
    FileRecord(f.name, f.path, FileType(ext), ext, f.size, UnitOf(f.size))
  }

  /** The records of the listed files, in walk order. */
  function Records(files: seq<StoredFile>): (rs: seq<FileRecord>)
    ensures |rs| <= |files|
    ensures forall k :: 0 <= k < |rs| ==> !StartsWith(rs[k].name, ".") && rs[k].name != "metadata.json"
  {
    if files == [] then []
    else
      var f := files[|files| - 1];
      var rest := Records(files[..|files| - 1]);
      if Listed(f) then rest + [RecordOf(f)] else rest
  }

  /** A file is reported iff it is not hidden and not the metadata file. */
  lemma {:induction false} RecordsMembers(files: seq<StoredFile>, f: StoredFile)
    ensures RecordOf(f) in Records(files) <== f in files && Listed(f)
    ensures forall r :: r in Records(files) ==> exists g :: g in files && Listed(g) && r == RecordOf(g)
    decreases |files|
  {
    if files != [] {
      var prefix := files[..|files| - 1];
      assert files == prefix + [files[|files| - 1]];
      RecordsMembers(prefix, f);
    }
  }

  function NameKey(r: FileRecord): Sorting.Key {
    Sorting.Str(r.name)
  }

  /** The projects directory. */
  class ProjectStore {
    const root: string
    var entries: map<string, Entry>

    constructor(root: string, entries: map<string, Entry>)
      ensures this.root == root && this.entries == entries
    {
      this.root := root;
      this.entries := entries;
    }

    /** `_project_exists`: the entry is a directory. */
    predicate Exists(id: string)
      reads this
    {
      id in entries && entries[id].Folder?
    }

    /** `create_project`: refuses an id that already names an entry, else creates the
        folder with fresh metadata. */
    method CreateProject(name: string, description: string, timestamp: int, now: string)
      returns (created: Option<Metadata>)
      modifies this
      ensures var id := ProjectId(name, timestamp);
              && (id in old(entries) ==> created.None? && entries == old(entries))
              && (id !in old(entries) ==>
                    && entries == old(entries)[id := Folder(Parsed(NewMetadata(name, description, now)), [])]
                    && created == Some(WithLocation(NewMetadata(name, description, now), root, id)))
    {
      var id := ProjectId(name, timestamp);
      if id in entries {
        return None;
      }
      var metadata := NewMetadata(name, description, now);
      entries := entries[id := Folder(Parsed(metadata), [])];
      created := Some(WithLocation(metadata, root, id));
    }

    /** `update_project`: copies the allowed keys of `update` into the stored metadata,
        refreshes `updated_at`, and leaves every other project alone. A missing project
        or unreadable metadata gives `None` and changes nothing. */
    method UpdateProject(id: string, update: Metadata, now: string) returns (updated: Option<Metadata>)
      modifies this
      ensures updated.None? <==> !old(Exists(id)) || !old(entries)[id].meta.Parsed?
      ensures updated.None? ==> entries == old(entries)
      ensures updated.Some? ==>
                var stored := Merged(old(entries)[id].meta.fields, update)["updated_at" := App.JStr(now)];
                && entries == old(entries)[id := Folder(Parsed(stored), old(entries)[id].files)]
                && updated == Some(WithLocation(stored, root, id))
    {
      if !Exists(id) || !entries[id].meta.Parsed? {
        return None;
      }
      var metadata := entries[id].meta.fields;
      ghost var original := metadata;
      for k := 0 to |AllowedFields|
        invariant forall key :: key in metadata <==> key in original || (key in AllowedFields[..k] && key in update)
        invariant forall key :: key in metadata ==>
                    metadata[key] == (if key in AllowedFields[..k] && key in update then update[key] else original[key])
      {
        var field := AllowedFields[k];
        if field in update {
          metadata := metadata[field := update[field]];
        }
      }
      assert AllowedFields[..|AllowedFields|] == AllowedFields;
      assert metadata == Merged(original, update);
      metadata := metadata["updated_at" := App.JStr(now)];
      entries := entries[id := Folder(Parsed(metadata), entries[id].files)];
      updated := Some(WithLocation(metadata, root, id));
    }

    /** `get_projects`: the loadable projects of `listing` (the order `os.listdir`
        gives), most recently updated first. */
    method GetProjects(listing: seq<string>) returns (result: Result<seq<Metadata>, string>)
      ensures result.Ok? <==> SortsWithoutError(Loaded(root, entries, listing))
      ensures result.Err? ==> result.error == "TypeError"
      ensures result.Ok? ==> result.value == Sorting.SortBy(Loaded(root, entries, listing), UpdatedKey, true)
      ensures result.Ok? ==> Sorting.SortedBy(result.value, UpdatedKey, true)
      ensures result.Ok? ==> forall p :: p in result.value <==> p in Loaded(root, entries, listing)
      ensures result.Ok? ==> forall k :: 0 <= k < |result.value| ==>
                {"name", "created_at", "updated_at", "id", "path"} <= result.value[k].Keys
    {
      var projects := [];
      for i := 0 to |listing|
        invariant projects == Loaded(root, entries, listing[..i])
      {
        var id := listing[i];
        assert listing[..i + 1][..i] == listing[..i];
        if id in entries {
          var loaded := Load(root, id, entries[id]);
          if loaded.Some? {
            projects := projects + [loaded.value];
          }
        }
      }
      assert listing[..|listing|] == listing;
      if !SortsWithoutError(projects) {
        return Err("TypeError");
      }
      var unsorted := projects;
      projects := Sorting.SortBy(projects, UpdatedKey, true);
      forall k | 0 <= k < |projects| ensures {"name", "created_at", "updated_at", "id", "path"} <= projects[k].Keys {
        assert projects[k] in multiset(unsorted);
      }
      forall p ensures p in projects <==> p in unsorted {
        assert p in projects <==> p in multiset(projects);
        assert p in unsorted <==> p in multiset(unsorted);
      }
      result := Ok(projects);
    }

    /** `get_project_files`: the non-hidden files other than `metadata.json`, sorted
        by name; nothing for a missing project. */
    method GetProjectFiles(id: string) returns (files: seq<FileRecord>)
      ensures !Exists(id) ==> files == []
      ensures Exists(id) ==> files == Sorting.SortBy(Records(entries[id].files), NameKey, false)
      ensures Sorting.SortedBy(files, NameKey, false)
    {
      if !Exists(id) {
        return [];
      }
      var stored := entries[id].files;
      files := [];
      for i := 0 to |stored|
        invariant files == Records(stored[..i])
      {
        var f := stored[i];
        assert stored[..i + 1][..i] == stored[..i];
        if !StartsWith(f.name, ".") && f.name != "metadata.json" {
          files := files + [RecordOf(f)];
        }
      }
      assert stored[..|stored|] == stored;
      files := Sorting.SortBy(files, NameKey, false);
    }
  }
}
