/** `HtsSource`: a local file (`HtsPath`) or a remote one (`HtsUrl`), its file name,
    base name and suffix tests, the sibling lookup, and the conversion of the objects
    a pipeline passes in (`toHtsSource`, `findHtsSource`). */
module Sources {
  import opened Wrappers
  import opened JavaStrings

  /** A `java.nio.file.Path` of the default (Unix) file system: rooted or not, and its
      name elements. */
  datatype PathValue = PathValue(absolute: bool, names: seq<string>)

  /** A `java.net.URL`: its text (`toString`) and its path component (`getPath`). */
  datatype Url = Url(text: string, path: string)

  /** `HtsPath` or `HtsUrl`. */
  datatype Source = Local(file: PathValue) | Remote(url: Url)

  /** The fields of a split that are not empty. */
  function NonEmpty(fields: seq<string>): (r: seq<string>)
    ensures forall k :: 0 <= k < |r| ==> r[k] != "" && r[k] in fields
    ensures (forall k :: 0 <= k < |fields| ==> fields[k] != "") ==> r == fields
  {
    if fields == [] then []
    else if fields[0] == "" then NonEmpty(fields[1..])
    else [fields[0]] + NonEmpty(fields[1..])
  }

  /** The empty path, `Paths.get("")`: relative, with one empty name. */
  const EMPTY_PATH := PathValue(false, [""])

  /** `Paths.get(s)`: the empty path has one empty name; otherwise the names are the
      non-empty runs between slashes. */
  function ParsePath(s: string): (p: PathValue)
    ensures forall k :: 0 <= k < |p.names| ==> '/' !in p.names[k]
  {
    if s == "" then EMPTY_PATH
    else PathValue(s[0] == '/', NonEmpty(SplitOn(s, '/')))
  }

  function Join(names: seq<string>): string {
    if names == [] then ""
    else if |names| == 1 then names[0]
    else names[0] + "/" + Join(names[1..])
  }

  /** `Path.toString()`. */
  function PathString(p: PathValue): string {
    (if p.absolute then "/" else "") + Join(p.names)
  }

  /** A path as `toString` writes it: at least one name, none empty, none with a slash or
      a NUL (which no `Path` holds). */
  predicate Normal(p: PathValue) {
    p.names != [] && forall k :: 0 <= k < |p.names| ==> p.names[k] != "" && '/' !in p.names[k] && '\0' !in p.names[k]
  }

  /** A character that is not '/' and in none of the names is not in their joined text. */
  lemma {:induction false} JoinAvoids(names: seq<string>, c: char)
    requires c != '/' && forall k :: 0 <= k < |names| ==> c !in names[k]
    ensures c !in Join(names)
  {
    if |names| > 1 {
      var tail := names[1..];
      assert forall k :: 0 <= k < |tail| ==> tail[k] == names[k + 1];
      JoinAvoids(tail, c);
      assert Join(names) == names[0] + "/" + Join(tail);
    }
  }

  lemma {:induction false} SplitJoin(names: seq<string>)
    requires names != [] && forall k :: 0 <= k < |names| ==> '/' !in names[k]
    ensures SplitOn(Join(names), '/') == names
  {
    if |names| > 1 {
      var tail := names[1..];
      assert forall k :: 0 <= k < |tail| ==> tail[k] == names[k + 1];
      SplitJoin(tail);
      SplitOnPrefix(names[0], Join(tail), '/');
      assert names == [names[0]] + tail;
    }
  }

  /** A joined path starts with the first character of its first name. */
  lemma JoinHead(names: seq<string>)
    requires names != [] && names[0] != ""
    ensures Join(names) != "" && Join(names)[0] == names[0][0]
  {
    if |names| > 1 {
      assert Join(names) == names[0] + ("/" + Join(names[1..]));
    }
  }

  /** The names of a rooted path read back from its text. */
  lemma ParseRooted(j: string, names: seq<string>)
    requires j != "" && SplitOn(j, '/') == names
    requires forall k :: 0 <= k < |names| ==> names[k] != ""
    ensures ParsePath("/" + j) == PathValue(true, names)
  {
    var s := "/" + j;
    assert s == [] + ['/'] + j;
    SplitOnPrefix([], j, '/');
    assert ([""] + names)[1..] == names;
  }

  /** Reading back what `toString` wrote gives the same path. */
  lemma ParsePathString(p: PathValue)
    requires Normal(p)
    ensures ParsePath(PathString(p)) == p
  {
    var j := Join(p.names);
    JoinHead(p.names);
    SplitJoin(p.names);
    assert p.names[0][0] in p.names[0];
    if p.absolute {
      ParseRooted(j, p.names);
    } else {
      assert PathString(p) == j;
    }
  }

  /** `getPath()`: the text of the path or the URL. */
  function PathOf(src: Source): string {
    match src
    case Local(p) => PathString(p)
    case Remote(u) => u.text
  }

  /** `getFilename()`: the last name of a path (the empty string for the root, on which
      the source throws), the text after the last '/' of a URL's path. */
  function Filename(src: Source): (f: string)
    ensures src.Local? && src.file.names != [] ==> f == src.file.names[|src.file.names| - 1]
    ensures src.Remote? ==> EndsWith(src.url.path, f) && '/' !in f
  {
    match src
    case Local(p) => if p.names == [] then "" else p.names[|p.names| - 1]
    case Remote(u) =>
      var i := LastIndexOf(u.path, '/');
      if i >= 0 then u.path[i + 1..] else u.path
  }

  /** `getBasename()`: the file name up to its last '.', or "" when it has none. */
  function Basename(src: Source): (b: string)
    ensures var f := Filename(src);
            && ('.' !in f ==> b == "")
            && ('.' in f ==> StartsWith(f, b + ".") && '.' !in f[|b| + 1..])
  {
    var f := Filename(src);
    var i := LastIndexOf(f, '.');
    if i == -1 then ""
    else
      assert f[..i + 1] == f[..i] + ".";
      f[..i]
  }

  /** `hasSuffix(String)`. */
  predicate HasSuffix(src: Source, suffix: string) {
    EndsWith(Filename(src), suffix)
  }

  /** `hasSuffix(Collection)`. */
  predicate HasAnySuffix(src: Source, suffixes: seq<string>) {
    exists k :: 0 <= k < |suffixes| && HasSuffix(src, suffixes[k])
  }

  // htsjdk `FileExtensions`
  const FASTA: seq<string> :=
    [".fasta", ".fasta.gz", ".fas", ".fas.gz", ".fa", ".fa.gz", ".fna", ".fna.gz", ".txt", ".txt.gz"]
  const VCF_LIST: seq<string> := [".vcf", ".vcf.gz", ".bcf"]
  const BAM := ".bam"
  const CRAM := ".cram"
  const SAM := ".sam"
  const FASTA_INDEX := ".fai"
  const DICT := ".dict"
  const INTERVAL_LIST := ".interval_list"
  const COMPRESSED_INTERVAL_LIST := ".interval_list.gz"

  predicate IsFasta(src: Source) { HasAnySuffix(src, FASTA) }
  /** `isVcf`: the VCF suffixes, and the `.vcf.bgz` of gnomAD. */
  predicate IsVcf(src: Source) { HasAnySuffix(src, VCF_LIST) || HasSuffix(src, ".vcf.bgz") }
  predicate IsBam(src: Source) { HasSuffix(src, BAM) }
  predicate IsCram(src: Source) { HasSuffix(src, CRAM) }
  predicate IsSam(src: Source) { HasSuffix(src, SAM) }
  predicate IsBamCramSam(src: Source) { IsBam(src) || IsCram(src) || IsSam(src) }
  predicate IsFai(src: Source) { HasSuffix(src, FASTA_INDEX) }
  predicate IsDict(src: Source) { HasSuffix(src, DICT) }
  predicate IsIntervalList(src: Source) {
    HasSuffix(src, INTERVAL_LIST) || HasSuffix(src, COMPRESSED_INTERVAL_LIST)
  }

  /** `Path.resolve(fn)` of the Unix file system: an absolute `fn` replaces the path, an
      empty one leaves it, the empty path gives `fn` itself, and any other `fn` is appended
      to the names. */
  function ResolvePath(p: PathValue, fn: string): PathValue {
    var q := ParsePath(fn);
    if q.absolute then q
    else if fn == "" then p
    else if p == EMPTY_PATH then q
    else PathValue(p.absolute, p.names + q.names)
  }

  /** `resolveSibling(fn)`: `HtsPath` resolves `fn` against the file itself; `HtsUrl`
      resolves it as a URI reference, which `resolveUrl` stands for (an
      `IllegalArgumentException` when the result is not a URL). */
  function ResolveSibling(src: Source, fn: string, resolveUrl: (Url, string) -> Result<Url>): Result<Source> {
    match src
    case Local(p) => Success(Local(ResolvePath(p, fn)))
    case Remote(u) =>
      match resolveUrl(u, fn)
      case Success(v) => Success(Remote(v))
      case Failure(_) => Failure(Error(IllegalArgument, fn))
  }

  /** For a local file, the "sibling" named by a plain file name lies inside the file
      itself, as a child: its parent is the file and its name is `fn`. Only the empty path
      gives `fn` alone. */
  lemma SiblingIsChild(p: PathValue, fn: string, resolveUrl: (Url, string) -> Result<Url>)
    requires fn != "" && '/' !in fn
    ensures var r := ResolveSibling(Local(p), fn, resolveUrl);
            && r.Success? && r.value.Local?
            && (p != EMPTY_PATH ==> r.value.file == PathValue(p.absolute, p.names + [fn]))
            && (p == EMPTY_PATH ==> r.value.file == PathValue(false, [fn]))
            && Filename(r.value) == fn
  {
    assert SplitOn(fn, '/') == [fn];
    assert [fn][1..] == [];
    assert NonEmpty([fn]) == [fn];
  }

  /** So the dictionary next to `/data/ref.fa` is looked up as `/data/ref.fa/ref.dict`. */
  lemma DictSiblingOfFasta(resolveUrl: (Url, string) -> Result<Url>)
    ensures ResolveSibling(Local(PathValue(true, ["data", "ref.fa"])), "ref.dict", resolveUrl)
         == Success(Local(PathValue(true, ["data", "ref.fa", "ref.dict"])))
    ensures Basename(Local(PathValue(true, ["data", "ref.fa"]))) == "ref"
  {
    var fn := "ref.dict";
    assert forall k :: 0 <= k < |fn| ==> fn[k] != '/';
    SiblingIsChild(PathValue(true, ["data", "ref.fa"]), fn, resolveUrl);
    assert ["data", "ref.fa"] + [fn] == ["data", "ref.fa", "ref.dict"];
    var f := Filename(Local(PathValue(true, ["data", "ref.fa"])));
    assert f == "ref.fa";
    assert f[3] == '.' && f[4] != '.' && f[5] != '.';
    assert LastIndexOf(f, '.') == 3;
    assert f[..3] == "ref";
  }

  /** `Path.getParent()`: the names but the last; the root for a single name under it;
      none for a single relative name or the root. */
  function Parent(p: PathValue): (q: Option<PathValue>)
    ensures q.Some? ==> p.names != [] && q.value.absolute == p.absolute
                        && q.value.names + [p.names[|p.names| - 1]] == p.names
  {
    if |p.names| >= 2 then Some(PathValue(p.absolute, p.names[..|p.names| - 1]))
    else if |p.names| == 1 && p.absolute then Some(PathValue(true, []))
    else None
  }

  /** `Path.resolveSibling(fn)`, the lookup beside the file that `resolveSibling` is named
      after: `fn` resolved against the parent, or `fn` itself when there is none. A URL is
      resolved as before. */
  function ResolveSiblingIntended(src: Source, fn: string, resolveUrl: (Url, string) -> Result<Url>): Result<Source> {
    match src
    case Local(p) =>
      (match Parent(p)
       case None => Success(Local(ParsePath(fn)))
       case Some(q) => Success(Local(ResolvePath(q, fn))))
    case Remote(_) => ResolveSibling(src, fn, resolveUrl)
  }

  /** A URL is resolved the same way as written and as intended. */
  lemma SiblingOfUrlUnchanged(u: Url, fn: string, resolveUrl: (Url, string) -> Result<Url>)
    ensures ResolveSiblingIntended(Remote(u), fn, resolveUrl) == ResolveSibling(Remote(u), fn, resolveUrl)
  {
  }

  /** Resolved as intended, a plain file name replaces the last name of the path: the result
      lies in the same directory as the file. */
  lemma SiblingIsSibling(p: PathValue, fn: string, resolveUrl: (Url, string) -> Result<Url>)
    requires fn != "" && '/' !in fn && Parent(p).Some? && p.names[0] != ""
    ensures var r := ResolveSiblingIntended(Local(p), fn, resolveUrl);
            && r.Success? && r.value.Local?
            && r.value.file == PathValue(p.absolute, p.names[..|p.names| - 1] + [fn])
            && Filename(r.value) == fn
            && Parent(r.value.file) == Parent(p)
  {
    assert SplitOn(fn, '/') == [fn];
    assert [fn][1..] == [];
    assert NonEmpty([fn]) == [fn];
    assert ParsePath(fn) == PathValue(false, [fn]);
    var front := p.names[..|p.names| - 1];
    var q := Parent(p).value;
    assert q == PathValue(p.absolute, front);
    assert q != EMPTY_PATH by {
      assert p.names[0] != "";
      if front != [] { assert front[0] == p.names[0]; }
    }
    assert ResolvePath(q, fn) == PathValue(p.absolute, front + [fn]);
    assert (front + [fn])[..|front + [fn]| - 1] == front;
  }

  /** So, as intended, the dictionary next to `/data/ref.fa` is `/data/ref.dict`. */
  lemma DictBesideFasta(resolveUrl: (Url, string) -> Result<Url>)
    ensures ResolveSiblingIntended(Local(PathValue(true, ["data", "ref.fa"])), "ref.dict", resolveUrl)
         == Success(Local(PathValue(true, ["data", "ref.dict"])))
  {
    var fn := "ref.dict";
    assert forall k :: 0 <= k < |fn| ==> fn[k] != '/';
    SiblingIsSibling(PathValue(true, ["data", "ref.fa"]), fn, resolveUrl);
    assert ["data", "ref.fa"][..1] + [fn] == ["data", "ref.dict"];
  }

  /** The objects `toHtsSource` is handed. */
  datatype InputValue =
    | NullInput
    | UrlInput(url: Url)
    | StringInput(s: string)
    | FileInput(filePath: string)  // a `java.io.File`, by its path
    | PathInput(path: PathValue)
    | OtherInput

  /** `Paths.get(s)` and `File.toPath()`: a NUL in the text is an `InvalidPathException`, an
      `IllegalArgumentException`. */
  function PathOfText(s: string): (r: Result<PathValue>)
    ensures r.Failure? <==> '\0' in s
    ensures r.Failure? ==> r.error == Error(IllegalArgument, s)
    ensures r.Success? ==> r.value == ParsePath(s)
  {
    if '\0' in s then Failure(Error(IllegalArgument, s)) else Success(ParsePath(s))
  }

  /** `toHtsSource(o)`: a URL or a string that `IOUtil.isUrl` accepts becomes an `HtsUrl`
      (`newUrl` is the `URL` constructor), a string, file or path an `HtsPath`; `null`
      and any other object give no source. */
  function ToHtsSource(input: InputValue, isUrl: string -> bool, newUrl: string -> Option<Url>)
    : (r: Result<Option<Source>>)
    ensures r.Success? && r.value.None? <==> input.NullInput? || input.OtherInput?
    ensures r.Failure?
        <==> || (input.StringInput? && isUrl(input.s) && newUrl(input.s).None?)
             || (input.StringInput? && !isUrl(input.s) && '\0' in input.s)
             || (input.FileInput? && '\0' in input.filePath)
    ensures r.Failure? ==> r.error.kind == IllegalArgument
    ensures r.Success? && r.value.Some? && r.value.value.Remote?
            <==> input.UrlInput? || (input.StringInput? && isUrl(input.s) && newUrl(input.s).Some?)
    ensures input.UrlInput? ==> r == Success(Some(Remote(input.url)))
    ensures input.StringInput? && isUrl(input.s) && newUrl(input.s).Some?
            ==> r == Success(Some(Remote(newUrl(input.s).value)))
    ensures input.StringInput? && !isUrl(input.s) && '\0' !in input.s
            ==> r == Success(Some(Local(ParsePath(input.s))))
    ensures input.FileInput? && '\0' !in input.filePath
            ==> r == Success(Some(Local(ParsePath(input.filePath))))
    ensures input.PathInput? ==> r == Success(Some(Local(input.path)))
  {
    match input
    case NullInput => Success(None)
    case UrlInput(u) => Success(Some(Remote(u)))
    case StringInput(s) =>
      if isUrl(s) then
        match newUrl(s)
        case Some(u) => Success(Some(Remote(u)))
        case None => Failure(Error(IllegalArgument, s))
      else LocalSource(PathOfText(s))
    case FileInput(s) => LocalSource(PathOfText(s))
    case PathInput(p) => Success(Some(Local(p)))
    case OtherInput => Success(None)
  }

  function LocalSource(r: Result<PathValue>): Result<Option<Source>> {
    match r
    case Failure(e) => Failure(e)
    case Success(p) => Success(Some(Local(p)))
  }

  /** The text of a path, handed in as a string that is not a URL or as a file, gives back
      the same source as the path itself. */
  lemma PathTextRoundTrip(p: PathValue, isUrl: string -> bool, newUrl: string -> Option<Url>)
    requires Normal(p) && !isUrl(PathString(p))
    ensures ToHtsSource(StringInput(PathString(p)), isUrl, newUrl) == Success(Some(Local(p)))
    ensures ToHtsSource(FileInput(PathString(p)), isUrl, newUrl) == ToHtsSource(PathInput(p), isUrl, newUrl)
  {
    ParsePathString(p);
    JoinAvoids(p.names, '\0');
  }

  /** A URL's file name is the text after the last '/' of its path, or the whole path
      when it has none. */
  lemma FilenameOfUrl(u: Url)
    ensures Filename(Remote(u)) == u.path[LastIndexOf(u.path, '/') + 1..]
  {
  }

  /** So the file name of `dir/name` is `name`. */
  lemma UrlFilename(text: string, dir: string, name: string)
    requires '/' !in name
    ensures Filename(Remote(Url(text, dir + "/" + name))) == name
  {
    var path := dir + "/" + name;
    FilenameOfUrl(Url(text, path));
    assert path[|dir|] == '/';
    assert path[|dir| + 1..] == name;
  }

  /** `findHtsSource(o, accept)`: the source of `o` when there is one and `accept` takes
      it; `IllegalArgumentException` otherwise. */
  function FindHtsSource(input: InputValue, accept: Source -> bool, isUrl: string -> bool,
                         newUrl: string -> Option<Url>): Result<Source>
  {
    if input.NullInput? then Failure(Error(IllegalArgument, "source cannot be null"))
    else
      match ToHtsSource(input, isUrl, newUrl)
      case Failure(e) => Failure(e)
      case Success(None) => Failure(Error(IllegalArgument, "cannot convert to HTS file"))
      case Success(Some(src)) =>
        if accept(src) then Success(src)
        else Failure(Error(IllegalArgument, "no valid suffixes"))
  }

  /** `findHtsSource` succeeds exactly with the source `toHtsSource` builds, when `accept`
      takes it; every failure is an `IllegalArgumentException`. */
  lemma FindHtsSourceSpec(input: InputValue, accept: Source -> bool, isUrl: string -> bool,
                          newUrl: string -> Option<Url>)
    ensures var r := FindHtsSource(input, accept, isUrl, newUrl);
            var t := ToHtsSource(input, isUrl, newUrl);
            && (r.Success? <==> t.Success? && t.value.Some? && accept(t.value.value))
            && (r.Success? ==> r.value == t.value.value)
            && (r.Failure? ==> r.error.kind == IllegalArgument)
  {
  }
}
