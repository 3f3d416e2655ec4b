/**
 * TextureLoader of the Blender 2.8 importer: the cache key of a texture
 * source, the texture cache DICT_TEXTURES, the `imageNNN.dds` name
 * generator for embedded textures and the search for an external image
 * file.
 *
 * The host is a value of type Host: the NIF file's path, the path
 * separator, Blender's texture-directory preference, the working
 * directory, `bpy.path.resolve_ncase` as a function, and the set of paths
 * whose image data Blender loads. The file system is the set `files` of
 * existing paths, a field of the loader because writing an embedded
 * texture creates a file.
 */
module TextureLoader {
  import opened Wrappers
  import opened PyStr
  import TextureSearch

  /** A key of DICT_TEXTURES: a block's `get_hash()` or a lowercased path. */
  datatype TextureKey = BlockHash(hash: int) | PathKey(path: string)

  /** What `import_texture_source` is handed. */
  datatype Source =
    | NullSource                          // an unlinked block, None
    | PathSource(path: string)            // a str
    | SourceTexture(useExternal: bool, fileName: string, hash: int, ddsSaves: bool)
      // an NiSourceTexture; `ddsSaves` is whether save_as_dds accepts its pixel format
    | OtherSource(truthy: bool)           // a value of any other type, with its truth value

  /**
   * Python truth value of the source: None, the empty string and the
   * false values of other types (`0`, `False`, `b""`, `[]`) are false.
   */
  predicate Falsy(source: Source) {
    || source.NullSource?
    || (source.PathSource? && source.path == [])
    || (source.OtherSource? && !source.truthy)
  }

  datatype Host = Host(
    filepath: string,                 // NifOp.props.filepath
    sep: char,                        // os.sep
    textureDirectory: string,         // Blender's texture directory, "" when unset
    cwd: string,                      // os.getcwd()
    importEmbedded: bool,             // texture.IMPORT_EMBEDDED_TEXTURES
    loadable: set<string>,            // paths whose image data Blender loads
    resolveNcase: string -> string)   // bpy.path.resolve_ncase

  datatype Image =
    | LoadedImage(filepath: string)
    | StubImage(name: string, filepath: string, width: nat, height: nat)

  /** A ShaderNodeTexImage node. */
  datatype TextureNode = TextureNode(image: Image, interpolation: string)

  // ---------------------------------------------------------------------
  // get_texture_hash
  // ---------------------------------------------------------------------

  datatype HashResult = NoKey | Key(key: TextureKey) | HashTypeError

  function TextureHash(source: Source): (r: HashResult)
    ensures r.NoKey? <==> Falsy(source)
    ensures r.HashTypeError? <==> source.OtherSource? && source.truthy
    ensures source.SourceTexture? ==> r == Key(BlockHash(source.hash))
    ensures source.PathSource? && !Falsy(source) ==> r.Key? && r.key.PathKey?
  {
    if Falsy(source) then NoKey
    else match source
      case SourceTexture(_, _, hash, _) => Key(BlockHash(hash))
      case PathSource(p) => Key(PathKey(Lower(p)))
      case _ => HashTypeError
  }

  lemma {:induction false} LowerIdempotent(s: string)
    ensures Lower(Lower(s)) == Lower(s)
  {
    if s != [] {
      LowerIdempotent(s[1..]);
      LowerAppend([s[0]], s[1..]);
      LowerAppend(Lower([s[0]]), Lower(s[1..]));
      assert s == [s[0]] + s[1..];
    }
  }

  /**
   * Two path sources share one cache entry exactly when they are equal
   * up to ASCII case; in particular a path and its lowercase form do.
   */
  lemma PathKeysIgnoreCase(a: string, b: string)
    requires a != [] && b != []
    ensures TextureHash(PathSource(a)) == TextureHash(PathSource(b)) <==> Lower(a) == Lower(b)
    ensures TextureHash(PathSource(Lower(a))) == TextureHash(PathSource(a))
  {
    LowerIdempotent(a);
  }

  // ---------------------------------------------------------------------
  // generate_image_name
  // ---------------------------------------------------------------------

  function ImageName(n: nat): string {
    "image" + Pad3(n) + ".dds"
  }

  /** The path next to the NIF file under which image `n` is written. */
  function ImagePath(h: Host, n: nat): string {
    PathJoin(Dirname(h.filepath, h.sep), ImageName(n), h.sep)
  }

  /** The image paths, as a function of the counter. */
  function ImagePaths(h: Host): nat -> string {
    (n: nat) => ImagePath(h, n)
  }

  /**
   * The counter `generate_image_name` stops at, counting from `n`, where
   * `path(n)` is the path tried for counter `n`.
   */
  function FreeImageIndex(path: nat -> string, files: set<string>, n: nat): (k: nat)
    requires n < 1000
    decreases 1000 - n
  {
    if n >= 999 || path(n) !in files then n else FreeImageIndex(path, files, n + 1)
  }

  lemma {:induction false} FreeImageIndexFrom(path: nat -> string, files: set<string>, n: nat)
    requires n < 1000
    ensures n <= FreeImageIndex(path, files, n) <= 999
    ensures FreeImageIndex(path, files, n) == 999 || path(FreeImageIndex(path, files, n)) !in files
    ensures forall m :: n <= m < FreeImageIndex(path, files, n) ==> path(m) in files
    decreases 1000 - n
  {
    if n < 999 && path(n) in files {
      FreeImageIndexFrom(path, files, n + 1);
    }
  }

  /**
   * The counter chosen is the first of 0..999 whose path does not exist;
   * when all exist it is 999.
   */
  lemma FreeImageIndexIsFirstFree(path: nat -> string, files: set<string>)
    ensures FreeImageIndex(path, files, 0) < 1000
    ensures forall m :: 0 <= m < FreeImageIndex(path, files, 0) ==> path(m) in files
    ensures (exists n :: 0 <= n < 1000 && path(n) !in files) ==>
              path(FreeImageIndex(path, files, 0)) !in files
    ensures (forall n :: 0 <= n < 1000 ==> path(n) in files) ==>
              FreeImageIndex(path, files, 0) == 999
  {
    FreeImageIndexFrom(path, files, 0);
  }

  /** Every generated name has the same length, three digits of counter. */
  lemma ImageNameLength(n: nat)
    requires n < 1000
    ensures |ImageName(n)| == 12
  {
    Pad3Length(n);
  }

  // ---------------------------------------------------------------------
  // import_external_source: names, search paths and candidates
  // ---------------------------------------------------------------------

  /** `s.replace('\\', sep).replace('/', sep)` */
  function NormSeps(s: string, sep: char): (r: string)
    ensures |r| == |s|
    ensures forall i :: 0 <= i < |s| ==> r[i] == if s[i] == '\\' || s[i] == '/' then sep else s[i]
  {
    ReplaceChar(ReplaceChar(s, '\\', sep), '/', sep)
  }

  /** The file name searched for; None is the TypeError of a source of another kind. */
  function ExternalName(source: Source, sep: char): Option<string> {
    match source
    case SourceTexture(_, fileName, _, _) => Some(NormSeps(fileName, sep))
    case PathSource(p) => Some(NormSeps(p, sep))
    case _ => None
  }

  /**
   * The directories searched, in order: the NIF file's directory, the
   * texture directory when set, `cwd/nif`, the Morrowind guess (the part
   * before "meshes" plus "textures") and the Civilization IV guess (the
   * part before "art" plus "shared"), each guess only when its marker
   * occurs, case-insensitively.
   */
  function SearchPaths(h: Host): seq<string> {
    var importPath := Dirname(h.filepath, h.sep);
    SearchPathEntries(importPath, h.textureDirectory, PathJoin(h.cwd, "nif", h.sep),
                   TextureSearch.GuessDir(importPath, "meshes", "textures"),
                   TextureSearch.GuessDir(importPath, "art", "shared"))
  }

  /** The list of search paths from its five possible entries. */
  function SearchPathEntries(importPath: string, textureDirectory: string, nifDir: string,
                          meshes: Option<string>, art: Option<string>): (r: seq<string>)
    ensures var td := if textureDirectory != [] then 1 else 0;
            && |r| == 2 + td + (if meshes.Some? then 1 else 0) + (if art.Some? then 1 else 0)
            && r[0] == importPath
            && (td == 1 ==> r[1] == textureDirectory)
            && r[1 + td] == nifDir
            && (meshes.Some? ==> r[2 + td] == meshes.value)
            && (art.Some? ==> r[|r| - 1] == art.value)
  {
    [importPath]
    + (if textureDirectory != [] then [textureDirectory] else [])
    + [nifDir]
    + OptionToSeq(meshes)
    + OptionToSeq(art)
  }

  function OptionToSeq<T>(o: Option<T>): (r: seq<T>)
    ensures |r| == if o.Some? then 1 else 0
    ensures o.Some? ==> r[0] == o.value
  {
    if o.Some? then [o.value] else []
  }

  const AlternateExtensions: seq<string> :=
    [".DDS", ".dds", ".PNG", ".png", ".TGA", ".tga", ".BMP", ".bmp", ".JPG", ".jpg"]

  /**
   * The set of alternate names: the name without its last four
   * characters, as is and lowercased, with each of the ten extensions.
   */
  function AlternateNames(fn: string): set<string> {
    (set ext | ext in AlternateExtensions :: DropLast(fn, 4) + ext)
    + (set ext | ext in AlternateExtensions :: Lower(DropLast(fn, 4)) + ext)
  }

  /**
   * `order` lists the set `s` once each: the order in which the host's
   * `list(set(...))` yields the alternate names, which Python leaves
   * unspecified.
   */
  ghost predicate Enumerates(order: seq<string>, s: set<string>) {
    && (forall x :: x in order <==> x in s)
    && (forall i, j :: 0 <= i < j < |order| ==> order[i] != order[j])
  }

  /** The file names tried in each directory. */
  function Candidates(fn: string, order: seq<string>): (r: seq<string>)
    ensures |r| == |order| + 2
    ensures r[0] == fn && r[1] == Lower(fn) && r[2..] == order
  {
    [fn, Lower(fn)] + order
  }

  /** The candidate begins with "textures" and the directory ends with it. */
  predicate DuplicatedTextures(texdir: string, texfn: string, sep: char) {
    Lower(Take(texfn, 9)) == "textures" + [sep] && Lower(LastN(texdir, 9)) == [sep] + "textures"
  }

  /** The path tried for candidate `texfn` in directory `texdir`, before case resolution. */
  function CandidatePath(texdir: string, texfn: string, sep: char): string {
    if DuplicatedTextures(texdir, texfn, sep) then PathJoin(DropLast(texdir, 9), texfn, sep)
    else PathJoin(texdir, texfn, sep)
  }

  /**
   * Stripping keeps exactly one "textures" segment: a relative name
   * "textures/rest" in a directory "prefix/textures" is looked up where
   * "rest" would be looked up in that directory.
   */
  lemma StripKeepsOneTexturesSegment(prefix: string, rest: string, sep: char)
    requires sep == '/' || sep == '\\'
    requires prefix != [] && prefix[|prefix| - 1] != sep
    requires !StartsWith(rest, [sep])
    ensures CandidatePath(prefix + [sep] + "textures", "textures" + [sep] + rest, sep)
            == PathJoin(prefix + [sep] + "textures", rest, sep)
  {
    var texdir := prefix + [sep] + "textures";
    var texfn := "textures" + [sep] + rest;
    StripApplies(prefix, rest, sep);
    assert texfn[0] == 't';
    assert !StartsWith(texfn, [sep]);
    assert PathJoin(prefix, texfn, sep) == prefix + [sep] + texfn;
    assert texdir[|texdir| - 1] != sep;
    assert PathJoin(texdir, rest, sep) == texdir + [sep] + rest;
    assert prefix + [sep] + texfn == texdir + [sep] + rest;
  }

  /** The strip applies to "textures/rest" in "prefix/textures", and drops exactly "/textures". */
  lemma StripApplies(prefix: string, rest: string, sep: char)
    requires sep == '/' || sep == '\\'
    ensures DuplicatedTextures(prefix + [sep] + "textures", "textures" + [sep] + rest, sep)
    ensures DropLast(prefix + [sep] + "textures", 9) == prefix
  {
    var texdir := prefix + [sep] + "textures";
    var texfn := "textures" + [sep] + rest;
    TexturesMarkers(sep);
    assert Take(texfn, 9) == "textures" + [sep];
    assert LastN(texdir, 9) == [sep] + "textures";
  }

  /**
   * A directory that is exactly "/textures" loses its only segment: the
   * path tried is the relative name itself.
   */
  lemma StripAtRootIsRelative(rest: string, sep: char)
    requires LowerChar(sep) == sep
    ensures CandidatePath([sep] + "textures", "textures" + [sep] + rest, sep)
            == "textures" + [sep] + rest
  {
    var texfn := "textures" + [sep] + rest;
    TexturesMarkers(sep);
    assert Take(texfn, 9) == "textures" + [sep];
    assert LastN([sep] + "textures", 9) == [sep] + "textures";
    assert DropLast([sep] + "textures", 9) == [];
  }

  /** Lowercasing leaves a string without capitals unchanged. */
  lemma LowerFixed(s: string)
    requires forall i :: 0 <= i < |s| ==> LowerChar(s[i]) == s[i]
    ensures Lower(s) == s
  {
  }

  lemma TexturesMarkers(sep: char)
    requires LowerChar(sep) == sep
    ensures Lower("textures" + [sep]) == "textures" + [sep]
    ensures Lower([sep] + "textures") == [sep] + "textures"
  {
    LowerFixed("textures" + [sep]);
    LowerFixed([sep] + "textures");
  }

  // ---------------------------------------------------------------------
  // import_external_source: the search
  // ---------------------------------------------------------------------

  /** The resolved path of a candidate, when it exists and its image loads. */
  function Probe(texdir: string, texfn: string, files: set<string>, h: Host): Option<string> {
    var tex := h.resolveNcase(CandidatePath(texdir, texfn, h.sep));
    if tex in files && tex in h.loadable then Some(tex) else None
  }

  /** Probe as a function of the directory and the candidate. */
  function ProbeIn(files: set<string>, h: Host): (string, string) -> Option<string> {
    (texdir: string, texfn: string) => Probe(texdir, texfn, files, h)
  }

  /** The first candidate `probe` finds in directory `texdir`. */
  function DirSearch(texdir: string, texfns: seq<string>, probe: (string, string) -> Option<string>): Option<string> {
    if texfns == [] then None
    else if probe(texdir, texfns[0]).Some? then probe(texdir, texfns[0])
    else DirSearch(texdir, texfns[1..], probe)
  }

  /** The first directory, in order and with separators normalised, in which a candidate is found. */
  function PathsSearch(dirs: seq<string>, texfns: seq<string>, sep: char,
                       probe: (string, string) -> Option<string>): Option<string> {
    if dirs == [] then None
    else if DirSearch(NormSeps(dirs[0], sep), texfns, probe).Some? then DirSearch(NormSeps(dirs[0], sep), texfns, probe)
    else PathsSearch(dirs[1..], texfns, sep, probe)
  }

  lemma {:induction false} DirSearchIsFirst(texdir: string, texfns: seq<string>, probe: (string, string) -> Option<string>)
    ensures DirSearch(texdir, texfns, probe).None? <==>
              forall k :: 0 <= k < |texfns| ==> probe(texdir, texfns[k]).None?
    ensures DirSearch(texdir, texfns, probe).Some? ==>
              exists k :: && 0 <= k < |texfns|
                          && DirSearch(texdir, texfns, probe) == probe(texdir, texfns[k])
                          && forall j :: 0 <= j < k ==> probe(texdir, texfns[j]).None?
  {
    if texfns != [] {
      DirSearchIsFirst(texdir, texfns[1..], probe);
      if probe(texdir, texfns[0]).None? {
        assert forall k :: 1 <= k < |texfns| ==> texfns[k] == texfns[1..][k - 1];
        if DirSearch(texdir, texfns, probe).Some? {
          var k :| && 0 <= k < |texfns[1..]|
                   && DirSearch(texdir, texfns[1..], probe) == probe(texdir, texfns[1..][k])
                   && forall j :: 0 <= j < k ==> probe(texdir, texfns[1..][j]).None?;
          assert forall j :: 0 <= j < k + 1 ==> probe(texdir, texfns[j]).None?;
        }
      }
    }
  }

  lemma {:induction false} PathsSearchIsFirst(dirs: seq<string>, texfns: seq<string>, sep: char,
                                              probe: (string, string) -> Option<string>)
    ensures PathsSearch(dirs, texfns, sep, probe).None? <==>
              forall d :: 0 <= d < |dirs| ==> DirSearch(NormSeps(dirs[d], sep), texfns, probe).None?
    ensures PathsSearch(dirs, texfns, sep, probe).Some? ==>
              exists d :: && 0 <= d < |dirs|
                          && PathsSearch(dirs, texfns, sep, probe) == DirSearch(NormSeps(dirs[d], sep), texfns, probe)
                          && forall e :: 0 <= e < d ==> DirSearch(NormSeps(dirs[e], sep), texfns, probe).None?
  {
    if dirs != [] {
      PathsSearchIsFirst(dirs[1..], texfns, sep, probe);
      if DirSearch(NormSeps(dirs[0], sep), texfns, probe).None? {
        assert forall d :: 1 <= d < |dirs| ==> dirs[d] == dirs[1..][d - 1];
        if PathsSearch(dirs, texfns, sep, probe).Some? {
          var d :| && 0 <= d < |dirs[1..]|
                   && PathsSearch(dirs[1..], texfns, sep, probe) == DirSearch(NormSeps(dirs[1..][d], sep), texfns, probe)
                   && forall e :: 0 <= e < d ==> DirSearch(NormSeps(dirs[1..][e], sep), texfns, probe).None?;
          assert forall e :: 0 <= e < d + 1 ==> DirSearch(NormSeps(dirs[e], sep), texfns, probe).None?;
        }
      }
    }
  }

  /** What `import_external_source` returns: the path and the image, or TypeError. */
  datatype External = ExternalTypeError | External(tex: string, image: Option<Image>)

  function ExternalSource(source: Source, files: set<string>, h: Host, order: seq<string>): External {
    match ExternalName(source, h.sep)
    case None => ExternalTypeError
    case Some(fn) => SearchOutcome(SearchPaths(h), Candidates(fn, order), fn, files, h)
  }

  /** The loaded image at the path found, or no image at the name joined to the first directory. */
  function SearchOutcome(dirs: seq<string>, texfns: seq<string>, fn: string, files: set<string>, h: Host): External
    requires |dirs| >= 1
  {
    match PathsSearch(dirs, texfns, h.sep, ProbeIn(files, h))
    case Some(tex) => External(tex, Some(LoadedImage(tex)))
    case None => External(PathJoin(dirs[0], fn, h.sep), None)
  }

  lemma SearchOutcomeSpec(dirs: seq<string>, texfns: seq<string>, fn: string, files: set<string>, h: Host)
    requires |dirs| >= 1
    ensures var r := SearchOutcome(dirs, texfns, fn, files, h);
      && r.External?
      && (r.image.Some? <==>
            exists d, k :: 0 <= d < |dirs| && 0 <= k < |texfns| && Probe(NormSeps(dirs[d], h.sep), texfns[k], files, h).Some?)
      && (r.image.Some? ==> r.image == Some(LoadedImage(r.tex)) && r.tex in files && r.tex in h.loadable)
      && (r.image.None? ==> r.tex == PathJoin(dirs[0], fn, h.sep))
  {
    var probe := ProbeIn(files, h);
    PathsSearchIsFirstPair(dirs, texfns, h.sep, probe);
    assert forall d, k :: 0 <= d < |dirs| && 0 <= k < |texfns| ==>
             probe(NormSeps(dirs[d], h.sep), texfns[k]) == Probe(NormSeps(dirs[d], h.sep), texfns[k], files, h);
    var found := PathsSearch(dirs, texfns, h.sep, probe);
    if found.Some? {
      var d, k :| && 0 <= d < |dirs| && 0 <= k < |texfns|
                  && found == probe(NormSeps(dirs[d], h.sep), texfns[k]);
      assert found == Probe(NormSeps(dirs[d], h.sep), texfns[k], files, h);
    }
  }

  /** Nothing is found exactly when no candidate in any directory yields anything. */
  lemma PathsSearchNoneIff(dirs: seq<string>, texfns: seq<string>, sep: char,
                           probe: (string, string) -> Option<string>)
    ensures PathsSearch(dirs, texfns, sep, probe).None? <==>
              forall d, k :: 0 <= d < |dirs| && 0 <= k < |texfns| ==> probe(NormSeps(dirs[d], sep), texfns[k]).None?
  {
    PathsSearchIsFirst(dirs, texfns, sep, probe);
    forall d | 0 <= d < |dirs|
      ensures DirSearch(NormSeps(dirs[d], sep), texfns, probe).None? <==>
                forall k :: 0 <= k < |texfns| ==> probe(NormSeps(dirs[d], sep), texfns[k]).None?
    {
      DirSearchIsFirst(NormSeps(dirs[d], sep), texfns, probe);
    }
  }

  /** A hit is the first candidate of the first directory that yields anything. */
  lemma PathsSearchSomeFirst(dirs: seq<string>, texfns: seq<string>, sep: char,
                             probe: (string, string) -> Option<string>)
    requires PathsSearch(dirs, texfns, sep, probe).Some?
    ensures exists d, k :: && 0 <= d < |dirs| && 0 <= k < |texfns|
                           && PathsSearch(dirs, texfns, sep, probe) == probe(NormSeps(dirs[d], sep), texfns[k])
                           && (forall e, j :: 0 <= e < d && 0 <= j < |texfns| ==>
                                 probe(NormSeps(dirs[e], sep), texfns[j]).None?)
                           && (forall j :: 0 <= j < k ==> probe(NormSeps(dirs[d], sep), texfns[j]).None?)
  {
    PathsSearchIsFirst(dirs, texfns, sep, probe);
    var d :| && 0 <= d < |dirs|
             && PathsSearch(dirs, texfns, sep, probe) == DirSearch(NormSeps(dirs[d], sep), texfns, probe)
             && forall e :: 0 <= e < d ==> DirSearch(NormSeps(dirs[e], sep), texfns, probe).None?;
    forall e, j | 0 <= e < d && 0 <= j < |texfns|
      ensures probe(NormSeps(dirs[e], sep), texfns[j]).None?
    {
      DirSearchIsFirst(NormSeps(dirs[e], sep), texfns, probe);
    }
    var dir := NormSeps(dirs[d], sep);
    DirSearchIsFirst(dir, texfns, probe);
    var k :| && 0 <= k < |texfns|
             && DirSearch(dir, texfns, probe) == probe(dir, texfns[k])
             && forall j :: 0 <= j < k ==> probe(dir, texfns[j]).None?;
  }

  /**
   * The search order is directory-major: the result is the probe of the
   * first directory that yields anything, at its first candidate that does;
   * it is None exactly when no candidate in any directory yields anything.
   */
  lemma PathsSearchIsFirstPair(dirs: seq<string>, texfns: seq<string>, sep: char,
                               probe: (string, string) -> Option<string>)
    ensures PathsSearch(dirs, texfns, sep, probe).None? <==>
              forall d, k :: 0 <= d < |dirs| && 0 <= k < |texfns| ==> probe(NormSeps(dirs[d], sep), texfns[k]).None?
    ensures PathsSearch(dirs, texfns, sep, probe).Some? ==>
              exists d, k :: && 0 <= d < |dirs| && 0 <= k < |texfns|
                             && PathsSearch(dirs, texfns, sep, probe) == probe(NormSeps(dirs[d], sep), texfns[k])
                             && (forall e, j :: 0 <= e < d && 0 <= j < |texfns| ==>
                                   probe(NormSeps(dirs[e], sep), texfns[j]).None?)
                             && (forall j :: 0 <= j < k ==> probe(NormSeps(dirs[d], sep), texfns[j]).None?)
  {
    PathsSearchNoneIff(dirs, texfns, sep, probe);
    if PathsSearch(dirs, texfns, sep, probe).Some? {
      PathsSearchSomeFirst(dirs, texfns, sep, probe);
    }
  }

  /**
   * The outcome of the external search: an image is returned exactly when
   * some candidate in some directory exists and loads, and it is the one
   * at the returned path; a path that exists but does not load does not
   * end the search; when nothing loads the path is the name joined to the
   * NIF file's directory, with no image.
   */
  lemma ExternalSourceOutcome(source: Source, files: set<string>, h: Host, order: seq<string>)
    ensures ExternalSource(source, files, h, order).ExternalTypeError? <==> ExternalName(source, h.sep).None?
    ensures ExternalSource(source, files, h, order).External? ==>
      var fn := ExternalName(source, h.sep).value;
      var texfns := Candidates(fn, order);
      var dirs := SearchPaths(h);
      var r := ExternalSource(source, files, h, order);
      && (r.image.Some? <==>
            exists d, k :: 0 <= d < |dirs| && 0 <= k < |texfns| && Probe(NormSeps(dirs[d], h.sep), texfns[k], files, h).Some?)
      && (r.image.Some? ==> r.image == Some(LoadedImage(r.tex)) && r.tex in files && r.tex in h.loadable)
      && (r.image.None? ==> r.tex == PathJoin(Dirname(h.filepath, h.sep), fn, h.sep))
  {
    if ExternalName(source, h.sep).Some? {
      var fn := ExternalName(source, h.sep).value;
      SearchOutcomeSpec(SearchPaths(h), Candidates(fn, order), fn, files, h);
    }
  }

  // ---------------------------------------------------------------------
  // import_texture_source
  // ---------------------------------------------------------------------

  /** The image given to the node: the loaded one, or a 1x1 stub named after the file. */
  function ImageOrStub(fn: string, image: Option<Image>, sep: char): (r: Image)
    ensures image.Some? ==> r == image.value
    ensures image.None? ==> r.StubImage? && r.width == 1 && r.height == 1 && r.filepath == fn
                            && r.name == Basename(fn, sep)
  {
    if image.Some? then image.value
    else StubImage(Basename(fn, sep), fn, 1, 1)
  }

  /** The embedded branch is taken for a block with internal pixel data. */
  predicate Embedded(source: Source, h: Host) {
    source.SourceTexture? && !source.useExternal && h.importEmbedded
  }

  /**
   * The alternate-name order supplied for an external source enumerates
   * that source's alternate names.
   */
  ghost predicate OrderFits(source: Source, h: Host, order: seq<string>) {
    ExternalName(source, h.sep).Some? ==> Enumerates(order, AlternateNames(ExternalName(source, h.sep).value))
  }

  datatype TextureResult = NoTexture | Texture(node: TextureNode) | TextureTypeError

  class TextureLoader {
    /** texture.DICT_TEXTURES */
    var dictTextures: map<TextureKey, TextureNode>
    /** The paths that exist. */
    var files: set<string>

    constructor(existing: set<string>)
      ensures dictTextures == map[] && files == existing
    {
      dictTextures := map[];
      files := existing;
    }

    method GenerateImageName(h: Host) returns (fn: string, tex: string)
      ensures fn == ImageName(FreeImageIndex(ImagePaths(h), files, 0))
      ensures tex == ImagePath(h, FreeImageIndex(ImagePaths(h), files, 0))
    {
      var n := 0;
      fn := ImageName(0);
      tex := ImagePath(h, 0);
      while n < 1000
        invariant 0 <= n <= 1000
        invariant n < 1000 ==> FreeImageIndex(ImagePaths(h), files, 0) == FreeImageIndex(ImagePaths(h), files, n)
        invariant n == 1000 ==> FreeImageIndex(ImagePaths(h), files, 0) == 999 && fn == ImageName(999) && tex == ImagePath(h, 999)
      {
        fn := ImageName(n);
        tex := ImagePath(h, n);
        if tex !in files {
          break;
        }
        n := n + 1;
      }
    }

    /**
     * import_embedded_texture_source: the pixel data is written to the
     * next free `imageNNN.dds` (the file is created even when the format
     * is refused) and opened from there.
     */
    method ImportEmbeddedTextureSource(source: Source, h: Host) returns (fn: string, image: Option<Image>)
      requires source.SourceTexture?
      modifies this
      ensures var k := FreeImageIndex(ImagePaths(h), old(files), 0);
              && fn == ImageName(k)
              && files == old(files) + {ImagePath(h, k)}
              && image == (if source.ddsSaves && ImagePath(h, k) in h.loadable
                           then Some(LoadedImage(ImagePath(h, k))) else None)
      ensures dictTextures == old(dictTextures)
    {
      var tex;
      fn, tex := GenerateImageName(h);
      files := files + {tex};
      if !source.ddsSaves {
        image := None;
      } else if tex in h.loadable {
        image := Some(LoadedImage(tex));
      } else {
        image := None;
      }
    }

    /** import_external_source */
    method ImportExternalSource(source: Source, h: Host, order: seq<string>) returns (r: External)
      requires OrderFits(source, h, order)
      ensures r == ExternalSource(source, files, h, order)
    {
      var fn: string;
      match source {
        case SourceTexture(_, fileName, _, _) => fn := fileName;
        case PathSource(p) => fn := p;
        case _ => return ExternalTypeError;
      }
      fn := ReplaceChar(fn, '\\', h.sep);
      fn := ReplaceChar(fn, '/', h.sep);
      assert fn == ExternalName(source, h.sep).value;

      var searchPathList := BuildSearchPathList(h);
      var found := SearchPathList(searchPathList, [fn, Lower(fn)] + order, h);
      if found.Some? {
        return External(found.value, Some(LoadedImage(found.value)));
      }
      return External(PathJoin(searchPathList[0], fn, h.sep), None);
    }

    /** The appends that build `search_path_list`. */
    static method BuildSearchPathList(h: Host) returns (searchPathList: seq<string>)
      ensures searchPathList == SearchPaths(h)
    {
      var importPath := Dirname(h.filepath, h.sep);
      ghost var meshes := TextureSearch.GuessDir(importPath, "meshes", "textures");
      ghost var art := TextureSearch.GuessDir(importPath, "art", "shared");
      ghost var nifDir := PathJoin(h.cwd, "nif", h.sep);
      searchPathList := [importPath];
      if h.textureDirectory != [] {
        searchPathList := searchPathList + [h.textureDirectory];
      }
      searchPathList := searchPathList + [PathJoin(h.cwd, "nif", h.sep)];
      assert searchPathList == [importPath] + (if h.textureDirectory != [] then [h.textureDirectory] else []) + [nifDir];
      var meshesIndex := Find(Lower(importPath), "meshes");
      if meshesIndex != -1 {
        searchPathList := searchPathList + [Take(importPath, meshesIndex) + "textures"];
      }
      assert searchPathList == [importPath] + (if h.textureDirectory != [] then [h.textureDirectory] else []) + [nifDir]
                               + OptionToSeq(meshes);
      var artIndex := Find(Lower(importPath), "art");
      if artIndex != -1 {
        searchPathList := searchPathList + [Take(importPath, artIndex) + "shared"];
      }
      assert searchPathList == SearchPathEntries(importPath, h.textureDirectory, nifDir, meshes, art);
    }

    /** The nested loops of import_external_source over directories and candidates. */
    method SearchPathList(dirs: seq<string>, texfns: seq<string>, h: Host) returns (found: Option<string>)
      ensures found == PathsSearch(dirs, texfns, h.sep, ProbeIn(files, h))
    {
      var i := 0;
      while i < |dirs|
        invariant 0 <= i <= |dirs|
        invariant PathsSearch(dirs, texfns, h.sep, ProbeIn(files, h)) == PathsSearch(dirs[i..], texfns, h.sep, ProbeIn(files, h))
      {
        var texdir := ReplaceChar(dirs[i], '\\', h.sep);
        texdir := ReplaceChar(texdir, '/', h.sep);
        var image: Option<string> := None;
        var k := 0;
        while k < |texfns|
          invariant 0 <= k <= |texfns|
          invariant image.None?
          invariant DirSearch(texdir, texfns, ProbeIn(files, h)) == DirSearch(texdir, texfns[k..], ProbeIn(files, h))
        {
          var tex := h.resolveNcase(CandidatePath(texdir, texfns[k], h.sep));
          if tex in files {
            if tex in h.loadable {
              image := Some(tex);
              assert image == DirSearch(texdir, texfns, ProbeIn(files, h));
              break;
            }
            image := None;
          }
          assert texfns[k..][1..] == texfns[k + 1..];
          k := k + 1;
        }
        assert texdir == NormSeps(dirs[i], h.sep);
        assert dirs[i..][1..] == dirs[i + 1..];
        if image.Some? {
          return image;
        }
        i := i + 1;
      }
      return None;
    }

    /**
     * import_texture_source: None for a falsy source; the cached node when
     * the key is already in DICT_TEXTURES, with nothing loaded; otherwise
     * a new node (with a 1x1 stub image when nothing could be loaded),
     * stored under the key.
     */
    method ImportTextureSource(source: Source, h: Host, order: seq<string>) returns (r: TextureResult)
      requires OrderFits(source, h, order)
      modifies this
      ensures Falsy(source) ==> r == NoTexture && unchanged(this)
      ensures source.OtherSource? && source.truthy ==> r == TextureTypeError && unchanged(this)
      ensures TextureHash(source).Key? && TextureHash(source).key in old(dictTextures) ==>
                r == Texture(old(dictTextures)[TextureHash(source).key]) && unchanged(this)
      ensures TextureHash(source).Key? && TextureHash(source).key !in old(dictTextures) ==>
                && r.Texture?
                && dictTextures == old(dictTextures)[TextureHash(source).key := r.node]
                && r.node.interpolation == "Smart"
                && (Embedded(source, h) ==>
                      var k := FreeImageIndex(ImagePaths(h), old(files), 0);
                      && files == old(files) + {ImagePath(h, k)}
                      && r.node.image == ImageOrStub(ImageName(k),
                           if source.ddsSaves && ImagePath(h, k) in h.loadable
                           then Some(LoadedImage(ImagePath(h, k))) else None, h.sep))
                && (!Embedded(source, h) ==>
                      var e := ExternalSource(source, old(files), h, order);
                      && files == old(files)
                      && e.External?
                      && r.node.image == ImageOrStub(e.tex, e.image, h.sep))
    {
      if Falsy(source) {
        return NoTexture;
      }
      var hash := TextureHash(source);
      if hash.HashTypeError? {
        return TextureTypeError;
      }
      var key := hash.key;
      if key in dictTextures {
        return Texture(dictTextures[key]);
      }
      var fn, image;
      if source.SourceTexture? && !source.useExternal && h.importEmbedded {
        fn, image := ImportEmbeddedTextureSource(source, h);
      } else {
        var e := ImportExternalSource(source, h, order);
        fn, image := e.tex, e.image;
      }
      var node := TextureNode(ImageOrStub(fn, image, h.sep), "Smart");
      dictTextures := dictTextures[key := node];
      return Texture(node);
    }
  }
}
