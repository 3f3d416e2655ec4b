/**
 * The search for an external texture file in `fb_texture` of the NIF
 * importer, and the derivation of the Morrowind-style texture directory
 * TEX_DIR in `import_nif`.
 *
 * The file system is the set `files` of paths for which the host's
 * `exists` reports an existing file. The host's `Blender.sys.join` is the
 * function parameter `join`: its rules are not part of this model.
 */
module TextureSearch {
  import opened Wrappers
  import opened PyStr

  /** The host's path join, `Blender.sys.join(directory, name)`. */
  type Join = (string, string) -> string

  /** The first candidate that names an existing file. */
  function FirstExisting(candidates: seq<string>, files: set<string>): (r: Option<string>)
    ensures r.None? <==> forall k :: 0 <= k < |candidates| ==> candidates[k] !in files
    ensures r.Some? ==>
      exists k :: 0 <= k < |candidates| && candidates[k] == r.value && r.value in files
                  && forall j :: 0 <= j < k ==> candidates[j] !in files
  {
    if candidates == [] then None
    else if candidates[0] in files then Some(candidates[0])
    else FirstExisting(candidates[1..], files)
  }

  // ---------------------------------------------------------------------
  // TEX_DIR
  // ---------------------------------------------------------------------

  /**
   * The part of `path` before its first case-insensitive occurrence of
   * `marker`, followed by `replacement`; None when `marker` does not occur.
   */
  function GuessDir(path: string, marker: string, replacement: string): (r: Option<string>)
    ensures r.None? <==> forall i: nat :: !OccursAt(Lower(path), marker, i)
    ensures r.Some? ==>
      exists i: nat :: && OccursAt(Lower(path), marker, i)
                       && (forall j: nat :: j < i ==> !OccursAt(Lower(path), marker, j))
                       && r.value == path[..i] + replacement
  {
    var idx := Find(Lower(path), marker);
    if idx >= 0 then Some(Take(path, idx) + replacement) else None
  }

  /** TEX_DIR, the Morrowind-style guess: "meshes" in the NIF directory becomes "textures". */
  function TexDir(nifDir: string): Option<string> {
    GuessDir(nifDir, "meshes", "textures")
  }

  // ---------------------------------------------------------------------
  // fb_texture
  // ---------------------------------------------------------------------

  /** The extensions tried, in order, in place of the last four characters. */
  const Extensions: seq<string> := [".PNG", ".png", ".TGA", ".tga", ".BMP", ".bmp", ".JPG", ".jpg"]

  /**
   * The directories searched, in order: those of TEXTURES_DIR (a
   * `;`-separated list), then NIF_DIR, then TEX_DIR, which may be None.
   */
  function SearchDirs(texturesDir: string, nifDir: string, texDir: Option<string>): seq<Option<string>> {
    AllSome(Split(texturesDir, ';')) + [Some(nifDir), texDir]
  }

  function AllSome(dirs: seq<string>): (r: seq<Option<string>>)
    ensures |r| == |dirs| && forall k :: 0 <= k < |dirs| ==> r[k] == Some(dirs[k])
  {
    seq(|dirs|, k requires 0 <= k < |dirs| => Some(dirs[k]))
  }

  /**
   * The directory list holds the `;`-separated entries of TEXTURES_DIR,
   * none of which contains a `;` and which joined back with `;` give
   * TEXTURES_DIR, then NIF_DIR, then TEX_DIR.
   */
  lemma SearchDirsOrder(texturesDir: string, nifDir: string, texDir: Option<string>)
    ensures var r := SearchDirs(texturesDir, nifDir, texDir);
            var entries := Split(texturesDir, ';');
            && |r| == |entries| + 2
            && (forall k :: 0 <= k < |entries| ==> r[k] == Some(entries[k]) && ';' !in entries[k])
            && JoinWith(entries, ';') == texturesDir
            && r[|r| - 2] == Some(nifDir) && r[|r| - 1] == texDir
  {
  }

  /**
   * The path tried for texture `fn` in `texdir`. When the name starts with
   * `textures\` and the directory ends with `\textures` (both compared
   * case-insensitively), the name's leading `textures\` is dropped so that
   * the segment does not appear twice.
   */
  function TexturePath(texdir: string, fn: string, join: Join): (r: string)
    ensures r == join(texdir, fn) || r == join(texdir, Drop(fn, 9))
  {
    if Lower(Take(fn, 9)) == "textures\\" && Lower(LastN(texdir, 9)) == "\\textures" then
      join(texdir, Drop(fn, 9))
    else
      join(texdir, fn)
  }

  /**
   * The Morrowind trick strips one of the two `textures` segments: for any
   * directory ending in `\textures` and any name starting with `textures\`,
   * in any letter case, the path tried is the directory joined with the
   * rest of the name.
   */
  lemma TexturePathStripsOneSegment(prefix: string, dirTail: string, nameHead: string, rest: string, join: Join)
    requires Lower(dirTail) == "\\textures" && Lower(nameHead) == "textures\\"
    ensures TexturePath(prefix + dirTail, nameHead + rest, join) == join(prefix + dirTail, rest)
  {
    var texdir, fn := prefix + dirTail, nameHead + rest;
    assert Take(fn, 9) == nameHead;
    assert LastN(texdir, 9) == dirTail;
    assert Drop(fn, 9) == rest;
  }

  /**
   * Otherwise the whole name is joined: when the name does not start with
   * `textures\` or the directory does not end in `\textures` (ignoring
   * case), nothing is stripped.
   */
  lemma TexturePathKeepsName(texdir: string, fn: string, join: Join)
    requires Lower(Take(fn, 9)) != "textures\\" || Lower(LastN(texdir, 9)) != "\\textures"
    ensures TexturePath(texdir, fn, join) == join(texdir, fn)
  {
  }

  predicate IsDds(path: string) {
    Lower(LastN(path, 4)) == ".dds"
  }

  function WithExtensions(base: string): (r: seq<string>)
    ensures |r| == |Extensions| && forall k :: 0 <= k < |r| ==> r[k] == base + Extensions[k]
  {
    seq(|Extensions|, k requires 0 <= k < |Extensions| => base + Extensions[k])
  }

  /**
   * The file found for path `tex` in one directory: `tex` itself when it
   * exists and is not a .dds file, otherwise the first existing file made
   * of `tex` without its last four characters and one of the extensions.
   */
  function FindInDir(tex: string, files: set<string>): (r: Option<string>)
    ensures r.Some? ==> r.value in files
    ensures !IsDds(tex) && tex in files ==> r == Some(tex)
    ensures IsDds(tex) || tex !in files ==> r == FirstExisting(WithExtensions(DropLast(tex, 4)), files)
  {
    if !IsDds(tex) && tex in files then Some(tex)
    else FirstExisting(WithExtensions(DropLast(tex, 4)), files)
  }

  /** What one entry of the directory list yields; a None entry is skipped. */
  function DirResult(dir: Option<string>, fn: string, join: Join, files: set<string>): (r: Option<string>)
    ensures r.Some? ==> r.value in files
  {
    if dir.Some? then FindInDir(TexturePath(dir.value, fn, join), files) else None
  }

  /** The first entry that holds a value. */
  function FirstSome<T>(s: seq<Option<T>>): Option<T> {
    if s == [] then None else if s[0].Some? then s[0] else FirstSome(s[1..])
  }

  lemma {:induction false} FirstSomeIsFirst<T>(s: seq<Option<T>>)
    ensures FirstSome(s).None? <==> forall k :: 0 <= k < |s| ==> s[k].None?
    ensures FirstSome(s).Some? ==>
      exists k :: 0 <= k < |s| && FirstSome(s) == s[k] && forall j :: 0 <= j < k ==> s[j].None?
  {
    if s != [] && s[0].None? {
      FirstSomeIsFirst(s[1..]);
      assert forall k :: 1 <= k < |s| ==> s[k] == s[1..][k - 1];
      if FirstSome(s).Some? {
        var k :| 0 <= k < |s[1..]| && FirstSome(s) == s[1..][k] && forall j :: 0 <= j < k ==> s[1..][j].None?;
        assert s[k + 1] == s[1..][k];
      }
    }
  }

  /** What each entry of the directory list yields, in order. */
  function DirResults(dirs: seq<Option<string>>, fn: string, join: Join, files: set<string>): (r: seq<Option<string>>)
    ensures |r| == |dirs| && forall k :: 0 <= k < |dirs| ==> r[k] == DirResult(dirs[k], fn, join, files)
  {
    seq(|dirs|, k requires 0 <= k < |dirs| => DirResult(dirs[k], fn, join, files))
  }

  /** The search over the directories, stopping at the first that has the file. */
  function Search(dirs: seq<Option<string>>, fn: string, join: Join, files: set<string>): Option<string> {
    if dirs == [] then None
    else if DirResult(dirs[0], fn, join, files).Some? then DirResult(dirs[0], fn, join, files)
    else Search(dirs[1..], fn, join, files)
  }

  lemma {:induction false} SearchIsFirstSome(dirs: seq<Option<string>>, fn: string, join: Join, files: set<string>)
    ensures Search(dirs, fn, join, files) == FirstSome(DirResults(dirs, fn, join, files))
  {
    if dirs != [] {
      SearchIsFirstSome(dirs[1..], fn, join, files);
      assert DirResults(dirs, fn, join, files)[1..] == DirResults(dirs[1..], fn, join, files);
    }
  }

  /**
   * The search finds nothing exactly when no directory has the file;
   * otherwise it returns what the first directory that has it gives.
   */
  lemma SearchFirstDirectory(dirs: seq<Option<string>>, fn: string, join: Join, files: set<string>)
    ensures Search(dirs, fn, join, files).None? <==>
      forall k :: 0 <= k < |dirs| ==> DirResult(dirs[k], fn, join, files).None?
    ensures Search(dirs, fn, join, files).Some? ==>
      exists k :: 0 <= k < |dirs| && Search(dirs, fn, join, files) == DirResult(dirs[k], fn, join, files)
                  && forall j :: 0 <= j < k ==> DirResult(dirs[j], fn, join, files).None?
  {
    SearchIsFirstSome(dirs, fn, join, files);
    FirstSomeIsFirst(DirResults(dirs, fn, join, files));
  }

  /**
   * The external-file search of fb_texture: the file it loads, or None
   * when the texture is not found.
   */
  method FindTextureFile(texturesDir: string, nifDir: string, texDir: Option<string>, fn: string,
                         join: Join, files: set<string>) returns (textureFile: Option<string>)
    ensures textureFile == Search(SearchDirs(texturesDir, nifDir, texDir), fn, join, files)
  {
    textureFile := SearchDirectories(SearchDirs(texturesDir, nifDir, texDir), fn, join, files);
  }

  /** The loop over the directories, with its break at the first file found. */
  method SearchDirectories(dirs: seq<Option<string>>, fn: string, join: Join, files: set<string>)
    returns (textureFile: Option<string>)
    ensures textureFile == Search(dirs, fn, join, files)
  {
    textureFile := None;
    var i := 0;
    while i < |dirs| && textureFile.None?
      invariant 0 <= i <= |dirs|
      invariant textureFile.None? ==> Search(dirs, fn, join, files) == Search(dirs[i..], fn, join, files)
      invariant textureFile.Some? ==> textureFile == Search(dirs, fn, join, files)
    {
      assert dirs[i..][1..] == dirs[i + 1..];
      if dirs[i].Some? {
        var tex := TexturePath(dirs[i].value, fn, join);
        if !IsDds(tex) && tex in files {
          textureFile := Some(tex);
        } else {
          var base := DropLast(tex, 4);
          var k := 0;
          while k < |Extensions| && textureFile.None?
            invariant 0 <= k <= |Extensions|
            invariant textureFile.None? ==>
              FirstExisting(WithExtensions(base), files) == FirstExisting(WithExtensions(base)[k..], files)
            invariant textureFile.Some? ==> textureFile == FirstExisting(WithExtensions(base), files)
          {
            assert WithExtensions(base)[k..][1..] == WithExtensions(base)[k + 1..];
            if base + Extensions[k] in files {
              textureFile := Some(base + Extensions[k]);
            }
            k := k + 1;
          }
        }
      }
      i := i + 1;
    }
  }
}
