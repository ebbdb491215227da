// The file-name conventions of the file/component fold.
module FileNames {
  import opened Records
  import opened Graph
  import opened ClassKinds
  import opened FileFold

  const DEFAULT_EXPORT: string := "default_export"

  function TrimSlashes(path: string): string {
    if path != "" && path[|path| - 1] == '/' then TrimSlashes(path[..|path| - 1]) else path
  }

  function AfterSlash(path: string): string {
    if path == "" || path[|path| - 1] == '/' then "" else AfterSlash(path[..|path| - 1]) + [path[|path| - 1]]
  }

  // Go's filepath.Base.
  function Base(path: string): string {
    if path == "" then "."
    else if TrimSlashes(path) == "" then "/"
    else AfterSlash(TrimSlashes(path))
  }

  // Go's filepath.Ext: from the last dot of the last path element.
  function Ext(path: string): (ext: string)
    ensures |ext| <= |path|
  {
    if path == "" || path[|path| - 1] == '/' then ""
    else if path[|path| - 1] == '.' then "."
    else
      var init := Ext(path[..|path| - 1]);
      if init == "" then "" else init + [path[|path| - 1]]
  }

  predicate ComponentExtension(ext: string) {
    ext in {".jsx", ".tsx", ".vue", ".svelte", ".astro"}
  }

  predicate ModuleExtension(ext: string) {
    ext in {".js", ".mjs", ".cjs", ".ts", ".mts", ".cts"}
  }

  // The lower-cased base name without extension.
  function FilePathStem(lower: string -> string, path: string): string {
    var base := Base(path);
    lower(base[..|base| - |Ext(base)|])
  }

  // Whether the module in `file` exists to export the declaration `name`.
  predicate FileIsItsDeclaration(lower: string -> string, file: string, name: string, defaultExport: string) {
    var ext := lower(Ext(file));
    ComponentExtension(ext) || (ModuleExtension(ext) && defaultExport != "" && defaultExport == name)
  }

  predicate Copied(key: string) {
    key !in {"provenance", "ref", "kind", "subtype"}
  }

  function Conventions(lower: string -> string): (cv: Naming)
    ensures cv.kinds.Generic()
  {
    Naming(Vocabulary(), lower, path => FilePathStem(lower, path),
           (file, name, binding) => FileIsItsDeclaration(lower, file, name, binding),
           (props: Props) => if DEFAULT_EXPORT in props then props[DEFAULT_EXPORT] else "",
           key => Copied(key))
  }

  // A path as its directory with the slash, the stem of its last element, and that element's extension.
  predicate IsPath(dir: string, stem: string, ext: string) {
    && (dir == "" || dir[|dir| - 1] == '/') && '/' !in stem && '/' !in ext
    && (ext == "" ==> '.' !in stem) && (ext != "" ==> ext[0] == '.' && '.' !in ext[1..])
  }

  // Every path has such a form.
  lemma {:induction false} Parts(path: string) returns (dir: string, stem: string, ext: string)
    ensures IsPath(dir, stem, ext) && path == dir + stem + ext
  {
    var n := |path| - 1;
    if path == "" || path[n] == '/' {
      return path, "", "";
    }
    var c := path[n];
    dir, stem, ext := Parts(path[..n]);
    assert path == dir + stem + ext + [c];
    if c == '.' {
      stem, ext := stem + ext, ".";
    } else if ext == "" {
      stem := stem + [c];
    } else {
      ext := ext + [c];
      assert ext[1..] == ext[1..|ext| - 1] + [c];
    }
  }

  lemma AfterSlashSnoc(init: string, last: char)
    ensures AfterSlash(init + [last]) == if last == '/' then "" else AfterSlash(init) + [last]
  {
    assert (init + [last])[..|init|] == init;
  }

  lemma ExtSnoc(init: string, last: char)
    ensures Ext(init + [last]) ==
      if last == '/' then "" else if last == '.' then "." else if Ext(init) == "" then "" else Ext(init) + [last]
  {
    assert (init + [last])[..|init|] == init;
  }

  // What follows the last slash decides both.
  lemma {:induction false} LastElement(dir: string, base: string)
    requires (dir == "" || dir[|dir| - 1] == '/') && '/' !in base
    ensures AfterSlash(dir + base) == base && Ext(dir + base) == Ext(base)
  {
    if base == "" {
      assert dir + base == dir;
    } else {
      var init, last := base[..|base| - 1], base[|base| - 1];
      assert base == init + [last] && dir + base == dir + init + [last];
      LastElement(dir, init);
      AfterSlashSnoc(dir + init, last);
      ExtSnoc(dir + init, last);
      ExtSnoc(init, last);
    }
  }

  lemma {:induction false} NoDot(s: string)
    requires '.' !in s
    ensures Ext(s) == ""
  {
    if s != "" {
      assert s == s[..|s| - 1] + [s[|s| - 1]];
      NoDot(s[..|s| - 1]);
    }
  }

  lemma {:induction false} LastDot(stem: string, ext: string)
    requires ext != "" && ext[0] == '.' && '.' !in ext[1..] && '/' !in ext
    ensures Ext(stem + ext) == ext
  {
    var init, last := ext[..|ext| - 1], ext[|ext| - 1];
    assert ext == init + [last] && stem + ext == stem + init + [last];
    ExtSnoc(stem + init, last);
    if init != "" {
      assert ext[1..] == init[1..] + [last] && last in ext[1..];
      LastDot(stem, init);
    }
  }

  // The base name is stem and extension, whatever dots the directory has. Trailing slashes do not count; the
  // base name of the empty path is ".", that of slashes only "/".
  lemma PathParts(dir: string, stem: string, ext: string)
    requires IsPath(dir, stem, ext)
    ensures var path := dir + stem + ext;
      && Ext(path) == ext
      && (stem + ext != "" ==> Base(path) == stem + ext && Ext(Base(path)) == ext)
      && (stem + ext == "" ==>
           Base(path) == if dir == "" then "." else if |dir| == 1 then "/" else Base(dir[..|dir| - 1]))
  {
    var base := stem + ext;
    assert dir + stem + ext == dir + base;
    LastElement(dir, base);
    if ext == "" {
      assert base == stem;
      NoDot(stem);
    } else {
      LastDot(stem, ext);
    }
    if base == "" {
      assert dir + base == dir;
      TrailingSlash(dir);
    } else {
      NoTrailingSlash(dir, base);
    }
  }

  lemma StemOf(lower: string -> string, path: string, stem: string, ext: string)
    requires Base(path) == stem + ext && Ext(stem + ext) == ext
    ensures FilePathStem(lower, path) == lower(stem)
  {
    assert (stem + ext)[..|stem|] == stem;
  }

  lemma NoTrailingSlash(dir: string, base: string)
    requires (dir == "" || dir[|dir| - 1] == '/') && '/' !in base && base != ""
    ensures Base(dir + base) == base
  {
    var path := dir + base;
    assert path[|path| - 1] == base[|base| - 1] && base[|base| - 1] in base;
    LastElement(dir, base);
  }

  lemma TrailingSlash(path: string)
    requires path != "" ==> path[|path| - 1] == '/'
    ensures Base(path) == if path == "" then "." else if |path| == 1 then "/" else Base(path[..|path| - 1])
  {
    if |path| == 1 {
      assert TrimSlashes(path) == TrimSlashes(path[..0]);
    }
  }

  // A file exists to export a class if its extension is a component format's, or if it is a module's and its
  // default export is that class.
  lemma DeclarationIff(lower: string -> string, dir: string, stem: string, ext: string, name: string, binding: string)
    requires IsPath(dir, stem, ext)
    ensures var cv, path := Conventions(lower), dir + stem + ext;
      && (cv.isDeclaration(path, name, binding) <==>
           ComponentExtension(lower(ext)) || (ModuleExtension(lower(ext)) && name != "" && binding == name))
      && (stem + ext != "" ==> cv.stem(path) == lower(stem))
  {
    PathParts(dir, stem, ext);
    if stem + ext != "" {
      StemOf(lower, dir + stem + ext, stem, ext);
    }
  }

  // The program copies every property but the four that describe the declaration itself, and reads the default
  // export from its own property.
  lemma ConventionsOfProps(lower: string -> string, props: Props, key: string)
    ensures var cv := Conventions(lower);
      && (cv.copied(key) <==> key != "provenance" && key != "ref" && key != "kind" && key != "subtype")
      && (if "default_export" in props then cv.exported(props) == props["default_export"]
          else cv.exported(props) == "")
  {
  }
}
