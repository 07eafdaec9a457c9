/** The `.cabal` package description that `generate` (src/cabal.rs) writes for
    a Rust crate, seen as the sequence of its text lines. The source builds one
    string with `format!`; here that template is written line by line, each line
    classified as blank, comment, `key: value` field or stanza header, and the
    output text is the lines joined by newlines, which is the same string. */
module Cabal {
  import opened Names

  /** One line of the package description. A comment line is `--` followed by
      its text, a field line `key:` followed by `gap` spaces and the value. */
  datatype Line =
    | Blank
    | Comment(indent: nat, text: string)
    | Field(indent: nat, key: string, gap: nat, value: string)
    | Stanza(indent: nat, header: string)

  /** A run of lines that carries no field and opens no stanza. */
  predicate Prose(ls: seq<Line>) {
    forall l <- ls :: l.Blank? || l.Comment?
  }

  function Spaces(n: nat): (r: string)
    ensures |r| == n && forall i :: 0 <= i < n ==> r[i] == ' '
  {
    if n == 0 then "" else " " + Spaces(n - 1)
  }

  function Render(l: Line): string {
    match l
    case Blank => ""
    case Comment(indent, text) => Spaces(indent) + "--" + text
    case Field(indent, key, gap, value) => Spaces(indent) + key + ":" + Spaces(gap) + value
    case Stanza(indent, header) => Spaces(indent) + header
  }

  /** The lines rendered and separated by single newlines, with no newline after
      the last one. */
  function Text(lines: seq<Line>): string {
    if |lines| == 0 then ""
    else if |lines| == 1 then Render(lines[0])
    else Render(lines[0]) + "\n" + Text(lines[1..])
  }

  /** The values of the fields named `key`, in order of appearance. */
  function Values(lines: seq<Line>, key: string): (r: seq<string>)
    ensures |r| <= |lines|
  {
    if lines == [] then []
    else (if lines[0].Field? && lines[0].key == key then [lines[0].value] else [])
         + Values(lines[1..], key)
  }

  /** The headers of the stanzas opened, in order of appearance. */
  function Stanzas(lines: seq<Line>): (r: seq<string>)
    ensures |r| <= |lines|
  {
    if lines == [] then []
    else (if lines[0].Stanza? then [lines[0].header] else []) + Stanzas(lines[1..])
  }

  /** The fields and stanza headers, in order: the lines with comments and
      blank lines left out. */
  function Skeleton(lines: seq<Line>): (r: seq<Line>)
    ensures |r| <= |lines|
  {
    if lines == [] then []
    else (if lines[0].Field? || lines[0].Stanza? then [lines[0]] else []) + Skeleton(lines[1..])
  }

  // ---------------------------------------------------------------------------
  // The template's prose (src/cabal.rs, lines 3-133)

  /** The comment blocks of the template, each a run of blank and comment
      lines, in the order they appear. */
  datatype Notes = Notes(
    cabalVersion: seq<Line>, version: seq<Line>, metadata: seq<Line>, customSetup: seq<Line>,
    extraFiles: seq<Line>, imports: seq<Line>, exposedModules: seq<Line>, buildDepends: seq<Line>,
    sourceDirs: seq<Line>, language: seq<Line>, haskellNix: seq<Line>, crossCompilation: seq<Line>,
    missingSymbols: seq<Line>, bundled: seq<Line>, trailer: seq<Line>)

  /** Every block is prose, and the blocks that stand between two sections are
      not empty, so the sections never run into each other. */
  predicate WellFormedNotes(n: Notes) {
    && Prose(n.cabalVersion) && Prose(n.version) && Prose(n.metadata) && Prose(n.customSetup)
    && Prose(n.extraFiles) && Prose(n.imports) && Prose(n.exposedModules) && Prose(n.buildDepends)
    && Prose(n.sourceDirs) && Prose(n.language) && Prose(n.haskellNix) && Prose(n.crossCompilation)
    && Prose(n.missingSymbols) && Prose(n.bundled) && Prose(n.trailer)
    && n.extraFiles != [] && n.trailer != []
  }

  /** Lines 44-54: about the cabal-version field, up to the package name. */
  const CabalVersionNote: seq<Line> := [
    Comment(0, " The cabal-version field refers to the version of the .cabal specification,"),
    Comment(0, " and can be different from the cabal-install (the tool) version and the"),
    Comment(0, " Cabal (the library) version you are using. As such, the Cabal (the library)"),
    Comment(0, " version used must be equal or greater than the version stated in this field."),
    Comment(0, " Starting from the specification version 2.2, the cabal-version field must be"),
    Comment(0, " the first thing in the cabal file."),
    Blank,
    Comment(0, " Initial package description generated by 'cabal init'. For further"),
    Comment(0, " documentation, see: http://haskell.org/cabal/users-guide/"),
    Comment(0, ""),
    Comment(0, " The name of the package.")
  ]

  /** Lines 56-63: the package versioning policy. */
  const VersionNote: seq<Line> := [
    Blank,
    Comment(0, " The package version."),
    Comment(0, " See the Haskell package versioning policy (PVP) for standards"),
    Comment(0, " guiding when and how versions should be incremented."),
    Comment(0, " https://pvp.haskell.org"),
    Comment(0, " PVP summary:     +-+------- breaking API changes"),
    Comment(0, "                  | | +----- non-breaking API additions"),
    Comment(0, "                  | | | +--- code changes with no API change")
  ]

  /** Lines 65-84: the optional metadata fields, all commented out. */
  const MetadataNote: seq<Line> := [
    Blank,
    Comment(0, " A short (one-line) description of the package."),
    Comment(0, " synopsis:"),
    Blank,
    Comment(0, " A longer description of the package."),
    Comment(0, " description:"),
    Blank,
    Comment(0, " The license under which the package is released."),
    Comment(0, " license:"),
    Blank,
    Comment(0, " The package author(s)."),
    Comment(0, " author:"),
    Blank,
    Comment(0, " An email address to which users can send suggestions, bug reports, and"),
    Comment(0, " patches."),
    Comment(0, " maintainer:"),
    Blank,
    Comment(0, " A copyright notice."),
    Comment(0, " copyright:"),
    Blank
  ]

  /** Lines 7-8: why the build is custom. */
  const CustomSetupNote: seq<Line> := [Blank, Comment(0, " This let us hook Cabal steps to Setup.lhs script.")]

  /** Lines 86-101: the extra files, commented out. */
  const ExtraFilesNote: seq<Line> := [
    Blank,
    Comment(0, " Extra doc files to be distributed with the package, such as a CHANGELOG or a"),
    Comment(0, " README."),
    Comment(0, " extra-doc-files:"),
    Blank,
    Comment(0, " Extra source files to be distributed with the package, such as examples, or"),
    Comment(0, " a tutorial module."),
    Comment(0, " extra-source-files:"),
    Comment(0, ""),
    Comment(0, " FIXME: It's still unclear to me what would be the best strategy to let users"),
    Comment(0, " publish packages generated by `cargo-cabal` on Hackage. While it is pretty"),
    Comment(0, " hazardous to put Rust code in sdist archive (because that would require that"),
    Comment(0, " the library end-user have a Rust developer environment on this machine and"),
    Comment(0, " that wouldn't play well with cross-compilation), is it a good idea to"),
    Comment(0, " package generated platform-dependent library as source?"),
    Blank
  ]

  /** Line 106. */
  const ImportNote: seq<Line> := [Comment(4, " Import common warning flags.")]

  /** Lines 108-109. */
  const ExposedModulesNote: seq<Line> := [Blank, Comment(4, " Modules exported by the library.")]

  /** Lines 111-118. */
  const BuildDependsNote: seq<Line> := [
    Blank,
    Comment(4, " Modules included in this library but not exported."),
    Comment(4, " other-modules:"),
    Blank,
    Comment(4, " LANGUAGE extensions used by modules in this package."),
    Comment(4, " other-extensions:"),
    Blank,
    Comment(4, " Other library packages from which modules are imported.")
  ]

  /** Lines 120-121. */
  const SourceDirsNote: seq<Line> := [Blank, Comment(4, " Directories containing source files.")]

  /** Lines 123-124. */
  const LanguageNote: seq<Line> := [Blank, Comment(4, " Base language which the package is written in.")]

  /** Lines 19-22: how haskell.nix finds the native library. */
  const HaskellNixNote: seq<Line> := [
    Blank,
    Comment(4, " `haskell.nix` tell GHC linker where to find the `libNAME.a` by setting"),
    Comment(4, " automatically `extra-lib-dirs`:"),
    Comment(4, " https://input-output-hk.github.io/haskell.nix/tutorials/pkg-map.html")
  ]

  /** Lines 24-26: why Windows needs extra system libraries. */
  const CrossCompilationNote: seq<Line> := [
    Blank,
    Comment(4, " Cross-compilation to target `x86_64-w64-mingw32-cc` thrown a lot of"),
    Comment(4, " `undefined reference to 'X'` errors during linking stage ...")
  ]

  /** Lines 29-32: which symbol each Windows library provides. */
  const MissingSymbolsNote: seq<Line> := [
    Comment(4, " Here is a mapping between library names and missing symbols:"),
    Comment(4, " `bcrypt`  -> `BCryptGenRandom`"),
    Comment(4, " `userenv` -> `GetUserProfileDirectoryW`"),
    Comment(4, " `ws2_32`  -> `freeaddrinfo getaddrinfo WSASend WSARecv WSASocketW`")
  ]

  /** Lines 36-37. */
  const BundledNote: seq<Line> := [Blank, Comment(4, " Libraries that are bundled with the package.")]

  /** Lines 128-133: the closing remarks. */
  const Trailer: seq<Line> := [
    Blank,
    Comment(0, " This file was generated by `cargo-cabal`, but please don't hesitate to edit it!"),
    Blank,
    Comment(0, " We would rather rely on `cabal init --non-interactive` to generate this file"),
    Comment(0, " but there is no CLI arg to set `build-type: Custom` on which it sadly"),
    Comment(0, " currently have to rely on.")
  ]

  /** The template's own comment blocks. */
  const Template := Notes(
    CabalVersionNote, VersionNote, MetadataNote, CustomSetupNote,
    ExtraFilesNote, ImportNote, ExposedModulesNote, BuildDependsNote,
    SourceDirsNote, LanguageNote, HaskellNixNote, CrossCompilationNote,
    MissingSymbolsNote, BundledNote, Trailer)

  // ---------------------------------------------------------------------------
  // The template (src/cabal.rs, lines 3-12, 17-40 and 42-134)

  const CabalVersionField := Field(0, "cabal-version", 6, "2.4")

  /** The `build_type` fragment (lines 3-12). Its text starts with a newline, so
      as lines it starts with a blank one (in the custom case, the note's). */
  function BuildType(n: Notes, enableNix: bool): seq<Line> {
    if enableNix then
      [Blank, Field(0, "build-type", 9, "Simple")]
    else
      n.customSetup
      + [Field(0, "build-type", 9, "Custom"),
         Stanza(0, "custom-setup"),
         Field(4, "setup-depends", 2, "Cabal, base, directory, process")]
  }

  /** The `extra` fragment (lines 17-40), linking the crate's native library
      `libName`: found by the host toolchain in nix mode, bundled otherwise. */
  function Extra(n: Notes, enableNix: bool, libName: string): seq<Line> {
    if enableNix then
      n.haskellNix
      + [Field(4, "extra-libraries", 2, libName)] + n.crossCompilation
      + [Stanza(2, "if os(windows)"), Field(4, "extra-libraries", 1, "userenv ws2_32 bcrypt")]
      + n.missingSymbols
    else
      n.bundled + [Field(4, "extra-bundled-libraries", 1, libName)]
  }

  /** Lines 43-84: the header fields and the commented-out optional metadata. */
  function PackageHeader(n: Notes, packageName: string, version: string): seq<Line> {
    [CabalVersionField] + n.cabalVersion
    + [Field(0, "name", 15, packageName)] + n.version
    + [Field(0, "version", 12, version)] + n.metadata
  }

  /** Lines 102-104: the `common warnings` stanza. */
  const CommonWarnings: seq<Line> := [Stanza(0, "common warnings"), Field(4, "ghc-options", 1, "-Wall"), Blank]

  /** Lines 105-126: the `library` stanza exporting `moduleName`. */
  function Library(n: Notes, moduleName: string): seq<Line> {
    [Stanza(0, "library")] + n.imports
    + [Field(4, "import", 11, "warnings")] + n.exposedModules
    + [Field(4, "exposed-modules", 2, moduleName)] + n.buildDepends
    + [Field(4, "build-depends", 4, "base")] + n.sourceDirs
    + [Field(4, "hs-source-dirs", 3, "src")] + n.language
    + [Field(4, "default-language", 1, "Haskell2010"), Blank]
  }

  /** The template filled in (lines 42-134): the package name and the library
      name are both derived from the crate name `name`. */
  function Assemble(n: Notes, name: string, moduleName: string, version: string, enableNix: bool): seq<Line> {
    PackageHeader(n, PackageName(name), version) + BuildType(n, enableNix) + n.extraFiles
    + CommonWarnings + Library(n, moduleName) + Extra(n, enableNix, LibName(name)) + n.trailer
  }

  /** The lines of the package description for crate `name`, exporting
      `moduleName`, at `version`. */
  function Manifest(name: string, moduleName: string, version: string, enableNix: bool): seq<Line> {
    Assemble(Template, name, moduleName, version, enableNix)
  }

  /** `generate`: the text of the package description. */
  function Generate(name: string, moduleName: string, version: string, enableNix: bool): string {
    Text(Manifest(name, moduleName, version, enableNix))
  }

  // ---------------------------------------------------------------------------
  // Lemmas: queries distribute over concatenation and see through the prose

  predicate Structural(ls: seq<Line>) {
    forall l <- ls :: l.Field? || l.Stanza?
  }

  lemma {:induction false} SkeletonAppend(a: seq<Line>, b: seq<Line>)
    ensures Skeleton(a + b) == Skeleton(a) + Skeleton(b)
    decreases |a|
  {
    if a == [] {
      assert a + b == b;
    } else {
      var h := if a[0].Field? || a[0].Stanza? then [a[0]] else [];
      assert (a + b)[0] == a[0];
      assert (a + b)[1..] == a[1..] + b;
      SkeletonAppend(a[1..], b);
      calc {
        Skeleton(a + b);
        h + Skeleton(a[1..] + b);
        h + (Skeleton(a[1..]) + Skeleton(b));
        (h + Skeleton(a[1..])) + Skeleton(b);
      }
    }
  }

  lemma {:induction false} ValuesAppend(a: seq<Line>, b: seq<Line>, key: string)
    ensures Values(a + b, key) == Values(a, key) + Values(b, key)
    decreases |a|
  {
    if a == [] {
      assert a + b == b;
    } else {
      var h := if a[0].Field? && a[0].key == key then [a[0].value] else [];
      assert (a + b)[0] == a[0];
      assert (a + b)[1..] == a[1..] + b;
      ValuesAppend(a[1..], b, key);
      calc {
        Values(a + b, key);
        h + Values(a[1..] + b, key);
        h + (Values(a[1..], key) + Values(b, key));
        (h + Values(a[1..], key)) + Values(b, key);
      }
    }
  }

  lemma {:induction false} StanzasAppend(a: seq<Line>, b: seq<Line>)
    ensures Stanzas(a + b) == Stanzas(a) + Stanzas(b)
    decreases |a|
  {
    if a == [] {
      assert a + b == b;
    } else {
      var h := if a[0].Stanza? then [a[0].header] else [];
      assert (a + b)[0] == a[0];
      assert (a + b)[1..] == a[1..] + b;
      StanzasAppend(a[1..], b);
      calc {
        Stanzas(a + b);
        h + Stanzas(a[1..] + b);
        h + (Stanzas(a[1..]) + Stanzas(b));
        (h + Stanzas(a[1..])) + Stanzas(b);
      }
    }
  }

  /** Comments and blank lines contribute nothing to the skeleton. */
  lemma {:induction false} ProseIsSilent(ls: seq<Line>)
    requires Prose(ls)
    ensures Skeleton(ls) == []
    decreases |ls|
  {
    if ls != [] {
      assert ls[0] in ls;
      ProseIsSilent(ls[1..]);
    }
  }

  /** Fields and stanza headers are kept, in order. */
  lemma {:induction false} StructuralIsKept(ls: seq<Line>)
    requires Structural(ls)
    ensures Skeleton(ls) == ls
    decreases |ls|
  {
    if ls != [] {
      assert ls[0] in ls;
      StructuralIsKept(ls[1..]);
      assert ls == [ls[0]] + ls[1..];
    }
  }

  /** Field lookups and stanza listings depend only on the skeleton. */
  lemma {:induction false} ValuesViaSkeleton(ls: seq<Line>, key: string)
    ensures Values(ls, key) == Values(Skeleton(ls), key)
    decreases |ls|
  {
    if ls != [] {
      ValuesViaSkeleton(ls[1..], key);
      var head := if ls[0].Field? && ls[0].key == key then [ls[0].value] else [];
      var rest := Skeleton(ls[1..]);
      if ls[0].Field? || ls[0].Stanza? {
        assert Skeleton(ls) == [ls[0]] + rest;
        assert ([ls[0]] + rest)[0] == ls[0] && ([ls[0]] + rest)[1..] == rest;
        assert Values(Skeleton(ls), key) == head + Values(rest, key);
      } else {
        assert Skeleton(ls) == rest;
        assert head == [];
      }
    }
  }

  lemma {:induction false} StanzasViaSkeleton(ls: seq<Line>)
    ensures Stanzas(ls) == Stanzas(Skeleton(ls))
    decreases |ls|
  {
    if ls != [] {
      StanzasViaSkeleton(ls[1..]);
      var head := if ls[0].Stanza? then [ls[0].header] else [];
      var rest := Skeleton(ls[1..]);
      if ls[0].Field? || ls[0].Stanza? {
        assert Skeleton(ls) == [ls[0]] + rest;
        assert ([ls[0]] + rest)[0] == ls[0] && ([ls[0]] + rest)[1..] == rest;
        assert Stanzas(Skeleton(ls)) == head + Stanzas(rest);
      } else {
        assert Skeleton(ls) == rest;
        assert head == [];
      }
    }
  }

  // The shapes of the template's sections, stated over arbitrary notes so that
  // the proofs never look inside the comment text.

  lemma SilentThenStructural(n: seq<Line>, ls: seq<Line>)
    requires Skeleton(n) == [] && Structural(ls)
    ensures Skeleton(n + ls) == ls
  {
    SkeletonAppend(n, ls);
    StructuralIsKept(ls);
  }

  lemma HeaderShape(f1: Line, n1: seq<Line>, f2: Line, n2: seq<Line>, f3: Line, n3: seq<Line>)
    requires (f1.Field? || f1.Stanza?) && (f2.Field? || f2.Stanza?) && (f3.Field? || f3.Stanza?)
    requires Skeleton(n1) == [] && Skeleton(n2) == [] && Skeleton(n3) == []
    ensures Skeleton([f1] + n1 + [f2] + n2 + [f3] + n3) == [f1, f2, f3]
  {
    SkeletonAppend([f1], n1);
    SkeletonAppend([f1] + n1, [f2]);
    SkeletonAppend([f1] + n1 + [f2], n2);
    SkeletonAppend([f1] + n1 + [f2] + n2, [f3]);
    SkeletonAppend([f1] + n1 + [f2] + n2 + [f3], n3);
  }

  lemma SkeletonSingle(l: Line)
    requires l.Field? || l.Stanza?
    ensures Skeleton([l]) == [l]
  {
  }

  /** A note followed by a field or stanza line adds just that line. */
  lemma NoteThenLine(p: seq<Line>, n: seq<Line>, f: Line)
    requires Skeleton(n) == [] && (f.Field? || f.Stanza?)
    ensures Skeleton(p + n + [f]) == Skeleton(p) + [f]
  {
    SkeletonAppend(p, n);
    SkeletonAppend(p + n, [f]);
    SkeletonSingle(f);
  }

  lemma LibraryShape(s: Line, n1: seq<Line>, f1: Line, n2: seq<Line>, f2: Line, n3: seq<Line>,
                     f3: Line, n4: seq<Line>, f4: Line, n5: seq<Line>, f5: Line)
    requires s.Stanza? && f1.Field? && f2.Field? && f3.Field? && f4.Field? && f5.Field?
    requires Skeleton(n1) == [] && Skeleton(n2) == [] && Skeleton(n3) == []
    requires Skeleton(n4) == [] && Skeleton(n5) == []
    ensures Skeleton([s] + n1 + [f1] + n2 + [f2] + n3 + [f3] + n4 + [f4] + n5 + [f5, Blank])
         == [s, f1, f2, f3, f4, f5]
  {
    SkeletonSingle(s);
    var p1 := [s] + n1 + [f1];
    NoteThenLine([s], n1, f1);
    var p2 := p1 + n2 + [f2];
    NoteThenLine(p1, n2, f2);
    var p3 := p2 + n3 + [f3];
    NoteThenLine(p2, n3, f3);
    var p4 := p3 + n4 + [f4];
    NoteThenLine(p3, n4, f4);
    var p5 := p4 + n5 + [f5];
    NoteThenLine(p4, n5, f5);
    assert Skeleton(p5) == [s, f1, f2, f3, f4, f5];
    SkeletonAppend(p5, [Blank]);
    assert p5 + [Blank] == [s] + n1 + [f1] + n2 + [f2] + n3 + [f3] + n4 + [f4] + n5 + [f5, Blank];
  }

  lemma ExtraShape(n1: seq<Line>, f1: Line, n2: seq<Line>, s: Line, f2: Line, n3: seq<Line>)
    requires f1.Field? && s.Stanza? && f2.Field?
    requires Skeleton(n1) == [] && Skeleton(n2) == [] && Skeleton(n3) == []
    ensures Skeleton(n1 + [f1] + n2 + [s, f2] + n3) == [f1, s, f2]
  {
    SkeletonAppend(n1, [f1]);
    SkeletonAppend(n1 + [f1], n2);
    SkeletonAppend(n1 + [f1] + n2, [s, f2]);
    SkeletonAppend(n1 + [f1] + n2 + [s, f2], n3);
  }

  lemma ManifestShape(h: seq<Line>, b: seq<Line>, e: seq<Line>, w: seq<Line>,
                      l: seq<Line>, x: seq<Line>, t: seq<Line>)
    requires Skeleton(e) == [] && Skeleton(t) == []
    ensures Skeleton(h + b + e + w + l + x + t)
         == Skeleton(h) + Skeleton(b) + Skeleton(w) + Skeleton(l) + Skeleton(x)
  {
    SkeletonAppend(h, b);
    SkeletonAppend(h + b, e);
    SkeletonAppend(h + b + e, w);
    SkeletonAppend(h + b + e + w, l);
    SkeletonAppend(h + b + e + w + l, x);
    SkeletonAppend(h + b + e + w + l + x, t);
  }

  // ---------------------------------------------------------------------------
  // The structure of each section and of the whole description

  /** The fields of the header: the Cabal specification version, the package
      name and its version. */
  function HeaderOutline(packageName: string, version: string): seq<Line> {
    [CabalVersionField, Field(0, "name", 15, packageName), Field(0, "version", 12, version)]
  }

  /** The build type: `Simple` in nix mode, otherwise `Custom` with its
      `custom-setup` stanza. */
  function BuildTypeOutline(enableNix: bool): seq<Line> {
    if enableNix then [Field(0, "build-type", 9, "Simple")]
    else [Field(0, "build-type", 9, "Custom"), Stanza(0, "custom-setup"),
          Field(4, "setup-depends", 2, "Cabal, base, directory, process")]
  }

  const WarningsOutline: seq<Line> := [Stanza(0, "common warnings"), Field(4, "ghc-options", 1, "-Wall")]

  function LibraryOutline(moduleName: string): seq<Line> {
    [Stanza(0, "library"), Field(4, "import", 11, "warnings"),
     Field(4, "exposed-modules", 2, moduleName), Field(4, "build-depends", 4, "base"),
     Field(4, "hs-source-dirs", 3, "src"), Field(4, "default-language", 1, "Haskell2010")]
  }

  /** How the library's native code is linked: against the system library
      (plus the Windows system libraries) in nix mode, bundled otherwise. */
  function ExtraOutline(enableNix: bool, libName: string): seq<Line> {
    if enableNix then [Field(4, "extra-libraries", 2, libName), Stanza(2, "if os(windows)"),
                       Field(4, "extra-libraries", 1, "userenv ws2_32 bcrypt")]
    else [Field(4, "extra-bundled-libraries", 1, libName)]
  }

  /** The fields and stanza headers the description holds, in order: the
      template with its comments and blank lines left out. */
  function Outline(packageName: string, moduleName: string, version: string, libName: string,
                   enableNix: bool): seq<Line>
  {
    HeaderOutline(packageName, version) + BuildTypeOutline(enableNix) + WarningsOutline
    + LibraryOutline(moduleName) + ExtraOutline(enableNix, libName)
  }

  // Each comment block is shown to be prose on its own: the blocks' text is
  // long, and the solver handles one block at a time far better than all of
  // them together.

  lemma CabalVersionNoteIsProse()
    ensures Prose(CabalVersionNote)
  {
  }

  lemma VersionNoteIsProse()
    ensures Prose(VersionNote)
  {
  }

  lemma MetadataNoteIsProse()
    ensures Prose(MetadataNote)
  {
  }

  lemma ExtraFilesNoteIsProse()
    ensures Prose(ExtraFilesNote)
  {
  }

  lemma LibraryNotesAreProse()
    ensures Prose(CustomSetupNote) && Prose(ImportNote) && Prose(ExposedModulesNote)
    ensures Prose(BuildDependsNote) && Prose(SourceDirsNote) && Prose(LanguageNote)
  {
  }

  lemma LinkageNotesAreProse()
    ensures Prose(HaskellNixNote) && Prose(CrossCompilationNote) && Prose(MissingSymbolsNote)
    ensures Prose(BundledNote) && Prose(Trailer)
  {
  }

  /** The template's comment blocks are prose, and those between sections are
      not empty. */
  lemma TemplateIsWellFormed()
    ensures WellFormedNotes(Template)
  {
    CabalVersionNoteIsProse();
    VersionNoteIsProse();
    MetadataNoteIsProse();
    ExtraFilesNoteIsProse();
    LibraryNotesAreProse();
    LinkageNotesAreProse();
  }

  lemma HeaderSkeleton(n: Notes, packageName: string, version: string)
    requires WellFormedNotes(n)
    ensures Skeleton(PackageHeader(n, packageName, version)) == HeaderOutline(packageName, version)
  {
    ProseIsSilent(n.cabalVersion);
    ProseIsSilent(n.version);
    ProseIsSilent(n.metadata);
    HeaderShape(CabalVersionField, n.cabalVersion, Field(0, "name", 15, packageName), n.version,
                Field(0, "version", 12, version), n.metadata);
  }

  lemma BuildTypeSkeleton(n: Notes, enableNix: bool)
    requires WellFormedNotes(n)
    ensures Skeleton(BuildType(n, enableNix)) == BuildTypeOutline(enableNix)
  {
    if !enableNix {
      ProseIsSilent(n.customSetup);
      SilentThenStructural(n.customSetup, BuildTypeOutline(false));
    }
  }

  lemma CommonWarningsSkeleton()
    ensures Skeleton(CommonWarnings) == WarningsOutline
  {
    SkeletonAppend(WarningsOutline, [Blank]);
    StructuralIsKept(WarningsOutline);
    assert CommonWarnings == WarningsOutline + [Blank];
  }

  lemma LibrarySkeleton(n: Notes, moduleName: string)
    requires WellFormedNotes(n)
    ensures Skeleton(Library(n, moduleName)) == LibraryOutline(moduleName)
  {
    ProseIsSilent(n.imports);
    ProseIsSilent(n.exposedModules);
    ProseIsSilent(n.buildDepends);
    ProseIsSilent(n.sourceDirs);
    ProseIsSilent(n.language);
    LibraryShape(Stanza(0, "library"), n.imports, Field(4, "import", 11, "warnings"), n.exposedModules,
                 Field(4, "exposed-modules", 2, moduleName), n.buildDepends,
                 Field(4, "build-depends", 4, "base"), n.sourceDirs,
                 Field(4, "hs-source-dirs", 3, "src"), n.language,
                 Field(4, "default-language", 1, "Haskell2010"));
  }

  lemma ExtraSkeleton(n: Notes, enableNix: bool, libName: string)
    requires WellFormedNotes(n)
    ensures Skeleton(Extra(n, enableNix, libName)) == ExtraOutline(enableNix, libName)
  {
    if enableNix {
      ProseIsSilent(n.haskellNix);
      ProseIsSilent(n.crossCompilation);
      ProseIsSilent(n.missingSymbols);
      ExtraShape(n.haskellNix, Field(4, "extra-libraries", 2, libName), n.crossCompilation,
                 Stanza(2, "if os(windows)"), Field(4, "extra-libraries", 1, "userenv ws2_32 bcrypt"),
                 n.missingSymbols);
    } else {
      ProseIsSilent(n.bundled);
      SilentThenStructural(n.bundled, ExtraOutline(false, libName));
    }
  }

  /** Whatever prose fills the template, it adds no field and no stanza. */
  lemma AssembledSkeleton(n: Notes, name: string, moduleName: string, version: string, enableNix: bool)
    requires WellFormedNotes(n)
    ensures Skeleton(Assemble(n, name, moduleName, version, enableNix))
         == Outline(PackageName(name), moduleName, version, LibName(name), enableNix)
  {
    ProseIsSilent(n.extraFiles);
    ProseIsSilent(n.trailer);
    HeaderSkeleton(n, PackageName(name), version);
    BuildTypeSkeleton(n, enableNix);
    CommonWarningsSkeleton();
    LibrarySkeleton(n, moduleName);
    ExtraSkeleton(n, enableNix, LibName(name));
    ManifestShape(PackageHeader(n, PackageName(name), version), BuildType(n, enableNix), n.extraFiles,
                  CommonWarnings, Library(n, moduleName), Extra(n, enableNix, LibName(name)), n.trailer);
  }

  /** The comment prose adds no field and no stanza: the description's
      structure is its outline. */
  lemma ManifestSkeleton(name: string, moduleName: string, version: string, enableNix: bool)
    ensures Skeleton(Manifest(name, moduleName, version, enableNix))
         == Outline(PackageName(name), moduleName, version, LibName(name), enableNix)
  {
    TemplateIsWellFormed();
    AssembledSkeleton(Template, name, moduleName, version, enableNix);
  }

  // ---------------------------------------------------------------------------
  // Field values and stanzas of the outline

  /** No field named `key`: no value. */
  lemma {:induction false} ValuesAbsent(ls: seq<Line>, key: string)
    requires forall i :: 0 <= i < |ls| ==> !(ls[i].Field? && ls[i].key == key)
    ensures Values(ls, key) == []
    decreases |ls|
  {
    if ls != [] {
      ValuesAbsent(ls[1..], key);
    }
  }

  /** A key held by exactly one field has exactly that field's value. */
  lemma ValuesUnique(ls: seq<Line>, i: nat, key: string)
    requires i < |ls| && ls[i].Field? && ls[i].key == key
    requires forall j :: 0 <= j < |ls| && j != i ==> !(ls[j].Field? && ls[j].key == key)
    ensures Values(ls, key) == [ls[i].value]
  {
    assert ls == ls[..i] + ([ls[i]] + ls[i + 1..]);
    ValuesAppend(ls[..i], [ls[i]] + ls[i + 1..], key);
    ValuesAppend([ls[i]], ls[i + 1..], key);
    ValuesAbsent(ls[..i], key);
    ValuesAbsent(ls[i + 1..], key);
  }

  lemma SectionValues(h: seq<Line>, b: seq<Line>, w: seq<Line>, l: seq<Line>, x: seq<Line>, key: string)
    ensures Values(h + b + w + l + x, key)
         == Values(h, key) + Values(b, key) + Values(w, key) + Values(l, key) + Values(x, key)
  {
    ValuesAppend(h, b, key);
    ValuesAppend(h + b, w, key);
    ValuesAppend(h + b + w, l, key);
    ValuesAppend(h + b + w + l, x, key);
  }

  lemma SectionStanzas(h: seq<Line>, b: seq<Line>, w: seq<Line>, l: seq<Line>, x: seq<Line>)
    ensures Stanzas(h + b + w + l + x) == Stanzas(h) + Stanzas(b) + Stanzas(w) + Stanzas(l) + Stanzas(x)
  {
    StanzasAppend(h, b);
    StanzasAppend(h + b, w);
    StanzasAppend(h + b + w, l);
    StanzasAppend(h + b + w + l, x);
  }

  /** No stanza header: no stanza. */
  lemma {:induction false} NoStanzas(ls: seq<Line>)
    requires forall i :: 0 <= i < |ls| ==> !ls[i].Stanza?
    ensures Stanzas(ls) == []
    decreases |ls|
  {
    if ls != [] {
      NoStanzas(ls[1..]);
    }
  }

  /** A list opening exactly one stanza lists exactly that header. */
  lemma StanzaUnique(ls: seq<Line>, i: nat)
    requires i < |ls| && ls[i].Stanza?
    requires forall j :: 0 <= j < |ls| && j != i ==> !ls[j].Stanza?
    ensures Stanzas(ls) == [ls[i].header]
  {
    assert ls == ls[..i] + ([ls[i]] + ls[i + 1..]);
    StanzasAppend(ls[..i], [ls[i]] + ls[i + 1..]);
    StanzasAppend([ls[i]], ls[i + 1..]);
    NoStanzas(ls[..i]);
    NoStanzas(ls[i + 1..]);
  }

  /** The stanzas opened: `custom-setup` only outside nix mode, the Windows
      sub-stanza only in nix mode. */
  lemma OutlineStanzas(packageName: string, moduleName: string, version: string, libName: string, enableNix: bool)
    ensures Stanzas(Outline(packageName, moduleName, version, libName, enableNix))
         == (if enableNix then [] else ["custom-setup"]) + ["common warnings", "library"]
            + (if enableNix then ["if os(windows)"] else [])
  {
    var h, b, w, l, x := HeaderOutline(packageName, version), BuildTypeOutline(enableNix), WarningsOutline,
                         LibraryOutline(moduleName), ExtraOutline(enableNix, libName);
    SectionStanzas(h, b, w, l, x);
    FixedSectionStanzas(packageName, moduleName, version);
    ModeSectionStanzas(enableNix, libName);
    StanzaRegroup(if enableNix then [] else ["custom-setup"], "common warnings", "library",
                  if enableNix then ["if os(windows)"] else []);
  }

  lemma StanzaRegroup(p: seq<string>, u: string, v: string, q: seq<string>)
    ensures [] + p + [u] + [v] + q == p + [u, v] + q
  {
    assert [u] + [v] == [u, v];
  }

  /** `custom-setup` is among the stanzas only outside nix mode, and
      `if os(windows)` only in nix mode. */
  lemma StanzaMembership(enableNix: bool)
    ensures var stanzas := (if enableNix then [] else ["custom-setup"]) + ["common warnings", "library"]
                           + (if enableNix then ["if os(windows)"] else []);
            && ("custom-setup" in stanzas <==> !enableNix)
            && ("if os(windows)" in stanzas <==> enableNix)
  {
    var stanzas := (if enableNix then [] else ["custom-setup"]) + ["common warnings", "library"]
                   + (if enableNix then ["if os(windows)"] else []);
    assert "custom-setup" != "common warnings" && "custom-setup" != "library";
    assert "if os(windows)" != "common warnings" && "if os(windows)" != "library";
    assert "custom-setup" != "if os(windows)";
    if enableNix {
      assert stanzas == ["common warnings", "library", "if os(windows)"];
    } else {
      assert stanzas == ["custom-setup", "common warnings", "library"];
    }
  }

  /** The header opens no stanza; `common warnings` and `library` open one
      each. */
  lemma FixedSectionStanzas(packageName: string, moduleName: string, version: string)
    ensures Stanzas(HeaderOutline(packageName, version)) == []
    ensures Stanzas(WarningsOutline) == ["common warnings"]
    ensures Stanzas(LibraryOutline(moduleName)) == ["library"]
  {
    NoStanzas(HeaderOutline(packageName, version));
    StanzaUnique(WarningsOutline, 0);
    StanzaUnique(LibraryOutline(moduleName), 0);
  }

  /** The build fragment opens `custom-setup` only outside nix mode, the
      linkage fragment `if os(windows)` only in nix mode. */
  lemma ModeSectionStanzas(enableNix: bool, libName: string)
    ensures Stanzas(BuildTypeOutline(enableNix)) == if enableNix then [] else ["custom-setup"]
    ensures Stanzas(ExtraOutline(enableNix, libName)) == if enableNix then ["if os(windows)"] else []
  {
    if enableNix {
      NoStanzas(BuildTypeOutline(enableNix));
      StanzaUnique(ExtraOutline(enableNix, libName), 1);
    } else {
      StanzaUnique(BuildTypeOutline(enableNix), 1);
      NoStanzas(ExtraOutline(enableNix, libName));
    }
  }

  /** The header fields each occur once and carry the specification version
      2.4, the package name and the version given. */
  lemma OutlineHeaderValues(packageName: string, moduleName: string, version: string, libName: string,
                            enableNix: bool)
    ensures Values(Outline(packageName, moduleName, version, libName, enableNix), "cabal-version") == ["2.4"]
    ensures Values(Outline(packageName, moduleName, version, libName, enableNix), "name") == [packageName]
    ensures Values(Outline(packageName, moduleName, version, libName, enableNix), "version") == [version]
  {
    var h, b, w, l, x := HeaderOutline(packageName, version), BuildTypeOutline(enableNix), WarningsOutline,
                         LibraryOutline(moduleName), ExtraOutline(enableNix, libName);
    HeaderKeyValues(h, b, w, l, x, "cabal-version", 0);
    HeaderKeyValues(h, b, w, l, x, "name", 1);
    HeaderKeyValues(h, b, w, l, x, "version", 2);
  }

  /** A key that only the header holds, at one position of it. */
  lemma HeaderKeyValues(h: seq<Line>, b: seq<Line>, w: seq<Line>, l: seq<Line>, x: seq<Line>,
                        key: string, i: nat)
    requires i < |h| && h[i].Field? && h[i].key == key
    requires forall j :: 0 <= j < |h| && j != i ==> !(h[j].Field? && h[j].key == key)
    requires forall j :: 0 <= j < |b| ==> !(b[j].Field? && b[j].key == key)
    requires forall j :: 0 <= j < |w| ==> !(w[j].Field? && w[j].key == key)
    requires forall j :: 0 <= j < |l| ==> !(l[j].Field? && l[j].key == key)
    requires forall j :: 0 <= j < |x| ==> !(x[j].Field? && x[j].key == key)
    ensures Values(h + b + w + l + x, key) == [h[i].value]
  {
    SectionValues(h, b, w, l, x, key);
    ValuesUnique(h, i, key);
    ValuesAbsent(b, key);
    ValuesAbsent(w, key);
    ValuesAbsent(l, key);
    ValuesAbsent(x, key);
  }

  /** Exactly one `build-type` field: `Simple` in nix mode, `Custom`
      otherwise; `setup-depends` appears only with the custom build. */
  lemma OutlineBuildTypeValues(packageName: string, moduleName: string, version: string, libName: string,
                               enableNix: bool)
    ensures Values(Outline(packageName, moduleName, version, libName, enableNix), "build-type")
         == [if enableNix then "Simple" else "Custom"]
    ensures Values(Outline(packageName, moduleName, version, libName, enableNix), "setup-depends")
         == if enableNix then [] else ["Cabal, base, directory, process"]
  {
    var h, b, w, l, x := HeaderOutline(packageName, version), BuildTypeOutline(enableNix), WarningsOutline,
                         LibraryOutline(moduleName), ExtraOutline(enableNix, libName);
    BuildTypeKeyValues(h, b, w, l, x, "build-type", 0);
    if enableNix {
      SectionValues(h, b, w, l, x, "setup-depends");
      ValuesAbsent(h, "setup-depends");
      ValuesAbsent(b, "setup-depends");
      ValuesAbsent(w, "setup-depends");
      ValuesAbsent(l, "setup-depends");
      ValuesAbsent(x, "setup-depends");
    } else {
      BuildTypeKeyValues(h, b, w, l, x, "setup-depends", 2);
    }
  }

  /** A key that only the build-type section holds, at one position of it. */
  lemma BuildTypeKeyValues(h: seq<Line>, b: seq<Line>, w: seq<Line>, l: seq<Line>, x: seq<Line>,
                           key: string, i: nat)
    requires forall j :: 0 <= j < |h| ==> !(h[j].Field? && h[j].key == key)
    requires forall j :: 0 <= j < |w| ==> !(w[j].Field? && w[j].key == key)
    requires forall j :: 0 <= j < |l| ==> !(l[j].Field? && l[j].key == key)
    requires forall j :: 0 <= j < |x| ==> !(x[j].Field? && x[j].key == key)
    requires i < |b| && b[i].Field? && b[i].key == key
    requires forall j :: 0 <= j < |b| && j != i ==> !(b[j].Field? && b[j].key == key)
    ensures Values(h + b + w + l + x, key) == [b[i].value]
  {
    SectionValues(h, b, w, l, x, key);
    ValuesAbsent(h, key);
    ValuesAbsent(w, key);
    ValuesAbsent(l, key);
    ValuesAbsent(x, key);
    ValuesUnique(b, i, key);
  }

  /** The library exposes exactly the module given. */
  lemma OutlineModuleValues(packageName: string, moduleName: string, version: string, libName: string,
                            enableNix: bool)
    ensures Values(Outline(packageName, moduleName, version, libName, enableNix), "exposed-modules")
         == [moduleName]
  {
    var h, b, w, l, x := HeaderOutline(packageName, version), BuildTypeOutline(enableNix), WarningsOutline,
                         LibraryOutline(moduleName), ExtraOutline(enableNix, libName);
    SectionValues(h, b, w, l, x, "exposed-modules");
    ValuesAbsent(h, "exposed-modules");
    ValuesAbsent(b, "exposed-modules");
    ValuesAbsent(w, "exposed-modules");
    ValuesUnique(l, 2, "exposed-modules");
    ValuesAbsent(x, "exposed-modules");
  }

  /** In nix mode the library links against the system library (and, on
      Windows, its system libraries); otherwise it bundles the library. The
      two kinds of linkage never occur together. */
  lemma OutlineLinkageValues(packageName: string, moduleName: string, version: string, libName: string,
                             enableNix: bool)
    ensures Values(Outline(packageName, moduleName, version, libName, enableNix), "extra-libraries")
         == if enableNix then [libName, "userenv ws2_32 bcrypt"] else []
    ensures Values(Outline(packageName, moduleName, version, libName, enableNix), "extra-bundled-libraries")
         == if enableNix then [] else [libName]
  {
    var h, b, w, l, x := HeaderOutline(packageName, version), BuildTypeOutline(enableNix), WarningsOutline,
                         LibraryOutline(moduleName), ExtraOutline(enableNix, libName);
    ExtraKeyValues(h, b, w, l, x, "extra-libraries");
    ExtraKeyValues(h, b, w, l, x, "extra-bundled-libraries");
    ExtraOutlineValues(enableNix, libName);
  }

  /** A key that no section before the linkage fragment holds. */
  lemma ExtraKeyValues(h: seq<Line>, b: seq<Line>, w: seq<Line>, l: seq<Line>, x: seq<Line>, key: string)
    requires forall j :: 0 <= j < |h| ==> !(h[j].Field? && h[j].key == key)
    requires forall j :: 0 <= j < |b| ==> !(b[j].Field? && b[j].key == key)
    requires forall j :: 0 <= j < |w| ==> !(w[j].Field? && w[j].key == key)
    requires forall j :: 0 <= j < |l| ==> !(l[j].Field? && l[j].key == key)
    ensures Values(h + b + w + l + x, key) == Values(x, key)
  {
    SectionValues(h, b, w, l, x, key);
    ValuesAbsent(h, key);
    ValuesAbsent(b, key);
    ValuesAbsent(w, key);
    ValuesAbsent(l, key);
  }

  /** The linkage fragment's own library fields, in each mode. */
  lemma ExtraOutlineValues(enableNix: bool, libName: string)
    ensures Values(ExtraOutline(enableNix, libName), "extra-libraries")
         == if enableNix then [libName, "userenv ws2_32 bcrypt"] else []
    ensures Values(ExtraOutline(enableNix, libName), "extra-bundled-libraries")
         == if enableNix then [] else [libName]
  {
    var x := ExtraOutline(enableNix, libName);
    if enableNix {
      ValuesAppend(x[..2], x[2..], "extra-libraries");
      assert x == x[..2] + x[2..];
      ValuesUnique(x[..2], 0, "extra-libraries");
      ValuesUnique(x[2..], 0, "extra-libraries");
      ValuesAbsent(x, "extra-bundled-libraries");
    } else {
      ValuesAbsent(x, "extra-libraries");
      ValuesUnique(x, 0, "extra-bundled-libraries");
    }
  }

  // ---------------------------------------------------------------------------
  // What the generated description declares

  lemma AssembledValues(n: Notes, name: string, moduleName: string, version: string, enableNix: bool, key: string)
    requires WellFormedNotes(n)
    ensures Values(Assemble(n, name, moduleName, version, enableNix), key)
         == Values(Outline(PackageName(name), moduleName, version, LibName(name), enableNix), key)
  {
    AssembledSkeleton(n, name, moduleName, version, enableNix);
    ValuesViaSkeleton(Assemble(n, name, moduleName, version, enableNix), key);
  }

  lemma AssembledStanzas(n: Notes, name: string, moduleName: string, version: string, enableNix: bool)
    requires WellFormedNotes(n)
    ensures Stanzas(Assemble(n, name, moduleName, version, enableNix))
         == (if enableNix then [] else ["custom-setup"]) + ["common warnings", "library"]
            + (if enableNix then ["if os(windows)"] else [])
  {
    AssembledSkeleton(n, name, moduleName, version, enableNix);
    StanzasViaSkeleton(Assemble(n, name, moduleName, version, enableNix));
    OutlineStanzas(PackageName(name), moduleName, version, LibName(name), enableNix);
  }

  /** The stanzas of the description, in order. */
  lemma ManifestStanzas(name: string, moduleName: string, version: string, enableNix: bool)
    ensures Stanzas(Manifest(name, moduleName, version, enableNix))
         == (if enableNix then [] else ["custom-setup"]) + ["common warnings", "library"]
            + (if enableNix then ["if os(windows)"] else [])
  {
    TemplateIsWellFormed();
    AssembledStanzas(Template, name, moduleName, version, enableNix);
  }

  /** Identity fields of any well-formed filling of the template. */
  lemma AssembledIdentity(n: Notes, name: string, moduleName: string, version: string, enableNix: bool)
    requires WellFormedNotes(n)
    ensures Values(Assemble(n, name, moduleName, version, enableNix), "cabal-version") == ["2.4"]
    ensures Values(Assemble(n, name, moduleName, version, enableNix), "name") == [PackageName(name)]
    ensures Values(Assemble(n, name, moduleName, version, enableNix), "version") == [version]
    ensures Values(Assemble(n, name, moduleName, version, enableNix), "exposed-modules") == [moduleName]
  {
    OutlineHeaderValues(PackageName(name), moduleName, version, LibName(name), enableNix);
    OutlineModuleValues(PackageName(name), moduleName, version, LibName(name), enableNix);
    AssembledValues(n, name, moduleName, version, enableNix, "cabal-version");
    AssembledValues(n, name, moduleName, version, enableNix, "name");
    AssembledValues(n, name, moduleName, version, enableNix, "version");
    AssembledValues(n, name, moduleName, version, enableNix, "exposed-modules");
  }

  /** The description declares Cabal specification 2.4, the package under its
      Cabal spelling of the crate name, the version given and the module given,
      each exactly once. */
  lemma ManifestIdentity(name: string, moduleName: string, version: string, enableNix: bool)
    ensures Values(Manifest(name, moduleName, version, enableNix), "cabal-version") == ["2.4"]
    ensures Values(Manifest(name, moduleName, version, enableNix), "name") == [PackageName(name)]
    ensures Values(Manifest(name, moduleName, version, enableNix), "version") == [version]
    ensures Values(Manifest(name, moduleName, version, enableNix), "exposed-modules") == [moduleName]
  {
    TemplateIsWellFormed();
    AssembledIdentity(Template, name, moduleName, version, enableNix);
  }

  /** The build type of any well-formed filling of the template. */
  lemma AssembledBuildType(n: Notes, name: string, moduleName: string, version: string, enableNix: bool)
    requires WellFormedNotes(n)
    ensures Values(Assemble(n, name, moduleName, version, enableNix), "build-type")
         == [if enableNix then "Simple" else "Custom"]
    ensures Values(Assemble(n, name, moduleName, version, enableNix), "setup-depends")
         == if enableNix then [] else ["Cabal, base, directory, process"]
    ensures "custom-setup" in Stanzas(Assemble(n, name, moduleName, version, enableNix)) <==> !enableNix
  {
    OutlineBuildTypeValues(PackageName(name), moduleName, version, LibName(name), enableNix);
    AssembledValues(n, name, moduleName, version, enableNix, "build-type");
    AssembledValues(n, name, moduleName, version, enableNix, "setup-depends");
    AssembledStanzas(n, name, moduleName, version, enableNix);
    StanzaMembership(enableNix);
  }

  /** Nix mode selects the `Simple` build; otherwise the build is `Custom`,
      with a `custom-setup` stanza and its setup dependencies. Exactly one
      build type is declared either way. */
  lemma BuildTypeExclusive(name: string, moduleName: string, version: string, enableNix: bool)
    ensures Values(Manifest(name, moduleName, version, enableNix), "build-type")
         == [if enableNix then "Simple" else "Custom"]
    ensures Values(Manifest(name, moduleName, version, enableNix), "setup-depends")
         == if enableNix then [] else ["Cabal, base, directory, process"]
    ensures "custom-setup" in Stanzas(Manifest(name, moduleName, version, enableNix)) <==> !enableNix
  {
    TemplateIsWellFormed();
    AssembledBuildType(Template, name, moduleName, version, enableNix);
  }

  /** The linkage of any well-formed filling of the template. */
  lemma AssembledLinkage(n: Notes, name: string, moduleName: string, version: string, enableNix: bool)
    requires WellFormedNotes(n)
    ensures Values(Assemble(n, name, moduleName, version, enableNix), "extra-libraries")
         == if enableNix then [LibName(name), "userenv ws2_32 bcrypt"] else []
    ensures Values(Assemble(n, name, moduleName, version, enableNix), "extra-bundled-libraries")
         == if enableNix then [] else [LibName(name)]
    ensures "if os(windows)" in Stanzas(Assemble(n, name, moduleName, version, enableNix)) <==> enableNix
  {
    OutlineLinkageValues(PackageName(name), moduleName, version, LibName(name), enableNix);
    AssembledValues(n, name, moduleName, version, enableNix, "extra-libraries");
    AssembledValues(n, name, moduleName, version, enableNix, "extra-bundled-libraries");
    AssembledStanzas(n, name, moduleName, version, enableNix);
    StanzaMembership(enableNix);
  }

  /** The crate's native library, under its library spelling of the crate
      name, is linked from the system in nix mode (with the Windows system
      libraries under `if os(windows)`) and bundled otherwise, never both. */
  lemma LinkageExclusive(name: string, moduleName: string, version: string, enableNix: bool)
    ensures Values(Manifest(name, moduleName, version, enableNix), "extra-libraries")
         == if enableNix then [LibName(name), "userenv ws2_32 bcrypt"] else []
    ensures Values(Manifest(name, moduleName, version, enableNix), "extra-bundled-libraries")
         == if enableNix then [] else [LibName(name)]
    ensures "if os(windows)" in Stanzas(Manifest(name, moduleName, version, enableNix)) <==> enableNix
  {
    TemplateIsWellFormed();
    AssembledLinkage(Template, name, moduleName, version, enableNix);
  }

  // ---------------------------------------------------------------------------
  // The generated text

  lemma {:induction false} TextAppend(a: seq<Line>, b: seq<Line>)
    requires a != [] && b != []
    ensures Text(a + b) == Text(a) + "\n" + Text(b)
    decreases |a|
  {
    assert (a + b)[0] == a[0];
    assert (a + b)[1..] == a[1..] + b;
    if |a| > 1 {
      TextAppend(a[1..], b);
    }
  }

  /** A line with lines on both sides appears in the text between two newlines. */
  lemma TextAround(a: seq<Line>, l: Line, b: seq<Line>)
    requires a != [] && b != []
    ensures Text(a + [l] + b) == Text(a) + "\n" + Render(l) + "\n" + Text(b)
  {
    calc {
      Text(a + [l] + b);
      { assert a + [l] + b == a + ([l] + b); }
      Text(a + ([l] + b));
      { TextAppend(a, [l] + b); }
      Text(a) + "\n" + Text([l] + b);
      { TextAppend([l], b); }
      Text(a) + "\n" + (Text([l]) + "\n" + Text(b));
      Text(a) + "\n" + (Render(l) + "\n" + Text(b));
      Text(a) + "\n" + Render(l) + "\n" + Text(b);
    }
  }

  /** `w` occurs in `s`. */
  predicate Occurs(w: string, s: string) {
    exists i :: 0 <= i <= |s| && w <= s[i..]
  }

  lemma OccursBetween(x: string, w: string, y: string)
    ensures Occurs(w, x + w + y)
  {
    assert w <= (x + w + y)[|x|..];
  }

  lemma TextOfSeven(p1: seq<Line>, p2: seq<Line>, p3: seq<Line>, p4: seq<Line>,
                    p5: seq<Line>, p6: seq<Line>, p7: seq<Line>)
    requires p1 != [] && p2 != [] && p3 != [] && p4 != [] && p5 != [] && p6 != [] && p7 != []
    ensures Text(p1 + p2 + p3 + p4 + p5 + p6 + p7)
         == Text(p1) + "\n" + Text(p2) + "\n" + Text(p3) + "\n" + Text(p4) + "\n"
            + Text(p5) + "\n" + Text(p6) + "\n" + Text(p7)
  {
    TextAppend(p1, p2);
    TextAppend(p1 + p2, p3);
    TextAppend(p1 + p2 + p3, p4);
    TextAppend(p1 + p2 + p3 + p4, p5);
    TextAppend(p1 + p2 + p3 + p4 + p5, p6);
    TextAppend(p1 + p2 + p3 + p4 + p5 + p6, p7);
  }

  /** A line with lines on both sides occurs in the text, newline to newline. */
  lemma OccursAround(a: seq<Line>, l: Line, b: seq<Line>)
    requires a != [] && b != []
    ensures Occurs("\n" + Render(l) + "\n", Text(a + [l] + b))
  {
    TextAround(a, l, b);
    Regroup3(Text(a), "\n", Render(l), "\n", Text(b));
    OccursBetween(Text(a), "\n" + Render(l) + "\n", Text(b));
  }

  lemma Regroup3(x: string, p: string, q: string, r: string, y: string)
    ensures x + p + q + r + y == x + (p + q + r) + y
  {
  }

  /** Regrouping a section split around one of its lines. */
  lemma SplitAround(pre: seq<Line>, a: seq<Line>, l: Line, b: seq<Line>, post: seq<Line>)
    ensures pre + (a + [l] + b) + post == (pre + a) + [l] + (b + post)
  {
  }

  /** A line of a section, with lines before and after it in the whole, occurs
      in the text of the whole. */
  lemma OccursInSection(pre: seq<Line>, a: seq<Line>, l: Line, b: seq<Line>, post: seq<Line>)
    requires pre + a != [] && b + post != []
    ensures Occurs("\n" + Render(l) + "\n", Text(pre + (a + [l] + b) + post))
  {
    SplitAround(pre, a, l, b, post);
    OccursAround(pre + a, l, b + post);
  }

  lemma Regroup(a: seq<Line>, b: seq<Line>, c: seq<Line>)
    ensures [] + (a + b) + c == a + (b + c)
  {
  }

  /** The text is the sections' texts, in template order, one newline apart. */
  lemma AssembledSections(n: Notes, name: string, moduleName: string, version: string, enableNix: bool)
    requires WellFormedNotes(n)
    ensures Text(Assemble(n, name, moduleName, version, enableNix))
         == Text(PackageHeader(n, PackageName(name), version)) + "\n" + Text(BuildType(n, enableNix)) + "\n"
            + Text(n.extraFiles) + "\n" + Text(CommonWarnings) + "\n" + Text(Library(n, moduleName)) + "\n"
            + Text(Extra(n, enableNix, LibName(name))) + "\n" + Text(n.trailer)
  {
    TextOfSeven(PackageHeader(n, PackageName(name), version), BuildType(n, enableNix), n.extraFiles,
                CommonWarnings, Library(n, moduleName), Extra(n, enableNix, LibName(name)), n.trailer);
  }

  lemma HeaderSplits(n: Notes, packageName: string, version: string)
    ensures PackageHeader(n, packageName, version)
         == [CabalVersionField] + (n.cabalVersion + [Field(0, "name", 15, packageName)] + n.version
                                   + [Field(0, "version", 12, version)] + n.metadata)
    ensures PackageHeader(n, packageName, version)
         == ([CabalVersionField] + n.cabalVersion) + [Field(0, "name", 15, packageName)]
            + (n.version + [Field(0, "version", 12, version)] + n.metadata)
    ensures PackageHeader(n, packageName, version)
         == ([CabalVersionField] + n.cabalVersion + [Field(0, "name", 15, packageName)] + n.version)
            + [Field(0, "version", 12, version)] + n.metadata
  {
  }

  lemma LibrarySplit(n: Notes, moduleName: string)
    ensures Library(n, moduleName)
         == ([Stanza(0, "library")] + n.imports + [Field(4, "import", 11, "warnings")] + n.exposedModules)
            + [Field(4, "exposed-modules", 2, moduleName)]
            + (n.buildDepends + [Field(4, "build-depends", 4, "base")] + n.sourceDirs
               + [Field(4, "hs-source-dirs", 3, "src")] + n.language
               + [Field(4, "default-language", 1, "Haskell2010"), Blank])
  {
  }

  lemma ExtraSplit(n: Notes, enableNix: bool, libName: string)
    ensures enableNix ==>
              Extra(n, enableNix, libName)
              == n.haskellNix + [Field(4, "extra-libraries", 2, libName)]
                 + (n.crossCompilation + [Stanza(2, "if os(windows)"),
                                          Field(4, "extra-libraries", 1, "userenv ws2_32 bcrypt")]
                    + n.missingSymbols)
    ensures !enableNix ==>
              Extra(n, enableNix, libName) == n.bundled + [Field(4, "extra-bundled-libraries", 1, libName)] + []
  {
  }

  lemma SevenGroupings(h: seq<Line>, b: seq<Line>, e: seq<Line>, w: seq<Line>,
                       l: seq<Line>, x: seq<Line>, t: seq<Line>)
    ensures h + b + e + w + l + x + t == [] + h + (b + e + w + l + x + t)
    ensures h + b + e + w + l + x + t == (h + b + e + w) + l + (x + t)
  {
  }

  /** The sections after the header. */
  function AfterHeader(n: Notes, moduleName: string, libName: string, enableNix: bool): seq<Line> {
    BuildType(n, enableNix) + n.extraFiles + CommonWarnings + Library(n, moduleName)
    + Extra(n, enableNix, libName) + n.trailer
  }

  /** The sections before the library stanza. */
  function BeforeLibrary(n: Notes, packageName: string, version: string, enableNix: bool): seq<Line> {
    PackageHeader(n, packageName, version) + BuildType(n, enableNix) + n.extraFiles + CommonWarnings
  }

  lemma AssembleGroupings(n: Notes, name: string, moduleName: string, version: string, enableNix: bool)
    ensures Assemble(n, name, moduleName, version, enableNix)
         == [] + PackageHeader(n, PackageName(name), version) + AfterHeader(n, moduleName, LibName(name), enableNix)
    ensures Assemble(n, name, moduleName, version, enableNix)
         == BeforeLibrary(n, PackageName(name), version, enableNix) + Library(n, moduleName)
            + (Extra(n, enableNix, LibName(name)) + n.trailer)
    ensures Assemble(n, name, moduleName, version, enableNix)
         == BeforeLibrary(n, PackageName(name), version, enableNix) + Library(n, moduleName)
            + Extra(n, enableNix, LibName(name)) + n.trailer
  {
    SevenGroupings(PackageHeader(n, PackageName(name), version), BuildType(n, enableNix), n.extraFiles,
                   CommonWarnings, Library(n, moduleName), Extra(n, enableNix, LibName(name)), n.trailer);
  }

  lemma AssembledFirstLine(n: Notes, name: string, moduleName: string, version: string, enableNix: bool)
    requires WellFormedNotes(n)
    ensures Render(Field(0, "cabal-version", 6, "2.4")) + "\n" <= Text(Assemble(n, name, moduleName, version, enableNix))
  {
    var rest := n.cabalVersion + [Field(0, "name", 15, PackageName(name))] + n.version
                + [Field(0, "version", 12, version)] + n.metadata;
    var after := AfterHeader(n, moduleName, LibName(name), enableNix);
    AssembleGroupings(n, name, moduleName, version, enableNix);
    HeaderSplits(n, PackageName(name), version);
    Regroup([CabalVersionField], rest, after);
    TextAppend([CabalVersionField], rest + after);
  }

  lemma AssembledHeaderLines(n: Notes, name: string, moduleName: string, version: string, enableNix: bool)
    requires WellFormedNotes(n)
    ensures Occurs("\n" + Render(Field(0, "name", 15, PackageName(name))) + "\n",
                   Text(Assemble(n, name, moduleName, version, enableNix)))
    ensures Occurs("\n" + Render(Field(0, "version", 12, version)) + "\n",
                   Text(Assemble(n, name, moduleName, version, enableNix)))
  {
    var nameField := Field(0, "name", 15, PackageName(name));
    var versionField := Field(0, "version", 12, version);
    var after := AfterHeader(n, moduleName, LibName(name), enableNix);
    AssembleGroupings(n, name, moduleName, version, enableNix);
    HeaderSplits(n, PackageName(name), version);
    OccursInSection([], [CabalVersionField] + n.cabalVersion, nameField,
                    n.version + [versionField] + n.metadata, after);
    OccursInSection([], [CabalVersionField] + n.cabalVersion + [nameField] + n.version,
                    versionField, n.metadata, after);
  }

  lemma AssembledModuleLine(n: Notes, name: string, moduleName: string, version: string, enableNix: bool)
    requires WellFormedNotes(n)
    ensures Occurs("\n" + Render(Field(4, "exposed-modules", 2, moduleName)) + "\n",
                   Text(Assemble(n, name, moduleName, version, enableNix)))
  {
    AssembleGroupings(n, name, moduleName, version, enableNix);
    LibrarySplit(n, moduleName);
    OccursInSection(BeforeLibrary(n, PackageName(name), version, enableNix),
                    [Stanza(0, "library")] + n.imports + [Field(4, "import", 11, "warnings")] + n.exposedModules,
                    Field(4, "exposed-modules", 2, moduleName),
                    n.buildDepends + [Field(4, "build-depends", 4, "base")] + n.sourceDirs
                    + [Field(4, "hs-source-dirs", 3, "src")] + n.language
                    + [Field(4, "default-language", 1, "Haskell2010"), Blank],
                    Extra(n, enableNix, LibName(name)) + n.trailer);
  }

  lemma AssembledLibraryLine(n: Notes, name: string, moduleName: string, version: string, enableNix: bool)
    requires WellFormedNotes(n)
    ensures enableNix ==> Occurs("\n" + Render(Field(4, "extra-libraries", 2, LibName(name))) + "\n",
                                 Text(Assemble(n, name, moduleName, version, enableNix)))
    ensures !enableNix ==> Occurs("\n" + Render(Field(4, "extra-bundled-libraries", 1, LibName(name))) + "\n",
                                  Text(Assemble(n, name, moduleName, version, enableNix)))
  {
    var before := BeforeLibrary(n, PackageName(name), version, enableNix) + Library(n, moduleName);
    AssembleGroupings(n, name, moduleName, version, enableNix);
    ExtraSplit(n, enableNix, LibName(name));
    if enableNix {
      OccursInSection(before, n.haskellNix, Field(4, "extra-libraries", 2, LibName(name)),
                      n.crossCompilation + [Stanza(2, "if os(windows)"),
                                            Field(4, "extra-libraries", 1, "userenv ws2_32 bcrypt")]
                      + n.missingSymbols, n.trailer);
    } else {
      OccursInSection(before, n.bundled, Field(4, "extra-bundled-libraries", 1, LibName(name)), [], n.trailer);
    }
  }

  /** The generated text is the texts of its sections, in template order, one
      newline apart. */
  lemma GenerateSections(name: string, moduleName: string, version: string, enableNix: bool)
    ensures Generate(name, moduleName, version, enableNix)
         == Text(PackageHeader(Template, PackageName(name), version)) + "\n"
            + Text(BuildType(Template, enableNix)) + "\n" + Text(ExtraFilesNote) + "\n"
            + Text(CommonWarnings) + "\n" + Text(Library(Template, moduleName)) + "\n"
            + Text(Extra(Template, enableNix, LibName(name))) + "\n" + Text(Trailer)
  {
    TemplateIsWellFormed();
    AssembledSections(Template, name, moduleName, version, enableNix);
  }

  /** The generated text starts with the specification version line. */
  lemma GenerateFirstLine(name: string, moduleName: string, version: string, enableNix: bool)
    ensures Render(Field(0, "cabal-version", 6, "2.4")) + "\n" <= Generate(name, moduleName, version, enableNix)
  {
    TemplateIsWellFormed();
    AssembledFirstLine(Template, name, moduleName, version, enableNix);
  }

  /** The package name and the version stand on lines of their own. */
  lemma GenerateHeaderLines(name: string, moduleName: string, version: string, enableNix: bool)
    ensures Occurs("\n" + Render(Field(0, "name", 15, PackageName(name))) + "\n", Generate(name, moduleName, version, enableNix))
    ensures Occurs("\n" + Render(Field(0, "version", 12, version)) + "\n", Generate(name, moduleName, version, enableNix))
  {
    TemplateIsWellFormed();
    AssembledHeaderLines(Template, name, moduleName, version, enableNix);
  }

  /** The exported module stands on a line of its own. */
  lemma GenerateModuleLine(name: string, moduleName: string, version: string, enableNix: bool)
    ensures Occurs("\n" + Render(Field(4, "exposed-modules", 2, moduleName)) + "\n",
                   Generate(name, moduleName, version, enableNix))
  {
    TemplateIsWellFormed();
    AssembledModuleLine(Template, name, moduleName, version, enableNix);
  }

  /** The native library stands on a line of its own: as a system library in
      nix mode, as a bundled one otherwise. */
  lemma GenerateLibraryLine(name: string, moduleName: string, version: string, enableNix: bool)
    ensures enableNix ==> Occurs("\n" + Render(Field(4, "extra-libraries", 2, LibName(name))) + "\n",
                                 Generate(name, moduleName, version, enableNix))
    ensures !enableNix ==> Occurs("\n" + Render(Field(4, "extra-bundled-libraries", 1, LibName(name))) + "\n",
                                  Generate(name, moduleName, version, enableNix))
  {
    TemplateIsWellFormed();
    AssembledLibraryLine(Template, name, moduleName, version, enableNix);
  }
}
