# hackage-pack: the generated `.cabal` file

`generate` (src/cabal.rs) writes the `.cabal` package description that wraps a
Rust crate as a Haskell package. It takes the crate name, the Haskell module to
expose, the version, and the `--enable-nix` switch. It returns one string
built with `format!`.

This project models that function in Dafny and proves what the description
declares.

- `names.dfy` (module `Names`): the two spellings of the crate name.
  - `LibName` replaces every `-` with `_`. Cargo's native library is named this way.
  - `PackageName` replaces every `_` with `-`. Cabal package names are spelled this way.
  - Both are computed from the original name.
- `cabal.dfy` (module `Cabal`): the template, written line by line.
  - A line is blank, a `--` comment, a `key: value` field, or a stanza header.
  - Indentation and the spaces after each `key:` are kept exactly.
  - `Text` joins the rendered lines with newlines, with no newline after the last line. `Generate` is `Text` of `Manifest`.
  - The two mode-dependent fragments are `BuildType` (source lines 3-12) and `Extra` (lines 17-40).
  - The header, `common warnings` and `library` sections and the closing comments are lines 43-133.
  - Every comment line of the template is copied into the model as data. The
    fifteen comment blocks are gathered in `Template`, a value of type `Notes`.
  - `Assemble` fills the template's fields and stanzas in between any `Notes`.
    `Manifest` is `Assemble` applied to `Template`.

Three queries read the line model:
- `Skeleton`: the fields and stanza headers, in order;
- `Values`: the values of one key;
- `Stanzas`: the stanza headers.

`AssembledSkeleton` proves that comment prose adds no field and no stanza,
whatever its text: the fields and stanzas of the assembled lines are exactly
`Outline`. `TemplateIsWellFormed` shows that the template's blocks are such
prose, and `ManifestSkeleton` applies the one to the other.

Three further lemmas follow from that:
- `ManifestIdentity`: the header fields and the exposed module;
- `BuildTypeExclusive`: the mode-dependent build type;
- `LinkageExclusive`: how the native library is linked.

The `Generate*` lemmas connect the line model to the output string. The text starts with the `cabal-version` line, and the package name, the version, the module and the library name each appear verbatim after their key, between two newlines.

## Model

| member | source | states |
|---|---|---|
| Names.ReplaceChar | src/cabal.rs:14-15 | result has the input's length; position i holds `to` where the input held `from`, and the input's character elsewhere |
| Names.LibName | src/cabal.rs:14 | same length as the crate name, contains no `-`, every `-` became `_`, every other character unchanged |
| Names.PackageName | src/cabal.rs:15 | same length as the crate name, contains no `_`, every `_` became `-`, every other character unchanged |
| Names.ReplaceCharIdempotent | src/cabal.rs:14-15 | for any two characters, replacing the one by the other a second time changes nothing |
| Names.LibNameIdempotent | src/cabal.rs:14 | normalising a library name again gives the same name |
| Names.PackageNameIdempotent | src/cabal.rs:15 | normalising a package name again gives the same name |
| Names.NormalisationsAbsorb | src/cabal.rs:14-15 | package spelling of the library spelling equals the package spelling of the crate name, and the other way round: neither spelling loses information the other keeps |
| Names.NamesDifferAtSeparators | src/cabal.rs:14-15 | the two spellings differ exactly at the positions where the crate name has `-` or `_` |
| Names.NamesAgreeIffNoSeparator | src/cabal.rs:14-15 | the two spellings are equal if and only if the crate name has neither `-` nor `_` |
| Names.MixedSeparatorsExample | src/cabal.rs:14-15 | for `a-b_c`, the library name is `a_b_c` and the package name is `a-b-c`: both spellings come from the original name |
| Cabal.HeaderSkeleton | src/cabal.rs:43-84 | the header's fields are `cabal-version: 2.4`, `name` with the package name and `version` with the version, in that order, and nothing else |
| Cabal.BuildTypeSkeleton | src/cabal.rs:3-12 | the build fragment holds `build-type: Simple` in nix mode; otherwise it holds `build-type: Custom`, the `custom-setup` stanza and its `setup-depends` |
| Cabal.CommonWarningsSkeleton | src/cabal.rs:102-104 | the `common warnings` stanza sets `ghc-options: -Wall` |
| Cabal.LibrarySkeleton | src/cabal.rs:105-126 | the `library` stanza imports `warnings`, exposes the module given, depends on `base`, reads `src` and uses Haskell2010, in that order |
| Cabal.ExtraSkeleton | src/cabal.rs:17-40 | in nix mode the linkage fragment holds `extra-libraries` with the library name, then an `if os(windows)` stanza adding `userenv ws2_32 bcrypt`; otherwise it holds `extra-bundled-libraries` with the library name |
| Cabal.TemplateIsWellFormed | src/cabal.rs:7-133 | every comment block of the template holds only blank and `--` comment lines, and the blocks that separate the sections are not empty |
| Cabal.AssembledSkeleton | src/cabal.rs:42-134 | for any prose in the comment blocks, the fields and stanzas of the assembled description are exactly the outline; the prose adds none |
| Cabal.ManifestSkeleton | src/cabal.rs:42-134 | the fields and stanzas of the whole description, in order, are exactly the outline built from the package name, the module, the version and the library name; the comments add none |
| Cabal.OutlineStanzas | src/cabal.rs:42-134 | the stanzas opened are `custom-setup` only outside nix mode, then `common warnings` and `library`, then `if os(windows)` only in nix mode |
| Cabal.OutlineHeaderValues | src/cabal.rs:43-64 | `cabal-version`, `name` and `version` each occur once, with 2.4, the package name and the version |
| Cabal.OutlineBuildTypeValues | src/cabal.rs:3-12 | exactly one `build-type`: `Simple` in nix mode and `Custom` otherwise; `setup-depends` occurs only with the custom build |
| Cabal.OutlineModuleValues | src/cabal.rs:110 | `exposed-modules` occurs once, with the module given |
| Cabal.OutlineLinkageValues | src/cabal.rs:17-40 | `extra-libraries` lists the library name and the Windows system libraries in nix mode and is absent otherwise; `extra-bundled-libraries` lists the library name only outside nix mode |
| Cabal.ManifestIdentity | src/cabal.rs:43-110 | the generated description declares Cabal 2.4, the package-spelled crate name, the version and the module, each exactly once |
| Cabal.BuildTypeExclusive | src/cabal.rs:3-12 | the description's single build type is `Simple` in nix mode and `Custom` otherwise; a `custom-setup` stanza and setup dependencies are present if and only if nix mode is off |
| Cabal.LinkageExclusive | src/cabal.rs:17-40 | the native library, under its library spelling, is linked from the system in nix mode and bundled otherwise, never both; the `if os(windows)` stanza is present if and only if nix mode is on |
| Cabal.ManifestStanzas | src/cabal.rs:42-134 | the stanzas of the description, in order, for each mode |
| Cabal.GenerateSections | src/cabal.rs:42-134 | the output is the texts of the header, build, extra-files, warnings, library, linkage and closing sections, in that order, one newline apart |
| Cabal.GenerateFirstLine | src/cabal.rs:43 | the output starts with the line `cabal-version:      2.4` |
| Cabal.GenerateHeaderLines | src/cabal.rs:55-64 | the package name and the version each appear verbatim after their keys and alignment spaces, between two newlines |
| Cabal.GenerateModuleLine | src/cabal.rs:110 | the module appears verbatim after the `exposed-modules` key and its alignment spaces, between two newlines |
| Cabal.GenerateLibraryLine | src/cabal.rs:17-40 | the library name appears verbatim between two newlines, after the `extra-libraries` key in nix mode and after the `extra-bundled-libraries` key otherwise |

## Left out

- The caller is not part of this model. It reads the crate's metadata and the `--enable-nix` command-line option and writes the file to disk. Here the four arguments are parameters and the result is a value.
- Rust's `str::replace` is modelled as a map over the characters. Both replaced characters are ASCII, so a UTF-8 byte view and a character view agree.
- `format!` is modelled as the concatenation of the template's lines.
- No input is validated or escaped. This matches the source. A name, module or version containing a newline would add lines to the text. `Values` and `Stanzas` read the line model, not a re-parse of the text.
- The text of each comment line is copied as data, but no lemma looks inside it. For example, the model does not prove that comments contain no newline. Inspecting characters of such long literals is beyond what the verifier handles here. The properties are therefore stated on the line model and linked to the output string only by occurrence.
- Cabal.GenerateHeaderLines: proves only that each line occurs in the text, not that it occurs once. Uniqueness is proved on the line model by ManifestIdentity.
- Cabal.GenerateModuleLine: occurrence only, as above. Uniqueness is proved by ManifestIdentity.
- Cabal.GenerateLibraryLine: occurrence only, as above. Uniqueness is proved by LinkageExclusive.
