# Version descriptors of the visual runtime build

The build script `Gruntfile.js` computes, once at start-up, a table of
version descriptors that the build tasks use. Each descriptor names a library
version, optionally a revision (a date-time stamp), and the CDN path its
assets are served from. The descriptors cover:

- the Oracle JET library (`OJ_VERSION`);
- the JET dynamic-UI packs, under two names (`OJ_DYNAMIC_VERSION` and
  `OJ_DYN_VERSION`) plus the derived URL prefix `OJ_DYNAMIC`;
- the BOSS transforms loader (`BOSS_VERSION`);
- the telemetry library (`TELEMETRY_VERSION`).

Each default comes from a dependency path in `package.json` or a literal in
the script; a command-line option overrides it. Every final value is
`grunt.option(key) || default`.

This project models that computation in Dafny and proves properties of it:

- `Strings`: JavaScript `split` and `join` with a one-character separator,
  and leftmost substring search.
- `JsArrays`: `Array.prototype.slice` with negative, clamped indices, as
  ECMA-262 defines it.
- `Paths`: posix `path.basename` (with and without a suffix),
  `path.dirname`, and the script's `extractFolder`.
- `ArchiveNames`: splitting the JET folder name into a label and a
  five-segment revision, and the `/webdriver-(.*)/` match on the
  dynamic-UI webdriver archive.
- `Overrides`: the `grunt.option(key) || default` rule.
- `BuildConfig`: the manifest, the error cases, descriptor assembly, the
  semantic-version gate, and the final configuration record.

The computation is pure. Three things are inputs instead:

- the manifest (`Package`);
- the command-line options (`OptionSet`, a map from option key to string);
- the semantic-version check, a parameter `semverValid: string -> bool`.

### Behaviour worth knowing

- `extractFolder` returns the name of the folder that holds the archive,
  not the archive's own file name. The second argument `".tgz"` passed to it
  at line 25 is ignored, so `ParentFolder` takes the path alone.
- A JET folder name with at most five dash segments raises no error.
  JavaScript clamps the negative slice index: one, two or five segments give
  an empty label and the whole name as revision; three or four segments cut
  after the first or the third segment (`JetShortFolders`). These are the
  resolved `OJ_LABEL_DEFAULT` and `OJ_REVISION_DEFAULT` (`ReadDefaultsSources`).
- An override that is the empty string does not win. `||` treats `""` like
  a missing option, so the default is used (`EmptyOverrideIsAbsent`).

## Model

| member | source | states |
|---|---|---|
| Strings.Split | Gruntfile.js:27 | `split("-")` gives one more part than there are dashes, and no part contains a dash |
| Strings.Join | Gruntfile.js:30-31 | `Array.prototype.join`; its contract is carried by `JoinSplit`, `SplitJoin`, `JoinConcat` and `JoinSnoc`: join undoes split, split undoes join on dash-free parts, and joins compose with one separator between them |
| Strings.JoinSplit | Gruntfile.js:27-31 | joining with "-" what was split on "-" gives back the folder name |
| Strings.SplitJoin | Gruntfile.js:30-31 | splitting a dash-join of dash-free parts gives back exactly those parts |
| Strings.JoinConcat | Gruntfile.js:30-31 | joining two non-empty lists of parts puts exactly one dash between their joins |
| Strings.JoinSnoc | Gruntfile.js:30-31 | joining two or more parts is joining all but the last, a separator, then the last |
| Strings.SplitConcat | Gruntfile.js:27 | a dash between two strings separates their split parts |
| Strings.IndexOf | Gruntfile.js:54 | the result is the leftmost occurrence of the pattern, and `None` exactly when the pattern occurs nowhere |
| JsArrays.Slice | Gruntfile.js:30 | `slice(start, end)` holds the elements from the clamped start up to the clamped end, in order, and is empty when the end does not lie past the start |
| JsArrays.SliceFrom | Gruntfile.js:31 | `slice(start)` is the whole suffix from the clamped start |
| JsArrays.SlicePartition | Gruntfile.js:30-31 | `slice(0, k)` and `slice(k)` cut at the same clamped index, so together they give back the list for every `k` |
| Paths.BaseName | Gruntfile.js:49-52 | `path.basename(p)` is slash-free, a suffix of the path, and preceded by a slash unless it is the whole path: the last component |
| Paths.DirName | Gruntfile.js:14 | `path.dirname(p)` is "." for a path without a slash; otherwise it and the base name rebuild the path, as `dir + "/" + base` or, for a single leading slash, `"/" + base` |
| Paths.ParentFolder | Gruntfile.js:14 | `extractFolder` gives a slash-free name, and "." for a bare file name |
| Paths.BaseNameWithout | Gruntfile.js:49-52 | `path.basename(p, ext)` is slash-free and is the base name either whole or with `ext` removed from its end; `BaseNameWithoutStrips` states that a trailing `ext` is removed |
| Paths.BaseNameWithoutStrips | Gruntfile.js:49-52 | for any path whose base name is `name + ext` with both non-empty, `path.basename(p, ext)` is `name` |
| Paths.PathAfterSlash | Gruntfile.js:14 | for `x/w` with a slash-free `w`, the base name is `w` and the directory is `x` (or "/" when `x` is empty) |
| Paths.BaseNameOfComponents | Gruntfile.js:49-52 | the base name of a path built from components is its last component |
| Paths.ParentFolderOfComponents | Gruntfile.js:14 | `extractFolder` of a path built from components is the component before the last |
| Paths.ParentFolderOfNested | Gruntfile.js:14 | `extractFolder("dir/folder/file")` is `folder` |
| Paths.BaseNameWithoutExtension | Gruntfile.js:49-52 | `path.basename(dir/name.tgz, ".tgz")` is `name` |
| ArchiveNames.SplitJetFolder | Gruntfile.js:27-31 | the JET label and revision; its contract is carried by `JetSegmentsPartition`, `JetRevisionIsLastFive`, `JetLabelIsTheRest`, `JetReassembles`, `JetShortFolders` and `JetComposeDecompose`: a split of every folder name, undone by rejoining, inverse to composing a label with a stamp |
| ArchiveNames.JetSegmentsPartition | Gruntfile.js:27-31 | label and revision segments partition the dash segments for every segment count; the cut is `n-5` for `n >= 5` and `max(2n-5, 0)` below that |
| ArchiveNames.JetRevisionIsLastFive | Gruntfile.js:28-31 | with at least five segments the revision is exactly the last five, and it has exactly four dashes |
| ArchiveNames.JetLabelIsTheRest | Gruntfile.js:29-30 | with at least six segments the label is every segment before the last five |
| ArchiveNames.JetReassembles | Gruntfile.js:27-31 | `label + "-" + revision` is the folder name when the cut has segments on both sides; otherwise the label is empty and the revision is the whole name |
| ArchiveNames.JetReassemblesConforming | Gruntfile.js:28-31 | with at least six segments, `label + "-" + revision` is the folder name |
| ArchiveNames.JetShortFolders | Gruntfile.js:30-31 | with 1, 2 or 5 segments the label is empty and the revision is the name; with 3 or 4 segments the cut falls after segment 1 or segment 3; no short name fails |
| ArchiveNames.StampJoin | Gruntfile.js:22-24 | a `<yyyy>-<mm>-<dd>_<hh>-<mm>-<ss>` stamp is its five segments joined by dashes |
| ArchiveNames.StampSplit | Gruntfile.js:22-24 | a stamp whose fields have no dash splits into exactly five segments |
| ArchiveNames.JetComposeDecompose | Gruntfile.js:19-31 | splitting `<label>-<stamp>` gives back that label and that stamp, for every label |
| ArchiveNames.JetExample | Gruntfile.js:19-31 | "a-b-2024-01-02_03-04-05" splits into label "a-b" and revision "2024-01-02_03-04-05" |
| ArchiveNames.TakeLine | Gruntfile.js:54 | `(.*)` captures the longest prefix that has no line terminator |
| ArchiveNames.MatchWebdriver | Gruntfile.js:53-54 | the match starts at the leftmost "webdriver-"; the capture is the run after it up to a line terminator or the end; there is no match exactly when "webdriver-" occurs nowhere |
| ArchiveNames.WebdriverCaptureIsRest | Gruntfile.js:53-54 | on a single-line name, the capture is everything after the leftmost "webdriver-" |
| ArchiveNames.WebdriverVersion | Gruntfile.js:49-54 | the archive has no version exactly when its base name without ".tgz" lacks "webdriver-"; a version contains no line terminator; `WebdriverVersionIsRest` states its value |
| ArchiveNames.WebdriverVersionIsRest | Gruntfile.js:49-54 | for any path whose base name without ".tgz" is `<prefix>webdriver-<rest>` with no earlier marker, the version is the first line of `<rest>` |
| ArchiveNames.WebdriverVersionOfArchive | Gruntfile.js:49-54 | the archive `dir/<prefix>webdriver-<v>.tgz` gives version `<v>` when the prefix does not reach into the marker |
| ArchiveNames.MarkerNotInPrefix | Gruntfile.js:54 | the marker cannot start inside a prefix that has no 'w' |
| ArchiveNames.WebdriverExample | Gruntfile.js:49-54 | "dir/x-webdriver-9.9.9.tgz" gives version "9.9.9" for every `dir` |
| Overrides.OptionOr | Gruntfile.js:34-38 | a present, non-empty option wins; a missing or empty option yields the default |
| Overrides.EmptyOverrideIsAbsent | Gruntfile.js:34 | an empty option resolves exactly as a missing one does, to the default |
| Overrides.OptionOrOtherKey | Gruntfile.js:34-38 | setting one option leaves every other key's resolved value unchanged |
| BuildConfig.ReadDefaults | Gruntfile.js:25-93 | the defaults are read only when the three dependencies are present and the webdriver name matches; otherwise the error is the first failure in source order |
| BuildConfig.Assemble | Gruntfile.js:33-97 | each setting read from its descriptor is `option || default`; the descriptors have the shape the script builds; `OJ_DYNAMIC` is the dynamic CDN path followed by its label; the exported `*_DEFAULT` values are the defaults |
| BuildConfig.Resolve | Gruntfile.js:8-12 | a version that fails the semver check gives exactly `InvalidPackageVersion`, and nothing else does; otherwise the result succeeds exactly when the defaults can be read, and then every setting is `option || default` and every exported `*_DEFAULT` is its default |
| BuildConfig.OptionKeysDistinct | Gruntfile.js:34-96 | each setting has its own option key |
| BuildConfig.SettingPrecedence | Gruntfile.js:34-96 | for every setting, a non-empty option wins and a missing or empty one leaves the default |
| BuildConfig.OverrideIsolation | Gruntfile.js:34-96 | giving one option changes no other setting |
| BuildConfig.DynamicAndDynIndependent | Gruntfile.js:56-75 | the two dynamic-UI descriptors share the webdriver default but differ in option keys and CDN defaults; overriding one leaves the other unchanged |
| BuildConfig.BossLabelPinned | Gruntfile.js:78-79 | without a `boss-label` option the BOSS version is "2501.0.7450" |
| BuildConfig.AssembleWithoutOptions | Gruntfile.js:33-97 | with no options, every descriptor holds its defaults |
| BuildConfig.ResolveWithoutOptions | Gruntfile.js:8-97 | with no options, a successful resolution is the assembly of the manifest defaults |
| BuildConfig.ReadDefaultsSources | Gruntfile.js:14-93 | the JET defaults are `SplitJetFolder` of the JET library's folder name for every segment count; a conforming name is label, dash and a five-segment revision; the dynamic-UI default is the webdriver version; the telemetry default is its folder name |
| BuildConfig.JetDefaultsFromArchivePath | Gruntfile.js:14-31 | a dependency path `dir/<label>-<stamp>/file` gives that label and that stamp as defaults |
| BuildConfig.OracleJetExample | Gruntfile.js:25-45 | with no options, folder "v14.1.0-2024-03-15_10-30-00" gives `{version: "v14.1.0", revision: "2024-03-15_10-30-00", cdnPath: OJ_CDN_DEFAULT}` |

## Left out

- Reading `package.json` (line 6): the manifest is an input, `Package`.
- The semantic-version grammar of `semver.valid` (line 10): it is a foreign
  library, so it is the parameter `semverValid` of `Resolve`.
- Node `path` corner cases: repeated or trailing slashes, Windows
  separators and URL schemes are not modelled. Paths are split on `/` only.
- Grunt template strings (lines 16-17, 100): they are opaque constants and
  are passed through verbatim.
- Boolean and numeric option values: `--oj-label` given alone makes
  `grunt.option` return `true`. The model only has string options.
- Error message texts: only the kind of error and the offending string are
  kept, not the exact `Error` or `TypeError` wording.
- `time-grunt`, `load-grunt-config` with JIT task loading (lines 121-208),
  task registration, `list-params` logging and `JSON.stringify`
  (lines 221-256): these are orchestration and I/O.
- Strings are sequences of Unicode scalar values, not UTF-16 code units.
  This makes no difference to `split`, `join` or the match on these
  ASCII-delimited names.
