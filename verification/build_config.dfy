/** The build configuration: the version descriptors of the JET library, the
    JET dynamic-UI packs, the BOSS transforms loader and the telemetry
    library, resolved from the package manifest and the command-line
    options, together with the scalar settings handed to the build tasks. */
module BuildConfig {
  import opened Wrappers
  import opened Strings
  import opened Paths
  import opened ArchiveNames
  import opened Overrides

  // Manifest entries the defaults are read from.
  const OracleJetDependency := "@oracle/oraclejet"
  const DynamicWebdriverDependency := "@oracle/oj-dynamic-webdriver"
  const TelemetryDependency := "telemetry-webdriver"

  // Hard-coded defaults.
  const OjCdnDefault := "https://static.oracle.com/cdn/jet/"
  const OjDynamicCdnDefault := "https://static.oracle.com/cdn/jet/packs/oj-dynamic/"
  const OjDynCdnDefault := "https://static.oracle.com/cdn/jet/packs/oj-dyn/"
  const BossLabelDefault := "2501.0.7450"
  const BossCdnDefault := "https://static.oracle.com/cdn/boss/"
  const TelemetryCdnDefault := "https://static.oracle.com/cdn/trace/"

  // Scalar settings, passed through verbatim (the first two and the
  // workbox version are template strings the build tool expands later).
  const ReleaseVersion := "<%= package.version %>"
  const ReleaseSprint := "<%= package.release %>"
  const ReleaseLibName := "visual-runtime"
  const WorkboxVersion := "<%= package.devDependencies[\"workbox-build\"] %>"
  const WorkboxCdnPath := "https://static.oracle.com/cdn/vb/workbox/releases/"
  const ExpectedNumberOfTscErrors: nat := 1000
  const AwaiterGlobalName := "__awaiterVbrt"

  /** The parts of `package.json` the configuration reads. */
  datatype Package = Package(version: string,
                             dependencies: map<string, string>,
                             devDependencies: map<string, string>)

  /** Why building the configuration aborts. */
  datatype ConfigError =
    | InvalidPackageVersion(version: string)   // the semver check fails
    | MissingDependency(name: string)          // `path` is handed `undefined`
    | NoWebdriverVersion(archive: string)      // `match` yields `null`

  /** A component's descriptor: only the JET library has a revision. */
  datatype VersionDescriptor = VersionDescriptor(version: string, revision: Option<string>, cdnPath: string)

  /** The defaults derived from the manifest. */
  datatype ManifestDefaults = ManifestDefaults(jet: JetParts, webdriverVersion: string, telemetryLabel: string)

  /** The data handed to the build tasks. */
  datatype BuildConfiguration = BuildConfiguration(
    releaseVersion: string,
    releaseSprint: string,
    releaseLibName: string,
    ojLabelDefault: string,
    ojLabel: string,
    ojRevisionDefault: string,
    ojRevision: string,
    ojCdnDefault: string,
    ojCdn: string,
    ojVersion: VersionDescriptor,
    bossVersion: VersionDescriptor,
    ojDynamicLabelDefault: string,
    ojDynamicLabel: string,
    ojDynamicCdnDefault: string,
    ojDynamicCdn: string,
    ojDynamicVersion: VersionDescriptor,
    ojDynamic: string,
    ojDynLabelDefault: string,
    ojDynLabel: string,
    ojDynCdnDefault: string,
    ojDynCdn: string,
    ojDynVersion: VersionDescriptor,
    telemetryCdnDefault: string,
    telemetryLabelDefault: string,
    telemetryVersion: VersionDescriptor,
    workboxVersion: string,
    workboxCdnPath: string,
    expectedNumberOfTscErrors: nat,
    awaiterGlobalName: string)

  /** The values a command-line option can override. */
  datatype Setting =
    | OjLabel | OjRevision | OjCdn
    | OjDynamicLabel | OjDynamicCdn
    | OjDynLabel | OjDynCdn
    | BossLabel | BossCdn
    | TelemetryCdn | TelemetryLabel

  /** The option key of each setting. */
  function OptionKey(s: Setting): string
  {
    match s
    case OjLabel => "oj-label"
    case OjRevision => "oj-revision"
    case OjCdn => "oj-cdn"
    case OjDynamicLabel => "oj-dynamic-label"
    case OjDynamicCdn => "oj-dynamic-cdn"
    case OjDynLabel => "oj-dyn-label"
    case OjDynCdn => "oj-dyn-cdn"
    case BossLabel => "boss-label"
    case BossCdn => "boss-cdn"
    case TelemetryCdn => "telemetry-cdn"
    case TelemetryLabel => "telemetry-label"
  }

  /** The value a setting takes when its option is not given. */
  function Default(d: ManifestDefaults, s: Setting): string
  {
    match s
    case OjLabel => d.jet.versionLabel
    case OjRevision => d.jet.revision
    case OjCdn => OjCdnDefault
    case OjDynamicLabel => d.webdriverVersion
    case OjDynamicCdn => OjDynamicCdnDefault
    case OjDynLabel => d.webdriverVersion
    case OjDynCdn => OjDynCdnDefault
    case BossLabel => BossLabelDefault
    case BossCdn => BossCdnDefault
    case TelemetryCdn => TelemetryCdnDefault
    case TelemetryLabel => d.telemetryLabel
  }

  /** Where a consumer reads each setting: the field of its descriptor. */
  function Final(cfg: BuildConfiguration, s: Setting): string
  {
    match s
    case OjLabel => cfg.ojVersion.version
    case OjRevision => cfg.ojVersion.revision.GetOr("")
    case OjCdn => cfg.ojVersion.cdnPath
    case OjDynamicLabel => cfg.ojDynamicVersion.version
    case OjDynamicCdn => cfg.ojDynamicVersion.cdnPath
    case OjDynLabel => cfg.ojDynVersion.version
    case OjDynCdn => cfg.ojDynVersion.cdnPath
    case BossLabel => cfg.bossVersion.version
    case BossCdn => cfg.bossVersion.cdnPath
    case TelemetryCdn => cfg.telemetryVersion.cdnPath
    case TelemetryLabel => cfg.telemetryVersion.version
  }

  /** The exported `*_DEFAULT` value of a setting; the BOSS settings export
      none. */
  function ExportedDefault(cfg: BuildConfiguration, s: Setting): Option<string>
  {
    match s
    case OjLabel => Some(cfg.ojLabelDefault)
    case OjRevision => Some(cfg.ojRevisionDefault)
    case OjCdn => Some(cfg.ojCdnDefault)
    case OjDynamicLabel => Some(cfg.ojDynamicLabelDefault)
    case OjDynamicCdn => Some(cfg.ojDynamicCdnDefault)
    case OjDynLabel => Some(cfg.ojDynLabelDefault)
    case OjDynCdn => Some(cfg.ojDynCdnDefault)
    case BossLabel => None
    case BossCdn => None
    case TelemetryCdn => Some(cfg.telemetryCdnDefault)
    case TelemetryLabel => Some(cfg.telemetryLabelDefault)
  }

  /** The shape of the descriptors: each is assembled from the final values
      exported beside it, only the JET library carries a revision, and
      `OJ_DYNAMIC` is the dynamic pack's CDN path followed by its label. */
  predicate WellFormed(cfg: BuildConfiguration)
  {
    && cfg.ojVersion == VersionDescriptor(cfg.ojLabel, Some(cfg.ojRevision), cfg.ojCdn)
    && cfg.ojDynamicVersion == VersionDescriptor(cfg.ojDynamicLabel, None, cfg.ojDynamicCdn)
    && cfg.ojDynamic == cfg.ojDynamicCdn + cfg.ojDynamicLabel
    && cfg.ojDynVersion == VersionDescriptor(cfg.ojDynLabel, None, cfg.ojDynCdn)
    && cfg.bossVersion.revision.None?
    && cfg.telemetryVersion.revision.None?
    && cfg.releaseVersion == ReleaseVersion
    && cfg.releaseSprint == ReleaseSprint
    && cfg.releaseLibName == ReleaseLibName
    && cfg.workboxVersion == WorkboxVersion
    && cfg.workboxCdnPath == WorkboxCdnPath
    && cfg.expectedNumberOfTscErrors == ExpectedNumberOfTscErrors
    && cfg.awaiterGlobalName == AwaiterGlobalName
  }

  /** The manifest entry `name`, or the error `path` raises on `undefined`. */
  function Require(entries: map<string, string>, name: string): Result<string, ConfigError>
  {
    if name in entries then Success(entries[name]) else Failure(MissingDependency(name))
  }

  /** The defaults read from the manifest, in the order the build script
      reads them: the JET library folder, the dynamic-UI webdriver archive,
      the telemetry folder. The first failure aborts. */
  function ReadDefaults(pkg: Package): (r: Result<ManifestDefaults, ConfigError>)
    ensures OracleJetDependency !in pkg.dependencies ==>
      r == Failure(MissingDependency(OracleJetDependency))
    ensures OracleJetDependency in pkg.dependencies && DynamicWebdriverDependency !in pkg.devDependencies ==>
      r == Failure(MissingDependency(DynamicWebdriverDependency))
    ensures OracleJetDependency in pkg.dependencies && DynamicWebdriverDependency in pkg.devDependencies ==>
      var archive := BaseNameWithout(pkg.devDependencies[DynamicWebdriverDependency], ArchiveExtension);
      (MatchWebdriver(archive).None? ==> r == Failure(NoWebdriverVersion(archive)))
    ensures r.Success? <==>
      && OracleJetDependency in pkg.dependencies
      && DynamicWebdriverDependency in pkg.devDependencies
      && WebdriverVersion(pkg.devDependencies[DynamicWebdriverDependency]).Some?
      && TelemetryDependency in pkg.devDependencies
    ensures
      && OracleJetDependency in pkg.dependencies
      && DynamicWebdriverDependency in pkg.devDependencies
      && WebdriverVersion(pkg.devDependencies[DynamicWebdriverDependency]).Some?
      && TelemetryDependency !in pkg.devDependencies
      ==> r == Failure(MissingDependency(TelemetryDependency))
  {
    var ojPath :- Require(pkg.dependencies, OracleJetDependency);
    var jet := SplitJetFolder(ParentFolder(ojPath));
    var dynPath :- Require(pkg.devDependencies, DynamicWebdriverDependency);
    var archive := BaseNameWithout(dynPath, ArchiveExtension);
    var found :- MatchWebdriver(archive).ToResult(NoWebdriverVersion(archive));
    var telemetryPath :- Require(pkg.devDependencies, TelemetryDependency);
    Success(ManifestDefaults(jet, found.capture, ParentFolder(telemetryPath)))
  }

  /** The configuration for the given options and manifest defaults. */
  function Assemble(opts: OptionSet, d: ManifestDefaults): (cfg: BuildConfiguration)
    ensures WellFormed(cfg)
    ensures forall s :: Final(cfg, s) == OptionOr(opts, OptionKey(s), Default(d, s))
    ensures forall s :: ExportedDefault(cfg, s).Some? ==> ExportedDefault(cfg, s).value == Default(d, s)
  {
    var ojLabel := OptionOr(opts, "oj-label", d.jet.versionLabel);
    var ojRevision := OptionOr(opts, "oj-revision", d.jet.revision);
    var ojCdn := OptionOr(opts, "oj-cdn", OjCdnDefault);
    var ojDynamicLabel := OptionOr(opts, "oj-dynamic-label", d.webdriverVersion);
    var ojDynamicCdn := OptionOr(opts, "oj-dynamic-cdn", OjDynamicCdnDefault);
    var ojDynLabel := OptionOr(opts, "oj-dyn-label", d.webdriverVersion);
    var ojDynCdn := OptionOr(opts, "oj-dyn-cdn", OjDynCdnDefault);
    var bossLabel := OptionOr(opts, "boss-label", BossLabelDefault);
    var bossCdn := OptionOr(opts, "boss-cdn", BossCdnDefault);
    BuildConfiguration(
      ReleaseVersion, ReleaseSprint, ReleaseLibName,
      d.jet.versionLabel, ojLabel, d.jet.revision, ojRevision, OjCdnDefault, ojCdn,
      VersionDescriptor(ojLabel, Some(ojRevision), ojCdn),
      VersionDescriptor(bossLabel, None, bossCdn),
      d.webdriverVersion, ojDynamicLabel, OjDynamicCdnDefault, ojDynamicCdn,
      VersionDescriptor(ojDynamicLabel, None, ojDynamicCdn),
      ojDynamicCdn + ojDynamicLabel,
      d.webdriverVersion, ojDynLabel, OjDynCdnDefault, ojDynCdn,
      VersionDescriptor(ojDynLabel, None, ojDynCdn),
      TelemetryCdnDefault, d.telemetryLabel,
      VersionDescriptor(OptionOr(opts, "telemetry-label", d.telemetryLabel), None,
                        OptionOr(opts, "telemetry-cdn", TelemetryCdnDefault)),
      WorkboxVersion, WorkboxCdnPath, ExpectedNumberOfTscErrors, AwaiterGlobalName)
  }

  /** The whole computation: the package version must pass the semantic
      version check `semverValid` (supplied by the caller) before anything
      else is read; then the manifest defaults are read and the options
      applied. */
  function Resolve(pkg: Package, opts: OptionSet, semverValid: string -> bool): (r: Result<BuildConfiguration, ConfigError>)
    ensures !semverValid(pkg.version) <==> r == Failure(InvalidPackageVersion(pkg.version))
    ensures semverValid(pkg.version) ==> (r.Success? <==> ReadDefaults(pkg).Success?)
    ensures semverValid(pkg.version) && ReadDefaults(pkg).Failure? ==> r == Failure(ReadDefaults(pkg).error)
    ensures r.Success? ==>
      && WellFormed(r.value)
      && (forall s :: Final(r.value, s) == OptionOr(opts, OptionKey(s), Default(ReadDefaults(pkg).value, s)))
      && (forall s :: ExportedDefault(r.value, s).Some? ==>
            ExportedDefault(r.value, s).value == Default(ReadDefaults(pkg).value, s))
  {
    if !semverValid(pkg.version) then Failure(InvalidPackageVersion(pkg.version))
    else
      var d :- ReadDefaults(pkg);
      Success(Assemble(opts, d))
  }

  /** Distinct settings are read from distinct options. */
  lemma OptionKeysDistinct(s: Setting, s': Setting)
    requires s != s'
    ensures OptionKey(s) != OptionKey(s')
  {
  }

  /** A non-empty option overrides its setting; a missing or empty one leaves
      the default in place. */
  lemma SettingPrecedence(opts: OptionSet, d: ManifestDefaults, s: Setting)
    ensures OptionKey(s) in opts && opts[OptionKey(s)] != "" ==>
      Final(Assemble(opts, d), s) == opts[OptionKey(s)]
    ensures OptionKey(s) !in opts || opts[OptionKey(s)] == "" ==>
      Final(Assemble(opts, d), s) == Default(d, s)
  {
  }

  /** Giving one option changes no other setting. */
  lemma OverrideIsolation(opts: OptionSet, d: ManifestDefaults, s: Setting, v: string)
    ensures forall s' :: s' != s ==>
      Final(Assemble(opts[OptionKey(s) := v], d), s') == Final(Assemble(opts, d), s')
  {
    forall s' | s' != s
      ensures Final(Assemble(opts[OptionKey(s) := v], d), s') == Final(Assemble(opts, d), s')
    {
      OptionKeysDistinct(s, s');
      OptionOrOtherKey(opts, OptionKey(s'), OptionKey(s), v, Default(d, s'));
    }
  }

  /** The two dynamic-UI descriptors share the webdriver default but are
      resolved through their own options and CDN defaults: overriding one
      leaves the other as it was, and without either label option they carry
      the same label. */
  lemma DynamicAndDynIndependent(opts: OptionSet, d: ManifestDefaults, v: string)
    ensures Assemble(opts["oj-dyn-label" := v], d).ojDynamicVersion == Assemble(opts, d).ojDynamicVersion
    ensures Assemble(opts["oj-dyn-label" := v], d).ojDynamic == Assemble(opts, d).ojDynamic
    ensures Assemble(opts["oj-dynamic-label" := v], d).ojDynVersion == Assemble(opts, d).ojDynVersion
    ensures "oj-dynamic-label" !in opts && "oj-dyn-label" !in opts ==>
      Assemble(opts, d).ojDynamicVersion.version == Assemble(opts, d).ojDynVersion.version
    ensures Assemble(opts, d).ojDynamicLabelDefault == Assemble(opts, d).ojDynLabelDefault
    ensures Assemble(opts, d).ojDynamicCdnDefault != Assemble(opts, d).ojDynCdnDefault
  {
    OverrideIsolation(opts, d, OjDynLabel, v);
    OverrideIsolation(opts, d, OjDynamicLabel, v);
    assert Final(Assemble(opts["oj-dyn-label" := v], d), OjDynamicCdn) == Final(Assemble(opts, d), OjDynamicCdn);
    assert Final(Assemble(opts["oj-dyn-label" := v], d), OjDynamicLabel) == Final(Assemble(opts, d), OjDynamicLabel);
    assert Final(Assemble(opts["oj-dynamic-label" := v], d), OjDynCdn) == Final(Assemble(opts, d), OjDynCdn);
    assert Final(Assemble(opts["oj-dynamic-label" := v], d), OjDynLabel) == Final(Assemble(opts, d), OjDynLabel);
    assert |OjDynamicCdnDefault| != |OjDynCdnDefault|;
  }

  /** Without a `boss-label` option the BOSS transforms loader is pinned to
      build 2501.0.7450. */
  lemma BossLabelPinned(opts: OptionSet, d: ManifestDefaults)
    requires "boss-label" !in opts || opts["boss-label"] == ""
    ensures Assemble(opts, d).bossVersion.version == "2501.0.7450"
  {
    assert Final(Assemble(opts, d), BossLabel) == Default(d, BossLabel);
  }

  /** Without any option every descriptor carries its defaults. */
  lemma AssembleWithoutOptions(d: ManifestDefaults)
    ensures var cfg := Assemble(map[], d);
      && cfg.ojVersion == VersionDescriptor(d.jet.versionLabel, Some(d.jet.revision), OjCdnDefault)
      && cfg.ojDynamicVersion == VersionDescriptor(d.webdriverVersion, None, OjDynamicCdnDefault)
      && cfg.ojDynamic == OjDynamicCdnDefault + d.webdriverVersion
      && cfg.ojDynVersion == VersionDescriptor(d.webdriverVersion, None, OjDynCdnDefault)
      && cfg.bossVersion == VersionDescriptor(BossLabelDefault, None, BossCdnDefault)
      && cfg.telemetryVersion == VersionDescriptor(d.telemetryLabel, None, TelemetryCdnDefault)
  {
  }

  /** The same, for the whole computation. */
  lemma ResolveWithoutOptions(pkg: Package, semverValid: string -> bool)
    ensures Resolve(pkg, map[], semverValid).Success? ==>
      && ReadDefaults(pkg).Success?
      && Resolve(pkg, map[], semverValid).value == Assemble(map[], ReadDefaults(pkg).value)
  {
  }

  /** What the manifest defaults mean: the JET defaults are the split of
      the JET library's folder name, whatever its number of segments; a
      conforming folder name is the default label and revision joined by a
      dash, the revision having five dash segments; the dynamic-UI default
      is the webdriver archive's version; the telemetry default is the
      telemetry package's folder. */
  lemma ReadDefaultsSources(pkg: Package)
    ensures ReadDefaults(pkg).Success? ==>
      var d := ReadDefaults(pkg).value;
      var folder := ParentFolder(pkg.dependencies[OracleJetDependency]);
      && d.jet == SplitJetFolder(folder)
      && (|DashSegments(folder)| > RevisionWidth ==>
            && d.jet.versionLabel + "-" + d.jet.revision == folder
            && |Split(d.jet.revision, '-')| == RevisionWidth)
      && WebdriverVersion(pkg.devDependencies[DynamicWebdriverDependency]) == Some(d.webdriverVersion)
      && d.telemetryLabel == ParentFolder(pkg.devDependencies[TelemetryDependency])
  {
    if ReadDefaults(pkg).Success? {
      var folder := ParentFolder(pkg.dependencies[OracleJetDependency]);
      if |DashSegments(folder)| > RevisionWidth {
        JetReassemblesConforming(folder);
        JetRevisionIsLastFive(folder);
      }
    }
  }

  /** A JET dependency stored as `<dir>/<label>-<stamp>/<file>` gives that
      label and stamp as defaults. */
  lemma JetDefaultsFromArchivePath(pkg: Package, dir: string, versionLabel: string, st: Stamp, file: string)
    requires st.Valid() && '/' !in versionLabel + "-" + st.Text() && '/' !in file
    requires OracleJetDependency in pkg.dependencies
    requires pkg.dependencies[OracleJetDependency] == dir + "/" + (versionLabel + "-" + st.Text()) + "/" + file
    ensures ReadDefaults(pkg).Success? ==> ReadDefaults(pkg).value.jet == JetParts(versionLabel, st.Text())
  {
    ParentFolderOfNested(dir, versionLabel + "-" + st.Text(), file);
    JetComposeDecompose(versionLabel, st);
  }

  /** The example revision is a valid stamp, and neither it nor the example
      label contains a slash. */
  lemma ExampleFolderParts()
    ensures var st := Stamp("2024", "03", "15", "10", "30", "00");
      st.Valid() && st.Text() == "2024-03-15_10-30-00"
    ensures '/' !in "v14.1.0" && '/' !in "2024-03-15_10-30-00"
  {
    var st := Stamp("2024", "03", "15", "10", "30", "00");
    assert st.Valid();
    assert st.Text() == "2024-03-15_10-30-00";
  }

  /** End to end: with no options, the JET library folder
      "v14.1.0-2024-03-15_10-30-00" yields the JET descriptor with version
      "v14.1.0", that revision and the default CDN path. */
  lemma OracleJetExample(pkg: Package, semverValid: string -> bool, dir: string, file: string)
    requires '/' !in file
    requires OracleJetDependency in pkg.dependencies
    requires pkg.dependencies[OracleJetDependency] == dir + "/" + ("v14.1.0" + "-" + "2024-03-15_10-30-00") + "/" + file
    ensures Resolve(pkg, map[], semverValid).Success? ==>
      Resolve(pkg, map[], semverValid).value.ojVersion ==
        VersionDescriptor("v14.1.0", Some("2024-03-15_10-30-00"), OjCdnDefault)
  {
    var versionLabel, st := "v14.1.0", Stamp("2024", "03", "15", "10", "30", "00");
    ExampleFolderParts();
    JetDefaultsFromArchivePath(pkg, dir, versionLabel, st, file);
    ResolveWithoutOptions(pkg, semverValid);
    if Resolve(pkg, map[], semverValid).Success? {
      AssembleWithoutOptions(ReadDefaults(pkg).value);
    }
  }
}
