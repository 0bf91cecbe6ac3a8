/** Execution configs: reading what a run has stored and what a request names into a complete config. */
module ExecutionConfig {
  import opened Wrappers
  import opened ValidationModes

  datatype Profile = Full | Ci | Smoke

  datatype Config = Config(profile: Profile, light: Mode, heavy: Mode, policy: Mode, convergence: Mode,
                           maxRuntime: int, maxHeavy: int, plannerTimeout: int, maxFiles: int, maxDiffBytes: int, maxFileBytes: int,
                           allowEnv: bool)

  /** A field of a raw record. RawNumber is anything Number() makes finite: `floor` is its floor, and `plain` says that it is the
    * number `floor` itself. RawBlank is null or the empty string; RawOther is what no parser takes. */
  datatype Raw =
    | Absent | RawProfile(profile: Profile) | RawMode(mode: Mode) | RawBool(b: bool)
    | RawNumber(floor: int, plain: bool) | RawBlank | RawOther

  datatype RawRecord = RawRecord(schemaVersion: Raw, profile: Raw, light: Raw, heavy: Raw, policy: Raw, convergence: Raw,
                                 maxRuntime: Raw, maxHeavy: Raw, plannerTimeout: Raw, maxFiles: Raw, maxDiffBytes: Raw, maxFileBytes: Raw,
                                 allowEnv: Raw)

  const EMPTY := RawRecord(Absent, Absent, Absent, Absent, Absent, Absent, Absent, Absent, Absent, Absent, Absent, Absent, Absent)

  // ---- parsing one field -------------------------------------------------------------------------------

  function ParseProfile(raw: Raw): Option<Profile> {
    if raw.RawProfile? then Some(raw.profile) else None
  }

  function ParseMode(raw: Raw): Option<Mode> {
    if raw.RawMode? then Some(raw.mode) else None
  }

  function ParseBool(raw: Raw): Option<bool> {
    if raw.RawBool? then Some(raw.b) else None
  }

  /** Numbers are floored and then clamped, not refused. */
  function ParseBoundedInt(raw: Raw, min: int, max: int): (r: Option<int>)
    requires min <= max
    ensures r.Some? <==> raw.RawNumber? || raw.RawBool?
    ensures r.Some? ==> min <= r.value <= max
    ensures raw.RawNumber? && min <= raw.floor <= max ==> r == Some(raw.floor)
  {
    match raw
    case RawNumber(n, _) => Some(if n < min then min else if n > max then max else n)
    case RawBool(b) => var n := if b then 1 else 0; Some(if n < min then min else if n > max then max else n)
    case _ => None
  }

  function Or<T>(parsed: Option<T>, otherwise: T): T {
    if parsed.Some? then parsed.value else otherwise
  }

  // ---- normalization ---------------------------------------------------------------------------------------

  /** The environment's settings; its own profile field is not used, `profile` is. */
  datatype Env = Env(settings: Config, profile: Option<Profile>)

  predicate ValidConfig(c: Config) {
    && 0 <= c.maxRuntime <= 5 && 0 <= c.maxHeavy <= 3 && 1000 <= c.plannerTimeout <= 300000 && 1 <= c.maxFiles <= 100
    && 1000 <= c.maxDiffBytes <= 10000000 && 1000 <= c.maxFileBytes <= 20000000
  }

  function WithPreset(c: Config, p: Profile): Config {
    match p
    case Full => c
    case Ci => c.(light := Off, heavy := Off, maxRuntime := 0, maxHeavy := 0, policy := Warn, convergence := Warn, plannerTimeout := 5000)
    case Smoke => c.(light := Warn, heavy := Warn, maxRuntime := 1, maxHeavy := 1, policy := Warn, convergence := Warn, plannerTimeout := 10000)
  }

  /** What each field is before the record is consulted: the base config, or the environment under the profile's preset. */
  function Starting(raw: RawRecord, env: Env, base: Option<Config>): Config {
    var named := ParseProfile(raw.profile);
    if base.Some? then base.value.(profile := Or(named, base.value.profile))
    else var profile := Or(named, Or(env.profile, Full)); WithPreset(env.settings, profile).(profile := profile)
  }

  /** Any finite version is clamped to the supported one before it is compared; only what is no number is refused. */
  predicate VersionRefused(raw: RawRecord) {
    !raw.schemaVersion.Absent? && ParseBoundedInt(raw.schemaVersion, 1, 1) != Some(1)
  }

  function MergedModes(raw: RawRecord, c: Config): Config {
    c.(light := Or(ParseMode(raw.light), c.light), heavy := Or(ParseMode(raw.heavy), c.heavy),
       policy := Or(ParseMode(raw.policy), c.policy), convergence := Or(ParseMode(raw.convergence), c.convergence))
  }

  function MergedLimits(raw: RawRecord, c: Config): Config {
    c.(maxRuntime := Or(ParseBoundedInt(raw.maxRuntime, 0, 5), c.maxRuntime), maxHeavy := Or(ParseBoundedInt(raw.maxHeavy, 0, 3), c.maxHeavy),
       plannerTimeout := Or(ParseBoundedInt(raw.plannerTimeout, 1000, 300000), c.plannerTimeout))
  }

  function MergedSizes(raw: RawRecord, c: Config): Config {
    c.(maxFiles := Or(ParseBoundedInt(raw.maxFiles, 1, 100), c.maxFiles),
       maxDiffBytes := Or(ParseBoundedInt(raw.maxDiffBytes, 1000, 10000000), c.maxDiffBytes),
       maxFileBytes := Or(ParseBoundedInt(raw.maxFileBytes, 1000, 20000000), c.maxFileBytes),
       allowEnv := Or(ParseBool(raw.allowEnv), c.allowEnv))
  }

  /** Each field is what the record says, where it says something, and what it started as where it does not. */
  function Merged(raw: RawRecord, start: Config): Config {
    MergedSizes(raw, MergedLimits(raw, MergedModes(raw, start)))
  }

  function Forced(c: Config, builder: bool): Config {
    if builder then c.(light := Off, heavy := Off) else c
  }

  datatype ConfigError = UnsupportedSchemaVersion | SchemaViolation

  function Normalize(raw: RawRecord, env: Env, base: Option<Config>, builder: bool): Result<Config, ConfigError> {
    var config := Forced(Merged(raw, Starting(raw, env, base)), builder);
    if VersionRefused(raw) then Err(UnsupportedSchemaVersion)
    else if ValidConfig(config) then Ok(config) else Err(SchemaViolation)
  }

  method TakeModes(raw: RawRecord, before: Config) returns (config: Config)
    ensures config == MergedModes(raw, before)
  {
    config := before;
    var light := ParseMode(raw.light);
    if light.Some? { config := config.(light := light.value); }
    var heavy := ParseMode(raw.heavy);
    if heavy.Some? { config := config.(heavy := heavy.value); }
    var policy := ParseMode(raw.policy);
    if policy.Some? { config := config.(policy := policy.value); }
    var convergence := ParseMode(raw.convergence);
    if convergence.Some? { config := config.(convergence := convergence.value); }
  }

  method TakeLimits(raw: RawRecord, before: Config) returns (config: Config)
    ensures config == MergedLimits(raw, before)
  {
    config := before;
    var maxRuntime := ParseBoundedInt(raw.maxRuntime, 0, 5);
    if maxRuntime.Some? { config := config.(maxRuntime := maxRuntime.value); }
    var maxHeavy := ParseBoundedInt(raw.maxHeavy, 0, 3);
    if maxHeavy.Some? { config := config.(maxHeavy := maxHeavy.value); }
    var plannerTimeout := ParseBoundedInt(raw.plannerTimeout, 1000, 300000);
    if plannerTimeout.Some? { config := config.(plannerTimeout := plannerTimeout.value); }
  }

  method TakeSizes(raw: RawRecord, before: Config) returns (config: Config)
    ensures config == MergedSizes(raw, before)
  {
    config := before;
    var maxFiles := ParseBoundedInt(raw.maxFiles, 1, 100);
    if maxFiles.Some? { config := config.(maxFiles := maxFiles.value); }
    var maxDiffBytes := ParseBoundedInt(raw.maxDiffBytes, 1000, 10000000);
    if maxDiffBytes.Some? { config := config.(maxDiffBytes := maxDiffBytes.value); }
    var maxFileBytes := ParseBoundedInt(raw.maxFileBytes, 1000, 20000000);
    if maxFileBytes.Some? { config := config.(maxFileBytes := maxFileBytes.value); }
    var allowEnv := ParseBool(raw.allowEnv);
    if allowEnv.Some? { config := config.(allowEnv := allowEnv.value); }
  }

  method NormalizeExecutionConfig(raw: RawRecord, env: Env, base: Option<Config>,
                                  builder: bool) returns (r: Result<Config, ConfigError>)
    ensures r == Normalize(raw, env, base, builder)
  {
    hide MergedModes, MergedLimits, MergedSizes, Starting, ValidConfig;
    var config := Starting(raw, env, base);
    if VersionRefused(raw) { return Err(UnsupportedSchemaVersion); }
    config := TakeModes(raw, config);
    config := TakeLimits(raw, config);
    config := TakeSizes(raw, config);
    if builder { config := config.(light := Off, heavy := Off); }
    r := if ValidConfig(config) then Ok(config) else Err(SchemaViolation);
  }

  /** Only a version that is no number is refused, and any finite one is read as version 1. */
  lemma EveryFiniteVersionIsAccepted(raw: RawRecord, env: Env, base: Option<Config>, builder: bool)
    ensures Normalize(raw, env, base, builder) == Err(UnsupportedSchemaVersion) <==>
              !(raw.schemaVersion.Absent? || raw.schemaVersion.RawNumber? || raw.schemaVersion.RawBool?)
    ensures forall floor, plain ::
              Normalize(raw.(schemaVersion := RawNumber(floor, plain)), env, base, builder) ==
              Normalize(raw.(schemaVersion := RawNumber(1, true)), env, base, builder)
  {
    hide ValidConfig, MergedModes, MergedLimits, MergedSizes;
    forall floor: int, plain: bool
      ensures Normalize(raw.(schemaVersion := RawNumber(floor, plain)), env, base, builder) ==
              Normalize(raw.(schemaVersion := RawNumber(1, true)), env, base, builder)
    {
      VersionIsNotMerged(raw, raw.(schemaVersion := RawNumber(floor, plain)), Starting(raw, env, base));
      VersionIsNotMerged(raw, raw.(schemaVersion := RawNumber(1, true)), Starting(raw, env, base));
    }
  }

  lemma VersionIsNotMerged(raw: RawRecord, other: RawRecord, start: Config)
    requires other == raw.(schemaVersion := other.schemaVersion)
    ensures Merged(other, start) == Merged(raw, start)
  {
  }

  /** A stored config of version 7 is accepted as it is. */
  lemma VersionSevenIsAccepted(env: Env, stored: Config)
    requires ValidConfig(stored)
    ensures Normalize(EMPTY.(schemaVersion := RawNumber(7, true)), env, Some(stored), false) == Ok(stored)
  {
  }

  // ---- persisted and requested -------------------------------------------------------------------------------

  datatype Field = ProfileField | LightField | HeavyField | PolicyField | ConvergenceField | MaxRuntimeField | MaxHeavyField
    | PlannerTimeoutField | MaxFilesField | MaxDiffBytesField | MaxFileBytesField | AllowEnvField

  predicate Differ(a: Config, b: Config, f: Field) {
    match f
    case ProfileField => a.profile != b.profile
    case LightField => a.light != b.light
    case HeavyField => a.heavy != b.heavy
    case PolicyField => a.policy != b.policy
    case ConvergenceField => a.convergence != b.convergence
    case MaxRuntimeField => a.maxRuntime != b.maxRuntime
    case MaxHeavyField => a.maxHeavy != b.maxHeavy
    case PlannerTimeoutField => a.plannerTimeout != b.plannerTimeout
    case MaxFilesField => a.maxFiles != b.maxFiles
    case MaxDiffBytesField => a.maxDiffBytes != b.maxDiffBytes
    case MaxFileBytesField => a.maxFileBytes != b.maxFileBytes
    case AllowEnvField => a.allowEnv != b.allowEnv
  }

  /** The fields in which two configs differ. */
  function DiffConfigs(a: Config, b: Config): set<Field> {
    set f: Field | Differ(a, b, f)
  }

  lemma NoDiffMeansEqual(a: Config, b: Config)
    ensures DiffConfigs(a, b) == {} <==> a == b
  {
    if DiffConfigs(a, b) == {} {
      forall f: Field
        ensures !Differ(a, b, f)
      {
        assert f !in DiffConfigs(a, b);
      }
      assert !Differ(a, b, ProfileField) && !Differ(a, b, LightField) && !Differ(a, b, HeavyField) && !Differ(a, b, PolicyField)
          && !Differ(a, b, ConvergenceField) && !Differ(a, b, MaxRuntimeField) && !Differ(a, b, MaxHeavyField)
          && !Differ(a, b, PlannerTimeoutField) && !Differ(a, b, MaxFilesField) && !Differ(a, b, MaxDiffBytesField)
          && !Differ(a, b, MaxFileBytesField) && !Differ(a, b, AllowEnvField);
    }
  }

  datatype Resolved = Resolved(persisted: Config, requested: Config, diff: set<Field>)

  /** A request that names a profile starts afresh from the environment; any other starts from what is persisted. */
  function Resolve(persisted: RawRecord, requested: RawRecord, env: Env, builder: bool): Result<Resolved, ConfigError> {
    match Normalize(persisted, env, None, builder)
    case Err(e) => Err(e)
    case Ok(stored) =>
      if requested == EMPTY then Ok(Resolved(stored, stored, {}))
      else match Normalize(requested, env, if ParseProfile(requested.profile).Some? then None else Some(stored), builder)
        case Err(e) => Err(e)
        case Ok(wanted) => Ok(Resolved(stored, wanted, DiffConfigs(stored, wanted)))
  }

  predicate NeedsNormalization(persisted: RawRecord, resolved: Config, env: Env, builder: bool) {
    persisted.schemaVersion != RawNumber(1, true) || Normalize(persisted, env, None, builder) != Ok(resolved)
  }

  // ---- what this promises ----------------------------------------------------------------------------------------

  /** A config written out as a record. */
  function Written(c: Config): RawRecord {
    RawRecord(RawNumber(1, true), RawProfile(c.profile), RawMode(c.light), RawMode(c.heavy), RawMode(c.policy), RawMode(c.convergence),
              RawNumber(c.maxRuntime, true), RawNumber(c.maxHeavy, true), RawNumber(c.plannerTimeout, true), RawNumber(c.maxFiles, true),
              RawNumber(c.maxDiffBytes, true), RawNumber(c.maxFileBytes, true), RawBool(c.allowEnv))
  }

  /** A complete valid config that has been persisted reads back as itself under every environment, needs no normalization and
    * resolves to itself; for a builder run exactly when both its validation modes are off. */
  lemma PersistedConfigIsFixed(c: Config, env: Env, builder: bool)
    requires ValidConfig(c)
    ensures var fixed := !builder || c.light == c.heavy == Off;
            && (Normalize(Written(c), env, None, builder) == Ok(c) <==> fixed)
            && (NeedsNormalization(Written(c), c, env, builder) <==> !fixed)
            && (fixed ==> Resolve(Written(c), EMPTY, env, builder) == Ok(Resolved(c, c, {})))
  {
    assert Merged(Written(c), Starting(Written(c), env, None)) == c;
  }

  /** What is resolved is complete and valid whatever was stored, requested or set in the environment. */
  lemma ResolvedIsValid(persisted: RawRecord, requested: RawRecord, env: Env, builder: bool)
    ensures var r := Resolve(persisted, requested, env, builder);
            r.Ok? ==> ValidConfig(r.value.persisted) && ValidConfig(r.value.requested)
                      && (r.value.diff == {} <==> r.value.persisted == r.value.requested)
  {
    hide Merged, Starting, DiffConfigs;
    var r := Resolve(persisted, requested, env, builder);
    if r.Ok? { NoDiffMeansEqual(r.value.persisted, r.value.requested); }
  }

  /** The raw field of a record. */
  function FieldOf(raw: RawRecord, f: Field): Raw {
    match f
    case ProfileField => raw.profile
    case LightField => raw.light
    case HeavyField => raw.heavy
    case PolicyField => raw.policy
    case ConvergenceField => raw.convergence
    case MaxRuntimeField => raw.maxRuntime
    case MaxHeavyField => raw.maxHeavy
    case PlannerTimeoutField => raw.plannerTimeout
    case MaxFilesField => raw.maxFiles
    case MaxDiffBytesField => raw.maxDiffBytes
    case MaxFileBytesField => raw.maxFileBytes
    case AllowEnvField => raw.allowEnv
  }

  lemma MergedDiffersWhereNamed(raw: RawRecord, c: Config, f: Field)
    ensures Differ(c, Merged(raw, c), f) ==> !FieldOf(raw, f).Absent?
  {
  }

  lemma NothingNamed(c: Config)
    ensures Merged(EMPTY, c) == c
  {
  }

  /** A request that names no profile changes only what it names: each field is what the request says, clamped, or else what was
    * persisted, whatever the environment holds; in a builder run the two validation modes are off before and after. */
  lemma RequestChangesWhatItNames(persisted: RawRecord, requested: RawRecord, env: Env, otherEnv: Env, builder: bool)
    requires ParseProfile(requested.profile).None? && Resolve(persisted, requested, env, builder).Ok?
    ensures var r := Resolve(persisted, requested, env, builder).value;
            && r.requested == Forced(Merged(requested, r.persisted), builder)
            && Normalize(requested, otherEnv, Some(r.persisted), builder) == Ok(r.requested)
            && (forall f :: f in r.diff ==> !FieldOf(requested, f).Absent?)
            && (builder ==> LightField !in r.diff && HeavyField !in r.diff)
  {
    hide MergedModes, MergedLimits, MergedSizes, ValidConfig, Differ, Merged;
    var r := Resolve(persisted, requested, env, builder).value;
    StartsFromBase(requested, env, r.persisted);
    StartsFromBase(requested, otherEnv, r.persisted);
    NothingNamed(r.persisted);
    NormalizedIsValid(persisted, env, builder);
    assert Forced(r.persisted, builder) == r.persisted;
    forall f | f in r.diff
      ensures !FieldOf(requested, f).Absent? && !(builder && (f.LightField? || f.HeavyField?))
    {
      assert Differ(r.persisted, r.requested, f);
      ForcedDiffersWhereMerged(r.persisted, Merged(requested, r.persisted), builder, f);
      MergedDiffersWhereNamed(requested, r.persisted, f);
    }
  }

  /** Forcing what was forced before adds no difference. */
  lemma ForcedDiffersWhereMerged(c: Config, d: Config, builder: bool, f: Field)
    requires Forced(c, builder) == c && Differ(c, Forced(d, builder), f)
    ensures Differ(c, d, f) && !(builder && (f.LightField? || f.HeavyField?))
  {
  }

  lemma StartsFromBase(raw: RawRecord, env: Env, c: Config)
    requires ParseProfile(raw.profile).None?
    ensures Starting(raw, env, Some(c)) == c
  {
  }

  lemma NormalizedIsValid(raw: RawRecord, env: Env, builder: bool)
    ensures var r := Normalize(raw, env, None, builder);
            r.Ok? ==> ValidConfig(r.value) && Forced(r.value, builder) == r.value
  {
    hide Merged, Starting, ValidConfig;
  }

  /** Naming the profile a run already has is not harmless: the fields the request leaves out start again from the environment. */
  lemma NamingTheProfileResetsTheRest(env: Env, c: Config)
    requires ValidConfig(env.settings) && ValidConfig(c)
    ensures var r := Resolve(Written(c), EMPTY.(profile := RawProfile(c.profile)), env, false);
            && r.Ok? && r.value.persisted == c
            && r.value.requested == WithPreset(env.settings, c.profile).(profile := c.profile)
            && (r.value.diff == {} <==> c == WithPreset(env.settings, c.profile).(profile := c.profile))
  {
    hide DiffConfigs;
    PersistedConfigIsFixed(c, env, false);
    var request := EMPTY.(profile := RawProfile(c.profile));
    ProfileAlone(request, Starting(request, env, None));
    NoDiffMeansEqual(c, WithPreset(env.settings, c.profile).(profile := c.profile));
  }

  lemma ProfileAlone(request: RawRecord, c: Config)
    requires request == EMPTY.(profile := request.profile)
    ensures Merged(request, c) == c
  {
  }
}
