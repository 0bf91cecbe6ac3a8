/** An execution config field by field: where each value comes from, in which order, and within which bounds. */
module ConfigRules {
  import opened Wrappers
  import opened ValidationModes
  import opened ExecutionConfig

  /** A number that the record gives, brought within its bounds, or else another one. A bool counts as zero or one. */
  function Limit(given: Raw, low: int, high: int, otherwise: int): int {
    if !given.RawNumber? && !given.RawBool? then otherwise
    else
      var n := if given.RawNumber? then given.floor else if given.b then 1 else 0;
      if n < low then low else if n > high then high else n
  }

  function ModeOf(given: Raw, otherwise: Mode): Mode {
    if given.RawMode? then given.mode else otherwise
  }

  /** The profile the record names, or that of the base, or that of the environment, or full. */
  function ProfileOf(raw: RawRecord, env: Env, base: Option<Config>): Profile {
    if raw.profile.RawProfile? then raw.profile.profile
    else if base.Some? then base.value.profile
    else if env.profile.Some? then env.profile.value else Full
  }

  predicate Within(c: Config) {
    && 0 <= c.maxRuntime <= 5 && 0 <= c.maxHeavy <= 3
    && 1000 <= c.plannerTimeout <= 300000
    && 1 <= c.maxFiles <= 100 && 1000 <= c.maxDiffBytes <= 10000000 && 1000 <= c.maxFileBytes <= 20000000
  }

  /** What the fields are where the record says nothing: the base; or the environment, under what ci and smoke set themselves. */
  function Unnamed(raw: RawRecord, env: Env, base: Option<Config>): Config {
    var p, e := ProfileOf(raw, env, base), env.settings;
    if base.Some? then base.value.(profile := p)
    else if p == Ci then Config(Ci, Off, Off, Warn, Warn, 0, 0, 5000, e.maxFiles, e.maxDiffBytes, e.maxFileBytes, e.allowEnv)
    else if p == Smoke then Config(Smoke, Warn, Warn, Warn, Warn, 1, 1, 10000, e.maxFiles, e.maxDiffBytes, e.maxFileBytes, e.allowEnv)
    else e.(profile := p)
  }

  function Composed(raw: RawRecord, env: Env, base: Option<Config>, builder: bool): Config {
    var u := Unnamed(raw, env, base);
    Config(
      u.profile,
      if builder then Off else ModeOf(raw.light, u.light),
      if builder then Off else ModeOf(raw.heavy, u.heavy),
      ModeOf(raw.policy, u.policy),
      ModeOf(raw.convergence, u.convergence),
      Limit(raw.maxRuntime, 0, 5, u.maxRuntime),
      Limit(raw.maxHeavy, 0, 3, u.maxHeavy),
      Limit(raw.plannerTimeout, 1000, 300000, u.plannerTimeout),
      Limit(raw.maxFiles, 1, 100, u.maxFiles),
      Limit(raw.maxDiffBytes, 1000, 10000000, u.maxDiffBytes),
      Limit(raw.maxFileBytes, 1000, 20000000, u.maxFileBytes),
      if raw.allowEnv.RawBool? then raw.allowEnv.b else u.allowEnv)
  }

  lemma StartIs(raw: RawRecord, env: Env, base: Option<Config>)
    ensures Starting(raw, env, base) == Unnamed(raw, env, base)
  {
  }

  lemma BoundedIs(given: Raw, low: int, high: int, otherwise: int)
    requires low <= high
    ensures Or(ParseBoundedInt(given, low, high), otherwise) == Limit(given, low, high, otherwise)
  {
  }

  lemma ModesAre(raw: RawRecord, u: Config, builder: bool)
    ensures var n := Forced(Merged(raw, u), builder);
            && n.profile == u.profile
            && n.light == (if builder then Off else ModeOf(raw.light, u.light))
            && n.heavy == (if builder then Off else ModeOf(raw.heavy, u.heavy))
            && n.policy == ModeOf(raw.policy, u.policy) && n.convergence == ModeOf(raw.convergence, u.convergence)
  {
    hide ParseBoundedInt, ParseBool;
  }

  lemma LimitsAre(raw: RawRecord, u: Config, builder: bool)
    ensures var n := Forced(Merged(raw, u), builder);
            && n.maxRuntime == Limit(raw.maxRuntime, 0, 5, u.maxRuntime)
            && n.maxHeavy == Limit(raw.maxHeavy, 0, 3, u.maxHeavy)
            && n.plannerTimeout == Limit(raw.plannerTimeout, 1000, 300000, u.plannerTimeout)
  {
    BoundedIs(raw.maxRuntime, 0, 5, u.maxRuntime);
    BoundedIs(raw.maxHeavy, 0, 3, u.maxHeavy);
    BoundedIs(raw.plannerTimeout, 1000, 300000, u.plannerTimeout);
    hide ParseMode, ParseBool, ParseBoundedInt, Limit, Or;
  }

  lemma SizesAre(raw: RawRecord, u: Config, builder: bool)
    ensures var n := Forced(Merged(raw, u), builder);
            && n.maxFiles == Limit(raw.maxFiles, 1, 100, u.maxFiles)
            && n.maxDiffBytes == Limit(raw.maxDiffBytes, 1000, 10000000, u.maxDiffBytes)
            && n.maxFileBytes == Limit(raw.maxFileBytes, 1000, 20000000, u.maxFileBytes)
            && n.allowEnv == (if raw.allowEnv.RawBool? then raw.allowEnv.b else u.allowEnv)
  {
    BoundedIs(raw.maxFiles, 1, 100, u.maxFiles);
    BoundedIs(raw.maxDiffBytes, 1000, 10000000, u.maxDiffBytes);
    BoundedIs(raw.maxFileBytes, 1000, 20000000, u.maxFileBytes);
    hide ParseMode, ParseBoundedInt, Limit;
  }

  lemma ComposedIs(raw: RawRecord, env: Env, base: Option<Config>, builder: bool)
    ensures Forced(Merged(raw, Starting(raw, env, base)), builder) == Composed(raw, env, base, builder)
  {
    StartIs(raw, env, base);
    var u := Unnamed(raw, env, base);
    ModesAre(raw, u, builder);
    LimitsAre(raw, u, builder);
    SizesAre(raw, u, builder);
    hide Merged, Starting, Forced, Unnamed, Limit, ModeOf;
  }

  /** Every field is what the record gives, within its bounds, else the base's, else the profile's, else the environment's; a builder
    * run has both validations off. A version that is no number is refused, and so is what the base or the environment leaves out of
    * bounds. */
  lemma NormalizedExactlyWhen(raw: RawRecord, env: Env, base: Option<Config>, builder: bool)
    ensures var c := Composed(raw, env, base, builder);
            Normalize(raw, env, base, builder) ==
              if !(raw.schemaVersion.Absent? || raw.schemaVersion.RawNumber? || raw.schemaVersion.RawBool?)
              then Err(UnsupportedSchemaVersion)
              else if Within(c) then Ok(c) else Err(SchemaViolation)
  {
    ComposedIs(raw, env, base, builder);
    hide Merged, Starting, Forced, Composed;
  }

  /** A complete record leaves nothing to the environment, and only bounds it could break are left to refuse: none. */
  lemma CompleteRecordsAreAccepted(raw: RawRecord, env: Env, base: Option<Config>, builder: bool)
    requires raw.schemaVersion.Absent? || raw.schemaVersion.RawNumber?
    requires raw.maxRuntime.RawNumber? && raw.maxHeavy.RawNumber? && raw.plannerTimeout.RawNumber?
    requires raw.maxFiles.RawNumber? && raw.maxDiffBytes.RawNumber? && raw.maxFileBytes.RawNumber?
    ensures Normalize(raw, env, base, builder).Ok?
  {
    NormalizedExactlyWhen(raw, env, base, builder);
  }

  /** A request that is empty changes nothing; one that names a profile starts from the environment, any other from what is stored. */
  lemma ResolvedExactlyWhen(persisted: RawRecord, requested: RawRecord, env: Env, builder: bool)
    requires Normalize(persisted, env, None, builder).Ok?
    ensures var stored := Composed(persisted, env, None, builder);
            var base := if requested.profile.RawProfile? then None else Some(stored);
            var r := Resolve(persisted, requested, env, builder);
            if requested == EMPTY then r == Ok(Resolved(stored, stored, {}))
            else if Normalize(requested, env, base, builder).Err? then r == Err(Normalize(requested, env, base, builder).error)
            else r.Ok? && r.value.persisted == stored && r.value.requested == Composed(requested, env, base, builder)
                 && r.value.diff == DiffConfigs(stored, r.value.requested)
  {
    NormalizedExactlyWhen(persisted, env, None, builder);
    var stored := Composed(persisted, env, None, builder);
    NormalizedExactlyWhen(requested, env, if requested.profile.RawProfile? then None else Some(stored), builder);
    hide Composed, Normalize, DiffConfigs, Within;
  }
}
