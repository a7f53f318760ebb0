/** Configuration resolution: shallow merging of parsed YAML documents, the
    flattening of `detector.vol_threshold`, and the precedence of explicit
    files, the environment and profiles, with the filesystem given as a map
    from the paths that are files to their parsed documents. */
module Config {
  import opened Common

  /** A parsed YAML value. */
  datatype Value = Num(r: real) | Text(s: string) | Flag(b: bool) | Null | Nested(fields: map<string, Value>)

  type Cfg = map<string, Value>

  const DetectorKey: string := "detector"
  const VolKey: string := "vol_threshold"
  const FlatKey: string := "regime_vol_threshold"
  const DefaultPath: string := "config/default.yaml"

  function ProfilePath(prof: string): string {
    "config/profiles/" + prof + ".yaml"
  }

  /** `_merge`: a new mapping with the keys of both, `b` winning. */
  function Merge(a: Cfg, b: Cfg): (r: Cfg)
    ensures r.Keys == a.Keys + b.Keys
    ensures forall k :: k in b ==> r[k] == b[k]
    ensures forall k :: k in a && k !in b ==> r[k] == a[k]
  {
    a + b
  }

  /** Python's `float()` of a parsed value; `parse` is the conversion of a
      string, `None` when it raises. */
  function AsFloat(v: Value, parse: string -> Option<real>): (r: Option<real>)
    ensures v.Num? ==> r == Some(v.r)
    ensures v.Flag? ==> r == Some(if v.b then 1.0 else 0.0)
    ensures v.Null? || v.Nested? ==> r.None?
  {
    match v
    case Num(x) => Some(x)
    case Flag(b) => Some(if b then 1.0 else 0.0)
    case Text(s) => parse(s)
    case _ => None
  }

  /** The value `_postprocess` would copy to the flat key, if any. */
  function DetectorThreshold(cfg: Cfg, parse: string -> Option<real>): Option<real> {
    if DetectorKey in cfg && cfg[DetectorKey].Nested? && VolKey in cfg[DetectorKey].fields
    then AsFloat(cfg[DetectorKey].fields[VolKey], parse)
    else None
  }

  /** The mapping `_postprocess` leaves behind. */
  function Postprocessed(cfg: Cfg, parse: string -> Option<real>): (r: Cfg)
    ensures FlatKey in cfg ==> r == cfg
    ensures DetectorKey !in cfg || !cfg[DetectorKey].Nested? ==> r == cfg
    ensures forall k :: k in cfg && k != FlatKey ==> k in r && r[k] == cfg[k]
    ensures r.Keys <= cfg.Keys + {FlatKey}
    ensures FlatKey in r && FlatKey !in cfg ==> r[FlatKey].Num? && DetectorThreshold(cfg, parse) == Some(r[FlatKey].r)
    ensures FlatKey !in cfg && DetectorThreshold(cfg, parse).Some? ==> FlatKey in r
  {
    if FlatKey !in cfg && DetectorThreshold(cfg, parse).Some?
    then cfg[FlatKey := Num(DetectorThreshold(cfg, parse).value)]
    else cfg
  }

  /** Normalising twice is normalising once. */
  lemma PostprocessIdempotent(cfg: Cfg, parse: string -> Option<real>)
    ensures Postprocessed(Postprocessed(cfg, parse), parse) == Postprocessed(cfg, parse)
  {
    var once := Postprocessed(cfg, parse);
    if FlatKey !in once {
      assert DetectorThreshold(cfg, parse).None?;
      assert once == cfg;
    }
  }

  /** A mutable configuration mapping, as the dictionaries `load_config`
      builds and hands on. */
  class ConfigDict {
    var entries: Cfg

    constructor (entries: Cfg)
      ensures this.entries == entries
    {
      this.entries := entries;
    }
  }

  /** `_postprocess`: normalise `cfg` in place and return the same object. */
  method Postprocess(cfg: ConfigDict, parse: string -> Option<real>) returns (r: ConfigDict)
    modifies cfg
    ensures r == cfg
    ensures cfg.entries == Postprocessed(old(cfg.entries), parse)
  {
    var det := if DetectorKey in cfg.entries then cfg.entries[DetectorKey] else Null;
    if det.Nested? {
      if FlatKey !in cfg.entries && VolKey in det.fields {
        var f := AsFloat(det.fields[VolKey], parse);
        if f.Some? {
          cfg.entries := cfg.entries[FlatKey := Num(f.value)];
        }
      }
    }
    r := cfg;
  }

  /** What `load_config` sees of the outside world: the paths that are
      files with their parsed documents (an empty document already read as
      `{}`), and the `REGIME_CONFIG` and `REGIME_PROFILE` variables. */
  datatype Env = Env(files: map<string, Cfg>, regimeConfig: Option<string>, regimeProfile: Option<string>)

  datatype Loaded = Loaded(cfg: Cfg) | NotFound(path: string)

  /** Python truthiness of an optional string. */
  predicate Truthy(s: Option<string>) {
    s.Some? && s.value != ""
  }

  /** The defaults layer: `config/default.yaml` merged over `{}`, or `{}`. */
  function Defaults(env: Env): Cfg {
    if DefaultPath in env.files then Merge(map[], env.files[DefaultPath]) else map[]
  }

  /** `load_config(config, profile, path=pathArg)`. */
  function LoadConfig(config: Option<string>, pathArg: Option<string>, profile: Option<string>, env: Env,
                      parse: string -> Option<real>): (r: Loaded)
    ensures r.NotFound? ==> r.path !in env.files
  {
    var chosen := if config.None? && Truthy(pathArg) then pathArg else config;
    if Truthy(chosen) then
      if chosen.value in env.files then Loaded(Postprocessed(env.files[chosen.value], parse))
      else NotFound(chosen.value)
    else if Truthy(env.regimeConfig) && env.regimeConfig.value in env.files then
      Loaded(Postprocessed(env.files[env.regimeConfig.value], parse))
    else
      var prof := if Truthy(profile) then profile else env.regimeProfile;
      if Truthy(prof) then
        var p := ProfilePath(prof.value);
        if p in env.files then Loaded(Postprocessed(Merge(Defaults(env), env.files[p]), parse))
        else NotFound(p)
      else Loaded(Postprocessed(Defaults(env), parse))
  }

  /** An explicit path wins outright: the profile, the environment
      variables and every other file are irrelevant, and a path that is not
      a file is an error. */
  lemma ExplicitPathWins(config: string, pathArg: Option<string>, profile: Option<string>, env: Env,
                         pathArg': Option<string>, profile': Option<string>, env': Env, parse: string -> Option<real>)
    requires config != ""
    requires config in env.files <==> config in env'.files
    requires config in env.files ==> env.files[config] == env'.files[config]
    ensures LoadConfig(Some(config), pathArg, profile, env, parse) == LoadConfig(Some(config), pathArg', profile', env', parse)
    ensures config !in env.files ==> LoadConfig(Some(config), pathArg, profile, env, parse) == NotFound(config)
    ensures config in env.files ==>
              LoadConfig(Some(config), pathArg, profile, env, parse) == Loaded(Postprocessed(env.files[config], parse))
  {
  }

  /** Without an explicit file or a usable `REGIME_CONFIG`, a named profile
      overlays the defaults key by key, and a missing profile is an error. */
  lemma ProfileOverlaysDefaults(profile: string, env: Env, parse: string -> Option<real>)
    requires profile != ""
    requires !(Truthy(env.regimeConfig) && env.regimeConfig.value in env.files)
    ensures var r := LoadConfig(None, None, Some(profile), env, parse);
      && (ProfilePath(profile) !in env.files ==> r == NotFound(ProfilePath(profile)))
      && (ProfilePath(profile) in env.files ==>
            var doc := env.files[ProfilePath(profile)];
            && r.Loaded?
            && (forall k :: k in doc && k != FlatKey ==> k in r.cfg && r.cfg[k] == doc[k])
            && (forall k :: k in Defaults(env) && k !in doc && k != FlatKey ==> k in r.cfg && r.cfg[k] == Defaults(env)[k]))
  {
  }

  /** A `REGIME_CONFIG` that names no file is ignored: loading proceeds as
      if it were unset. */
  lemma MissingEnvConfigIgnored(profile: Option<string>, env: Env, parse: string -> Option<real>)
    requires env.regimeConfig.Some? && env.regimeConfig.value !in env.files
    ensures LoadConfig(None, None, profile, env, parse)
            == LoadConfig(None, None, profile, env.(regimeConfig := None), parse)
  {
  }
}
