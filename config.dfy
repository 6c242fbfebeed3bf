/** The configuration manager (backend/utils/config.py): five YAML sections loaded once, read
    through dotted paths such as "server.port".

    The file system and the YAML parser are one oracle: `files(name)` is the parsed content of
    `name` in the configuration directory, or None when that file does not exist. */
module Config {
  import opened Wrappers
  import opened Strings

  /** A parsed YAML value. */
  datatype Yaml =
    | Null
    | Bool(b: bool)
    | Int(i: int)
    | Real(r: real)
    | Str(s: string)
    | List(items: seq<Yaml>)
    | Dict(entries: map<string, Yaml>)

  const EmptySection := Dict(map[])

  /** The sections and their files, in loading order. */
  const ConfigFiles: seq<(string, string)> := [
    ("system", "system.yaml"),
    ("processing", "processing.yaml"),
    ("logging", "logging.yaml"),
    ("ocr", "ocr.yaml"),
    ("ai", "ai.yaml")
  ]

  const OcrExample := "ocr.yaml.example"

  /** One section: its file, or for `ocr` the example file when `ocr.yaml` is missing; an
      empty section when the file it settles on does not exist. */
  function LoadSection(name: string, filename: string, files: string -> Option<Yaml>): (y: Yaml)
    ensures files(filename).Some? ==> y == files(filename).value
    ensures files(filename).None? && name != "ocr" ==> y == EmptySection
    ensures files(filename).None? && name == "ocr" ==> y == files(OcrExample).GetOr(EmptySection)
  {
    var path := if name == "ocr" && files(filename).None? then OcrExample else filename;
    match files(path)
    case Some(y) => y
    case None => EmptySection
  }

  /** The sections after loading the first `k` entries of `ConfigFiles`. */
  function SectionsUpTo(files: string -> Option<Yaml>, k: nat): map<string, Yaml>
    requires k <= |ConfigFiles|
  {
    if k == 0 then map[]
    else
      var (name, filename) := ConfigFiles[k - 1];
      SectionsUpTo(files, k - 1)[name := LoadSection(name, filename, files)]
  }

  /** Storing one more section after merging is merging with the section stored. */
  lemma MergeThenUpdate<K, V>(m: map<K, V>, s: map<K, V>, k: K, v: V)
    ensures m + s[k := v] == (m + s)[k := v]
  {
  }

  function LoadedSections(files: string -> Option<Yaml>): map<string, Yaml> {
    SectionsUpTo(files, |ConfigFiles|)
  }

  /** Loading yields exactly the five sections, a missing file giving an empty one, and `ocr`
      falling back to its example file. */
  lemma LoadedSectionsAre(files: string -> Option<Yaml>)
    ensures LoadedSections(files).Keys == {"system", "processing", "logging", "ocr", "ai"}
    ensures LoadedSections(files)["system"] == files("system.yaml").GetOr(EmptySection)
    ensures LoadedSections(files)["processing"] == files("processing.yaml").GetOr(EmptySection)
    ensures LoadedSections(files)["logging"] == files("logging.yaml").GetOr(EmptySection)
    ensures LoadedSections(files)["ai"] == files("ai.yaml").GetOr(EmptySection)
    ensures LoadedSections(files)["ocr"] ==
      (if files("ocr.yaml").Some? then files("ocr.yaml").value else files(OcrExample).GetOr(EmptySection))
  {
    assert "system"[0] == 's' && "processing"[0] == 'p' && "logging"[0] == 'l';
    assert "ocr"[0] == 'o' && "ai"[0] == 'a';
    var system := LoadSection("system", "system.yaml", files);
    var processing := LoadSection("processing", "processing.yaml", files);
    var logging := LoadSection("logging", "logging.yaml", files);
    var ocr := LoadSection("ocr", "ocr.yaml", files);
    var ai := LoadSection("ai", "ai.yaml", files);
    assert SectionsUpTo(files, 1) == map["system" := system];
    assert SectionsUpTo(files, 2) == map["system" := system, "processing" := processing];
    assert SectionsUpTo(files, 3) == map["system" := system, "processing" := processing, "logging" := logging];
    assert SectionsUpTo(files, 4) ==
      map["system" := system, "processing" := processing, "logging" := logging, "ocr" := ocr];
    assert SectionsUpTo(files, 5) ==
      map["system" := system, "processing" := processing, "logging" := logging, "ocr" := ocr, "ai" := ai];
  }

  /** `value` followed along `path`; `default` as soon as a step finds no dictionary holding
      the next key. */
  function Walk(value: Yaml, path: seq<string>, default: Yaml): Yaml
    decreases |path|
  {
    if path == [] then value
    else if value.Dict? && path[0] in value.entries then Walk(value.entries[path[0]], path[1..], default)
    else default
  }

  /** Where `path` leads from `value`, if every step finds its key in a dictionary. */
  function Resolve(value: Yaml, path: seq<string>): (r: Option<Yaml>)
    decreases |path|
    ensures path == [] ==> r == Some(value)
  {
    if path == [] then Some(value)
    else if value.Dict? && path[0] in value.entries then Resolve(value.entries[path[0]], path[1..])
    else None
  }

  /** The walk returns what the path leads to, whatever it is (a `None` or a falsy value
      included), and the default exactly when the path breaks off. */
  lemma {:induction false} WalkResolves(value: Yaml, path: seq<string>, default: Yaml)
    decreases |path|
    ensures Resolve(value, path).Some? ==> Walk(value, path, default) == Resolve(value, path).value
    ensures Resolve(value, path).None? ==> Walk(value, path, default) == default
  {
    if path != [] && value.Dict? && path[0] in value.entries {
      WalkResolves(value.entries[path[0]], path[1..], default);
    }
  }

  /** Resolving a path in two legs is resolving it at once. */
  lemma {:induction false} ResolveAppend(value: Yaml, p: seq<string>, q: seq<string>)
    decreases |p|
    ensures Resolve(value, p + q) ==
      (match Resolve(value, p) case Some(w) => Resolve(w, q) case None => None)
  {
    if p == [] {
      assert p + q == q;
    } else {
      assert (p + q)[0] == p[0] && (p + q)[1..] == p[1..] + q;
      if value.Dict? && p[0] in value.entries {
        ResolveAppend(value.entries[p[0]], p[1..], q);
      }
    }
  }

  /** A dotted key splits into its dot-free parts. */
  lemma SplitDotted(a: string, b: string)
    requires '.' !in a && '.' !in b
    ensures Split(a + "." + b, '.') == [a, b]
  {
    var s := a + "." + b;
    assert s[|a|] == '.';
    assert s[..|a|] == a;
    var i := IndexOfChar(s, '.');
    assert i.Some?;
    assert i.value == |a|;
    assert s[|a| + 1..] == b;
    assert IndexOfChar(b, '.').None?;
  }

  lemma SplitPlain(a: string)
    requires '.' !in a
    ensures Split(a, '.') == [a]
  {
  }

  class ConfigManager {
    var configs: map<string, Yaml>

    /** `ConfigManager()`: the sections start empty and are then loaded. */
    constructor(files: string -> Option<Yaml>)
      ensures configs == LoadedSections(files)
    {
      configs := map[];
      new;
      LoadAllConfigs(files);
    }

    /** `_load_all_configs`: stores each section in turn. */
    method LoadAllConfigs(files: string -> Option<Yaml>)
      modifies this
      ensures configs == old(configs) + LoadedSections(files)
    {
      for k := 0 to |ConfigFiles|
        invariant configs == old(configs) + SectionsUpTo(files, k)
      {
        var (name, filename) := ConfigFiles[k];
        var section := LoadSection(name, filename, files);
        MergeThenUpdate(old(configs), SectionsUpTo(files, k), name, section);
        configs := configs[name := section];
      }
    }

    /** `get(key, default)`: the first dotted part names the section, the rest is walked. */
    function Get(key: string, default: Yaml): (v: Yaml)
      reads this
      ensures Split(key, '.')[0] !in configs ==> v == default
    {
      var parts := Split(key, '.');
      if parts[0] !in configs then default else Walk(configs[parts[0]], parts[1..], default)
    }

    /** `get_section(section)`: the loaded section, or an empty one. */
    function GetSection(section: string): (y: Yaml)
      reads this
      ensures section in configs ==> y == configs[section]
      ensures section !in configs ==> y == EmptySection
    {
      if section in configs then configs[section] else EmptySection
    }

    /** A key without dots is its whole section, as `get_section` returns it. */
    lemma GetWholeSection(section: string)
      requires '.' !in section
      ensures section in configs ==> Get(section, EmptySection) == GetSection(section)
      ensures section !in configs ==> Get(section, EmptySection) == EmptySection
    {
      SplitPlain(section);
    }

    /** `get("section.key")` is the stored value when the section is a dictionary holding
        `key`, even a `None` or falsy one, and the default otherwise. */
    lemma GetTwoLevels(section: string, key: string, default: Yaml)
      requires '.' !in section && '.' !in key
      ensures var v := Get(section + "." + key, default);
        if section in configs && configs[section].Dict? && key in configs[section].entries
        then v == configs[section].entries[key]
        else v == default
    {
      SplitDotted(section, key);
      var parts := Split(section + "." + key, '.');
      assert parts[0] == section && parts[1..] == [key] && [key][1..] == [];
      if section in configs && configs[section].Dict? && key in configs[section].entries {
        var v := configs[section];
        assert Walk(v, [key], default) == Walk(v.entries[key], [], default);
      }
    }

    /** Whatever the key, `get` returns what its path leads to in the section, or the default
        when the section is missing or the path breaks off. */
    lemma GetResolves(key: string, default: Yaml)
      ensures var parts := Split(key, '.');
        var found := if parts[0] in configs then Resolve(configs[parts[0]], parts[1..]) else None;
        Get(key, default) == found.GetOr(default)
    {
      var parts := Split(key, '.');
      if parts[0] in configs {
        WalkResolves(configs[parts[0]], parts[1..], default);
      }
    }
  }
}
