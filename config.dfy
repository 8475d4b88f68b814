/** The generator's configuration (config.go): per-namespace settings, the
  * env a namespace is generated with, and the merge of two configurations. */
module Config {
  import opened Wrappers
  import opened CustomAttrs
  import Gir
  import opened TypeSystem
  import opened Env
  import opened Ignore

  /** NamespaceConfig; the zero value configures nothing. */
  datatype NamespaceConfig = NamespaceConfig(
    ignored: bool,
    minVersion: string,
    maxVersion: string,
    ignoredDefinitions: seq<IgnoreFunc>,
    manualTypes: seq<Ty>)

  const DefaultNamespaceConfig := NamespaceConfig(false, "", "", [], [])

  /** Config; a Go map may be nil (None), which reads as empty. */
  datatype Config = Config(
    girReplacements: Option<map<string, string>>,
    namespaces: Option<map<string, NamespaceConfig>>)

  function Entries<V>(m: Option<map<string, V>>): map<string, V> {
    if m.Some? then m.value else map[]
  }

  /** The key a namespace's settings are stored under: name, dash, major
    * version. */
  function NamespaceKey(name: string, version: Version): string {
    name + "-" + FormatInt(version.major)
  }

  /** The settings of a namespace, or the zero value when it has none. */
  function NamespaceSettings(cfg: Config, key: string): NamespaceConfig {
    var m := Entries(cfg.namespaces);
    if key in m then m[key] else DefaultNamespaceConfig
  }

  /** A configured version bound; an empty text leaves it unset (zero),
    * text that is no version is a panic in the source. */
  function VersionBound(text: string): (r: Result<Version>)
    ensures text == "" ==> r == Ok(ZeroVersion)
    ensures text != "" ==> r == ParseVersion(text)
  {
    if text != "" then ParseVersion(text) else Ok(ZeroVersion)
  }

  /** Config.getNamespaceEnv: no env for an ignored namespace; otherwise
    * the version window from the settings, the prefixes from the GIR
    * namespace and the ignore functions or-ed together. `ns` is the
    * namespace the env is for. */
  function GetNamespaceEnv(cfg: Config, girNs: Gir.Namespace, ns: NsView): (r: Result<Option<(Env, IgnoreFunc)>>)
    ensures NamespaceSettings(cfg, NamespaceKey(ns.name, ns.version)).ignored ==> r == Ok(None)
    ensures var settings := NamespaceSettings(cfg, NamespaceKey(ns.name, ns.version));
            !settings.ignored ==>
              (r.Ok? <==> VersionBound(settings.minVersion).Ok? && VersionBound(settings.maxVersion).Ok?)
    ensures r.Ok? && r.value.Some? ==>
              var settings := NamespaceSettings(cfg, NamespaceKey(ns.name, ns.version));
              var e := r.value.value.0;
              && !settings.ignored
              && e.ns == ns
              && e.replacements == Entries(cfg.girReplacements)
              && e.minVersion == VersionBound(settings.minVersion).value
              && e.maxVersion == VersionBound(settings.maxVersion).value
              && e.identifierPrefixes == girNs.cIdentifierPrefixes
              && (girNs.cSymbolPrefixes != [] ==> e.symbolPrefixes == girNs.cSymbolPrefixes)
              && (forall parent, self, attrs :: r.value.value.1(parent, self, attrs) <==>
                    exists i :: 0 <= i < |settings.ignoredDefinitions| && settings.ignoredDefinitions[i](parent, self, attrs))
  {
    var settings := NamespaceSettings(cfg, NamespaceKey(ns.name, ns.version));
    if settings.ignored then Ok(None)
    else
      match VersionBound(settings.minVersion)
      case Err(m) => Err(m)
      case Ok(minV) =>
        match VersionBound(settings.maxVersion)
        case Err(m) => Err(m)
        case Ok(maxV) =>
          var (identPrefixes, symbolPrefixes) := Gir.Prefixes(girNs);
          var ignore := IgnoreOr(settings.ignoredDefinitions);
          assert forall parent, self, attrs :: ignore(parent, self, attrs) <==>
                   exists i :: 0 <= i < |settings.ignoredDefinitions| && settings.ignoredDefinitions[i](parent, self, attrs) by {
            forall parent, self, attrs {
              IgnoreOrIsAny(settings.ignoredDefinitions, parent, self, attrs);
            }
          }
          Ok(Some((Env(ns, Entries(cfg.girReplacements), minV, maxV, symbolPrefixes, identPrefixes), ignore)))
  }

  /** A namespace without settings gets an env with no version window, so
    * nothing in it is skipped for its version. */
  lemma UnconfiguredNamespace(cfg: Config, girNs: Gir.Namespace, ns: NsView, attrs: Gir.InfoAttrs)
    requires NamespaceKey(ns.name, ns.version) !in Entries(cfg.namespaces)
    ensures GetNamespaceEnv(cfg, girNs, ns).Ok?
    ensures GetNamespaceEnv(cfg, girNs, ns).value.Some?
    ensures var e := GetNamespaceEnv(cfg, girNs, ns).value.value.0;
            !IgnoreDeprecated(e, attrs) && !IgnoreTooNew(e, attrs)
    ensures forall parent, self :: !GetNamespaceEnv(cfg, girNs, ns).value.value.1(parent, self, attrs)
  {
    var e := GetNamespaceEnv(cfg, girNs, ns).value.value.0;
    UnsetWindowSkipsNothing(e, attrs);
  }

  // ---------------------------------------------------------------------------
  // Combine

  /** One map of Combine: allocated only when either side has entries;
    * other's entries are copied over cfg's. */
  function MergeMaps<V>(a: Option<map<string, V>>, b: Option<map<string, V>>): Option<map<string, V>> {
    if |Entries(a)| > 0 || |Entries(b)| > 0 then Some(Entries(a) + Entries(b)) else None
  }

  /** Config.Combine. */
  function Combine(cfg: Config, other: Config): (r: Config)
    ensures r.girReplacements.None? <==> |Entries(cfg.girReplacements)| == 0 && |Entries(other.girReplacements)| == 0
    ensures r.namespaces.None? <==> |Entries(cfg.namespaces)| == 0 && |Entries(other.namespaces)| == 0
    ensures IsUnion(Entries(r.girReplacements), Entries(cfg.girReplacements), Entries(other.girReplacements))
    ensures IsUnion(Entries(r.namespaces), Entries(cfg.namespaces), Entries(other.namespaces))
  {
    Config(MergeMaps(cfg.girReplacements, other.girReplacements), MergeMaps(cfg.namespaces, other.namespaces))
  }

  /** m has the keys of both a and b, b's value winning for a shared key. */
  ghost predicate IsUnion<V>(m: map<string, V>, a: map<string, V>, b: map<string, V>) {
    && (forall k :: k in m <==> k in a || k in b)
    && (forall k :: k in b ==> m[k] == b[k])
    && (forall k :: k in a && k !in b ==> m[k] == a[k])
  }

  lemma MergeMapsAssociative<V>(a: Option<map<string, V>>, b: Option<map<string, V>>, c: Option<map<string, V>>)
    ensures MergeMaps(MergeMaps(a, b), c) == MergeMaps(a, MergeMaps(b, c))
  {
    var ab, bc := MergeMaps(a, b), MergeMaps(b, c);
    MergeEntries(a, b);
    MergeEntries(b, c);
    MergeEntries(ab, c);
    MergeEntries(a, bc);
    UnionAssociative(Entries(a), Entries(b), Entries(c));
  }

  lemma UnionAssociative<V>(x: map<string, V>, y: map<string, V>, z: map<string, V>)
    ensures (x + y) + z == x + (y + z)
  {
    var l, r := (x + y) + z, x + (y + z);
    assert l.Keys == r.Keys;
    forall k | k in l
      ensures l[k] == r[k]
    {
    }
  }

  /** What a merge holds, and that it is None exactly when it would hold
    * nothing. */
  lemma MergeEntries<V>(a: Option<map<string, V>>, b: Option<map<string, V>>)
    ensures Entries(MergeMaps(a, b)) == Entries(a) + Entries(b)
    ensures MergeMaps(a, b).None? <==> |Entries(a) + Entries(b)| == 0
  {
    var x, y := Entries(a), Entries(b);
    if |x| > 0 {
      SubsetCard(x.Keys, (x + y).Keys);
    }
    if |y| > 0 {
      SubsetCard(y.Keys, (x + y).Keys);
    }
    if |x| == 0 && |y| == 0 {
      EmptyMap(x);
      EmptyMap(y);
      assert x + y == map[];
    }
  }


  lemma SubsetCard<K>(s: set<K>, t: set<K>)
    requires s <= t
    ensures |s| <= |t|
  {
    if s != {} {
      var x :| x in s;
      SubsetCard(s - {x}, t - {x});
    }
  }

  lemma EmptyMap<V>(m: map<string, V>)
    requires |m| == 0
    ensures m == map[]
  {
  }

  /** Combining is associative, so extensions can be layered in any
    * grouping. */
  lemma CombineAssociative(a: Config, b: Config, c: Config)
    ensures Combine(Combine(a, b), c) == Combine(a, Combine(b, c))
  {
    MergeMapsAssociative(a.girReplacements, b.girReplacements, c.girReplacements);
    MergeMapsAssociative(a.namespaces, b.namespaces, c.namespaces);
  }

  /** Combining with the zero configuration keeps every entry (the maps
    * of the result are only nil when empty). */
  lemma CombineWithEmpty(c: Config)
    ensures Entries(Combine(Config(None, None), c).girReplacements) == Entries(c.girReplacements)
    ensures Entries(Combine(c, Config(None, None)).namespaces) == Entries(c.namespaces)
  {
    if |Entries(c.girReplacements)| == 0 {
      EmptyMap(Entries(c.girReplacements));
    }
    if |Entries(c.namespaces)| == 0 {
      EmptyMap(Entries(c.namespaces));
    }
  }

  /** Combining a configuration with itself keeps its entries. */
  lemma CombineIdempotent(c: Config)
    ensures Entries(Combine(c, c).girReplacements) == Entries(c.girReplacements)
    ensures Entries(Combine(c, c).namespaces) == Entries(c.namespaces)
  {
    CombineWithEmpty(c);
  }
}
