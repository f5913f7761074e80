/** The model configuration store: section name -> key -> value, as loaded
    from the PCR-GLOBWB `.ini` file. */
module Configuration {
  import opened Wrappers

  type Section = map<string, string>
  type Config = map<string, Section>

  /** `model_config[section][key]`, absent when either lookup would raise. */
  function Get(c: Config, section: string, key: string): (r: Option<string>)
    ensures r.Some? <==> section in c && key in c[section]
    ensures r.Some? ==> r.value == c[section][key]
  {
    if section in c && key in c[section] then Some(c[section][key]) else None
  }

  /** `set_config({section: entries})`: a partial merge that overwrites the
      given keys of one section, creating it if needed, and keeps every other
      key and section. */
  function Merge(c: Config, section: string, entries: Section): (r: Config)
    ensures r.Keys == c.Keys + {section}
    ensures forall k :: k in entries ==> Get(r, section, k) == Some(entries[k])
    ensures forall k :: k !in entries ==> Get(r, section, k) == Get(c, section, k)
    ensures r[section].Keys == entries.Keys + (if section in c then c[section].Keys else {})
    ensures forall s :: s in c && s != section ==> r[s] == c[s]
  {
    var prior := if section in c then c[section] else map[];
    c[section := prior + entries]
  }

  /** Merging entries the configuration already holds changes nothing; in
      particular merging the same entries twice equals merging them once. */
  lemma MergeHeld(c: Config, section: string, entries: Section)
    requires forall k :: k in entries ==> Get(c, section, k) == Some(entries[k])
    requires section in c
    ensures Merge(c, section, entries) == c
  {
    var r := Merge(c, section, entries);
    assert r[section] == c[section];
  }
}
