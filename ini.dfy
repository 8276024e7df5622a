/**
 * What `configparser.ConfigParser` holds once a file has been read: section
 * names (case-sensitive) to option names (folded to lower case) to values.
 * A file that does not exist reads as an empty configuration.
 */
module Ini {

  import opened Wrappers
  import Text

  type Section = map<string, string>
  type Config = map<string, Section>

  /** `optionxform`: option names are stored and looked up in lower case. */
  function OptionKey(field: string): string { Text.Lower(field) }

  predicate HasOption(c: Config, section: string, field: string)
  {
    section in c && OptionKey(field) in c[section]
  }

  /** `config.get(section, field)` when `has_option` holds, and `None` otherwise. */
  function Get(c: Config, section: string, field: string): (r: Option<string>)
    ensures r.Some? <==> HasOption(c, section, field)
  {
    if HasOption(c, section, field) then Some(c[section][OptionKey(field)]) else None
  }

  /** `dict(config.items(section))` when `has_section` holds, and `None` otherwise. */
  function Items(c: Config, section: string): (r: Option<Section>)
    ensures r.Some? <==> section in c
  {
    if section in c then Some(c[section]) else None
  }

  /** `dict.get(key)` on a section read with `dict(config.items(section))`. */
  function Lookup(s: Section, key: string): Option<string>
  {
    if key in s then Some(s[key]) else None
  }

  /** `add_section` if it is missing, then `config.set(section, field, value)`. */
  function Set(c: Config, section: string, field: string, value: string): (r: Config)
    ensures r.Keys == c.Keys + {section}
    ensures Get(r, section, field) == Some(value)
    ensures forall s, f :: s != section || OptionKey(f) != OptionKey(field) ==> Get(r, s, f) == Get(c, s, f)
    ensures forall s :: s in c && s != section ==> r[s] == c[s]
    ensures section in c ==> r[section].Keys == c[section].Keys + {OptionKey(field)}
    ensures section !in c ==> r[section].Keys == {OptionKey(field)}
  {
    var old_ := if section in c then c[section] else map[];
    c[section := old_[OptionKey(field) := value]]
  }

  /** `config.remove_option(section, field)`. */
  function RemoveOption(c: Config, section: string, field: string): (r: Config)
    ensures r.Keys == c.Keys
    ensures !HasOption(r, section, field)
    ensures forall s, f :: s != section || OptionKey(f) != OptionKey(field) ==> Get(r, s, f) == Get(c, s, f)
  {
    if section in c then c[section := c[section] - {OptionKey(field)}] else c
  }
}
