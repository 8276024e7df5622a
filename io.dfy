/**
 * The helpers of `modules/io.py`: the permission check, the three INI
 * stores (profiles, the global configuration, the cloud descriptors), the
 * pre-sync backup and the two copy-with-retry loops that replace one side of
 * a save with the other.
 */
module Io {

  import opened Wrappers
  import Text
  import Ini
  import opened Trees
  import opened FileSystem
  import opened State

  // ---- permissions ----

  /** `os.path.exists` on a target. */
  predicate Exists(d: Disk, env: Env, t: Target)
    reads d`profiles, d`dirs, d`descriptors
  {
    match t
    case ProfileFile(id) => id in d.profiles
    case Program(f) => f in env.existing
    case At(p) => p in d.dirs || p in d.descriptors || p in env.existing
  }

  /** `check_permissions`: a missing target always passes, an existing one passes when `os.access` grants the action. */
  function CheckPermissions(d: Disk, env: Env, t: Target, action: Action): (ok: bool)
    reads d`profiles, d`dirs, d`descriptors
    ensures !Exists(d, env, t) ==> ok
    ensures Exists(d, env, t) ==> (ok <==> (t, action) !in env.denied)
  {
    !Exists(d, env, t) || (t, action) !in env.denied
  }

  /** `io_global("read", "config", "cloud_storage_path")`. */
  function CloudRoot(d: Disk): Option<string>
    reads d`global
  {
    Ini.Get(d.global, "config", "cloud_storage_path")
  }

  /** The path `network_share_accessible` checks: every backslash doubled. */
  function SharePath(cloud: string): string
  {
    Text.ReplaceAll(cloud, "\\", "\\\\")
  }

  /** A cloud root without backslashes is checked under its own name. */
  lemma SharePathPlain(cloud: string)
    ensures '\\' !in cloud ==> SharePath(cloud) == cloud
  {
    if '\\' !in cloud {
      Text.ReplaceAllAbsent(cloud, "\\", "\\\\");
    }
  }

  /** `network_share_accessible`: the cloud root is configured and the read check passes on the doubled path. */
  function NetworkShareAccessible(d: Disk, env: Env): (ok: bool)
    reads d`profiles, d`global, d`dirs, d`descriptors
    ensures CloudRoot(d).None? ==> !ok
    ensures CloudRoot(d).Some? ==> (ok <==> CheckPermissions(d, env, At(SharePath(CloudRoot(d).value)), Read))
    ensures CloudRoot(d).Some? && '\\' !in CloudRoot(d).value ==>
              (ok <==> CheckPermissions(d, env, At(CloudRoot(d).value), Read))
  {
    match CloudRoot(d)
    case None => false
    case Some(c) =>
      SharePathPlain(c);
      CheckPermissions(d, env, At(SharePath(c)), Read)
  }

  /** A cloud root written with backslashes is checked under a different name. */
  lemma BackslashesDoubled()
    ensures SharePath("a\\b") == "a\\\\b"
  {
    assert "\\b"[..1] == "\\";
    assert "b"[..0] == [];
  }

  // ---- the profile store ----

  /** Python truthiness of an optional string argument: given and not empty. */
  predicate Truthy(s: Option<string>) { s.Some? && s.value != "" }

  /** The ids `glob('*.ini')` reports: a file name starting with a dot is hidden. */
  predicate Globbed(id: string) { |id| > 0 && id[0] != '.' }

  /** The profile file of `id`, read as empty when it does not exist. */
  function ProfileConfig(profiles: map<string, Ini.Config>, id: string): Ini.Config
  {
    if id in profiles then profiles[id] else map[]
  }

  /** What `config.read` loads before a write: a file it cannot open is skipped, like a missing one. */
  function LoadedConfig(profiles: map<string, Ini.Config>, env: Env, id: string): Ini.Config
  {
    if (ProfileFile(id), Read) in env.denied then map[] else ProfileConfig(profiles, id)
  }

  /** The read branch that names a profile, a section and a field. */
  function ProfileValue(profiles: map<string, Ini.Config>, env: Env, pid: string, section: string, field: string): (r: Option<string>)
    ensures r.Some? <==> pid in profiles && (ProfileFile(pid), Read) !in env.denied && Ini.HasOption(profiles[pid], section, field)
  {
    if pid in profiles && (ProfileFile(pid), Read) !in env.denied then Ini.Get(profiles[pid], section, field) else None
  }

  /** The read branch that names a profile and a section. */
  function ProfileSection(profiles: map<string, Ini.Config>, env: Env, pid: string, section: string): (r: Option<Ini.Section>)
    ensures r.Some? <==> pid in profiles && (ProfileFile(pid), Read) !in env.denied && section in profiles[pid]
  {
    if pid in profiles && (ProfileFile(pid), Read) !in env.denied then Ini.Items(profiles[pid], section) else None
  }

  /** A field of the `profile` section of a profile, as every caller reads it. */
  function ProfileField(d: Disk, env: Env, pid: string, field: string): Option<string>
    reads d`profiles
  {
    ProfileValue(d.profiles, env, pid, "profile", field)
  }

  /** `dict(config.items("profile")).get(field)` reads the same value as the field read, for a lower-case field name. */
  lemma FieldOfSection(d: Disk, env: Env, pid: string, field: string)
    requires forall i :: 0 <= i < |field| ==> !Text.IsUpper(field[i])
    ensures ProfileField(d, env, pid, field)
            == match ProfileSection(d.profiles, env, pid, "profile") case None => None case Some(f) => Ini.Lookup(f, field)
  {
    Text.LowerPlain(field);
  }

  /** The condition of the search branch: a listed, readable profile whose field equals `value` ignoring case. */
  predicate Matches(profiles: map<string, Ini.Config>, env: Env, id: string, section: string, field: string, value: string)
  {
    id in profiles && Globbed(id) && (ProfileFile(id), Read) !in env.denied
    && Ini.HasOption(profiles[id], section, field)
    && Text.Lower(Ini.Get(profiles[id], section, field).value) == Text.Lower(value)
  }

  /** The map the section-only branch builds. */
  function SectionsById(profiles: map<string, Ini.Config>, env: Env, section: string): map<string, Ini.Section>
  {
    map id | id in profiles && Globbed(id) && (ProfileFile(id), Read) !in env.denied && section in profiles[id] :: profiles[id][section]
  }

  predicate Distinct(ids: seq<string>)
  {
    forall i, j :: 0 <= i < j < |ids| ==> ids[i] != ids[j]
  }

  /** What `io_profile` answers. */
  datatype Reply = Nothing | Value(text: string) | Fields(fields: Ini.Section) | Ids(ids: seq<string>) | BySection(sections: map<string, Ini.Section>)

  /**
   * The answer of `io_profile("read", …)`, branch by branch; the lists come
   * in directory order, so only their elements are fixed.
   */
  ghost predicate ReadAnswers(profiles: map<string, Ini.Config>, env: Env, pid: Option<string>, section: Option<string>,
                        field: Option<string>, value: Option<string>, reply: Reply)
  {
    if Truthy(pid) && Truthy(section) && Truthy(field) then
      reply == (match ProfileValue(profiles, env, pid.value, section.value, field.value)
                case None => Nothing
                case Some(v) => Value(v))
    else if Truthy(pid) && Truthy(section) then
      reply == (match ProfileSection(profiles, env, pid.value, section.value)
                case None => Nothing
                case Some(m) => Fields(m))
    else if Truthy(section) && Truthy(field) && Truthy(value) then
      reply.Ids? && Distinct(reply.ids)
      && forall id :: id in reply.ids <==> Matches(profiles, env, id, section.value, field.value, value.value)
    else if Truthy(section) then
      reply == BySection(SectionsById(profiles, env, section.value))
    else
      reply.Ids? && Distinct(reply.ids) && forall id :: id in reply.ids <==> id in profiles && Globbed(id)
  }

  /** The search branch: every readable profile whose field matches, each once. */
  method FindProfiles(d: Disk, env: Env, section: string, field: string, value: string) returns (ids: seq<string>)
    ensures Distinct(ids)
    ensures forall id :: id in ids <==> Matches(d.profiles, env, id, section, field, value)
  {
    ids := [];
    var todo := d.profiles.Keys;
    while todo != {}
      invariant todo <= d.profiles.Keys
      invariant Distinct(ids)
      invariant forall id :: id in ids ==> id !in todo
      invariant forall id :: id in ids <==> id !in todo && Matches(d.profiles, env, id, section, field, value)
      decreases |todo|
    {
      var id :| id in todo;
      if Globbed(id) && CheckPermissions(d, env, ProfileFile(id), Read) {
        var config := d.profiles[id];
        if Ini.HasOption(config, section, field) && Text.Lower(Ini.Get(config, section, field).value) == Text.Lower(value) {
          ids := ids + [id];
        }
      }
      todo := todo - {id};
    }
  }

  /** The section-only branch: the section of every readable profile that has it. */
  method CollectSection(d: Disk, env: Env, section: string) returns (data: map<string, Ini.Section>)
    ensures data == SectionsById(d.profiles, env, section)
  {
    data := map[];
    var todo := d.profiles.Keys;
    while todo != {}
      invariant todo <= d.profiles.Keys
      invariant data.Keys !! todo
      invariant forall id :: id in data <==> id in d.profiles && id !in todo && Globbed(id)
                                             && (ProfileFile(id), Read) !in env.denied && section in d.profiles[id]
      invariant forall id :: id in data ==> data[id] == d.profiles[id][section]
      decreases |todo|
    {
      var id :| id in todo;
      if Globbed(id) && CheckPermissions(d, env, ProfileFile(id), Read) {
        var config := d.profiles[id];
        if section in config {
          data := data[id := config[section]];
        }
      }
      todo := todo - {id};
    }
  }

  /** The last branch: every listed profile id, readable or not. */
  method ListProfiles(d: Disk) returns (ids: seq<string>)
    ensures Distinct(ids)
    ensures forall id :: id in ids <==> id in d.profiles && Globbed(id)
  {
    ids := [];
    var todo := d.profiles.Keys;
    while todo != {}
      invariant todo <= d.profiles.Keys
      invariant Distinct(ids)
      invariant forall id :: id in ids ==> id !in todo
      invariant forall id :: id in ids <==> id in d.profiles && id !in todo && Globbed(id)
      decreases |todo|
    {
      var id :| id in todo;
      if Globbed(id) {
        ids := ids + [id];
      }
      todo := todo - {id};
    }
  }

  /** `io_profile("read", …)`. */
  method ProfileRead(d: Disk, env: Env, pid: Option<string>, section: Option<string>, field: Option<string>, value: Option<string>)
    returns (reply: Reply)
    ensures ReadAnswers(d.profiles, env, pid, section, field, value, reply)
  {
    if Truthy(pid) && Truthy(section) && Truthy(field) {
      reply := match ProfileValue(d.profiles, env, pid.value, section.value, field.value)
        case None => Nothing
        case Some(v) => Value(v);
    } else if Truthy(pid) && Truthy(section) {
      reply := match ProfileSection(d.profiles, env, pid.value, section.value)
        case None => Nothing
        case Some(m) => Fields(m);
    } else if Truthy(section) && Truthy(field) && Truthy(value) {
      var ids := FindProfiles(d, env, section.value, field.value, value.value);
      reply := Ids(ids);
    } else if Truthy(section) {
      var data := CollectSection(d, env, section.value);
      reply := BySection(data);
    } else {
      var ids := ListProfiles(d);
      reply := Ids(ids);
    }
  }

  /**
   * `io_profile("write", …)` on the profile files: the files afterwards, or
   * the exception. A file that exists but cannot be read is skipped by
   * `config.read`, so the rewrite holds the new field alone.
   */
  function ProfileWrite(profiles: map<string, Ini.Config>, env: Env, pid: Option<string>, section: Option<string>,
                        field: Option<string>, value: Option<string>): (r: Result<map<string, Ini.Config>>)
    ensures !(Truthy(pid) && Truthy(section) && Truthy(field)) ==> r == Err(ValueError)
    ensures Truthy(pid) && Truthy(section) && Truthy(field) ==>
              (r.Err? <==> pid.value in profiles && (ProfileFile(pid.value), Write) in env.denied)
    ensures r.Err? ==> r.error == ValueError || r.error == PermissionError
    ensures r.Ok? ==> r.value.Keys == profiles.Keys + {pid.value}
                      && Ini.Get(r.value[pid.value], section.value, field.value) == Some(value.GetOr(""))
                      && (forall q :: q in profiles && q != pid.value ==> r.value[q] == profiles[q])
                      && (forall s, f :: s != section.value || Ini.OptionKey(f) != Ini.OptionKey(field.value) ==>
                            Ini.Get(r.value[pid.value], s, f) ==
                              if (ProfileFile(pid.value), Read) in env.denied then None
                              else Ini.Get(ProfileConfig(profiles, pid.value), s, f))
  {
    if !(Truthy(pid) && Truthy(section) && Truthy(field)) then Err(ValueError)
    else if pid.value in profiles && (ProfileFile(pid.value), Write) in env.denied then Err(PermissionError)
    else
      Ok(profiles[pid.value := Ini.Set(LoadedConfig(profiles, env, pid.value), section.value, field.value, value.GetOr(""))])
  }

  /** `io_profile("delete", pid)`: the file goes, or the exception says why not. */
  function ProfileDelete(profiles: map<string, Ini.Config>, env: Env, pid: Option<string>): (r: Result<map<string, Ini.Config>>)
    ensures !Truthy(pid) ==> r == Err(ValueError)
    ensures Truthy(pid) && pid.value !in profiles ==> r == Err(FileNotFoundError)
    ensures Truthy(pid) && pid.value in profiles ==>
              if (ProfileFile(pid.value), Write) in env.denied then r == Err(PermissionError)
              else r.Ok? && r.value.Keys == profiles.Keys - {pid.value} && forall q :: q in r.value ==> r.value[q] == profiles[q]
  {
    if !Truthy(pid) then Err(ValueError)
    else if pid.value !in profiles then Err(FileNotFoundError)
    else if (ProfileFile(pid.value), Write) in env.denied then Err(PermissionError)
    else Ok(profiles - {pid.value})
  }

  /** A write that succeeds is read back by the branch that names the same profile, section and field. */
  lemma ProfileWriteThenRead(profiles: map<string, Ini.Config>, env: Env, pid: string, section: string, field: string, value: Option<string>)
    requires pid != "" && section != "" && field != ""
    requires (ProfileFile(pid), Read) !in env.denied
    requires ProfileWrite(profiles, env, Some(pid), Some(section), Some(field), value).Ok?
    ensures ProfileValue(ProfileWrite(profiles, env, Some(pid), Some(section), Some(field), value).value, env, pid, section, field)
            == Some(value.GetOr(""))
  {
  }

  /** `io_profile`: dispatch on the mode; an unknown mode does nothing and answers `None`. */
  method IoProfile(d: Disk, env: Env, mode: string, pid: Option<string>, section: Option<string>, field: Option<string>, value: Option<string>)
    returns (r: Result<Reply>)
    modifies d`profiles
    ensures mode == "read" ==> d.profiles == old(d.profiles) && r.Ok? && ReadAnswers(d.profiles, env, pid, section, field, value, r.value)
    ensures mode == "write" ==>
              match ProfileWrite(old(d.profiles), env, pid, section, field, value)
              case Ok(m) => r == Ok(Nothing) && d.profiles == m
              case Err(e) => r == Err(e) && d.profiles == old(d.profiles)
    ensures mode == "delete" ==>
              match ProfileDelete(old(d.profiles), env, pid)
              case Ok(m) => r == Ok(Nothing) && d.profiles == m
              case Err(e) => r == Err(e) && d.profiles == old(d.profiles)
    ensures mode != "read" && mode != "write" && mode != "delete" ==> r == Ok(Nothing) && d.profiles == old(d.profiles)
  {
    if mode == "read" {
      var reply := ProfileRead(d, env, pid, section, field, value);
      r := Ok(reply);
    } else if mode == "write" {
      match ProfileWrite(d.profiles, env, pid, section, field, value)
      case Ok(m) => d.profiles := m; r := Ok(Nothing);
      case Err(e) => r := Err(e);
    } else if mode == "delete" {
      match ProfileDelete(d.profiles, env, pid)
      case Ok(m) => d.profiles := m; r := Ok(Nothing);
      case Err(e) => r := Err(e);
    } else {
      r := Ok(Nothing);
    }
  }

  // ---- the global configuration ----

  /** `io_global("read", section, field)`. */
  function GlobalRead(g: Ini.Config, section: Option<string>, field: Option<string>): (r: Result<Option<string>>)
    ensures !(Truthy(section) && Truthy(field)) <==> r == Err(ValueError)
    ensures Truthy(section) && Truthy(field) ==> r.Ok? && (r.value.Some? <==> Ini.HasOption(g, section.value, field.value))
  {
    if !(Truthy(section) && Truthy(field)) then Err(ValueError) else Ok(Ini.Get(g, section.value, field.value))
  }

  /** `io_global("write", section, field, value)`. */
  function GlobalWrite(g: Ini.Config, section: Option<string>, field: Option<string>, value: Option<string>): (r: Result<Ini.Config>)
    ensures !(Truthy(section) && Truthy(field)) <==> r == Err(ValueError)
    ensures r.Ok? ==> Ini.Get(r.value, section.value, field.value) == Some(value.GetOr(""))
                      && forall s, f :: s != section.value || Ini.OptionKey(f) != Ini.OptionKey(field.value) ==>
                           Ini.Get(r.value, s, f) == Ini.Get(g, s, f)
  {
    if !(Truthy(section) && Truthy(field)) then Err(ValueError) else Ok(Ini.Set(g, section.value, field.value, value.GetOr("")))
  }

  /** `io_global`: only reading and writing exist; any other mode is a `ValueError`. */
  method IoGlobal(d: Disk, mode: string, section: Option<string>, field: Option<string>, value: Option<string>)
    returns (r: Result<Option<string>>)
    modifies d`global
    ensures mode == "read" ==> r == GlobalRead(old(d.global), section, field) && d.global == old(d.global)
    ensures mode == "write" ==>
              match GlobalWrite(old(d.global), section, field, value)
              case Ok(g) => r == Ok(None) && d.global == g
              case Err(e) => r == Err(e) && d.global == old(d.global)
    ensures mode != "read" && mode != "write" ==> r == Err(ValueError) && d.global == old(d.global)
  {
    if mode == "read" {
      r := GlobalRead(d.global, section, field);
    } else if mode == "write" {
      match GlobalWrite(d.global, section, field, value)
      case Ok(g) => d.global := g; r := Ok(None);
      case Err(e) => r := Err(e);
    } else {
      r := Err(ValueError);
    }
  }

  // ---- the cloud descriptors ----

  /** `<cloud>/<pid>/profile_info.savetitan`. */
  function DescriptorPath(cloud: string, pid: string): string
  {
    Text.PathJoin(Text.PathJoin(cloud, pid), "profile_info.savetitan")
  }

  function DescriptorAt(descriptors: map<string, Ini.Config>, path: string): Ini.Config
  {
    if path in descriptors then descriptors[path] else map[]
  }

  /** `io_savetitan("read", …)`: one value with a field, the whole section without one. */
  function DescriptorRead(descriptors: map<string, Ini.Config>, cloud: Option<string>, pid: string, section: string, field: Option<string>): (r: Result<Reply>)
    ensures cloud.None? <==> r == Err(ValueError)
    ensures cloud.Some? && Truthy(field) ==>
              var c := DescriptorAt(descriptors, DescriptorPath(cloud.value, pid));
              r == Ok(if Ini.HasOption(c, section, field.value) then Value(c[section][Ini.OptionKey(field.value)]) else Nothing)
    ensures cloud.Some? && !Truthy(field) ==>
              var c := DescriptorAt(descriptors, DescriptorPath(cloud.value, pid));
              r == Ok(if section in c then Fields(c[section]) else Nothing)
  {
    if cloud.None? then Err(ValueError)
    else
      var c := DescriptorAt(descriptors, DescriptorPath(cloud.value, pid));
      if Truthy(field) then
        Ok(match Ini.Get(c, section, field.value) case None => Nothing case Some(v) => Value(v))
      else
        Ok(match Ini.Items(c, section) case None => Nothing case Some(m) => Fields(m))
  }

  /** `io_savetitan("read", pid, section, field)` as the callers use it: the value, or `None`. */
  function DescriptorValue(d: Disk, pid: string, section: string, field: string): (r: Result<Option<string>>)
    reads d`global, d`descriptors
    ensures r.Err? <==> CloudRoot(d).None?
    ensures r.Ok? ==> r.value == Ini.Get(DescriptorAt(d.descriptors, DescriptorPath(CloudRoot(d).value, pid)), section, field)
  {
    match CloudRoot(d)
    case None => Err(ValueError)
    case Some(c) => Ok(Ini.Get(DescriptorAt(d.descriptors, DescriptorPath(c, pid)), section, field))
  }

  /** `io_savetitan("write", …)`: the descriptors afterwards. */
  function DescriptorWrite(descriptors: map<string, Ini.Config>, cloud: Option<string>, pid: string, section: string,
                           field: Option<string>, value: Option<string>): (r: Result<map<string, Ini.Config>>)
    ensures cloud.None? || !Truthy(field) <==> r == Err(ValueError)
    ensures r.Ok? ==>
              var path := DescriptorPath(cloud.value, pid);
              r.value.Keys == descriptors.Keys + {path}
              && Ini.Get(r.value[path], section, field.value) == Some(value.GetOr(""))
              && (forall s, f :: s != section || Ini.OptionKey(f) != Ini.OptionKey(field.value) ==>
                    Ini.Get(r.value[path], s, f) == Ini.Get(DescriptorAt(descriptors, path), s, f))
              && forall q :: q in descriptors && q != path ==> r.value[q] == descriptors[q]
  {
    if cloud.None? || !Truthy(field) then Err(ValueError)
    else
      var path := DescriptorPath(cloud.value, pid);
      Ok(descriptors[path := Ini.Set(DescriptorAt(descriptors, path), section, field.value, value.GetOr(""))])
  }

  /** `io_savetitan("delete", …)`: removing a field that is not there is a `ValueError`. */
  function DescriptorDelete(descriptors: map<string, Ini.Config>, cloud: Option<string>, pid: string, section: string,
                            field: Option<string>): (r: Result<map<string, Ini.Config>>)
    ensures r.Err? ==> r.error == ValueError
    ensures r.Ok? <==> cloud.Some? && Truthy(field)
                       && Ini.HasOption(DescriptorAt(descriptors, DescriptorPath(cloud.value, pid)), section, field.value)
    ensures r.Ok? ==>
              var path := DescriptorPath(cloud.value, pid);
              r.value.Keys == descriptors.Keys
              && !Ini.HasOption(r.value[path], section, field.value)
              && (forall s, f :: s != section || Ini.OptionKey(f) != Ini.OptionKey(field.value) ==>
                    Ini.Get(r.value[path], s, f) == Ini.Get(descriptors[path], s, f))
              && forall q :: q in descriptors && q != path ==> r.value[q] == descriptors[q]
  {
    if cloud.None? || !Truthy(field) then Err(ValueError)
    else
      var path := DescriptorPath(cloud.value, pid);
      var c := DescriptorAt(descriptors, path);
      if Ini.HasOption(c, section, field.value) then Ok(descriptors[path := Ini.RemoveOption(c, section, field.value)])
      else Err(ValueError)
  }

  /** `io_savetitan`: the cloud root is read first, then the mode decides. */
  method IoSavetitan(d: Disk, mode: string, pid: string, section: string, field: Option<string>, value: Option<string>)
    returns (r: Result<Reply>)
    modifies d`descriptors
    ensures CloudRoot(d).None? ==> r == Err(ValueError) && d.descriptors == old(d.descriptors)
    ensures mode == "read" ==> r == DescriptorRead(old(d.descriptors), CloudRoot(d), pid, section, field) && d.descriptors == old(d.descriptors)
    ensures mode == "write" ==>
              match DescriptorWrite(old(d.descriptors), CloudRoot(d), pid, section, field, value)
              case Ok(m) => r == Ok(Nothing) && d.descriptors == m
              case Err(e) => r == Err(e) && d.descriptors == old(d.descriptors)
    ensures mode == "delete" ==>
              match DescriptorDelete(old(d.descriptors), CloudRoot(d), pid, section, field)
              case Ok(m) => r == Ok(Nothing) && d.descriptors == m
              case Err(e) => r == Err(e) && d.descriptors == old(d.descriptors)
    ensures mode != "read" && mode != "write" && mode != "delete" ==> r == Err(ValueError) && d.descriptors == old(d.descriptors)
  {
    var cloud := CloudRoot(d);
    if cloud.None? {
      return Err(ValueError);
    }
    if mode == "read" {
      r := DescriptorRead(d.descriptors, cloud, pid, section, field);
    } else if mode == "write" {
      match DescriptorWrite(d.descriptors, cloud, pid, section, field, value)
      case Ok(m) => d.descriptors := m; r := Ok(Nothing);
      case Err(e) => r := Err(e);
    } else if mode == "delete" {
      match DescriptorDelete(d.descriptors, cloud, pid, section, field)
      case Ok(m) => d.descriptors := m; r := Ok(Nothing);
      case Err(e) => r := Err(e);
    } else {
      r := Err(ValueError);
    }
  }

  // ---- backup and the copy loops ----

  /** `<cloud>/<pid>/save<slot>`, or `None` where building it raises `TypeError`. */
  function SlotPath(d: Disk, env: Env, pid: string): Option<string>
    reads d`profiles, d`global
  {
    var cloud, slot := CloudRoot(d), ProfileField(d, env, pid, "save_slot");
    if cloud.Some? && slot.Some? then Some(Text.PathJoin(cloud.value, pid + "/save" + slot.value)) else None
  }

  /**
   * The file-system part of `make_backup_copy`: create the backup folder,
   * remove it again, and copy `from` into it (`None` is the `TypeError` of a
   * missing local folder).
   */
  function Backup(fs: Fs, from: Option<string>, bak: string, fault: Fault): (r: Step)
    ensures forall q :: q != bak ==> (q in r.fs <==> q in fs) && (q in fs ==> r.fs[q] == fs[q])
    ensures from.Some? && from.value != bak && from.value in fs && fault.NoFault? ==> r.err.None?
    ensures r.err.None? ==> from.Some? && from.value != bak && from.value in fs && bak in r.fs && r.fs[bak] == fs[from.value]
  {
    var fs1 := MakeDirs(fs, bak);
    var fs2 := fs1 - {bak};
    if from.None? then Step(fs2, Some(TypeError)) else CopyTree(fs2, from.value, bak, fault)
  }

  /** `make_backup_copy(pid, side)`: the slot folder (`cloud_backup`) or the local folder (`local_backup`) into `<slot>.bak`. */
  method MakeBackupCopy(d: Disk, env: Env, pid: string, side: string, fault: Fault) returns (raised: Option<Error>)
    modifies d`dirs
    ensures SlotPath(d, env, pid).None? ==> raised == Some(TypeError) && d.dirs == old(d.dirs)
    ensures SlotPath(d, env, pid).Some? && side != "local_backup" && side != "cloud_backup" ==>
              raised == Some(Exception("Invalid which_side argument")) && d.dirs == old(d.dirs)
    ensures SlotPath(d, env, pid).Some? && (side == "local_backup" || side == "cloud_backup") ==>
              var from := if side == "local_backup" then ProfileField(d, env, pid, "local_save_folder") else SlotPath(d, env, pid);
              var b := Backup(old(d.dirs), from, SlotPath(d, env, pid).value + ".bak", fault);
              d.dirs == b.fs && raised == b.err
  {
    var cloud := CloudRoot(d);
    var slot := ProfileField(d, env, pid, "save_slot");
    if cloud.None? || slot.None? {
      return Some(TypeError);
    }
    var path := Text.PathJoin(cloud.value, pid + "/save" + slot.value);
    var bak := path + ".bak";
    if side != "local_backup" && side != "cloud_backup" {
      return Some(Exception("Invalid which_side argument"));
    }
    d.dirs := MakeDirs(d.dirs, bak);
    var from := path;
    if side == "local_backup" {
      var local := ProfileField(d, env, pid, "local_save_folder");
      if bak in d.dirs {
        d.dirs := d.dirs - {bak};
      }
      if local.None? {
        return Some(TypeError);
      }
      from := local.value;
    } else {
      if bak in d.dirs {
        d.dirs := d.dirs - {bak};
      }
    }
    var copied := CopyTree(d.dirs, from, bak, fault);
    d.dirs := copied.fs;
    raised := copied.err;
  }

  /** The user's answer to the "Sync Error" dialog. */
  datatype Answer = Retry | Abort

  /** How one pass of a copy loop goes: the backup copy, the main copy, and the answer if it fails. */
  datatype Attempt = Attempt(backupFault: Fault, copyFault: Fault, answer: Answer)

  /** Attempt `i`; past the given ones, a clean attempt and `Abort`. */
  function AttemptAt(attempts: seq<Attempt>, i: nat): Attempt
  {
    if i < |attempts| then attempts[i] else Attempt(NoFault, NoFault, Abort)
  }

  /** The state after one pass, its exception if any, and whether the pass took a backup. */
  datatype PassResult = PassResult(fs: Fs, err: Option<Error>, backedUp: bool)

  /** The part of a pass after the backup: remove `t`, copy `src` into it and compare the two. */
  function Replace(fs: Fs, src: Option<string>, t: string, fault: Fault): (r: Step)
    ensures forall q :: q != t ==> (q in r.fs <==> q in fs) && (q in fs ==> r.fs[q] == fs[q])
    ensures r.err.None? ==> src.Some? && src.value != t && src.value in r.fs && t in r.fs && r.fs[t] == r.fs[src.value]
  {
    match RmTree(fs, t)
    case Err(e) => Step(fs, Some(e))
    case Ok(fs2) =>
      if src.None? then Step(fs2, Some(TypeError))
      else
        var c := CopyTree(fs2, src.value, t, fault);
        if c.err.Some? then c
        else if CheckFolderMismatch(Contents(c.fs, src.value), Contents(c.fs, t)) then
          Step(c.fs, Some(Exception("Mismatch in directory contents")))
        else c
  }

  /**
   * One pass of the `try` block of the copy loops: create `dst`, back it up
   * (when `takeBackup`), then replace it by `src`.
   */
  function Pass(fs: Fs, src: Option<string>, dst: Option<string>, bak: string, a: Attempt, takeBackup: bool): (r: PassResult)
    ensures forall q :: dst.Some? && q != dst.value && q != bak ==> (q in r.fs <==> q in fs) && (q in fs ==> r.fs[q] == fs[q])
    ensures dst.None? ==> r == PassResult(fs, Some(TypeError), false)
    ensures r.backedUp <==> dst.Some? && takeBackup && Backup(MakeDirs(fs, dst.value), dst, bak, a.backupFault).err.None?
    ensures r.err.None? ==> src.Some? && src.value != dst.value && src.value in r.fs && dst.value in r.fs && r.fs[dst.value] == r.fs[src.value]
    ensures dst.Some? && dst.value != bak && !r.backedUp ==> Contents(r.fs, dst.value) == Contents(fs, dst.value) || !takeBackup
    ensures dst.Some? && dst.value != bak && r.backedUp ==> bak in r.fs && r.fs[bak] == Contents(fs, dst.value)
    ensures dst.Some? && dst.value != bak && !takeBackup ==> (bak in r.fs <==> bak in fs) && (bak in fs ==> r.fs[bak] == fs[bak])
  {
    if dst.None? then PassResult(fs, Some(TypeError), false)
    else
      var fs1 := MakeDirs(fs, dst.value);
      var b := if takeBackup then Backup(fs1, dst, bak, a.backupFault) else Step(fs1, None);
      if b.err.Some? then PassResult(b.fs, b.err, false)
      else
        var c := Replace(b.fs, src, dst.value, a.copyFault);
        PassResult(c.fs, c.err, takeBackup)
  }

  /** The end state of a copy loop, and whether it ended by a pass that succeeded. */
  datatype RunResult = RunResult(fs: Fs, synced: bool)

  /**
   * The `while True` loop from attempt `i` on: it ends after a pass that
   * succeeds or when the user does not answer `Retry`. `everyPass` takes the
   * backup on every pass, as the loops are written; otherwise it is taken
   * until one backup has succeeded.
   */
  function Run(fs: Fs, src: Option<string>, dst: Option<string>, bak: string, attempts: seq<Attempt>, i: nat,
               everyPass: bool, backedUp: bool): RunResult
    decreases |attempts| - i
  {
    var a := AttemptAt(attempts, i);
    var p := Pass(fs, src, dst, bak, a, everyPass || !backedUp);
    if p.err.None? then RunResult(p.fs, true)
    else if i < |attempts| && a.answer == Retry then Run(p.fs, src, dst, bak, attempts, i + 1, everyPass, backedUp || p.backedUp)
    else RunResult(p.fs, false)
  }

  /** What the copy loops have to work with: source, destination and backup folder of a profile. */
  function Source(d: Disk, env: Env, pid: string, toCloud: bool): Option<string>
    reads d`profiles, d`global
  {
    if toCloud then ProfileField(d, env, pid, "local_save_folder") else SlotPath(d, env, pid)
  }

  function Destination(d: Disk, env: Env, pid: string, toCloud: bool): Option<string>
    reads d`profiles, d`global
  {
    if toCloud then SlotPath(d, env, pid) else ProfileField(d, env, pid, "local_save_folder")
  }

  /** The statements of a pass after the backup. */
  method ReplaceFolder(d: Disk, src: Option<string>, t: string, fault: Fault) returns (raised: Option<Error>)
    modifies d`dirs
    ensures Step(d.dirs, raised) == Replace(old(d.dirs), src, t, fault)
  {
    var removed := RmTree(d.dirs, t);
    if removed.Err? {
      return Some(removed.error);
    }
    d.dirs := removed.value;
    if src.None? {
      return Some(TypeError);
    }
    var copied := CopyTree(d.dirs, src.value, t, fault);
    d.dirs := copied.fs;
    if copied.err.Some? {
      return copied.err;
    }
    if CheckFolderMismatch(Contents(d.dirs, src.value), Contents(d.dirs, t)) {
      return Some(Exception("Mismatch in directory contents"));
    }
    return None;
  }

  /** One pass of the `try` block, as the statements of the loop body. */
  method SyncAttempt(d: Disk, env: Env, pid: string, toCloud: bool, takeBackup: bool, a: Attempt)
    returns (raised: Option<Error>, backedUp: bool)
    requires SlotPath(d, env, pid).Some?
    modifies d`dirs
    ensures PassResult(d.dirs, raised, backedUp)
            == Pass(old(d.dirs), Source(d, env, pid, toCloud), Destination(d, env, pid, toCloud), SlotPath(d, env, pid).value + ".bak", a, takeBackup)
  {
    var local := ProfileField(d, env, pid, "local_save_folder");
    var path := SlotPath(d, env, pid).value;
    var src, dst := if toCloud then local else Some(path), if toCloud then Some(path) else local;
    if dst.None? {
      return Some(TypeError), false;
    }
    d.dirs := MakeDirs(d.dirs, dst.value);
    if takeBackup {
      raised := BackupDestination(d, env, pid, toCloud, a.backupFault);
      if raised.Some? {
        return raised, false;
      }
    }
    raised := ReplaceFolder(d, src, dst.value, a.copyFault);
    backedUp := takeBackup;
  }

  /** The `make_backup_copy` call of a pass: the side that is about to be overwritten. */
  method BackupDestination(d: Disk, env: Env, pid: string, toCloud: bool, fault: Fault) returns (raised: Option<Error>)
    requires SlotPath(d, env, pid).Some?
    modifies d`dirs
    ensures Step(d.dirs, raised) == Backup(old(d.dirs), Destination(d, env, pid, toCloud), SlotPath(d, env, pid).value + ".bak", fault)
  {
    if toCloud {
      raised := MakeBackupCopy(d, env, pid, "cloud_backup", fault);
    } else {
      raised := MakeBackupCopy(d, env, pid, "local_backup", fault);
    }
  }

  /** The `while True` loop of the copy functions. */
  method ReplaceWithRetry(d: Disk, env: Env, pid: string, toCloud: bool, attempts: seq<Attempt>, everyPass: bool)
    returns (synced: bool)
    requires SlotPath(d, env, pid).Some?
    modifies d`dirs
    ensures RunResult(d.dirs, synced)
            == Run(old(d.dirs), Source(d, env, pid, toCloud), Destination(d, env, pid, toCloud), SlotPath(d, env, pid).value + ".bak",
                   attempts, 0, everyPass, false)
  {
    ghost var src, dst, bak := Source(d, env, pid, toCloud), Destination(d, env, pid, toCloud), SlotPath(d, env, pid).value + ".bak";
    var i := 0;
    var backedUp := false;
    synced := false;
    while true
      invariant Run(old(d.dirs), src, dst, bak, attempts, 0, everyPass, false) == Run(d.dirs, src, dst, bak, attempts, i, everyPass, backedUp)
      decreases |attempts| - i
    {
      var a := AttemptAt(attempts, i);
      var raised, took := SyncAttempt(d, env, pid, toCloud, everyPass || !backedUp, a);
      if raised.None? {
        synced := true;
        break;
      }
      if !(i < |attempts| && a.answer == Retry) {
        break;
      }
      backedUp := backedUp || took;
      i := i + 1;
    }
  }

  /** How a copy function ends. */
  datatype CopyOutcome = Raised(error: Error) | Unreachable | Synced | GaveUp

  /** `copy_save_to_cloud` / `copy_save_to_local`, with the backup taken every pass or until one succeeds. */
  method CopySave(d: Disk, env: Env, pid: string, toCloud: bool, attempts: seq<Attempt>, everyPass: bool)
    returns (outcome: CopyOutcome)
    modifies d`dirs
    ensures SlotPath(d, env, pid).None? ==> outcome == Raised(TypeError) && d.dirs == old(d.dirs)
    ensures SlotPath(d, env, pid).Some? && !old(NetworkShareAccessible(d, env)) ==> outcome == Unreachable && d.dirs == old(d.dirs)
    ensures SlotPath(d, env, pid).Some? && old(NetworkShareAccessible(d, env)) ==>
              (outcome == Synced || outcome == GaveUp)
              && RunResult(d.dirs, outcome == Synced)
                 == Run(old(d.dirs), Source(d, env, pid, toCloud), Destination(d, env, pid, toCloud), SlotPath(d, env, pid).value + ".bak",
                        attempts, 0, everyPass, false)
  {
    if SlotPath(d, env, pid).None? {
      return Raised(TypeError);
    }
    if !NetworkShareAccessible(d, env) {
      return Unreachable;
    }
    var synced := ReplaceWithRetry(d, env, pid, toCloud, attempts, everyPass);
    outcome := if synced then Synced else GaveUp;
  }

  /** `copy_save_to_cloud` as written: the slot folder is backed up again on every pass. */
  method CopySaveAsWritten(d: Disk, env: Env, pid: string, toCloud: bool, attempts: seq<Attempt>) returns (outcome: CopyOutcome)
    modifies d`dirs
    ensures SlotPath(d, env, pid).None? ==> outcome == Raised(TypeError) && d.dirs == old(d.dirs)
    ensures SlotPath(d, env, pid).Some? && !old(NetworkShareAccessible(d, env)) ==> outcome == Unreachable && d.dirs == old(d.dirs)
    ensures SlotPath(d, env, pid).Some? && old(NetworkShareAccessible(d, env)) ==>
              RunResult(d.dirs, outcome == Synced)
              == Run(old(d.dirs), Source(d, env, pid, toCloud), Destination(d, env, pid, toCloud), SlotPath(d, env, pid).value + ".bak",
                     attempts, 0, true, false)
  {
    outcome := CopySave(d, env, pid, toCloud, attempts, true);
  }

  /** `copy_save_to_cloud`, with the backup kept once it has been taken. */
  method CopySaveToCloud(d: Disk, env: Env, pid: string, attempts: seq<Attempt>) returns (outcome: CopyOutcome)
    modifies d`dirs
    ensures SlotPath(d, env, pid).None? ==> outcome == Raised(TypeError) && d.dirs == old(d.dirs)
    ensures SlotPath(d, env, pid).Some? && !old(NetworkShareAccessible(d, env)) ==> outcome == Unreachable && d.dirs == old(d.dirs)
    ensures SlotPath(d, env, pid).Some? && old(NetworkShareAccessible(d, env)) ==>
              (outcome == Synced || outcome == GaveUp)
              && RunResult(d.dirs, outcome == Synced)
                 == Run(old(d.dirs), ProfileField(d, env, pid, "local_save_folder"), SlotPath(d, env, pid), SlotPath(d, env, pid).value + ".bak",
                        attempts, 0, false, false)
  {
    outcome := CopySave(d, env, pid, true, attempts, false);
  }

  /** `copy_save_to_local`, with the backup kept once it has been taken. */
  method CopySaveToLocal(d: Disk, env: Env, pid: string, attempts: seq<Attempt>) returns (outcome: CopyOutcome)
    modifies d`dirs
    ensures SlotPath(d, env, pid).None? ==> outcome == Raised(TypeError) && d.dirs == old(d.dirs)
    ensures SlotPath(d, env, pid).Some? && !old(NetworkShareAccessible(d, env)) ==> outcome == Unreachable && d.dirs == old(d.dirs)
    ensures SlotPath(d, env, pid).Some? && old(NetworkShareAccessible(d, env)) ==>
              (outcome == Synced || outcome == GaveUp)
              && RunResult(d.dirs, outcome == Synced)
                 == Run(old(d.dirs), SlotPath(d, env, pid), ProfileField(d, env, pid, "local_save_folder"), SlotPath(d, env, pid).value + ".bak",
                        attempts, 0, false, false)
  {
    outcome := CopySave(d, env, pid, false, attempts, false);
  }

  // ---- what the loops guarantee ----

  /** A copy loop touches nothing but the destination and the backup folder. */
  lemma {:induction false} RunFrame(fs: Fs, src: Option<string>, t: string, bak: string, attempts: seq<Attempt>, i: nat,
                                    everyPass: bool, backedUp: bool)
    ensures var r := Run(fs, src, Some(t), bak, attempts, i, everyPass, backedUp);
            forall q :: q != t && q != bak ==> (q in r.fs <==> q in fs) && (q in fs ==> r.fs[q] == fs[q])
    decreases |attempts| - i
  {
    var a := AttemptAt(attempts, i);
    var p := Pass(fs, src, Some(t), bak, a, everyPass || !backedUp);
    if p.err.Some? && i < |attempts| && a.answer == Retry {
      RunFrame(p.fs, src, t, bak, attempts, i + 1, everyPass, backedUp || p.backedUp);
    }
  }

  /** Without a destination no pass succeeds. */
  lemma {:induction false} RunWithoutDestination(fs: Fs, src: Option<string>, bak: string, attempts: seq<Attempt>, i: nat,
                                                 everyPass: bool, backedUp: bool)
    ensures !Run(fs, src, None, bak, attempts, i, everyPass, backedUp).synced
    decreases |attempts| - i
  {
    var a := AttemptAt(attempts, i);
    var p := Pass(fs, src, None, bak, a, everyPass || !backedUp);
    if i < |attempts| && a.answer == Retry {
      RunWithoutDestination(p.fs, src, bak, attempts, i + 1, everyPass, backedUp || p.backedUp);
    }
  }

  /** A loop that ends by a successful pass leaves the destination equal to the source as it was. */
  lemma {:induction false} RunSyncedCopies(fs: Fs, s: string, t: string, bak: string, attempts: seq<Attempt>, i: nat,
                                           everyPass: bool, backedUp: bool)
    requires s != t && s != bak
    ensures var r := Run(fs, Some(s), Some(t), bak, attempts, i, everyPass, backedUp);
            r.synced ==> s in fs && t in r.fs && r.fs[t] == fs[s]
    decreases |attempts| - i
  {
    var a := AttemptAt(attempts, i);
    var p := Pass(fs, Some(s), Some(t), bak, a, everyPass || !backedUp);
    if p.err.Some? && i < |attempts| && a.answer == Retry {
      RunSyncedCopies(p.fs, s, t, bak, attempts, i + 1, everyPass, backedUp || p.backedUp);
    }
  }

  /** A pass with no fault succeeds whenever the source exists and the three folders differ. */
  lemma CleanPassSucceeds(fs: Fs, s: string, t: string, bak: string, a: Attempt, takeBackup: bool)
    requires s in fs && s != t && s != bak && t != bak
    requires a.backupFault.NoFault? && a.copyFault.NoFault?
    ensures Pass(fs, Some(s), Some(t), bak, a, takeBackup).err.None?
  {
    var fs1 := MakeDirs(fs, t);
    var b := if takeBackup then Backup(fs1, Some(t), bak, a.backupFault) else Step(fs1, None);
    assert b.err.None?;
    var fs2 := b.fs - {t};
    var c := CopyTree(fs2, s, t, a.copyFault);
    assert c.fs[t] == c.fs[s];
    CopyNeverMismatches(Contents(c.fs, s), Contents(c.fs, t));
  }

  /** The first pass without a fault ends the loop with the destination a copy of the source. */
  lemma CleanAttemptSyncs(fs: Fs, s: string, t: string, bak: string, attempts: seq<Attempt>, i: nat, everyPass: bool, backedUp: bool)
    requires s in fs && s != t && s != bak && t != bak
    requires AttemptAt(attempts, i).backupFault.NoFault? && AttemptAt(attempts, i).copyFault.NoFault?
    ensures var r := Run(fs, Some(s), Some(t), bak, attempts, i, everyPass, backedUp);
            r.synced && t in r.fs && r.fs[t] == fs[s]
  {
    CleanPassSucceeds(fs, s, t, bak, AttemptAt(attempts, i), everyPass || !backedUp);
    RunSyncedCopies(fs, s, t, bak, attempts, i, everyPass, backedUp);
  }

  /** Before a backup has succeeded the destination is untouched; after, the backup holds it. */
  predicate Preserved(fs: Fs, t: string, bak: string, pre: Tree, backedUp: bool)
  {
    if backedUp then bak in fs && fs[bak] == pre else Contents(fs, t) == pre
  }

  /** One pass keeps `Preserved`, given the backup is taken until one succeeds. */
  lemma PassPreserves(fs: Fs, src: Option<string>, t: string, bak: string, a: Attempt, pre: Tree, backedUp: bool)
    requires t != bak
    requires Preserved(fs, t, bak, pre, backedUp)
    ensures var p := Pass(fs, src, Some(t), bak, a, !backedUp);
            Preserved(p.fs, t, bak, pre, backedUp || p.backedUp)
  {
  }

  /**
   * With the backup kept once taken, whatever goes wrong the folder's
   * contents from before the loop survive, in the folder or in its backup.
   */
  lemma {:induction false} RunKeepsOriginal(fs: Fs, src: Option<string>, t: string, bak: string, attempts: seq<Attempt>, i: nat,
                                            pre: Tree, backedUp: bool)
    requires t != bak
    requires Preserved(fs, t, bak, pre, backedUp)
    ensures var r := Run(fs, src, Some(t), bak, attempts, i, false, backedUp);
            Contents(r.fs, t) == pre || (bak in r.fs && r.fs[bak] == pre)
    decreases |attempts| - i
  {
    var a := AttemptAt(attempts, i);
    PassPreserves(fs, src, t, bak, a, pre, backedUp);
    var p := Pass(fs, src, Some(t), bak, a, !backedUp);
    if p.err.Some? && i < |attempts| && a.answer == Retry {
      RunKeepsOriginal(p.fs, src, t, bak, attempts, i + 1, pre, backedUp || p.backedUp);
    }
  }

  /** The loop from its start keeps the destination's original contents. */
  lemma CopyKeepsOriginal(fs: Fs, src: Option<string>, t: string, bak: string, attempts: seq<Attempt>)
    requires t != bak
    ensures var r := Run(fs, src, Some(t), bak, attempts, 0, false, false);
            Contents(r.fs, t) == Contents(fs, t) || (bak in r.fs && r.fs[bak] == Contents(fs, t))
  {
    RunKeepsOriginal(fs, src, t, bak, attempts, 0, Contents(fs, t), false);
  }

  /** A pass whose copy dies before the first file empties the slot folder, after backing it up. */
  lemma EmptyingPass(fs: Fs, answer: Answer)
    requires "L" in fs && "S" in fs
    ensures var p := Pass(fs, Some("L"), Some("S"), "S.bak", Attempt(NoFault, Partial({}), answer), true);
            p.err == Some(IoFault) && "L" in p.fs && p.fs["L"] == fs["L"]
            && "S" in p.fs && p.fs["S"] == map[] && "S.bak" in p.fs && p.fs["S.bak"] == fs["S"]
  {
    var a := Attempt(NoFault, Partial({}), answer);
    var fs1 := MakeDirs(fs, "S");
    var b := Backup(fs1, Some("S"), "S.bak", NoFault);
    assert b.err.None?;
    var c := Replace(b.fs, Some("L"), "S", Partial({}));
    var fs2 := b.fs - {"S"};
    assert RmTree(b.fs, "S") == Ok(fs2);
    assert c == CopyTree(fs2, "L", "S", Partial({}));
    assert c.fs["S"] == map[];
  }

  /**
   * As written, a second failing pass overwrites the backup with the
   * half-copied folder: the cloud save is then lost from both places.
   */
  lemma RetryOverwritesBackup()
    ensures var y, z := File([1], 0), File([2], 0);
            var fs: Fs := map["L" := map[["g"] := y], "S" := map[["g"] := z]];
            var attempts := [Attempt(NoFault, Partial({}), Retry), Attempt(NoFault, Partial({}), Abort)];
            var r := Run(fs, Some("L"), Some("S"), "S.bak", attempts, 0, true, false);
            !r.synced && Contents(r.fs, "S") != fs["S"] && Contents(r.fs, "S.bak") != fs["S"]
  {
    var y, z := File([1], 0), File([2], 0);
    var fs: Fs := map["L" := map[["g"] := y], "S" := map[["g"] := z]];
    var attempts := [Attempt(NoFault, Partial({}), Retry), Attempt(NoFault, Partial({}), Abort)];
    EmptyingPass(fs, Retry);
    var p1 := Pass(fs, Some("L"), Some("S"), "S.bak", attempts[0], true);
    EmptyingPass(p1.fs, Abort);
    var p2 := Pass(p1.fs, Some("L"), Some("S"), "S.bak", attempts[1], true);
    assert Run(fs, Some("L"), Some("S"), "S.bak", attempts, 0, true, false)
        == Run(p1.fs, Some("L"), Some("S"), "S.bak", attempts, 1, true, p1.backedUp);
    assert ["g"] in fs["S"];
  }
}
