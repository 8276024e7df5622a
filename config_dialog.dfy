/**
 * `components/config_dialog.py`: the profile dialog. It imports profiles
 * found in the cloud folder, saves the edited fields of a profile, adds new
 * profiles (with their cloud descriptor), and keeps the list of files a
 * profile omits from syncing.
 */
module ConfigDialog {

  import opened Wrappers
  import Text
  import Ini
  import FileSystem
  import opened State
  import opened Io

  // ---- the import scan (lines 363-431) ----

  /** The fields an importable descriptor holds in its `profile` section (line 366). */
  const Required: set<string> := {"name", "saves", "executable_name", "checkout"}

  /**
   * `io_profile("read", pid, "profile")` is not `None`: the profile file is
   * readable and has a `profile` section. An empty id takes the branch that
   * collects a section of every profile, whose answer is never `None`.
   */
  predicate Registered(profiles: map<string, Ini.Config>, env: Env, pid: string)
  {
    pid == "" || ProfileSection(profiles, env, pid, "profile").Some?
  }

  /** The descriptor of `pid` in the cloud folder has a `profile` section with every required field. */
  predicate Importable(descriptors: map<string, Ini.Config>, cloud: string, pid: string)
  {
    var c := DescriptorAt(descriptors, DescriptorPath(cloud, pid));
    "profile" in c && Required <= c["profile"].Keys
  }

  /**
   * `validate_profile` as written: the descriptor's section is read with
   * `io_savetitan`, which answers `None` when the section (or the whole file)
   * is missing, and the membership test on `None` is a `TypeError`; the
   * `FileNotFoundError` handler never runs.
   */
  function ValidateAsWritten(profiles: map<string, Ini.Config>, descriptors: map<string, Ini.Config>, cloud: Option<string>,
                             env: Env, pid: string): (r: Result<int>)
  {
    match cloud
    case None => Err(TypeError)
    case Some(_) =>
      if Registered(profiles, env, pid) then Ok(1)
      else match DescriptorRead(descriptors, cloud, pid, "profile", None)
        case Ok(Fields(m)) => if Required <= m.Keys then Ok(0) else Ok(2)
        case _ => Err(TypeError)
  }

  /**
   * `validate_profile` as intended: 1 for a profile already registered
   * here, whatever the descriptor holds; 2 for a descriptor that is missing
   * or lacks a required field; 0 for an importable one. Without a cloud
   * folder the path cannot be built (`TypeError`).
   */
  function Validate(profiles: map<string, Ini.Config>, descriptors: map<string, Ini.Config>, cloud: Option<string>,
                    env: Env, pid: string): (r: Result<int>)
    ensures r.Err? <==> cloud.None?
    ensures r.Err? ==> r.error == TypeError
    ensures cloud.Some? ==> (r == Ok(1) <==> Registered(profiles, env, pid))
    ensures cloud.Some? ==> (r == Ok(0) <==> !Registered(profiles, env, pid) && Importable(descriptors, cloud.value, pid))
    ensures cloud.Some? ==> (r == Ok(2) <==> !Registered(profiles, env, pid) && !Importable(descriptors, cloud.value, pid))
  {
    match cloud
    case None => Err(TypeError)
    case Some(_) =>
      if Registered(profiles, env, pid) then Ok(1)
      else match DescriptorRead(descriptors, cloud, pid, "profile", None)
        case Ok(Fields(m)) => if Required <= m.Keys then Ok(0) else Ok(2)
        case _ => Ok(2)
  }

  /** The two agree except where the descriptor has no `profile` section, where the code as written raises. */
  lemma ValidateAsWrittenRaises(profiles: map<string, Ini.Config>, descriptors: map<string, Ini.Config>, cloud: string, env: Env, pid: string)
    ensures var c := DescriptorAt(descriptors, DescriptorPath(cloud, pid));
            if !Registered(profiles, env, pid) && "profile" !in c
            then ValidateAsWritten(profiles, descriptors, Some(cloud), env, pid) == Err(TypeError)
                 && Validate(profiles, descriptors, Some(cloud), env, pid) == Ok(2)
            else ValidateAsWritten(profiles, descriptors, Some(cloud), env, pid) == Validate(profiles, descriptors, Some(cloud), env, pid)
  {
  }

  /** A cloud folder `abc123` without a descriptor, not registered here, makes the scan as written raise. */
  lemma MissingDescriptorRaises()
    ensures ValidateAsWritten(map[], map[], Some("/cloud"), Env("host", {}, {}), "abc123") == Err(TypeError)
    ensures Validate(map[], map[], Some("/cloud"), Env("host", {}, {}), "abc123") == Ok(2)
  {
    ValidateAsWrittenRaises(map[], map[], "/cloud", Env("host", {}, {}), "abc123");
  }

  /** A list entry of the import dialog: its text and the id stored with it. */
  datatype Item = Item(text: string, id: string)

  /** What a scan reports: the number of invalid profiles and the importable ones. */
  datatype Report = Report(invalid: nat, items: seq<Item>)

  /** Line 411: `name - executable_name (id)`. */
  function Listing(descriptors: map<string, Ini.Config>, cloud: string, pid: string): Item
    requires Importable(descriptors, cloud, pid)
  {
    var m := DescriptorAt(descriptors, DescriptorPath(cloud, pid))["profile"];
    Item(m["name"] + " - " + m["executable_name"] + " (" + pid + ")", pid)
  }

  function Code(profiles: map<string, Ini.Config>, descriptors: map<string, Ini.Config>, cloud: string, env: Env, pid: string): int
  {
    Validate(profiles, descriptors, Some(cloud), env, pid).value
  }

  /** The report after the listed folders, in order. */
  function Scanned(profiles: map<string, Ini.Config>, descriptors: map<string, Ini.Config>, cloud: string, env: Env, ids: seq<string>): Report
  {
    if ids == [] then Report(0, [])
    else
      var r := Scanned(profiles, descriptors, cloud, env, ids[..|ids| - 1]);
      var pid := ids[|ids| - 1];
      var code := Code(profiles, descriptors, cloud, env, pid);
      if code == 2 then r.(invalid := r.invalid + 1)
      else if code == 0 then r.(items := r.items + [Listing(descriptors, cloud, pid)])
      else r
  }

  /** The positions of the folders that validate to `code`. */
  function WithCode(profiles: map<string, Ini.Config>, descriptors: map<string, Ini.Config>, cloud: string, env: Env,
                    ids: seq<string>, code: int): set<int>
  {
    set i | 0 <= i < |ids| && Code(profiles, descriptors, cloud, env, ids[i]) == code
  }

  lemma WithCodeSnoc(profiles: map<string, Ini.Config>, descriptors: map<string, Ini.Config>, cloud: string, env: Env,
                     ids: seq<string>, code: int)
    requires ids != []
    ensures var n := |ids| - 1;
            WithCode(profiles, descriptors, cloud, env, ids, code)
            == WithCode(profiles, descriptors, cloud, env, ids[..n], code)
               + (if Code(profiles, descriptors, cloud, env, ids[n]) == code then {n} else {})
  {
    var n := |ids| - 1;
    assert forall i :: 0 <= i < n ==> ids[..n][i] == ids[i];
  }

  /** The scan counts as invalid exactly the folders that validate to 2. */
  lemma {:induction false} ScanCountsInvalid(profiles: map<string, Ini.Config>, descriptors: map<string, Ini.Config>, cloud: string, env: Env, ids: seq<string>)
    ensures Scanned(profiles, descriptors, cloud, env, ids).invalid == |WithCode(profiles, descriptors, cloud, env, ids, 2)|
  {
    if ids != [] {
      var n := |ids| - 1;
      var code := Code(profiles, descriptors, cloud, env, ids[n]);
      ScanCountsInvalid(profiles, descriptors, cloud, env, ids[..n]);
      WithCodeSnoc(profiles, descriptors, cloud, env, ids, 2);
      assert n !in WithCode(profiles, descriptors, cloud, env, ids[..n], 2);
      assert Scanned(profiles, descriptors, cloud, env, ids).invalid
             == Scanned(profiles, descriptors, cloud, env, ids[..n]).invalid + (if code == 2 then 1 else 0);
    }
  }

  /** The scan lists one entry per folder that validates to 0. */
  lemma {:induction false} ScanCountsImportable(profiles: map<string, Ini.Config>, descriptors: map<string, Ini.Config>, cloud: string, env: Env, ids: seq<string>)
    ensures |Scanned(profiles, descriptors, cloud, env, ids).items| == |WithCode(profiles, descriptors, cloud, env, ids, 0)|
  {
    if ids != [] {
      var n := |ids| - 1;
      var code := Code(profiles, descriptors, cloud, env, ids[n]);
      ScanCountsImportable(profiles, descriptors, cloud, env, ids[..n]);
      WithCodeSnoc(profiles, descriptors, cloud, env, ids, 0);
      assert n !in WithCode(profiles, descriptors, cloud, env, ids[..n], 0);
      assert Scanned(profiles, descriptors, cloud, env, ids).items
             == Scanned(profiles, descriptors, cloud, env, ids[..n]).items + (if code == 0 then [Listing(descriptors, cloud, ids[n])] else []);
    }
  }

  /**
   * The entries listed are exactly those of the folders that validate to 0,
   * each with its descriptor's name and executable; registered profiles and
   * invalid ones are not listed.
   */
  lemma {:induction false} ScanListsImportable(profiles: map<string, Ini.Config>, descriptors: map<string, Ini.Config>, cloud: string, env: Env, ids: seq<string>)
    ensures forall it :: it in Scanned(profiles, descriptors, cloud, env, ids).items <==>
              exists i :: 0 <= i < |ids| && Code(profiles, descriptors, cloud, env, ids[i]) == 0 && it == Listing(descriptors, cloud, ids[i])
  {
    if ids != [] {
      var n := |ids| - 1;
      ScanListsImportable(profiles, descriptors, cloud, env, ids[..n]);
      assert forall i :: 0 <= i < n ==> ids[..n][i] == ids[i];
    }
  }

  /** `scan_cloud_storage` over the ids of the cloud folder's subfolders, in listing order. */
  method Scan(d: Disk, env: Env, ids: seq<string>) returns (report: Report)
    requires CloudRoot(d).Some?
    ensures report == Scanned(d.profiles, d.descriptors, CloudRoot(d).value, env, ids)
  {
    var cloud := CloudRoot(d).value;
    report := Report(0, []);
    for i := 0 to |ids|
      invariant report == Scanned(d.profiles, d.descriptors, cloud, env, ids[..i])
    {
      assert ids[..i + 1][..i] == ids[..i];
      var code := Validate(d.profiles, d.descriptors, Some(cloud), env, ids[i]).value;
      if code == 2 {
        report := report.(invalid := report.invalid + 1);
      } else if code == 0 {
        report := report.(items := report.items + [Listing(d.descriptors, cloud, ids[i])]);
      }
    }
    assert ids[..|ids|] == ids;
  }

  // ---- saving the fields of a profile (lines 733-761) ----

  /**
   * The duplicate-name loop of lines 752-757 over the profiles in the order
   * they were read: the first other profile whose `name` equals the new name
   * ignoring case stops the save; one without a `name` raises `KeyError`
   * when it is reached first. The profile being saved is skipped, so it may
   * keep its own name.
   */
  function Clash(sections: map<string, Ini.Section>, order: seq<string>, pid: string, name: string): (r: Result<bool>)
    requires forall i :: 0 <= i < |order| ==> order[i] in sections
    ensures r.Err? ==> r.error == KeyError && exists i :: 0 <= i < |order| && order[i] != pid && "name" !in sections[order[i]]
    ensures r == Ok(true) ==>
              exists i :: 0 <= i < |order| && order[i] != pid && "name" in sections[order[i]]
                          && Text.Lower(sections[order[i]]["name"]) == Text.Lower(name)
    ensures (forall i :: 0 <= i < |order| && order[i] != pid ==> "name" in sections[order[i]]) ==>
              r.Ok? && (r.value <==> exists i :: 0 <= i < |order| && order[i] != pid
                                                 && Text.Lower(sections[order[i]]["name"]) == Text.Lower(name))
    decreases |order|
  {
    if order == [] then Ok(false)
    else
      var q := order[0];
      assert forall i :: 1 <= i < |order| ==> order[1..][i - 1] == order[i];
      if q == pid then Clash(sections, order[1..], pid, name)
      else if "name" !in sections[q] then Err(KeyError)
      else if Text.Lower(sections[q]["name"]) == Text.Lower(name) then Ok(true)
      else Clash(sections, order[1..], pid, name)
  }

  /** The loop of lines 752-757. */
  method CheckNames(sections: map<string, Ini.Section>, order: seq<string>, pid: string, name: string) returns (r: Result<bool>)
    requires forall i :: 0 <= i < |order| ==> order[i] in sections
    ensures r == Clash(sections, order, pid, name)
  {
    for i := 0 to |order|
      invariant Clash(sections, order, pid, name) == Clash(sections, order[i..], pid, name)
    {
      assert order[i..][0] == order[i] && order[i..][1..] == order[i + 1..];
      if order[i] != pid {
        if "name" !in sections[order[i]] {
          return Err(KeyError);
        }
        if Text.Lower(sections[order[i]]["name"]) == Text.Lower(name) {
          return Ok(true);
        }
      }
    }
    assert order[|order|..] == [];
    r := Ok(false);
  }

  /** The files after a run of writes, and the exception that ended it early, if any. */
  datatype Written = Written(files: map<string, Ini.Config>, error: Option<Error>)

  /** Consecutive `io_profile("write", pid, section, field, value)` calls; the first exception ends the run. */
  function ProfileWrites(profiles: map<string, Ini.Config>, env: Env, pid: string, section: string, fields: seq<(string, string)>): Written
    decreases |fields|
  {
    if fields == [] then Written(profiles, None)
    else match ProfileWrite(profiles, env, Some(pid), Some(section), Some(fields[0].0), Some(fields[0].1))
      case Err(e) => Written(profiles, Some(e))
      case Ok(m) => ProfileWrites(m, env, pid, section, fields[1..])
  }

  /** Consecutive `io_savetitan("write", pid, section, field, value)` calls. */
  function DescriptorWrites(descriptors: map<string, Ini.Config>, cloud: Option<string>, pid: string, section: string,
                            fields: seq<(string, string)>): Written
    decreases |fields|
  {
    if fields == [] then Written(descriptors, None)
    else match DescriptorWrite(descriptors, cloud, pid, section, Some(fields[0].0), Some(fields[0].1))
      case Err(e) => Written(descriptors, Some(e))
      case Ok(m) => DescriptorWrites(m, cloud, pid, section, fields[1..])
  }

  /** Field names no later field of the run overrides. */
  predicate Final(fields: seq<(string, string)>, i: int)
    requires 0 <= i < |fields|
  {
    forall j :: i < j < |fields| ==> Ini.OptionKey(fields[j].0) != Ini.OptionKey(fields[i].0)
  }

  /**
   * A run of profile writes fails only with `PermissionError` on a profile
   * whose file may not be written; otherwise every field reads back with the
   * value written last for it when the file can be read, only the last field
   * is left when it cannot, and every other profile is untouched.
   */
  lemma {:induction false} ProfileWritesEffect(profiles: map<string, Ini.Config>, env: Env, pid: string, section: string, fields: seq<(string, string)>)
    requires pid != "" && section != ""
    requires forall i :: 0 <= i < |fields| ==> fields[i].0 != ""
    ensures var w := ProfileWrites(profiles, env, pid, section, fields);
            (w.error.Some? ==> w.error == Some(PermissionError) && (ProfileFile(pid), Write) in env.denied)
            && ((ProfileFile(pid), Write) !in env.denied ==> w.error.None?)
            && (forall q :: q in profiles && q != pid ==> q in w.files && w.files[q] == profiles[q])
            && (w.error.None? && fields != [] ==>
                  pid in w.files
                  && ((ProfileFile(pid), Read) !in env.denied ==>
                        forall i :: 0 <= i < |fields| && Final(fields, i) ==> Ini.Get(w.files[pid], section, fields[i].0) == Some(fields[i].1))
                  && ((ProfileFile(pid), Read) in env.denied ==>
                        w.files[pid] == Ini.Set(map[], section, fields[|fields| - 1].0, fields[|fields| - 1].1)))
    decreases |fields|
  {
    if fields != [] && (ProfileFile(pid), Read) in env.denied {
      ProfileWritesUnreadable(profiles, env, pid, section, fields);
    }
    if fields != [] {
      var r := ProfileWrite(profiles, env, Some(pid), Some(section), Some(fields[0].0), Some(fields[0].1));
      if r.Ok? {
        var rest := fields[1..];
        ProfileWritesEffect(r.value, env, pid, section, rest);
        assert forall i :: 1 <= i < |fields| ==> fields[i] == rest[i - 1];
        var w := ProfileWrites(profiles, env, pid, section, fields);
        if w.error.None? && (ProfileFile(pid), Read) !in env.denied {
          forall i | 0 <= i < |fields| && Final(fields, i)
            ensures Ini.Get(w.files[pid], section, fields[i].0) == Some(fields[i].1)
          {
            if i > 0 {
              assert Final(rest, i - 1);
            } else if rest == [] {
            } else {
              ProfileWritesKeep(r.value, env, pid, section, rest, fields[0].0);
            }
          }
        }
      }
    }
  }

  /** A run of writes that goes through leaves a file that cannot be read with the last field alone. */
  lemma {:induction false} ProfileWritesUnreadable(profiles: map<string, Ini.Config>, env: Env, pid: string, section: string,
                                                   fields: seq<(string, string)>)
    requires pid != "" && section != "" && fields != []
    requires forall i :: 0 <= i < |fields| ==> fields[i].0 != ""
    requires (ProfileFile(pid), Read) in env.denied
    ensures var w := ProfileWrites(profiles, env, pid, section, fields);
            w.error.None? ==> pid in w.files && w.files[pid] == Ini.Set(map[], section, fields[|fields| - 1].0, fields[|fields| - 1].1)
    decreases |fields|
  {
    var r := ProfileWrite(profiles, env, Some(pid), Some(section), Some(fields[0].0), Some(fields[0].1));
    if r.Ok? && |fields| > 1 {
      assert forall i :: 0 <= i < |fields[1..]| ==> fields[1..][i] == fields[i + 1];
      ProfileWritesUnreadable(r.value, env, pid, section, fields[1..]);
    }
  }

  /**
   * A run of profile writes leaves a field it does not name as it was, unless
   * the file cannot be read but may be written: then the run loses the field.
   */
  lemma {:induction false} ProfileWritesKeep(profiles: map<string, Ini.Config>, env: Env, pid: string, section: string,
                                             fields: seq<(string, string)>, f: string)
    requires pid != "" && section != "" && pid in profiles
    requires forall i :: 0 <= i < |fields| ==> fields[i].0 != "" && Ini.OptionKey(fields[i].0) != Ini.OptionKey(f)
    ensures var w := ProfileWrites(profiles, env, pid, section, fields);
            pid in w.files
            && Ini.Get(w.files[pid], section, f) ==
                 if (ProfileFile(pid), Read) in env.denied && (ProfileFile(pid), Write) !in env.denied && fields != [] then None
                 else Ini.Get(profiles[pid], section, f)
    decreases |fields|
  {
    if fields != [] {
      var r := ProfileWrite(profiles, env, Some(pid), Some(section), Some(fields[0].0), Some(fields[0].1));
      if r.Ok? {
        assert forall i :: 0 <= i < |fields[1..]| ==> fields[1..][i] == fields[i + 1];
        ProfileWritesKeep(r.value, env, pid, section, fields[1..], f);
      }
    }
  }

  /**
   * With a cloud folder a run of descriptor writes always succeeds: every
   * field reads back from the descriptor with its last value, every field it
   * does not name (in any section) keeps its value, and every other
   * descriptor is untouched.
   */
  lemma DescriptorWritesEffect(descriptors: map<string, Ini.Config>, cloud: string, pid: string, section: string,
                               fields: seq<(string, string)>)
    requires forall i :: 0 <= i < |fields| ==> fields[i].0 != ""
    ensures var w := DescriptorWrites(descriptors, Some(cloud), pid, section, fields);
            var path := DescriptorPath(cloud, pid);
            w.error.None?
            && (forall q :: q in descriptors && q != path ==> q in w.files && w.files[q] == descriptors[q])
            && (forall s, f :: (s != section || forall i :: 0 <= i < |fields| ==> Ini.OptionKey(fields[i].0) != Ini.OptionKey(f)) ==>
                  Ini.Get(DescriptorAt(w.files, path), s, f) == Ini.Get(DescriptorAt(descriptors, path), s, f))
            && forall i :: 0 <= i < |fields| && Final(fields, i) ==> Ini.Get(DescriptorAt(w.files, path), section, fields[i].0) == Some(fields[i].1)
  {
    var w := DescriptorWrites(descriptors, Some(cloud), pid, section, fields);
    var path := DescriptorPath(cloud, pid);
    DescriptorWritesOthers(descriptors, cloud, pid, section, fields);
    forall s, f | s != section || forall i :: 0 <= i < |fields| ==> Ini.OptionKey(fields[i].0) != Ini.OptionKey(f)
      ensures Ini.Get(DescriptorAt(w.files, path), s, f) == Ini.Get(DescriptorAt(descriptors, path), s, f)
    {
      DescriptorWritesKeep(descriptors, cloud, pid, section, fields, s, f);
    }
    forall i | 0 <= i < |fields| && Final(fields, i)
      ensures Ini.Get(DescriptorAt(w.files, path), section, fields[i].0) == Some(fields[i].1)
    {
      DescriptorWritesLast(descriptors, cloud, pid, section, fields, i);
    }
  }

  /** With a cloud folder a run of descriptor writes succeeds and touches no other descriptor. */
  lemma {:induction false} DescriptorWritesOthers(descriptors: map<string, Ini.Config>, cloud: string, pid: string, section: string,
                                                  fields: seq<(string, string)>)
    requires forall i :: 0 <= i < |fields| ==> fields[i].0 != ""
    ensures var w := DescriptorWrites(descriptors, Some(cloud), pid, section, fields);
            w.error.None? && forall q :: q in descriptors && q != DescriptorPath(cloud, pid) ==> q in w.files && w.files[q] == descriptors[q]
    decreases |fields|
  {
    if fields != [] {
      var m := DescriptorWrite(descriptors, Some(cloud), pid, section, Some(fields[0].0), Some(fields[0].1)).value;
      assert forall i :: 0 <= i < |fields[1..]| ==> fields[1..][i] == fields[i + 1];
      DescriptorWritesOthers(m, cloud, pid, section, fields[1..]);
    }
  }

  /** A field the run does not name, in any section, keeps its value in the descriptor. */
  lemma {:induction false} DescriptorWritesKeep(descriptors: map<string, Ini.Config>, cloud: string, pid: string, section: string,
                                                fields: seq<(string, string)>, s: string, f: string)
    requires forall i :: 0 <= i < |fields| ==> fields[i].0 != ""
    requires s != section || forall i :: 0 <= i < |fields| ==> Ini.OptionKey(fields[i].0) != Ini.OptionKey(f)
    ensures var path := DescriptorPath(cloud, pid);
            Ini.Get(DescriptorAt(DescriptorWrites(descriptors, Some(cloud), pid, section, fields).files, path), s, f)
            == Ini.Get(DescriptorAt(descriptors, path), s, f)
    decreases |fields|
  {
    if fields != [] {
      var m := DescriptorWrite(descriptors, Some(cloud), pid, section, Some(fields[0].0), Some(fields[0].1)).value;
      assert s != section || Ini.OptionKey(fields[0].0) != Ini.OptionKey(f);
      assert forall i :: 0 <= i < |fields[1..]| ==> fields[1..][i] == fields[i + 1];
      DescriptorWritesKeep(m, cloud, pid, section, fields[1..], s, f);
    }
  }

  /** A field no later field of the run overrides reads back with its value. */
  lemma {:induction false} DescriptorWritesLast(descriptors: map<string, Ini.Config>, cloud: string, pid: string, section: string,
                                                fields: seq<(string, string)>, i: nat)
    requires forall k :: 0 <= k < |fields| ==> fields[k].0 != ""
    requires i < |fields| && Final(fields, i)
    ensures Ini.Get(DescriptorAt(DescriptorWrites(descriptors, Some(cloud), pid, section, fields).files, DescriptorPath(cloud, pid)), section, fields[i].0)
            == Some(fields[i].1)
    decreases |fields|
  {
    var m := DescriptorWrite(descriptors, Some(cloud), pid, section, Some(fields[0].0), Some(fields[0].1)).value;
    var rest := fields[1..];
    assert forall k :: 0 <= k < |rest| ==> rest[k] == fields[k + 1];
    if i == 0 {
      DescriptorWritesKeep(m, cloud, pid, section, rest, section, fields[0].0);
    } else {
      assert Final(rest, i - 1);
      DescriptorWritesLast(m, cloud, pid, section, rest, i - 1);
    }
  }

  /** How `save_profile_fields` ends. */
  datatype FieldsOutcome = NotFound | Duplicate | FieldsSaved | FieldsFailed(error: Error)

  /** The state after `save_profile_fields`: the outcome, the profile files and the descriptors. */
  datatype FieldsResult = FieldsResult(outcome: FieldsOutcome, profiles: map<string, Ini.Config>, descriptors: map<string, Ini.Config>)

  function SyncMode(checked: bool): string { if checked then "Sync" else "" }

  function EditedFields(name: string, folder: string, exe: string, syncChecked: bool): seq<(string, string)>
  {
    [("name", name), ("local_save_folder", folder), ("game_executable", exe), ("sync_mode", SyncMode(syncChecked))]
  }

  /**
   * Lines 741-770: nothing happens for a profile that is not registered or
   * whose new name another profile has; otherwise four profile fields are
   * written, the descriptor's slot is read (a `ValueError` without a cloud
   * folder), and the descriptor gets the name and the executable's base name.
   */
  function SaveFields(profiles: map<string, Ini.Config>, descriptors: map<string, Ini.Config>, cloud: Option<string>, env: Env,
                      pid: string, order: seq<string>, name: string, folder: string, exe: string, syncChecked: bool): FieldsResult
    requires forall q :: q in order <==> q in SectionsById(profiles, env, "profile")
  {
    if !Registered(profiles, env, pid) then FieldsResult(NotFound, profiles, descriptors)
    else WriteChecked(profiles, descriptors, cloud, env, pid, Clash(SectionsById(profiles, env, "profile"), order, pid, name), name, folder, exe, syncChecked)
  }

  /** Lines 752-770 once the names are checked: refuse on an error or a clash, write otherwise. */
  function WriteChecked(profiles: map<string, Ini.Config>, descriptors: map<string, Ini.Config>, cloud: Option<string>, env: Env,
                        pid: string, clash: Result<bool>, name: string, folder: string, exe: string, syncChecked: bool): FieldsResult
  {
    match clash
    case Err(e) => FieldsResult(FieldsFailed(e), profiles, descriptors)
    case Ok(true) => FieldsResult(Duplicate, profiles, descriptors)
    case Ok(false) =>
      var w := ProfileWrites(profiles, env, pid, "profile", EditedFields(name, folder, exe, syncChecked));
      if w.error.Some? then FieldsResult(FieldsFailed(w.error.value), w.files, descriptors)
      else if cloud.None? then FieldsResult(FieldsFailed(ValueError), w.files, descriptors)
      else
        var v := DescriptorWrites(descriptors, cloud, pid, "profile", [("name", name), ("executable_name", Text.Basename(exe))]);
        FieldsResult(FieldsSaved, w.files, v.files)
  }

  lemma EditedFieldsDistinct(name: string, folder: string, exe: string, syncChecked: bool)
    ensures var fs := EditedFields(name, folder, exe, syncChecked);
            (forall i :: 0 <= i < |fs| ==> fs[i].0 != "" && Final(fs, i))
  {
    var fs := EditedFields(name, folder, exe, syncChecked);
    assert Ini.OptionKey("local_save_folder")[0] == 'l';
    assert Ini.OptionKey("game_executable")[0] == 'g';
    assert Ini.OptionKey("sync_mode")[0] == 's';
    assert Ini.OptionKey("name")[0] == 'n';
  }

  /**
   * A save that another profile's name blocks writes nothing, and a profile
   * may keep its own name: when no other profile has the new name (and all
   * have one), the save is not refused as a duplicate.
   */
  lemma DuplicateWritesNothing(profiles: map<string, Ini.Config>, descriptors: map<string, Ini.Config>, cloud: Option<string>, env: Env,
                               pid: string, order: seq<string>, name: string, folder: string, exe: string, syncChecked: bool)
    requires forall q :: q in order <==> q in SectionsById(profiles, env, "profile")
    ensures var r := SaveFields(profiles, descriptors, cloud, env, pid, order, name, folder, exe, syncChecked);
            (r.outcome.Duplicate? ==>
               (r.profiles == profiles && r.descriptors == descriptors
                && exists q :: q in order && q != pid && "name" in SectionsById(profiles, env, "profile")[q]
                               && Text.Lower(SectionsById(profiles, env, "profile")[q]["name"]) == Text.Lower(name)))
            && (Registered(profiles, env, pid)
                && (forall q :: q in order && q != pid ==> "name" in SectionsById(profiles, env, "profile")[q]
                                                           && Text.Lower(SectionsById(profiles, env, "profile")[q]["name"]) != Text.Lower(name))
                ==> !r.outcome.Duplicate? && !r.outcome.NotFound?)
  {
    var secs := SectionsById(profiles, env, "profile");
    if Registered(profiles, env, pid) {
      assert forall i :: 0 <= i < |order| ==> order[i] in order;
      WriteCheckedRefusal(profiles, descriptors, cloud, env, pid, Clash(secs, order, pid, name), name, folder, exe, syncChecked);
      ClashFound(secs, order, pid, name);
      ClashNone(secs, order, pid, name);
    }
  }

  /** Once the names are checked, a save is refused as a duplicate exactly on a clash, and then writes nothing. */
  lemma WriteCheckedRefusal(profiles: map<string, Ini.Config>, descriptors: map<string, Ini.Config>, cloud: Option<string>, env: Env,
                            pid: string, clash: Result<bool>, name: string, folder: string, exe: string, syncChecked: bool)
    ensures var r := WriteChecked(profiles, descriptors, cloud, env, pid, clash, name, folder, exe, syncChecked);
            !r.outcome.NotFound?
            && (r.outcome.Duplicate? <==> clash == Ok(true))
            && (r.outcome.Duplicate? ==> r.profiles == profiles && r.descriptors == descriptors)
  {
    if clash == Ok(false) {
      var w := ProfileWrites(profiles, env, pid, "profile", EditedFields(name, folder, exe, syncChecked));
      if w.error.None? && cloud.Some? {
        var v := DescriptorWrites(descriptors, cloud, pid, "profile", [("name", name), ("executable_name", Text.Basename(exe))]);
        assert WriteChecked(profiles, descriptors, cloud, env, pid, clash, name, folder, exe, syncChecked) == FieldsResult(FieldsSaved, w.files, v.files);
      }
    }
  }

  /** A reported clash names a listed profile other than `pid` whose name matches. */
  lemma ClashFound(sections: map<string, Ini.Section>, order: seq<string>, pid: string, name: string)
    requires forall i :: 0 <= i < |order| ==> order[i] in sections
    ensures Clash(sections, order, pid, name) == Ok(true) ==>
              exists q :: q in order && q != pid && "name" in sections[q] && Text.Lower(sections[q]["name"]) == Text.Lower(name)
  {
    if Clash(sections, order, pid, name) == Ok(true) {
      var i :| 0 <= i < |order| && order[i] != pid && "name" in sections[order[i]]
               && Text.Lower(sections[order[i]]["name"]) == Text.Lower(name);
      assert order[i] in order;
    }
  }

  /** No clash means every other listed profile has a name, and none matches. */
  lemma {:induction false} ClashFreeAll(sections: map<string, Ini.Section>, order: seq<string>, pid: string, name: string)
    requires forall i :: 0 <= i < |order| ==> order[i] in sections
    requires Clash(sections, order, pid, name) == Ok(false)
    ensures forall q :: q in order && q != pid ==> "name" in sections[q] && Text.Lower(sections[q]["name"]) != Text.Lower(name)
    decreases |order|
  {
    if order != [] {
      var rest := order[1..];
      assert forall i :: 0 <= i < |rest| ==> rest[i] == order[i + 1];
      ClashFreeAll(sections, rest, pid, name);
      forall q | q in order && q != pid && q != order[0]
        ensures q in rest
      {
        var i :| 0 <= i < |order| && order[i] == q;
        assert rest[i - 1] == q;
      }
    }
  }

  /** A loop over every listed profile never ends without a clash when another profile has the name. */
  lemma TakenClashes(sections: map<string, Ini.Section>, order: seq<string>, pid: string, name: string)
    requires forall q :: q in order <==> q in sections
    requires exists q :: q in sections && q != pid && "name" in sections[q] && Text.Lower(sections[q]["name"]) == Text.Lower(name)
    ensures forall i :: 0 <= i < |order| ==> order[i] in sections
    ensures Clash(sections, order, pid, name) != Ok(false)
  {
    assert forall i :: 0 <= i < |order| ==> order[i] in order;
    var q :| q in sections && q != pid && "name" in sections[q] && Text.Lower(sections[q]["name"]) == Text.Lower(name);
    assert q in order;
    if Clash(sections, order, pid, name) == Ok(false) {
      ClashFreeAll(sections, order, pid, name);
      assert false;
    }
  }

  /**
   * Lines 752-757 over every profile read: when another profile already has
   * the new name ignoring case, the save writes nothing, whether it stops at
   * that profile or at a nameless one before it.
   */
  lemma TakenNameWritesNothing(profiles: map<string, Ini.Config>, descriptors: map<string, Ini.Config>, cloud: Option<string>, env: Env,
                               pid: string, order: seq<string>, name: string, folder: string, exe: string, syncChecked: bool)
    requires forall q :: q in order <==> q in SectionsById(profiles, env, "profile")
    requires exists q :: q in SectionsById(profiles, env, "profile") && q != pid && "name" in SectionsById(profiles, env, "profile")[q]
                         && Text.Lower(SectionsById(profiles, env, "profile")[q]["name"]) == Text.Lower(name)
    ensures var r := SaveFields(profiles, descriptors, cloud, env, pid, order, name, folder, exe, syncChecked);
            !r.outcome.FieldsSaved? && r.profiles == profiles && r.descriptors == descriptors
  {
    var secs := SectionsById(profiles, env, "profile");
    TakenClashes(secs, order, pid, name);
    WriteCheckedUnclear(profiles, descriptors, cloud, env, pid, Clash(secs, order, pid, name), name, folder, exe, syncChecked);
  }

  /** Once the names are checked, anything but a clean check writes nothing. */
  lemma WriteCheckedUnclear(profiles: map<string, Ini.Config>, descriptors: map<string, Ini.Config>, cloud: Option<string>, env: Env,
                            pid: string, clash: Result<bool>, name: string, folder: string, exe: string, syncChecked: bool)
    requires clash != Ok(false)
    ensures var r := WriteChecked(profiles, descriptors, cloud, env, pid, clash, name, folder, exe, syncChecked);
            !r.outcome.FieldsSaved? && r.profiles == profiles && r.descriptors == descriptors
  {
  }

  /** When every other listed profile has a name and none matches, there is no clash. */
  lemma ClashNone(sections: map<string, Ini.Section>, order: seq<string>, pid: string, name: string)
    requires forall i :: 0 <= i < |order| ==> order[i] in sections
    ensures (forall q :: q in order && q != pid ==> "name" in sections[q] && Text.Lower(sections[q]["name"]) != Text.Lower(name))
            ==> Clash(sections, order, pid, name) == Ok(false)
  {
    if forall q :: q in order && q != pid ==> "name" in sections[q] && Text.Lower(sections[q]["name"]) != Text.Lower(name) {
      forall i | 0 <= i < |order| && order[i] != pid
        ensures "name" in sections[order[i]] && Text.Lower(sections[order[i]]["name"]) != Text.Lower(name)
      {
        assert order[i] in order;
      }
    }
  }

  /** What a save that goes through consists of. */
  lemma SaveFieldsWrites(profiles: map<string, Ini.Config>, descriptors: map<string, Ini.Config>, cloud: Option<string>, env: Env,
                         pid: string, order: seq<string>, name: string, folder: string, exe: string, syncChecked: bool)
    requires forall q :: q in order <==> q in SectionsById(profiles, env, "profile")
    requires SaveFields(profiles, descriptors, cloud, env, pid, order, name, folder, exe, syncChecked).outcome == FieldsSaved
    ensures var r := SaveFields(profiles, descriptors, cloud, env, pid, order, name, folder, exe, syncChecked);
            var w := ProfileWrites(profiles, env, pid, "profile", EditedFields(name, folder, exe, syncChecked));
            pid != "" && cloud.Some? && w.error.None? && r.profiles == w.files
            && r.descriptors == DescriptorWrites(descriptors, cloud, pid, "profile", [("name", name), ("executable_name", Text.Basename(exe))]).files
  {
    NamelessWritesFail(profiles, env, "profile", EditedFields(name, folder, exe, syncChecked));
    assert Registered(profiles, env, pid);
    WriteCheckedSaved(profiles, descriptors, cloud, env, pid, Clash(SectionsById(profiles, env, "profile"), order, pid, name), name, folder, exe, syncChecked);
  }

  /** Once the names are checked, a save goes through only without a clash, after both rounds of writes. */
  lemma WriteCheckedSaved(profiles: map<string, Ini.Config>, descriptors: map<string, Ini.Config>, cloud: Option<string>, env: Env,
                          pid: string, clash: Result<bool>, name: string, folder: string, exe: string, syncChecked: bool)
    requires WriteChecked(profiles, descriptors, cloud, env, pid, clash, name, folder, exe, syncChecked).outcome == FieldsSaved
    ensures var r := WriteChecked(profiles, descriptors, cloud, env, pid, clash, name, folder, exe, syncChecked);
            var w := ProfileWrites(profiles, env, pid, "profile", EditedFields(name, folder, exe, syncChecked));
            clash == Ok(false) && cloud.Some? && w.error.None? && r.profiles == w.files
            && r.descriptors == DescriptorWrites(descriptors, cloud, pid, "profile", [("name", name), ("executable_name", Text.Basename(exe))]).files
  {
  }

  /** Writing fields for the empty profile id fails on the first write with a `ValueError`. */
  lemma NamelessWritesFail(profiles: map<string, Ini.Config>, env: Env, section: string, fields: seq<(string, string)>)
    requires fields != []
    ensures ProfileWrites(profiles, env, "", section, fields).error == Some(ValueError)
  {
    assert ProfileWrite(profiles, env, Some(""), Some(section), Some(fields[0].0), Some(fields[0].1)) == Err(ValueError);
  }

  /**
   * The four profile writes of a save leave the fields in a readable profile
   * file, leave only the last one in a file that cannot be read, and touch no
   * other profile.
   */
  lemma EditedFieldsRead(profiles: map<string, Ini.Config>, env: Env, pid: string, name: string, folder: string, exe: string, syncChecked: bool)
    requires pid != ""
    ensures var w := ProfileWrites(profiles, env, pid, "profile", EditedFields(name, folder, exe, syncChecked));
            var c := ProfileConfig(w.files, pid);
            ((ProfileFile(pid), Write) !in env.denied ==> w.error.None?)
            && (w.error.None? ==> pid in w.files)
            && (w.error.None? && (ProfileFile(pid), Read) !in env.denied ==>
                  Ini.Get(c, "profile", "name") == Some(name)
                  && Ini.Get(c, "profile", "local_save_folder") == Some(folder)
                  && Ini.Get(c, "profile", "game_executable") == Some(exe)
                  && Ini.Get(c, "profile", "sync_mode") == Some(SyncMode(syncChecked)))
            && (w.error.None? && (ProfileFile(pid), Read) in env.denied ==> c == Ini.Set(map[], "profile", "sync_mode", SyncMode(syncChecked)))
            && (forall q :: q in profiles && q != pid ==> q in w.files && w.files[q] == profiles[q])
  {
    var fs := EditedFields(name, folder, exe, syncChecked);
    EditedFieldsDistinct(name, folder, exe, syncChecked);
    ProfileWritesEffect(profiles, env, pid, "profile", fs);
    assert fs[0].0 == "name" && fs[1].0 == "local_save_folder" && fs[2].0 == "game_executable" && fs[3].0 == "sync_mode";
  }

  /** The two descriptor writes of a save leave the name and the executable's base name readable and touch no other descriptor. */
  lemma RenamedDescriptorRead(descriptors: map<string, Ini.Config>, cloud: string, pid: string, name: string, exe: string)
    ensures var r := DescriptorWrites(descriptors, Some(cloud), pid, "profile", [("name", name), ("executable_name", Text.Basename(exe))]);
            var c := DescriptorAt(r.files, DescriptorPath(cloud, pid));
            r.error.None?
            && Ini.Get(c, "profile", "name") == Some(name)
            && Ini.Get(c, "profile", "executable_name") == Some(Text.Basename(exe))
            && (forall q :: q in descriptors && q != DescriptorPath(cloud, pid) ==> q in r.files && r.files[q] == descriptors[q])
  {
    var ds := [("name", name), ("executable_name", Text.Basename(exe))];
    assert Ini.OptionKey("executable_name")[0] == 'e' && Ini.OptionKey("name")[0] == 'n';
    assert Final(ds, 0) && Final(ds, 1);
    DescriptorWritesEffect(descriptors, cloud, pid, "profile", ds);
    assert ds[0].0 == "name" && ds[1].0 == "executable_name";
  }

  /** `save_profile_fields` for the selected profile, with the fields as edited; `order` is the order of the profiles read. */
  method SaveProfileFields(d: Disk, env: Env, pid: string, order: seq<string>, name: string, folder: string, exe: string, syncChecked: bool)
    returns (outcome: FieldsOutcome)
    requires forall q :: q in order <==> q in SectionsById(d.profiles, env, "profile")
    modifies d`profiles, d`descriptors
    ensures FieldsResult(outcome, d.profiles, d.descriptors)
            == SaveFields(old(d.profiles), old(d.descriptors), CloudRoot(d), env, pid, order, name, folder, exe, syncChecked)
  {
    if !Registered(d.profiles, env, pid) {
      return NotFound;
    }
    var clash := CheckNames(SectionsById(d.profiles, env, "profile"), order, pid, name);
    match clash {
      case Err(e) =>
        return FieldsFailed(e);
      case Ok(true) =>
        return Duplicate;
      case Ok(false) =>
    }
    var w := ProfileWrites(d.profiles, env, pid, "profile", EditedFields(name, folder, exe, syncChecked));
    d.profiles := w.files;
    if w.error.Some? {
      return FieldsFailed(w.error.value);
    }
    var cloud := CloudRoot(d);
    if cloud.None? {
      return FieldsFailed(ValueError);
    }
    var v := DescriptorWrites(d.descriptors, cloud, pid, "profile", [("name", name), ("executable_name", Text.Basename(exe))]);
    d.descriptors := v.files;
    outcome := FieldsSaved;
  }

  // ---- adding a profile (lines 203-312) ----

  /** What the add dialog returns each time it closes: cancelled, or the three fields and the sync choice. */
  datatype Submission = Rejected | Submitted(name: string, exe: string, folder: string, syncChecked: bool)

  /** How one submission is screened (lines 238-251). */
  datatype Screening = MissingData | InvalidExecutable | InvalidFolder | NameExists | Accepted

  /** The number of readable listed profiles whose `name` equals `name` ignoring case: the length of the list line 249 reads. */
  function SameName(profiles: map<string, Ini.Config>, env: Env, name: string): nat
  {
    |set id | id in profiles && Matches(profiles, env, id, "profile", "name", name)|
  }

  /**
   * Lines 238-251: every field filled, the executable exists, the save
   * folder is a directory, and at most `tolerated` profiles already have the
   * name. The code as written tolerates one (`> 1`).
   */
  function Screen(d: Disk, env: Env, s: Submission, tolerated: nat): Screening
    reads d`profiles, d`dirs, d`descriptors
    requires s.Submitted?
  {
    if s.name == "" || s.exe == "" || s.folder == "" then MissingData
    else if !Exists(d, env, At(s.exe)) then InvalidExecutable
    else if s.folder !in d.dirs then InvalidFolder
    else if SameName(d.profiles, env, s.name) > tolerated then NameExists
    else Accepted
  }

  const AsWrittenTolerance: nat := 1

  /** The first submission that passes, unless the user cancels before one does; past the last answer the user cancels. */
  function Admitted(d: Disk, env: Env, subs: seq<Submission>, tolerated: nat): (r: Option<Submission>)
    reads d`profiles, d`dirs, d`descriptors
    ensures r.Some? ==> r.value in subs && r.value.Submitted? && Screen(d, env, r.value, tolerated) == Accepted
    decreases |subs|
  {
    if subs == [] || subs[0].Rejected? then None
    else if Screen(d, env, subs[0], tolerated) == Accepted then Some(subs[0])
    else Admitted(d, env, subs[1..], tolerated)
  }

  /** A list without repetitions is as long as the set of its elements. */
  lemma {:induction false} DistinctSize(ids: seq<string>, all: set<string>)
    requires Distinct(ids)
    requires forall x :: x in ids <==> x in all
    ensures |ids| == |all|
  {
    if ids != [] {
      var n := |ids| - 1;
      var init := ids[..n];
      assert forall x :: x in init <==> x in all - {ids[n]} by {
        forall x ensures x in init <==> x in all - {ids[n]} {
          if x in init {
            var i :| 0 <= i < n && init[i] == x;
            assert ids[i] == x;
          }
          if x in ids && x != ids[n] {
            var i :| 0 <= i < |ids| && ids[i] == x;
            assert init[i] == x;
          }
        }
      }
      DistinctSize(init, all - {ids[n]});
    }
  }

  /** The loop of lines 229-251 up to the first accepted submission. */
  method ReadSubmissions(d: Disk, env: Env, subs: seq<Submission>, tolerated: nat) returns (chosen: Option<Submission>)
    ensures chosen == Admitted(d, env, subs, tolerated)
  {
    for i := 0 to |subs|
      invariant Admitted(d, env, subs, tolerated) == Admitted(d, env, subs[i..], tolerated)
    {
      assert subs[i..][0] == subs[i] && subs[i..][1..] == subs[i + 1..];
      var s := subs[i];
      if s.Rejected? {
        return None;
      }
      var accepted := ScreenOne(d, env, s, tolerated);
      if accepted {
        return Some(s);
      }
    }
    assert subs[|subs|..] == [];
    chosen := None;
  }

  /** Lines 238-251 for one submission: whether it passes every test. */
  method ScreenOne(d: Disk, env: Env, s: Submission, tolerated: nat) returns (accepted: bool)
    requires s.Submitted?
    ensures accepted <==> Screen(d, env, s, tolerated) == Accepted
  {
    if s.name == "" || s.exe == "" || s.folder == "" || !Exists(d, env, At(s.exe)) || s.folder !in d.dirs {
      return false;
    }
    var same := FindProfiles(d, env, "profile", "name", s.name);
    DistinctSize(same, set id | id in d.profiles && Matches(d.profiles, env, id, "profile", "name", s.name));
    accepted := |same| <= tolerated;
  }

  /** With the intended test, an accepted name is held by no readable profile, in any case. */
  lemma AcceptedNameIsNew(d: Disk, env: Env, s: Submission)
    requires s.Submitted? && Screen(d, env, s, 0) == Accepted
    ensures forall id :: !Matches(d.profiles, env, id, "profile", "name", s.name)
  {
    var same := set id | id in d.profiles && Matches(d.profiles, env, id, "profile", "name", s.name);
    assert same == {};
    forall id ensures !Matches(d.profiles, env, id, "profile", "name", s.name) {
      assert id !in same;
    }
  }

  /** As written, a second profile named `game` is accepted next to an existing `Game`. */
  lemma SecondNameAccepted(d: Disk, env: Env)
    requires d.profiles == map["abc123" := map["profile" := map["name" := "Game"]]]
    requires (ProfileFile("abc123"), Read) !in env.denied
    requires "/games/run.sh" in env.existing && "/saves" in d.dirs
    ensures Matches(d.profiles, env, "abc123", "profile", "name", "game")
    ensures Screen(d, env, Submitted("game", "/games/run.sh", "/saves", false), AsWrittenTolerance) == Accepted
    ensures Screen(d, env, Submitted("game", "/games/run.sh", "/saves", false), 0) == NameExists
  {
    assert Ini.OptionKey("name") == "name";
    assert Text.Lower("Game") == Text.Lower("game");
    var same := set id | id in d.profiles && Matches(d.profiles, env, id, "profile", "name", "game");
    assert same == {"abc123"};
  }

  /**
   * Whether a generated id counts as taken. As written (line 258) it asks
   * for a `profile_id` field, which no profile file holds; as intended it
   * asks whether the profile file exists.
   */
  predicate Taken(profiles: map<string, Ini.Config>, env: Env, c: string, asWritten: bool)
  {
    if asWritten then Truthy(ProfileValue(profiles, env, c, "profile", "profile_id")) else c in profiles
  }

  /** The position of the first generated id accepted by the loop of lines 256-259. */
  function FirstFree(profiles: map<string, Ini.Config>, env: Env, cands: seq<string>, asWritten: bool): (i: nat)
    requires exists k :: 0 <= k < |cands| && !Taken(profiles, env, cands[k], asWritten)
    ensures i < |cands| && !Taken(profiles, env, cands[i], asWritten)
    ensures forall j :: 0 <= j < i ==> Taken(profiles, env, cands[j], asWritten)
    decreases |cands|
  {
    if !Taken(profiles, env, cands[0], asWritten) then 0
    else
      var k :| 0 <= k < |cands| && !Taken(profiles, env, cands[k], asWritten);
      assert cands[1..][k - 1] == cands[k];
      var i := FirstFree(profiles, env, cands[1..], asWritten);
      assert forall j :: 1 <= j <= i ==> cands[1..][j - 1] == cands[j];
      1 + i
  }

  /** Lines 256-259: draw ids until one is not taken; `cands` are the ids `generate_id` returns, in order. */
  method GenerateId(d: Disk, env: Env, cands: seq<string>, asWritten: bool) returns (pid: string)
    requires exists k :: 0 <= k < |cands| && !Taken(d.profiles, env, cands[k], asWritten)
    ensures pid == cands[FirstFree(d.profiles, env, cands, asWritten)]
  {
    var i := 0;
    while Taken(d.profiles, env, cands[i], asWritten)
      invariant 0 <= i <= FirstFree(d.profiles, env, cands, asWritten)
      decreases FirstFree(d.profiles, env, cands, asWritten) - i
    {
      i := i + 1;
    }
    pid := cands[i];
  }

  /** No profile file holds a `profile_id` field, so as written the first id drawn is always used. */
  lemma FirstIdUsed(profiles: map<string, Ini.Config>, env: Env, cands: seq<string>)
    requires |cands| > 0
    requires forall q :: q in profiles ==> !Ini.HasOption(profiles[q], "profile", "profile_id")
    ensures !Taken(profiles, env, cands[0], true) && FirstFree(profiles, env, cands, true) == 0
  {
  }

  /** As written, an id already used by profile `abc123` is drawn again and kept; as intended the next one is. */
  lemma UsedIdKept(profiles: map<string, Ini.Config>, env: Env, cands: seq<string>)
    requires profiles == map["abc123" := map["profile" := map["name" := "Game"]]]
    requires cands == ["abc123", "zzz999"]
    ensures !Taken(profiles, env, cands[0], true) && Taken(profiles, env, cands[0], false)
    ensures !Taken(profiles, env, cands[1], false)
    ensures FirstFree(profiles, env, cands, true) == 0 && FirstFree(profiles, env, cands, false) == 1
  {
    assert |Ini.OptionKey("profile_id")| == 10;
    FirstIdUsed(profiles, env, cands);
  }

  /** The fields of the new descriptor's `profile` section, in the order they are written (lines 278-285). */
  function InitialFields(name: string, syncMode: string, exeName: string): seq<(string, string)>
  {
    [("name", name), ("save_slot", "1"), ("saves", "1"), ("sync_mode", syncMode), ("executable_name", exeName), ("checkout", "")]
  }

  /** The descriptors after lines 287-290. */
  function Exported(descriptors: map<string, Ini.Config>, cloud: string, pid: string, name: string, syncMode: string, exeName: string): map<string, Ini.Config>
  {
    var w := DescriptorWrites(descriptors, Some(cloud), pid, "profile", InitialFields(name, syncMode, exeName)).files;
    DescriptorWrite(w, Some(cloud), pid, "saves", Some("save1"), Some("Save 1")).value
  }

  lemma InitialFieldsFinal(name: string, syncMode: string, exeName: string)
    ensures var fs := InitialFields(name, syncMode, exeName);
            |fs| == 6 && forall i :: 0 <= i < 6 ==> fs[i].0 != "" && Final(fs, i)
  {
    assert |Ini.OptionKey("name")| == 4 && |Ini.OptionKey("saves")| == 5 && |Ini.OptionKey("checkout")| == 8;
    assert |Ini.OptionKey("executable_name")| == 15;
    assert Ini.OptionKey("save_slot")[1] == 'a' && Ini.OptionKey("sync_mode")[1] == 'y';
  }

  /**
   * The new descriptor names the profile, its sync mode and executable,
   * starts at slot 1 of one slot with an empty checkout, and names `save1`
   * "Save 1"; every other descriptor is as it was.
   */
  lemma InitialDescriptor(descriptors: map<string, Ini.Config>, cloud: string, pid: string, name: string, syncMode: string, exeName: string)
    ensures var c := DescriptorAt(Exported(descriptors, cloud, pid, name, syncMode, exeName), DescriptorPath(cloud, pid));
            Ini.Get(c, "profile", "name") == Some(name)
            && Ini.Get(c, "profile", "save_slot") == Some("1")
            && Ini.Get(c, "profile", "saves") == Some("1")
            && Ini.Get(c, "profile", "sync_mode") == Some(syncMode)
            && Ini.Get(c, "profile", "executable_name") == Some(exeName)
            && Ini.Get(c, "profile", "checkout") == Some("")
            && Ini.Get(c, "saves", "save1") == Some("Save 1")
    ensures forall q :: q in descriptors && q != DescriptorPath(cloud, pid) ==>
              q in Exported(descriptors, cloud, pid, name, syncMode, exeName) && Exported(descriptors, cloud, pid, name, syncMode, exeName)[q] == descriptors[q]
  {
    var fs := InitialFields(name, syncMode, exeName);
    InitialProfileSection(descriptors, cloud, pid, name, syncMode, exeName);
    var w := DescriptorWrites(descriptors, Some(cloud), pid, "profile", fs).files;
    assert |Ini.OptionKey("saves")| == 5 && |Ini.OptionKey("profile")| == 7;
  }

  /** The six fields of lines 278-285 read back from the descriptor. */
  lemma InitialProfileSection(descriptors: map<string, Ini.Config>, cloud: string, pid: string, name: string, syncMode: string, exeName: string)
    ensures var w := DescriptorWrites(descriptors, Some(cloud), pid, "profile", InitialFields(name, syncMode, exeName)).files;
            var c := DescriptorAt(w, DescriptorPath(cloud, pid));
            Ini.Get(c, "profile", "name") == Some(name)
            && Ini.Get(c, "profile", "save_slot") == Some("1")
            && Ini.Get(c, "profile", "saves") == Some("1")
            && Ini.Get(c, "profile", "sync_mode") == Some(syncMode)
            && Ini.Get(c, "profile", "executable_name") == Some(exeName)
            && Ini.Get(c, "profile", "checkout") == Some("")
            && (forall q :: q in descriptors && q != DescriptorPath(cloud, pid) ==> q in w && w[q] == descriptors[q])
  {
    var fs := InitialFields(name, syncMode, exeName);
    InitialFieldsFinal(name, syncMode, exeName);
    DescriptorWritesEffect(descriptors, cloud, pid, "profile", fs);
    assert fs[0].0 == "name" && fs[1].0 == "save_slot" && fs[2].0 == "saves";
    assert fs[3].0 == "sync_mode" && fs[4].0 == "executable_name" && fs[5].0 == "checkout";
  }

  /** `export_profile_info` (lines 264-290): nothing unless the cloud share is reachable; then the folders and the descriptor. */
  method ExportProfileInfo(d: Disk, env: Env, pid: string, name: string, syncMode: string, exeName: string)
    modifies d`dirs, d`descriptors
    ensures !old(NetworkShareAccessible(d, env)) ==> d.dirs == old(d.dirs) && d.descriptors == old(d.descriptors)
    ensures old(NetworkShareAccessible(d, env)) ==>
              var folder := Text.PathJoin(CloudRoot(d).value, pid);
              d.dirs == FileSystem.MakeDirs(FileSystem.MakeDirs(old(d.dirs), folder), Text.PathJoin(folder, "save1"))
              && d.descriptors == Exported(old(d.descriptors), CloudRoot(d).value, pid, name, syncMode, exeName)
  {
    if !NetworkShareAccessible(d, env) {
      return;
    }
    var cloud := CloudRoot(d).value;
    var folder := Text.PathJoin(cloud, pid);
    d.dirs := FileSystem.MakeDirs(d.dirs, folder);
    d.dirs := FileSystem.MakeDirs(d.dirs, Text.PathJoin(folder, "save1"));
    d.descriptors := Exported(d.descriptors, cloud, pid, name, syncMode, exeName);
  }

  /** How `add_profile` ends. */
  datatype AddOutcome = NotConfigured | Cancelled | Added(id: string) | AddFailed(id: string, error: Error)

  /** Lines 204-207: the cloud folder is configured and exists. */
  predicate CloudReady(d: Disk, env: Env)
    reads d`profiles, d`global, d`dirs, d`descriptors
  {
    Truthy(CloudRoot(d)) && Exists(d, env, At(CloudRoot(d).value))
  }

  /**
   * `add_profile` as written: after the descriptor is exported, line 302
   * calls `io_profile` with six arguments where it takes five, and the
   * `TypeError` ends the operation before the profile file is written.
   */
  method AddProfileAsWritten(d: Disk, env: Env, subs: seq<Submission>, cands: seq<string>) returns (outcome: AddOutcome)
    requires exists k :: 0 <= k < |cands| && !Taken(d.profiles, env, cands[k], true)
    modifies d`dirs, d`descriptors
    ensures !old(CloudReady(d, env)) <==> outcome == NotConfigured
    ensures old(CloudReady(d, env)) && old(Admitted(d, env, subs, AsWrittenTolerance)).None? <==> outcome == Cancelled
    ensures outcome.NotConfigured? || outcome.Cancelled? ==> d.dirs == old(d.dirs) && d.descriptors == old(d.descriptors)
    ensures outcome.AddFailed? ==>
              outcome.error == TypeError
              && outcome.id == cands[old(FirstFree(d.profiles, env, cands, true))]
              && Text.PathJoin(CloudRoot(d).value, outcome.id) in d.dirs
              && FolderMade(old(d.dirs), old(d.descriptors), d.dirs, d.descriptors, CloudRoot(d).value, outcome.id,
                            old(Admitted(d, env, subs, AsWrittenTolerance)).value)
    ensures !outcome.Added?
  {
    if !CloudReady(d, env) {
      return NotConfigured;
    }
    var cloud := CloudRoot(d).value;
    var chosen := ReadSubmissions(d, env, subs, AsWrittenTolerance);
    if chosen.None? {
      return Cancelled;
    }
    var s := chosen.value;
    var pid := GenerateId(d, env, cands, true);
    CreateProfileFolder(d, env, pid, s);
    outcome := AddFailed(pid, TypeError);
  }

  /** The profile file's fields, in the order of the dictionary at lines 294-301. */
  function ProfileFields(s: Submission): seq<(string, string)>
    requires s.Submitted?
  {
    [("name", s.name), ("local_save_folder", s.folder), ("game_executable", s.exe), ("save_slot", "1"), ("saves", "1"),
     ("sync_mode", SyncMode(s.syncChecked))]
  }

  /**
   * `add_profile` as intended: a name no profile has, an id no profile file
   * uses, the descriptor exported and the profile file written
   * (lines 305-306). The watched-folder registration of lines 302-303 is not
   * part of it.
   */
  method AddProfile(d: Disk, env: Env, subs: seq<Submission>, cands: seq<string>) returns (outcome: AddOutcome)
    requires exists k :: 0 <= k < |cands| && !Taken(d.profiles, env, cands[k], false)
    modifies d`dirs, d`descriptors, d`profiles
    ensures !old(CloudReady(d, env)) <==> outcome == NotConfigured
    ensures old(CloudReady(d, env)) && old(Admitted(d, env, subs, 0)).None? <==> outcome == Cancelled
    ensures outcome.NotConfigured? || outcome.Cancelled? ==>
              d.dirs == old(d.dirs) && d.descriptors == old(d.descriptors) && d.profiles == old(d.profiles)
    ensures outcome.Added? || outcome.AddFailed? ==>
              var s := old(Admitted(d, env, subs, 0)).value;
              outcome.id == cands[old(FirstFree(d.profiles, env, cands, false))]
              && outcome.id !in old(d.profiles)
              && (forall q :: !Matches(old(d.profiles), env, q, "profile", "name", s.name))
              && Text.PathJoin(CloudRoot(d).value, outcome.id) in d.dirs
              && FolderMade(old(d.dirs), old(d.descriptors), d.dirs, d.descriptors, CloudRoot(d).value, outcome.id, s)
              && d.profiles == ProfileWrites(old(d.profiles), env, outcome.id, "profile", ProfileFields(s)).files
              && (outcome.Added? <==> ProfileWrites(old(d.profiles), env, outcome.id, "profile", ProfileFields(s)).error.None?)
  {
    if !CloudReady(d, env) {
      return NotConfigured;
    }
    var cloud := CloudRoot(d).value;
    var chosen := ReadSubmissions(d, env, subs, 0);
    if chosen.None? {
      return Cancelled;
    }
    var s := chosen.value;
    AcceptedNameIsNew(d, env, s);
    var pid := GenerateId(d, env, cands, false);
    ghost var profiles := d.profiles;
    assert pid !in profiles;
    CreateProfileFolder(d, env, pid, s);
    assert CloudRoot(d).value == cloud;
    var error := WriteProfileFields(d, env, pid, s);
    outcome := if error.None? then Added(pid) else AddFailed(pid, error.value);
  }

  /**
   * What lines 261-292 leave behind: the profile's cloud folder is made, and
   * then either nothing more (the share check failed) or its `save1` folder
   * and the exported descriptor. No other folder or descriptor changes.
   */
  predicate FolderMade(dirs0: FileSystem.Fs, descriptors0: map<string, Ini.Config>, dirs: FileSystem.Fs, descriptors: map<string, Ini.Config>,
                       cloud: string, pid: string, s: Submission)
    requires s.Submitted?
  {
    var folder := Text.PathJoin(cloud, pid);
    var made := FileSystem.MakeDirs(dirs0, folder);
    (dirs == made && descriptors == descriptors0)
    || (dirs == FileSystem.MakeDirs(made, Text.PathJoin(folder, "save1"))
        && descriptors == Exported(descriptors0, cloud, pid, s.name, SyncMode(s.syncChecked), Text.Basename(s.exe)))
  }

  /** Lines 261-292: the profile's cloud folder, then its exported descriptor. */
  method CreateProfileFolder(d: Disk, env: Env, pid: string, s: Submission)
    requires s.Submitted? && CloudRoot(d).Some?
    modifies d`dirs, d`descriptors
    ensures Text.PathJoin(CloudRoot(d).value, pid) in d.dirs
    ensures FolderMade(old(d.dirs), old(d.descriptors), d.dirs, d.descriptors, CloudRoot(d).value, pid, s)
  {
    var cloud := CloudRoot(d).value;
    var folder := Text.PathJoin(cloud, pid);
    d.dirs := FileSystem.MakeDirs(d.dirs, folder);
    ghost var made := d.dirs;
    assert FileSystem.MakeDirs(made, folder) == made;
    ExportProfileInfo(d, env, pid, s.name, SyncMode(s.syncChecked), Text.Basename(s.exe));
  }

  /** Lines 305-306: the profile file's fields, written one by one. */
  method WriteProfileFields(d: Disk, env: Env, pid: string, s: Submission) returns (error: Option<Error>)
    requires s.Submitted?
    modifies d`profiles
    ensures d.profiles == ProfileWrites(old(d.profiles), env, pid, "profile", ProfileFields(s)).files
    ensures error == ProfileWrites(old(d.profiles), env, pid, "profile", ProfileFields(s)).error
  {
    var w := ProfileWrites(d.profiles, env, pid, "profile", ProfileFields(s));
    d.profiles := w.files;
    error := w.error;
  }

  /**
   * A profile added as intended holds its name, folders, first slot and sync
   * mode, or only the sync mode when its file exists but cannot be read.
   */
  lemma AddedProfileRead(profiles: map<string, Ini.Config>, env: Env, pid: string, s: Submission)
    requires pid != "" && s.Submitted?
    ensures var w := ProfileWrites(profiles, env, pid, "profile", ProfileFields(s));
            var c := ProfileConfig(w.files, pid);
            ((ProfileFile(pid), Write) !in env.denied ==> w.error.None?)
            && (w.error.None? ==> pid in w.files)
            && (w.error.None? && (ProfileFile(pid), Read) !in env.denied ==>
                  Ini.Get(c, "profile", "name") == Some(s.name)
                  && Ini.Get(c, "profile", "local_save_folder") == Some(s.folder)
                  && Ini.Get(c, "profile", "game_executable") == Some(s.exe)
                  && Ini.Get(c, "profile", "save_slot") == Some("1")
                  && Ini.Get(c, "profile", "saves") == Some("1")
                  && Ini.Get(c, "profile", "sync_mode") == Some(SyncMode(s.syncChecked)))
            && (w.error.None? && (ProfileFile(pid), Read) in env.denied ==> c == Ini.Set(map[], "profile", "sync_mode", SyncMode(s.syncChecked)))
            && (forall q :: q in profiles && q != pid ==> q in w.files && w.files[q] == profiles[q])
  {
    var fs := ProfileFields(s);
    ProfileFieldsFinal(s);
    ProfileWritesEffect(profiles, env, pid, "profile", fs);
    assert fs[0].0 == "name" && fs[1].0 == "local_save_folder" && fs[2].0 == "game_executable";
    assert fs[3].0 == "save_slot" && fs[4].0 == "saves" && fs[5].0 == "sync_mode";
  }

  lemma ProfileFieldsFinal(s: Submission)
    requires s.Submitted?
    ensures var fs := ProfileFields(s);
            |fs| == 6 && forall i :: 0 <= i < 6 ==> fs[i].0 != "" && Final(fs, i)
  {
    assert |Ini.OptionKey("name")| == 4 && |Ini.OptionKey("saves")| == 5 && |Ini.OptionKey("local_save_folder")| == 17;
    assert |Ini.OptionKey("game_executable")| == 15;
    assert Ini.OptionKey("save_slot")[1] == 'a' && Ini.OptionKey("sync_mode")[1] == 'y';
  }

  // ---- the omitted-files list (lines 536-600) ----

  /** Lines 554-555: the comma-separated `omitted` field, empty when it is missing or empty. */
  function OmitList(v: Option<string>): seq<string>
  {
    if Truthy(v) then Text.Split(v.value, ',') else []
  }

  /** The omitted files of a profile, as the dialog lists them. */
  function Omitted(profiles: map<string, Ini.Config>, env: Env, pid: string): seq<string>
  {
    OmitList(ProfileValue(profiles, env, pid, "overrides", "omitted"))
  }

  /** No listed entry holds a comma. */
  lemma OmitListPieces(v: Option<string>)
    ensures forall i :: 0 <= i < |OmitList(v)| ==> ',' !in OmitList(v)[i]
  {
    if Truthy(v) {
      Text.SplitPieces(v.value, ',');
    }
  }

  /**
   * Joining a list with commas and reading it back gives the list, unless an
   * entry holds a comma or the list is the one empty entry, which reads back
   * as no entries.
   */
  lemma {:induction false} OmitListRoundTrip(xs: seq<string>)
    requires forall i :: 0 <= i < |xs| ==> ',' !in xs[i]
    ensures OmitList(Some(Text.JoinWith(xs, ','))) == if xs == [""] then [] else xs
  {
    if |xs| >= 2 {
      Text.JoinCons(xs, ',');
      assert Text.JoinWith(xs, ',')[|xs[0]|] == ',';
    }
    if xs != [] && xs != [""] {
      Text.SplitJoin(xs, ',');
    }
  }

  /**
   * Line 571 on normalised absolute paths: `commonpath` of the folder and the
   * file is the folder exactly when the file is the folder or lies below it.
   */
  predicate Within(folder: string, p: string)
  {
    p == folder || Text.StartsWith(p, if folder != [] && folder[|folder| - 1] == '/' then folder else folder + "/")
  }

  /** How one add or remove on the omit list ends. */
  datatype OmitOutcome = NoFileChosen | OutsideFolder | OmitWritten | OmitFailed(error: Error) | NotSelected | NotConfirmed | NotListed

  /**
   * `omit_files_add_file` (lines 563-581): nothing when no file is chosen; a
   * `TypeError` when the profile has no save folder (line 569); a warning
   * for a file outside it; otherwise the file is appended to the stored list.
   */
  function OmitAddition(profiles: map<string, Ini.Config>, env: Env, pid: string, folder: Option<string>, chosen: string): (r: (OmitOutcome, map<string, Ini.Config>))
    ensures r.0 == NoFileChosen <==> chosen == ""
    ensures r.0 == OutsideFolder <==> chosen != "" && folder.Some? && !Within(folder.value, chosen)
    ensures r.0 != OmitWritten ==> r.1 == profiles
    ensures r.0 == OmitWritten ==>
              folder.Some? && Within(folder.value, chosen)
              && pid in r.1 && (forall q :: q in profiles && q != pid ==> q in r.1 && r.1[q] == profiles[q])
  {
    if chosen == "" then (NoFileChosen, profiles)
    else if folder.None? then (OmitFailed(TypeError), profiles)
    else if !Within(folder.value, chosen) then (OutsideFolder, profiles)
    else
      var list := Omitted(profiles, env, pid) + [chosen];
      match ProfileWrite(profiles, env, Some(pid), Some("overrides"), Some("omitted"), Some(Text.JoinWith(list, ',')))
      case Ok(f) => (OmitWritten, f)
      case Err(e) => (OmitFailed(e), profiles)
  }

  /**
   * A file added to the omit list is listed after the files listed before,
   * when the profile can be read back and the path holds no comma (a comma
   * would split it into two entries).
   */
  lemma OmitAddAppends(profiles: map<string, Ini.Config>, env: Env, pid: string, folder: Option<string>, chosen: string)
    requires OmitAddition(profiles, env, pid, folder, chosen).0 == OmitWritten
    requires (ProfileFile(pid), Read) !in env.denied && ',' !in chosen
    ensures Omitted(OmitAddition(profiles, env, pid, folder, chosen).1, env, pid) == Omitted(profiles, env, pid) + [chosen]
  {
    var list := Omitted(profiles, env, pid) + [chosen];
    OmitListPieces(ProfileValue(profiles, env, pid, "overrides", "omitted"));
    assert forall i :: 0 <= i < |list| ==> ',' !in list[i] by {
      forall i | 0 <= i < |list| ensures ',' !in list[i] {
        if i < |list| - 1 {
          assert list[i] == Omitted(profiles, env, pid)[i];
        }
      }
    }
    assert list[|list| - 1] == chosen;
    OmitListRoundTrip(list);
  }

  /** The position of the first occurrence of `x`. */
  function FirstIndex(xs: seq<string>, x: string): (i: nat)
    requires x in xs
    ensures i < |xs| && xs[i] == x && x !in xs[..i]
  {
    if xs[0] == x then 0
    else
      assert x in xs[1..] by {
        var k :| 0 <= k < |xs| && xs[k] == x;
        assert xs[1..][k - 1] == x;
      }
      var j := FirstIndex(xs[1..], x);
      assert xs[..j + 1] == [xs[0]] + xs[1..][..j];
      j + 1
  }

  /** The list without the first occurrence of `x`: Python's `list.remove`. */
  function RemoveFirst(xs: seq<string>, x: string): (r: seq<string>)
    requires x in xs
    ensures exists i :: 0 <= i < |xs| && xs[i] == x && x !in xs[..i] && r == xs[..i] + xs[i + 1..]
  {
    var i := FirstIndex(xs, x);
    xs[..i] + xs[i + 1..]
  }

  /**
   * `omit_files_remove_file` (lines 583-600): with an entry selected and the
   * removal confirmed, the stored list loses the first occurrence of it; an
   * entry no longer stored is left alone.
   */
  function OmitRemoval(profiles: map<string, Ini.Config>, env: Env, pid: string, selected: Option<string>, confirmed: bool): (r: (OmitOutcome, map<string, Ini.Config>))
    ensures r.0 == NotSelected <==> selected.None?
    ensures r.0 == NotConfirmed <==> selected.Some? && !confirmed
    ensures r.0 == NotListed <==> selected.Some? && confirmed && selected.value !in Omitted(profiles, env, pid)
    ensures r.0 != OmitWritten ==> r.1 == profiles
    ensures r.0 == OmitWritten ==> pid in r.1 && (forall q :: q in profiles && q != pid ==> q in r.1 && r.1[q] == profiles[q])
  {
    if selected.None? then (NotSelected, profiles)
    else if !confirmed then (NotConfirmed, profiles)
    else
      var list := Omitted(profiles, env, pid);
      if selected.value !in list then (NotListed, profiles)
      else
        match ProfileWrite(profiles, env, Some(pid), Some("overrides"), Some("omitted"), Some(Text.JoinWith(RemoveFirst(list, selected.value), ',')))
        case Ok(f) => (OmitWritten, f)
        case Err(e) => (OmitFailed(e), profiles)
  }

  /**
   * After a removal the list reads back without the first occurrence of the
   * selected entry, except that a lone empty entry left over reads back as
   * no entries.
   */
  lemma OmitRemoveDrops(profiles: map<string, Ini.Config>, env: Env, pid: string, selected: Option<string>, confirmed: bool)
    requires OmitRemoval(profiles, env, pid, selected, confirmed).0 == OmitWritten
    requires (ProfileFile(pid), Read) !in env.denied
    ensures var rest := RemoveFirst(Omitted(profiles, env, pid), selected.value);
            Omitted(OmitRemoval(profiles, env, pid, selected, confirmed).1, env, pid) == if rest == [""] then [] else rest
  {
    var list := Omitted(profiles, env, pid);
    OmitListPieces(ProfileValue(profiles, env, pid, "overrides", "omitted"));
    RemoveFirstPieces(list, selected.value);
    OmitListRoundTrip(RemoveFirst(list, selected.value));
  }

  lemma RemoveFirstPieces(xs: seq<string>, x: string)
    requires x in xs && forall i :: 0 <= i < |xs| ==> ',' !in xs[i]
    ensures forall k :: 0 <= k < |RemoveFirst(xs, x)| ==> ',' !in RemoveFirst(xs, x)[k]
  {
    var rest := RemoveFirst(xs, x);
    var i :| 0 <= i < |xs| && xs[i] == x && x !in xs[..i] && rest == xs[..i] + xs[i + 1..];
    forall k | 0 <= k < |rest| ensures ',' !in rest[k] {
      if k < i {
        assert rest[k] == xs[k];
      } else {
        assert rest[k] == xs[k + 1];
      }
    }
  }

  /** `omit_files_add_file` on the store. */
  method OmitAdd(d: Disk, env: Env, pid: string, folder: Option<string>, chosen: string) returns (outcome: OmitOutcome)
    modifies d`profiles
    ensures (outcome, d.profiles) == OmitAddition(old(d.profiles), env, pid, folder, chosen)
  {
    var r := OmitAddition(d.profiles, env, pid, folder, chosen);
    outcome := r.0;
    d.profiles := r.1;
  }

  /** `omit_files_remove_file` on the store. */
  method OmitRemove(d: Disk, env: Env, pid: string, selected: Option<string>, confirmed: bool) returns (outcome: OmitOutcome)
    modifies d`profiles
    ensures (outcome, d.profiles) == OmitRemoval(old(d.profiles), env, pid, selected, confirmed)
  {
    var r := OmitRemoval(d.profiles, env, pid, selected, confirmed);
    outcome := r.0;
    d.profiles := r.1;
  }

  /** Lines 537-541: the dialog opens only with a configured, existing cloud folder, then lists the stored entries. */
  function OmitDialog(d: Disk, env: Env, pid: string): (r: Option<seq<string>>)
    reads d`profiles, d`global, d`dirs, d`descriptors
    ensures r.Some? <==> CloudReady(d, env)
    ensures r.Some? ==> forall i :: 0 <= i < |r.value| ==> ',' !in r.value[i]
  {
    OmitListPieces(ProfileValue(d.profiles, env, pid, "overrides", "omitted"));
    if CloudReady(d, env) then Some(Omitted(d.profiles, env, pid)) else None
  }
}
