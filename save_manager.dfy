/**
 * `components/save_manager.py`: the save-slot dialog of one profile. Its
 * list shows the `saves` section of the profile's cloud descriptor (slot key
 * to display name), and its buttons create, load, delete and rename slots.
 */
module SaveManager {

  import opened Wrappers
  import Text
  import Ini
  import opened FileSystem
  import opened State
  import opened Io

  /** The answer to a Yes/No question; closing the box counts as No. */
  datatype Confirm = Yes | No

  /** A row of the slot list: the slot's display name and its key in the `saves` section. */
  datatype SlotItem = SlotItem(text: string, key: string)

  /** How an f-string spells a value that may be `None`. */
  function Shown(s: Option<string>): string
  {
    match s
    case Some(v) => v
    case None => "None"
  }

  function SlotKey(n: string): string { "save" + n }

  /** The slot folder `os.path.join(cloud, pid, key)`. */
  function SlotFolder(cloud: string, pid: string, key: string): string
  {
    Text.PathJoin(Text.PathJoin(cloud, pid), key)
  }

  function Descriptor(descriptors: map<string, Ini.Config>, cloud: string, pid: string): Ini.Config
  {
    DescriptorAt(descriptors, DescriptorPath(cloud, pid))
  }

  /** The rows a `saves` section lists: one per slot key, with its name. */
  predicate Lists(items: seq<SlotItem>, saves: Ini.Section)
  {
    (forall i :: 0 <= i < |items| ==> items[i].key in saves && saves[items[i].key] == items[i].text)
    && (forall k :: k in saves ==> exists i :: 0 <= i < |items| && items[i].key == k)
    && (forall i, j :: 0 <= i < j < |items| ==> items[i].key != items[j].key)
  }

  // ---- new slot ----

  /** `int(io_savetitan("read", pid, "profile", "saves")) + 1`: `int(None)` is a `TypeError`, bad text a `ValueError`. */
  function NextSlotNumber(c: Ini.Config): (r: Result<int>)
    ensures Ini.Get(c, "profile", "saves").None? <==> r == Err(TypeError)
    ensures r.Ok? <==> Ini.Get(c, "profile", "saves").Some? && Text.ParseInt(Ini.Get(c, "profile", "saves").value).Some?
    ensures r.Ok? ==> Text.ParseInt(Ini.Get(c, "profile", "saves").value) == Some(r.value - 1)
  {
    match Ini.Get(c, "profile", "saves")
    case None => Err(TypeError)
    case Some(v) =>
      match Text.ParseInt(v)
      case None => Err(ValueError)
      case Some(k) => Ok(k + 1)
  }

  /** Lines 60 and 63: store the new count and name slot `n` "Save n". */
  function AddSlot(c: Ini.Config, n: int): Ini.Config
  {
    var s := Text.IntToString(n);
    Ini.Set(Ini.Set(c, "profile", "saves", s), "saves", SlotKey(s), "Save " + s)
  }

  /**
   * After slot `n` is added the count reads `n`, so the next slot is `n + 1`;
   * the new key carries "Save n" and every other slot keeps its name.
   */
  lemma NewSlotCounts(c: Ini.Config, n: int)
    ensures NextSlotNumber(AddSlot(c, n)) == Ok(n + 1)
    ensures Ini.Get(AddSlot(c, n), "saves", SlotKey(Text.IntToString(n))) == Some("Save " + Text.IntToString(n))
    ensures forall f :: Ini.OptionKey(f) != Ini.OptionKey(SlotKey(Text.IntToString(n))) ==>
              Ini.Get(AddSlot(c, n), "saves", f) == Ini.Get(c, "saves", f)
  {
    Text.ParseIntToString(n);
  }

  /**
   * Once `save_slot` holds the number of a slot key `save<n>`, the slot path
   * the copies use is the folder the new-slot handler created for that key.
   */
  lemma LoadedSlotFolder(d: Disk, env: Env, pid: string, cloud: string, n: string)
    requires CloudRoot(d) == Some(cloud)
    requires pid != [] && pid[0] != '/' && pid[|pid| - 1] != '/'
    requires forall i :: 0 <= i < |n| ==> Text.IsDigit(n[i])
    requires ProfileField(d, env, pid, "save_slot") == Some(Text.ReplaceAll(SlotKey(n), "save", ""))
    ensures SlotPath(d, env, pid) == Some(SlotFolder(cloud, pid, SlotKey(n)))
  {
    Text.StripSavePrefix(n);
    Text.SlotPathSpellings(cloud, pid, n);
  }

  // ---- rename ----

  /** `new_save_name.lower() in existing_save_names`. */
  predicate NameTaken(saves: Ini.Section, name: string)
  {
    exists k :: k in saves && Text.Lower(saves[k]) == Text.Lower(name)
  }

  /** No two slots share a name up to case. */
  predicate DistinctNames(saves: Ini.Section)
  {
    forall k, j :: k in saves && j in saves && k != j ==> Text.Lower(saves[k]) != Text.Lower(saves[j])
  }

  /** A rename the check lets through keeps the names distinct up to case. */
  lemma RenameKeepsNamesDistinct(saves: Ini.Section, key: string, name: string)
    requires DistinctNames(saves)
    requires !NameTaken(saves, name)
    ensures DistinctNames(saves[key := name])
  {
    var after := saves[key := name];
    forall k, j | k in after && j in after && k != j
      ensures Text.Lower(after[k]) != Text.Lower(after[j])
    {
      if k == key {
        assert j in saves;
      } else if j == key {
        assert k in saves;
      }
    }
  }

  // ---- the dialog ----

  class SaveManagerDialog {
    const disk: Disk
    const env: Env
    const pid: string
    /** The cloud root read when the dialog opened (line 27). */
    const cloud: string
    var items: seq<SlotItem>

    /** The handlers run while the cloud root they captured is still the configured one. */
    predicate Valid()
      reads disk`global
    {
      CloudRoot(disk) == Some(cloud)
    }

    /** The descriptor this dialog edits. */
    function Current(): Ini.Config
      reads disk`descriptors
    {
      Descriptor(disk.descriptors, cloud, pid)
    }

    /** Lines 22-46: open the dialog and list the slots of the descriptor. */
    constructor (disk: Disk, env: Env, pid: string)
      requires CloudRoot(disk).Some?
      ensures this.disk == disk && this.env == env && this.pid == pid && cloud == CloudRoot(disk).value
      ensures Lists(items, match Ini.Items(Current(), "saves") case Some(m) => m case None => map[])
    {
      this.disk := disk;
      this.env := env;
      this.pid := pid;
      cloud := CloudRoot(disk).value;
      var saves := match Ini.Items(Descriptor(disk.descriptors, CloudRoot(disk).value, pid), "saves") case Some(m) => m case None => map[];
      var listed: seq<SlotItem> := [];
      var todo := saves.Keys;
      while todo != {}
        invariant todo <= saves.Keys
        invariant forall i :: 0 <= i < |listed| ==> listed[i].key in saves && listed[i].key !in todo && saves[listed[i].key] == listed[i].text
        invariant forall k :: k in saves && k !in todo ==> exists i :: 0 <= i < |listed| && listed[i].key == k
        invariant forall i, j :: 0 <= i < j < |listed| ==> listed[i].key != listed[j].key
        decreases |todo|
      {
        var k :| k in todo;
        ghost var prev := listed;
        listed := listed + [SlotItem(saves[k], k)];
        assert forall i :: 0 <= i < |prev| ==> listed[i] == prev[i];
        assert listed[|prev|].key == k;
        todo := todo - {k};
      }
      items := listed;
    }

    /** Lines 49-70: on Yes, count one more slot, name it, create its folder and list it. */
    method NewSave(answer: Confirm) returns (raised: Option<Error>)
      requires Valid()
      modifies disk`descriptors, disk`dirs, this`items
      ensures answer == No ==> raised == None && unchanged(disk`descriptors, disk`dirs, this`items)
      ensures answer == Yes ==>
                match NextSlotNumber(old(Current()))
                case Err(e) => raised == Some(e) && unchanged(disk`descriptors, disk`dirs, this`items)
                case Ok(n) =>
                  var s := Text.IntToString(n);
                  raised == None
                  && disk.descriptors == old(disk.descriptors)[DescriptorPath(cloud, pid) := AddSlot(old(Current()), n)]
                  && disk.dirs == MakeDirs(old(disk.dirs), SlotFolder(cloud, pid, SlotKey(s)))
                  && items == old(items) + [SlotItem("Save " + s, SlotKey(s))]
    {
      if answer == No {
        return None;
      }
      match NextSlotNumber(Current())
      case Err(e) =>
        return Some(e);
      case Ok(n) =>
        AddSlotFolder(n);
        raised := None;
    }

    /** Lines 60-70: write the count and the name of slot `n`, create its folder and list it. */
    method AddSlotFolder(n: int)
      requires Valid()
      modifies disk`descriptors, disk`dirs, this`items
      ensures var s := Text.IntToString(n);
              disk.descriptors == old(disk.descriptors)[DescriptorPath(cloud, pid) := AddSlot(old(Current()), n)]
              && disk.dirs == MakeDirs(old(disk.dirs), SlotFolder(cloud, pid, SlotKey(s)))
              && items == old(items) + [SlotItem("Save " + s, SlotKey(s))]
    {
      var s := Text.IntToString(n);
      var path := DescriptorPath(cloud, pid);
      var dirs := MakeDirs(disk.dirs, SlotFolder(cloud, pid, SlotKey(s)));
      ghost var c := Ini.Set(Current(), "profile", "saves", s);
      ghost var added := Ini.Set(c, "saves", SlotKey(s), "Save " + s);
      assert added == AddSlot(Current(), n);
      WriteDescriptor("profile", "saves", s);
      assert Current() == c;
      WriteDescriptor("saves", SlotKey(s), "Save " + s);
      assert disk.descriptors == old(disk.descriptors)[path := added];
      disk.dirs := dirs;
      items := items + [SlotItem("Save " + s, SlotKey(s))];
    }

    /** `io_savetitan("write", pid, section, field, value)` on this dialog's descriptor. */
    method WriteDescriptor(section: string, field: string, value: string)
      requires Valid()
      requires field != ""
      modifies disk`descriptors
      ensures disk.descriptors == old(disk.descriptors)[DescriptorPath(cloud, pid) := Ini.Set(old(Current()), section, field, value)]
    {
      var w := IoSavetitan(disk, "write", pid, section, Some(field), Some(value));
    }

    /** The slot key of the loaded slot, spelled as lines 83 and 116 spell it. */
    function LoadedKey(): string
      reads disk`profiles
    {
      SlotKey(Shown(ProfileField(disk, env, pid, "save_slot")))
    }

    /** `copy_save_to_local(pid)` during a load: a synced pull leaves the local folder equal to the slot folder. */
    method PullSlot(attempts: seq<Attempt>) returns (synced: bool)
      requires SlotPath(disk, env, pid).Some?
      modifies disk`dirs
      ensures synced ==> ProfileField(disk, env, pid, "local_save_folder").Some?
                         && Contents(disk.dirs, ProfileField(disk, env, pid, "local_save_folder").value)
                            == Contents(disk.dirs, SlotPath(disk, env, pid).value)
    {
      ghost var before := disk.dirs;
      var s := SlotPath(disk, env, pid).value;
      var local := ProfileField(disk, env, pid, "local_save_folder");
      var pulled := CopySaveToLocal(disk, env, pid, attempts);
      synced := pulled == Synced;
      if local.None? {
        RunWithoutDestination(before, Some(s), s + ".bak", attempts, 0, false, false);
      } else if synced && local.value != s {
        RunSyncedCopies(before, s, local.value, s + ".bak", attempts, 0, false, false);
        RunFrame(before, Some(s), local.value, s + ".bak", attempts, 0, false, false);
      }
    }

    /**
     * Lines 73-104, with the copies called with the one argument they take:
     * upload the current slot on Yes, point `save_slot` at the selected slot,
     * then pull that slot into the local folder.
     */
    method LoadSave(selected: Option<nat>, reply: Confirm, push: seq<Attempt>, pull: seq<Attempt>) returns (raised: Option<Error>, synced: bool)
      requires Valid()
      requires selected.Some? ==> selected.value < |items|
      modifies disk`profiles, disk`dirs
      ensures selected.None? || items[selected.value].key == old(LoadedKey()) ==>
                raised == None && !synced && unchanged(disk`profiles, disk`dirs)
      ensures selected.Some? && items[selected.value].key != old(LoadedKey()) && reply == Yes && old(SlotPath(disk, env, pid)).None? ==>
                raised == Some(TypeError) && !synced && disk.profiles == old(disk.profiles) && disk.dirs == old(disk.dirs)
      ensures selected.Some? && items[selected.value].key != old(LoadedKey()) && (reply == No || old(SlotPath(disk, env, pid)).Some?) ==>
                var slot := Text.ReplaceAll(items[selected.value].key, "save", "");
                match ProfileWrite(old(disk.profiles), env, Some(pid), Some("profile"), Some("save_slot"), Some(slot))
                case Err(e) => raised == Some(e) && !synced && disk.profiles == old(disk.profiles)
                case Ok(m) =>
                  disk.profiles == m
                  && ((ProfileFile(pid), Read) in env.denied ==> raised == Some(TypeError) && !synced)
                  && ((ProfileFile(pid), Read) !in env.denied ==> raised == None && ProfileField(disk, env, pid, "save_slot") == Some(slot))
                  && (synced ==> ProfileField(disk, env, pid, "local_save_folder").Some?
                                 && Contents(disk.dirs, ProfileField(disk, env, pid, "local_save_folder").value)
                                    == Contents(disk.dirs, SlotPath(disk, env, pid).value))
    {
      synced := false;
      if selected.None? || items[selected.value].key == LoadedKey() {
        return None, false;
      }
      var key := items[selected.value].key;
      if reply == Yes {
        var pushed := CopySaveToCloud(disk, env, pid, push);
        if pushed.Raised? {
          return Some(pushed.error), false;
        }
      }
      raised, synced := PointAtSlot(Text.ReplaceAll(key, "save", ""), pull);
    }

    /**
     * The tail of a load: `save_slot` names `slot`, then the slot is pulled
     * into the local folder. A profile file that cannot be read gives no
     * `save_slot` back, so building the slot path raises `TypeError`.
     */
    method PointAtSlot(slot: string, pull: seq<Attempt>) returns (raised: Option<Error>, synced: bool)
      requires Valid()
      modifies disk`profiles, disk`dirs
      ensures match ProfileWrite(old(disk.profiles), env, Some(pid), Some("profile"), Some("save_slot"), Some(slot))
              case Err(e) => raised == Some(e) && !synced && disk.profiles == old(disk.profiles)
              case Ok(m) =>
                disk.profiles == m
                && ((ProfileFile(pid), Read) in env.denied ==> raised == Some(TypeError) && !synced && disk.dirs == old(disk.dirs))
                && ((ProfileFile(pid), Read) !in env.denied ==> raised == None && ProfileField(disk, env, pid, "save_slot") == Some(slot))
                && (synced ==> ProfileField(disk, env, pid, "local_save_folder").Some?
                               && Contents(disk.dirs, ProfileField(disk, env, pid, "local_save_folder").value)
                                  == Contents(disk.dirs, SlotPath(disk, env, pid).value))
    {
      synced := false;
      var w := IoProfile(disk, env, "write", Some(pid), Some("profile"), Some("save_slot"), Some(slot));
      if w.Err? {
        return Some(w.error), false;
      }
      if (ProfileFile(pid), Read) !in env.denied {
        ProfileWriteThenRead(old(disk.profiles), env, pid, "profile", "save_slot", Some(slot));
      }
      if SlotPath(disk, env, pid).None? {
        return Some(TypeError), false;
      }
      synced := PullSlot(pull);
      raised := None;
    }

    /**
     * Lines 73-104 as written: both copies are called with an extra argument,
     * so a load raises `TypeError`; on No it does so after `save_slot` already
     * names the new slot, and the local folder is never refreshed.
     */
    method LoadSaveAsWritten(selected: Option<nat>, reply: Confirm) returns (raised: Option<Error>)
      requires Valid()
      requires selected.Some? ==> selected.value < |items|
      modifies disk`profiles
      ensures selected.None? || items[selected.value].key == old(LoadedKey()) ==> raised == None && disk.profiles == old(disk.profiles)
      ensures selected.Some? && items[selected.value].key != old(LoadedKey()) && reply == Yes ==>
                raised == Some(TypeError) && disk.profiles == old(disk.profiles)
      ensures selected.Some? && items[selected.value].key != old(LoadedKey()) && reply == No ==>
                var slot := Text.ReplaceAll(items[selected.value].key, "save", "");
                match ProfileWrite(old(disk.profiles), env, Some(pid), Some("profile"), Some("save_slot"), Some(slot))
                case Err(e) => raised == Some(e) && disk.profiles == old(disk.profiles)
                case Ok(m) => raised == Some(TypeError) && disk.profiles == m
    {
      if selected.None? || items[selected.value].key == LoadedKey() {
        return None;
      }
      if reply == Yes {
        return Some(TypeError);
      }
      var slot := Text.ReplaceAll(items[selected.value].key, "save", "");
      var w := IoProfile(disk, env, "write", Some(pid), Some("profile"), Some("save_slot"), Some(slot));
      if w.Err? {
        return Some(w.error);
      }
      raised := Some(TypeError);
    }

    /**
     * Lines 107-135: refuse to delete the loaded slot; on Yes remove the
     * slot's name from the descriptor, its folder from the cloud, and its row.
     */
    method DeleteSave(selected: Option<nat>, confirm: Confirm) returns (raised: Option<Error>)
      requires Valid()
      requires selected.Some? ==> selected.value < |items|
      modifies disk`descriptors, disk`dirs, this`items
      ensures selected.None? || old(items)[selected.value].key == old(LoadedKey()) || confirm == No ==>
                raised == None && unchanged(disk`descriptors, disk`dirs, this`items)
      ensures selected.Some? && old(items)[selected.value].key != old(LoadedKey()) && confirm == Yes ==>
                var key := old(items)[selected.value].key;
                match DescriptorDelete(old(disk.descriptors), Some(cloud), pid, "saves", Some(key))
                case Err(e) => raised == Some(e) && unchanged(disk`descriptors, disk`dirs, this`items)
                case Ok(m) =>
                  disk.descriptors == m
                  && match RmTree(old(disk.dirs), SlotFolder(cloud, pid, key))
                     case Err(e) => raised == Some(e) && disk.dirs == old(disk.dirs) && items == old(items)
                     case Ok(fs) =>
                       raised == None && disk.dirs == fs
                       && items == old(items)[..selected.value] + old(items)[selected.value + 1..]
    {
      if selected.None? || items[selected.value].key == LoadedKey() || confirm == No {
        return None;
      }
      var i := selected.value;
      var key := items[i].key;
      var r := IoSavetitan(disk, "delete", pid, "saves", Some(key), None);
      if r.Err? {
        return Some(r.error);
      }
      raised := RemoveSlot(i);
    }

    /** Lines 132-135: remove the slot folder, then the row. */
    method RemoveSlot(i: nat) returns (raised: Option<Error>)
      requires i < |items|
      modifies disk`dirs, this`items
      ensures match RmTree(old(disk.dirs), SlotFolder(cloud, pid, old(items)[i].key))
              case Err(e) => raised == Some(e) && disk.dirs == old(disk.dirs) && items == old(items)
              case Ok(fs) => raised == None && disk.dirs == fs && items == old(items)[..i] + old(items)[i + 1..]
    {
      match RmTree(disk.dirs, SlotFolder(cloud, pid, items[i].key))
      case Err(e) =>
        return Some(e);
      case Ok(fs) =>
        disk.dirs := fs;
        items := items[..i] + items[i + 1..];
        raised := None;
    }

    /**
     * Lines 138-159: take a non-empty name that no slot has up to case, and
     * give it to the selected slot in the descriptor and in the list.
     */
    method RenameSave(selected: Option<nat>, input: Option<string>) returns (raised: Option<Error>)
      requires Valid()
      requires selected.Some? ==> selected.value < |items|
      modifies disk`descriptors, this`items
      ensures selected.None? || input.None? || input.value == "" ==> raised == None && unchanged(disk`descriptors, this`items)
      ensures selected.Some? && input.Some? && input.value != "" ==>
                var key, name := old(items)[selected.value].key, input.value;
                match Ini.Items(old(Current()), "saves")
                case None => raised == Some(AttributeError) && unchanged(disk`descriptors, this`items)
                case Some(saves) =>
                  if NameTaken(saves, name) then raised == None && unchanged(disk`descriptors, this`items)
                  else
                    match DescriptorWrite(old(disk.descriptors), Some(cloud), pid, "saves", Some(key), Some(name))
                    case Err(e) => raised == Some(e) && unchanged(disk`descriptors, this`items)
                    case Ok(m) => raised == None && disk.descriptors == m && items == old(items)[selected.value := SlotItem(name, key)]
    {
      if selected.None? || input.None? || input.value == "" {
        return None;
      }
      var i, name := selected.value, input.value;
      var key := items[i].key;
      var saves := Ini.Items(DescriptorAt(disk.descriptors, DescriptorPath(cloud, pid)), "saves");
      if saves.None? {
        return Some(AttributeError);
      }
      if NameTaken(saves.value, name) {
        return None;
      }
      var w := IoSavetitan(disk, "write", pid, "saves", Some(key), Some(name));
      if w.Err? {
        return Some(w.error);
      }
      items := items[i := SlotItem(name, key)];
      raised := None;
    }
  }
}
