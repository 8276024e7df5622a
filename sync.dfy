/**
 * `modules/sync.py`: what happens when a profile is started. The checkout
 * lock in the cloud descriptor is claimed or contested, the local folder is
 * compared with the cloud slot, and then the game is launched, with a pull
 * before it or an upload after it as the comparison and the user decide.
 */
module Sync {

  import opened Wrappers
  import Text
  import Ini
  import opened Trees
  import opened FileSystem
  import opened State
  import opened Io

  /** The answer to the "Checkout Warning" prompt; closing it counts as No, the prompt's escape button. */
  datatype Prompt = Yes | No

  /** How the sync dialog for diverged saves is left. */
  datatype Choice = Download | Upload | NoSync | Closed

  /**
   * The user's part: the checkout prompt, the sync dialog, the button
   * pressed after playing ("Upload to Cloud" or not) and how each copy loop
   * goes.
   */
  datatype Answers = Answers(contest: Prompt, choice: Choice, upload: bool, pull: seq<Attempt>, push: seq<Attempt>)

  /**
   * What a run does, in order: claim the checkout for a host, show the sync
   * dialog labelling the cloud copy newer or older, copy the cloud slot to the
   * local folder, start the game, copy the local folder to the cloud, and
   * clear the checkout.
   */
  datatype Event = Claim(host: string) | Offer(cloudNewer: bool) | Pull | Launch(exe: string) | Push | Release

  /** How a run ends: it returns, the program exits (`sys.exit`), or an exception escapes. */
  datatype Status = Returned | Exited | Threw(error: Error)

  datatype Outcome = Outcome(status: Status, events: seq<Event>)

  function Then(first: seq<Event>, o: Outcome): Outcome
  {
    Outcome(o.status, first + o.events)
  }

  // ---- the checkout field ----

  /** The descriptors after writing `value` to the checkout field of the descriptor at `path`. */
  function SetCheckout(descriptors: map<string, Ini.Config>, path: string, value: string): map<string, Ini.Config>
  {
    descriptors[path := Ini.Set(DescriptorAt(descriptors, path), "profile", "checkout", value)]
  }

  /** The descriptors after the checkout write of one event, if it makes one. */
  function Effect(descriptors: map<string, Ini.Config>, path: string, e: Event): map<string, Ini.Config>
  {
    match e
    case Claim(h) => SetCheckout(descriptors, path, h)
    case Release => SetCheckout(descriptors, path, "")
    case _ => descriptors
  }

  /** The descriptors after the checkout writes of `events`. */
  function ApplyCheckout(descriptors: map<string, Ini.Config>, path: string, events: seq<Event>): map<string, Ini.Config>
    decreases |events|
  {
    if events == [] then descriptors
    else ApplyCheckout(Effect(descriptors, path, events[0]), path, events[1..])
  }

  /** The checkout value the last claim or release of `events` leaves, if any. */
  function LastLock(events: seq<Event>): Option<string>
    decreases |events|
  {
    if events == [] then None
    else match events[|events| - 1]
      case Claim(h) => Some(h)
      case Release => Some("")
      case _ => LastLock(events[..|events| - 1])
  }

  lemma {:induction false} ApplyCheckoutConcat(descriptors: map<string, Ini.Config>, path: string, a: seq<Event>, b: seq<Event>)
    ensures ApplyCheckout(descriptors, path, a + b) == ApplyCheckout(ApplyCheckout(descriptors, path, a), path, b)
    decreases |a|
  {
    if a == [] {
      assert a + b == b;
    } else {
      assert (a + b)[0] == a[0];
      assert (a + b)[1..] == a[1..] + b;
      ApplyCheckoutConcat(Effect(descriptors, path, a[0]), path, a[1..], b);
    }
  }

  /** Events other than claims and releases write nothing. */
  lemma {:induction false} QuietEvents(descriptors: map<string, Ini.Config>, path: string, events: seq<Event>)
    requires forall i :: 0 <= i < |events| ==> !events[i].Claim? && !events[i].Release?
    ensures ApplyCheckout(descriptors, path, events) == descriptors
    decreases |events|
  {
    if events != [] {
      QuietEvents(descriptors, path, events[1..]);
    }
  }

  lemma Single(descriptors: map<string, Ini.Config>, path: string, e: Event)
    ensures ApplyCheckout(descriptors, path, [e]) == Effect(descriptors, path, e)
  {
    assert [e][1..] == [];
  }

  /** Quiet events followed by the writes of `rest`. */
  lemma QuietThen(descriptors: map<string, Ini.Config>, path: string, quiet: seq<Event>, rest: seq<Event>)
    requires forall i :: 0 <= i < |quiet| ==> !quiet[i].Claim? && !quiet[i].Release?
    ensures ApplyCheckout(descriptors, path, quiet + rest) == ApplyCheckout(descriptors, path, rest)
  {
    ApplyCheckoutConcat(descriptors, path, quiet, rest);
    QuietEvents(descriptors, path, quiet);
  }

  /**
   * The writes of a run touch only the checkout field of its own descriptor,
   * and leave there the last value claimed or released.
   */
  lemma {:induction false} CheckoutOnlyChanges(descriptors: map<string, Ini.Config>, path: string, events: seq<Event>)
    ensures var after := ApplyCheckout(descriptors, path, events);
            (forall q :: q != path ==> (q in after <==> q in descriptors) && (q in descriptors ==> after[q] == descriptors[q]))
            && (forall s, f :: s != "profile" || Ini.OptionKey(f) != Ini.OptionKey("checkout") ==>
                  Ini.Get(DescriptorAt(after, path), s, f) == Ini.Get(DescriptorAt(descriptors, path), s, f))
            && Ini.Get(DescriptorAt(after, path), "profile", "checkout")
               == if LastLock(events).Some? then LastLock(events) else Ini.Get(DescriptorAt(descriptors, path), "profile", "checkout")
    decreases |events|
  {
    if events != [] {
      var init, last := events[..|events| - 1], events[|events| - 1];
      assert events == init + [last];
      ApplyCheckoutConcat(descriptors, path, init, [last]);
      CheckoutOnlyChanges(descriptors, path, init);
      var mid := ApplyCheckout(descriptors, path, init);
      assert [last][1..] == [];
      match last
      case Claim(h) =>
        assert ApplyCheckout(descriptors, path, events) == SetCheckout(mid, path, h);
      case Release =>
        assert ApplyCheckout(descriptors, path, events) == SetCheckout(mid, path, "");
      case _ =>
        assert ApplyCheckout(descriptors, path, events) == mid;
    }
  }

  /** `io_savetitan("write", pid, "profile", "checkout", value)` with the cloud root configured. */
  method WriteCheckout(d: Disk, pid: string, value: Option<string>)
    requires CloudRoot(d).Some?
    modifies d`descriptors
    ensures d.descriptors == SetCheckout(old(d.descriptors), DescriptorPath(CloudRoot(d).value, pid), value.GetOr(""))
  {
    var r := IoSavetitan(d, "write", pid, "profile", Some("checkout"), value);
  }

  // ---- the comparison ----

  /** The `os.walk` loop: every local file must exist in the cloud slot with the same bytes. */
  method FilesIdentical(local: Tree, remote: Tree) returns (identical: bool)
    ensures identical == Covers(local, remote)
  {
    identical := true;
    var todo := local.Keys;
    while todo != {}
      invariant todo <= local.Keys
      invariant identical
      invariant forall p :: p in local && p !in todo ==> p in remote && remote[p].data == local[p].data
      decreases |todo|
    {
      var p :| p in todo;
      if p !in remote || remote[p].data != local[p].data {
        identical := false;
        break;
      }
      todo := todo - {p};
    }
  }

  /** The loop over `os.path.getmtime`: the newest file time, starting from 1900-01-01. */
  method LatestFileTime(t: Tree) returns (time: int)
    ensures time == Latest(t)
  {
    time := Floor;
    var todo := t.Keys;
    while todo != {}
      invariant todo <= t.Keys
      invariant time >= Floor
      invariant forall p :: p in t && p !in todo ==> t[p].mtime <= time
      invariant time == Floor || exists p :: p in t && p !in todo && t[p].mtime == time
      decreases |todo|
    {
      var p :| p in todo;
      if time < t[p].mtime {
        time := t[p].mtime;
      }
      todo := todo - {p};
    }
    LatestUnique(t, time);
  }

  // ---- launching ----

  /** `check_permissions(exe, …, "execute")` on a game executable. */
  predicate MayExecute(env: Env, exe: string)
  {
    exe !in env.existing || (Program(exe), Execute) !in env.denied
  }

  /**
   * `launch_game`: start the game, then after play upload on "Upload to
   * Cloud" and clear the checkout either way; nothing at all when execute
   * permission is denied.
   */
  function LaunchSpec(d: Disk, env: Env, pid: string, upload: bool): (o: Outcome)
    reads d`profiles, d`global
    ensures Pull !in o.events && (forall b :: Offer(b) !in o.events) && (forall h :: Claim(h) !in o.events)
    ensures (Push in o.events) ==> upload
    ensures o.status == Returned && o.events != [] ==> o.events[|o.events| - 1] == Release && (Push in o.events <==> upload)
    ensures o.status == Returned && o.events == [] ==>
              ProfileField(d, env, pid, "game_executable").Some? && !MayExecute(env, ProfileField(d, env, pid, "game_executable").value)
    ensures (exists x :: Launch(x) in o.events) <==> o.events != []
    ensures o.status != Exited
  {
    var exe := ProfileField(d, env, pid, "game_executable");
    if CloudRoot(d).None? || exe.None? then Outcome(Threw(TypeError), [])
    else if !MayExecute(env, exe.value) then Outcome(Returned, [])
    else if exe.value !in env.existing then Outcome(Threw(FileNotFoundError), [])
    else if upload && SlotPath(d, env, pid).None? then Outcome(Threw(TypeError), [Launch(exe.value), Push])
    else Outcome(Returned, if upload then [Launch(exe.value), Push, Release] else [Launch(exe.value), Release])
  }

  /** `launch_game_without_sync`, reading the executable of the profile it is given: start the game and exit. */
  function WithoutSyncSpec(d: Disk, env: Env, pid: string): (o: Outcome)
    reads d`profiles, d`global
    ensures o.status == Returned ==> o.events == []
    ensures o.status == Exited ==> ProfileField(d, env, pid, "game_executable").Some? && o.events == [Launch(ProfileField(d, env, pid, "game_executable").value)]
    ensures o.status.Threw? ==> o.events == []
  {
    var exe := ProfileField(d, env, pid, "game_executable");
    if CloudRoot(d).None? || exe.None? then Outcome(Threw(TypeError), [])
    else if !MayExecute(env, exe.value) then Outcome(Returned, [])
    else if exe.value !in env.existing then Outcome(Threw(FileNotFoundError), [])
    else Outcome(Exited, [Launch(exe.value)])
  }

  method LaunchGame(d: Disk, env: Env, pid: string, upload: bool, push: seq<Attempt>) returns (o: Outcome)
    modifies d`descriptors, d`dirs
    ensures o == old(LaunchSpec(d, env, pid, upload))
    ensures d.descriptors == ApplyCheckout(old(d.descriptors), DescriptorPath(CloudRoot(d).GetOr(""), pid), o.events)
    ensures Push !in o.events ==> d.dirs == old(d.dirs)
  {
    var cloud := CloudRoot(d);
    var exe := ProfileField(d, env, pid, "game_executable");
    if cloud.None? || exe.None? {
      return Outcome(Threw(TypeError), []);
    }
    if !CheckPermissions(d, env, Program(exe.value), Execute) {
      return Outcome(Returned, []);
    }
    if exe.value !in env.existing {
      return Outcome(Threw(FileNotFoundError), []);
    }
    o := RunTracked(d, env, pid, exe.value, upload, push);
  }

  /** Lines 166-182 once the game may start: run it, upload on request, then clear the checkout. */
  method RunTracked(d: Disk, env: Env, pid: string, exe: string, upload: bool, push: seq<Attempt>) returns (o: Outcome)
    requires CloudRoot(d).Some?
    modifies d`descriptors, d`dirs
    ensures o == if upload && old(SlotPath(d, env, pid)).None? then Outcome(Threw(TypeError), [Launch(exe), Push])
                 else Outcome(Returned, if upload then [Launch(exe), Push, Release] else [Launch(exe), Release])
    ensures d.descriptors == ApplyCheckout(old(d.descriptors), DescriptorPath(CloudRoot(d).value, pid), o.events)
    ensures Push !in o.events ==> d.dirs == old(d.dirs)
  {
    if upload {
      o := RunThenUpload(d, env, pid, exe, push);
    } else {
      var path := DescriptorPath(CloudRoot(d).value, pid);
      WriteCheckout(d, pid, None);
      o := Outcome(Returned, [Launch(exe), Release]);
      QuietThen(old(d.descriptors), path, [Launch(exe)], [Release]);
      Single(old(d.descriptors), path, Release);
      assert o.events == [Launch(exe)] + [Release];
    }
  }

  /** Lines 168-182 with the upload after play: the upload's error ends the run with the checkout kept. */
  method RunThenUpload(d: Disk, env: Env, pid: string, exe: string, push: seq<Attempt>) returns (o: Outcome)
    requires CloudRoot(d).Some?
    modifies d`descriptors, d`dirs
    ensures o == if old(SlotPath(d, env, pid)).None? then Outcome(Threw(TypeError), [Launch(exe), Push])
                 else Outcome(Returned, [Launch(exe), Push, Release])
    ensures d.descriptors == ApplyCheckout(old(d.descriptors), DescriptorPath(CloudRoot(d).value, pid), o.events)
  {
    var path := DescriptorPath(CloudRoot(d).value, pid);
    var failed := Upload(d, env, pid, push);
    if failed.Some? {
      QuietEvents(old(d.descriptors), path, [Launch(exe), Push]);
      return Outcome(Threw(failed.value), [Launch(exe), Push]);
    }
    WriteCheckout(d, pid, None);
    o := Outcome(Returned, [Launch(exe), Push, Release]);
    QuietThen(old(d.descriptors), path, [Launch(exe), Push], [Release]);
    Single(old(d.descriptors), path, Release);
    assert o.events == [Launch(exe), Push] + [Release];
  }

  /** `copy_save_to_cloud` after play; only the error it raises matters to the caller. */
  method Upload(d: Disk, env: Env, pid: string, attempts: seq<Attempt>) returns (failed: Option<Error>)
    modifies d`dirs
    ensures failed == if SlotPath(d, env, pid).None? then Some(TypeError) else None
  {
    var copied := CopySaveToCloud(d, env, pid, attempts);
    failed := if copied.Raised? then Some(copied.error) else None;
  }

  /** `copy_save_to_local` before play, whose outcome the caller ignores. */
  method Download(d: Disk, env: Env, pid: string, attempts: seq<Attempt>)
    requires SlotPath(d, env, pid).Some?
    modifies d`dirs
  {
    var copied := CopySaveToLocal(d, env, pid, attempts);
  }

  /** `launch_game_without_sync` taking the profile id, as the sync dialog's "No Sync" button calls it. */
  method LaunchWithoutSync(d: Disk, env: Env, pid: string) returns (o: Outcome)
    ensures o == WithoutSyncSpec(d, env, pid)
  {
    var cloud := CloudRoot(d);
    var exe := ProfileField(d, env, pid, "game_executable");
    if cloud.None? || exe.None? {
      return Outcome(Threw(TypeError), []);
    }
    if !CheckPermissions(d, env, Program(exe.value), Execute) {
      return Outcome(Returned, []);
    }
    if exe.value !in env.existing {
      return Outcome(Threw(FileNotFoundError), []);
    }
    return Outcome(Exited, [Launch(exe.value)]);
  }

  /** `launch_game_without_sync` as written: the name `profile_id` it reads is defined nowhere in the module. */
  method LaunchWithoutSyncAsWritten(d: Disk, env: Env, gameExecutable: Option<string>) returns (o: Outcome)
    ensures o == Outcome(Threw(NameError), [])
  {
    o := Outcome(Threw(NameError), []);
  }

  // ---- check_and_sync_saves ----

  /** The checkout rule: the events of a run that goes on, or `None` when the user declines. */
  function ClaimSpec(d: Disk, env: Env, pid: string, prompt: Prompt): (r: Option<seq<Event>>)
    requires CloudRoot(d).Some?
    reads d`global, d`descriptors
  {
    var previous := DescriptorValue(d, pid, "profile", "checkout").value;
    if Truthy(previous) && previous.value != env.hostname then
      if prompt == Yes then Some([Claim(env.hostname)]) else None
    else if !Truthy(previous) then Some([Claim(env.hostname)])
    else Some([])
  }

  /** Lines 44-65: read the checkout, then claim it, keep it, or contest it. */
  method ClaimCheckout(d: Disk, env: Env, pid: string, prompt: Prompt) returns (proceed: bool, events: seq<Event>)
    requires CloudRoot(d).Some?
    modifies d`descriptors
    ensures (if proceed then Some(events) else None) == old(ClaimSpec(d, env, pid, prompt))
    ensures !proceed ==> events == []
    ensures d.descriptors == ApplyCheckout(old(d.descriptors), DescriptorPath(CloudRoot(d).value, pid), events)
  {
    var previous := DescriptorValue(d, pid, "profile", "checkout").value;
    var host := env.hostname;
    if Truthy(previous) && previous.value != host {
      if prompt == No {
        return false, [];
      }
      WriteCheckout(d, pid, Some(host));
      return true, [Claim(host)];
    } else if !Truthy(previous) {
      WriteCheckout(d, pid, Some(host));
      return true, [Claim(host)];
    }
    return true, [];
  }

  /** The sync dialog for diverged saves, once it is shown. */
  function DivergedSpec(d: Disk, env: Env, pid: string, choice: Choice, upload: bool, cloudNewer: bool): Outcome
    reads d`profiles, d`global
  {
    match choice
    case Download => Then([Offer(cloudNewer), Pull], LaunchSpec(d, env, pid, upload))
    case Upload => Then([Offer(cloudNewer)], LaunchSpec(d, env, pid, upload))
    case NoSync =>
      var w := WithoutSyncSpec(d, env, pid);
      Then([Offer(cloudNewer)], if w.status == Returned then Outcome(Returned, w.events + [Release]) else w)
    case Closed => Outcome(Exited, [Offer(cloudNewer), Release])
  }

  /** Lines 67-154: compare the local folder with the cloud slot and act on the result. */
  ghost function PlaySpec(d: Disk, env: Env, pid: string, local: Option<string>, slotDir: string, ans: Answers): Outcome
    reads d`profiles, d`global, d`dirs
  {
    if !(slotDir in d.dirs && d.dirs[slotDir] != map[]) then LaunchSpec(d, env, pid, ans.upload)
    else if local.None? then Outcome(Threw(TypeError), [])
    else CompareSpec(d, env, pid, local.value, slotDir, ans)
  }

  /** Lines 68-152: every local file is in the slot unchanged, or the saves have diverged. */
  ghost function CompareSpec(d: Disk, env: Env, pid: string, local: string, slotDir: string, ans: Answers): Outcome
    requires slotDir in d.dirs
    reads d`profiles, d`global, d`dirs
  {
    var l, r := Contents(d.dirs, local), d.dirs[slotDir];
    if Covers(l, r) then IdenticalSpec(d, env, pid, local, slotDir, ans.upload)
    else DivergedSpec(d, env, pid, ans.choice, ans.upload, Latest(r) > Latest(l))
  }

  /** Lines 84-99: with identical files, pull first only when the slot lists more entries than the local folder. */
  function IdenticalSpec(d: Disk, env: Env, pid: string, local: string, slotDir: string, upload: bool): Outcome
    requires slotDir in d.dirs
    reads d`profiles, d`global, d`dirs
  {
    if local !in d.dirs then Outcome(Threw(FileNotFoundError), [])
    else if |TopNames(d.dirs[slotDir])| > |TopNames(d.dirs[local])| then Then([Pull], LaunchSpec(d, env, pid, upload))
    else LaunchSpec(d, env, pid, upload)
  }

  /** The slot folder as `check_and_sync_saves` spells it. */
  function SyncSlotDir(cloud: string, pid: string, slot: string): string
  {
    Text.PathJoin(Text.PathJoin(cloud, pid), "save" + slot)
  }

  /** `check_and_sync_saves(pid)`, from the state before it. */
  ghost function SyncSpec(d: Disk, env: Env, pid: string, ans: Answers): Outcome
    reads d`profiles, d`global, d`descriptors, d`dirs
  {
    var cloud := CloudRoot(d);
    var fields := ProfileSection(d.profiles, env, pid, "profile");
    if fields.None? then Outcome(Threw(AttributeError), [])
    else
      var local, slot, mode := Ini.Lookup(fields.value, "local_save_folder"), Ini.Lookup(fields.value, "save_slot"), Ini.Lookup(fields.value, "sync_mode");
      if cloud.None? || slot.None? then Outcome(Threw(TypeError), [])
      else if mode != Some("Sync") then WithoutSyncSpec(d, env, pid)
      else ClaimThenPlaySpec(d, env, pid, local, SyncSlotDir(cloud.value, pid, slot.value), ans)
  }

  /** Lines 43-154: settle the checkout, then compare and play unless the user declined. */
  ghost function ClaimThenPlaySpec(d: Disk, env: Env, pid: string, local: Option<string>, slotDir: string, ans: Answers): Outcome
    requires CloudRoot(d).Some?
    reads d`profiles, d`global, d`descriptors, d`dirs
  {
    match ClaimSpec(d, env, pid, ans.contest)
    case None => Outcome(Exited, [])
    case Some(claimed) => Then(claimed, PlaySpec(d, env, pid, local, slotDir, ans))
  }

  method Play(d: Disk, env: Env, pid: string, local: Option<string>, slotDir: string, ans: Answers) returns (o: Outcome)
    requires SlotPath(d, env, pid).Some?
    modifies d`descriptors, d`dirs
    ensures o == old(PlaySpec(d, env, pid, local, slotDir, ans))
    ensures d.descriptors == ApplyCheckout(old(d.descriptors), DescriptorPath(CloudRoot(d).value, pid), o.events)
    ensures Pull !in o.events && Push !in o.events ==> d.dirs == old(d.dirs)
  {
    if !(slotDir in d.dirs && d.dirs[slotDir] != map[]) {
      o := LaunchAfter(d, env, pid, ans, [], false);
      return;
    }
    if local.None? {
      return Outcome(Threw(TypeError), []);
    }
    o := Compare(d, env, pid, local.value, slotDir, ans);
  }

  /** Lines 68-152: the cloud slot holds files; compare them with the local folder. */
  method Compare(d: Disk, env: Env, pid: string, local: string, slotDir: string, ans: Answers) returns (o: Outcome)
    requires SlotPath(d, env, pid).Some?
    requires slotDir in d.dirs
    modifies d`descriptors, d`dirs
    ensures o == old(CompareSpec(d, env, pid, local, slotDir, ans))
    ensures d.descriptors == ApplyCheckout(old(d.descriptors), DescriptorPath(CloudRoot(d).value, pid), o.events)
    ensures Pull !in o.events && Push !in o.events ==> d.dirs == old(d.dirs)
  {
    var l, r := Contents(d.dirs, local), d.dirs[slotDir];
    ghost var spec := CompareSpec(d, env, pid, local, slotDir, ans);
    var identical := FilesIdentical(l, r);
    if identical {
      assert spec == IdenticalSpec(d, env, pid, local, slotDir, ans.upload);
      o := Identical(d, env, pid, local, slotDir, ans);
    } else {
      var localTime := LatestFileTime(l);
      var cloudTime := LatestFileTime(r);
      assert spec == DivergedSpec(d, env, pid, ans.choice, ans.upload, cloudTime > localTime);
      o := Diverged(d, env, pid, ans, cloudTime > localTime);
    }
  }

  /** Lines 84-99: count the entries of both folders and launch, pulling first when the slot has more. */
  method Identical(d: Disk, env: Env, pid: string, local: string, slotDir: string, ans: Answers) returns (o: Outcome)
    requires SlotPath(d, env, pid).Some?
    requires slotDir in d.dirs
    modifies d`descriptors, d`dirs
    ensures o == old(IdenticalSpec(d, env, pid, local, slotDir, ans.upload))
    ensures d.descriptors == ApplyCheckout(old(d.descriptors), DescriptorPath(CloudRoot(d).value, pid), o.events)
    ensures Pull !in o.events && Push !in o.events ==> d.dirs == old(d.dirs)
  {
    if local !in d.dirs {
      return Outcome(Threw(FileNotFoundError), []);
    }
    var localCount, cloudCount := |TopNames(d.dirs[local])|, |TopNames(d.dirs[slotDir])|;
    if cloudCount > localCount {
      o := LaunchAfter(d, env, pid, ans, [Pull], true);
    } else {
      o := LaunchAfter(d, env, pid, ans, [], false);
    }
  }

  /** Launch the game after the events `first`, pulling the cloud slot first when `pull` is set. */
  method LaunchAfter(d: Disk, env: Env, pid: string, ans: Answers, first: seq<Event>, pull: bool) returns (o: Outcome)
    requires SlotPath(d, env, pid).Some?
    requires forall i :: 0 <= i < |first| ==> !first[i].Claim? && !first[i].Release?
    requires pull ==> Pull in first
    modifies d`descriptors, d`dirs
    ensures o == old(Then(first, LaunchSpec(d, env, pid, ans.upload)))
    ensures d.descriptors == ApplyCheckout(old(d.descriptors), DescriptorPath(CloudRoot(d).value, pid), o.events)
    ensures Pull !in o.events && Push !in o.events ==> d.dirs == old(d.dirs)
  {
    if pull {
      Download(d, env, pid, ans.pull);
    }
    var g := LaunchGame(d, env, pid, ans.upload, ans.push);
    o := Then(first, g);
    QuietThen(old(d.descriptors), DescriptorPath(CloudRoot(d).value, pid), first, g.events);
  }

  /** The handlers of the sync dialog's buttons and of closing it. */
  method Diverged(d: Disk, env: Env, pid: string, ans: Answers, cloudNewer: bool) returns (o: Outcome)
    requires SlotPath(d, env, pid).Some?
    modifies d`descriptors, d`dirs
    ensures o == old(DivergedSpec(d, env, pid, ans.choice, ans.upload, cloudNewer))
    ensures d.descriptors == ApplyCheckout(old(d.descriptors), DescriptorPath(CloudRoot(d).value, pid), o.events)
    ensures Pull !in o.events && Push !in o.events ==> d.dirs == old(d.dirs)
  {
    match ans.choice
    case Download =>
      o := LaunchAfter(d, env, pid, ans, [Offer(cloudNewer), Pull], true);
    case Upload =>
      o := LaunchAfter(d, env, pid, ans, [Offer(cloudNewer)], false);
    case NoSync =>
      o := NoSyncChosen(d, env, pid, cloudNewer);
    case Closed =>
      o := DialogClosed(d, pid, cloudNewer);
  }

  /** The "No Sync" button: start the game and exit, clearing the checkout only when the start is refused. */
  method NoSyncChosen(d: Disk, env: Env, pid: string, cloudNewer: bool) returns (o: Outcome)
    requires CloudRoot(d).Some?
    modifies d`descriptors
    ensures o == DivergedSpec(d, env, pid, NoSync, false, cloudNewer)
    ensures d.descriptors == ApplyCheckout(old(d.descriptors), DescriptorPath(CloudRoot(d).value, pid), o.events)
  {
    var path := DescriptorPath(CloudRoot(d).value, pid);
    var w := LaunchWithoutSync(d, env, pid);
    if w.status == Returned {
      o := ReleaseAfterOffer(d, pid, Returned, cloudNewer);
    } else {
      o := Then([Offer(cloudNewer)], w);
      QuietEvents(old(d.descriptors), path, o.events);
    }
  }

  /** Closing the sync dialog: clear the checkout and exit. */
  method DialogClosed(d: Disk, pid: string, cloudNewer: bool) returns (o: Outcome)
    requires CloudRoot(d).Some?
    modifies d`descriptors
    ensures o == Outcome(Exited, [Offer(cloudNewer), Release])
    ensures d.descriptors == ApplyCheckout(old(d.descriptors), DescriptorPath(CloudRoot(d).value, pid), o.events)
  {
    o := ReleaseAfterOffer(d, pid, Exited, cloudNewer);
  }

  /** Clear the checkout after the sync dialog was offered, ending with `status`. */
  method ReleaseAfterOffer(d: Disk, pid: string, status: Status, cloudNewer: bool) returns (o: Outcome)
    requires CloudRoot(d).Some?
    modifies d`descriptors
    ensures o == Outcome(status, [Offer(cloudNewer), Release])
    ensures d.descriptors == ApplyCheckout(old(d.descriptors), DescriptorPath(CloudRoot(d).value, pid), o.events)
  {
    var path := DescriptorPath(CloudRoot(d).value, pid);
    WriteCheckout(d, pid, None);
    o := Outcome(status, [Offer(cloudNewer), Release]);
    QuietThen(old(d.descriptors), path, [Offer(cloudNewer)], [Release]);
    Single(old(d.descriptors), path, Release);
    assert o.events == [Offer(cloudNewer)] + [Release];
  }

  /** `check_and_sync_saves(pid)` for a profile id as `generate_id` makes them. */
  method CheckAndSyncSaves(d: Disk, env: Env, pid: string, ans: Answers) returns (o: Outcome)
    requires pid != ""
    modifies d`descriptors, d`dirs
    ensures o == old(SyncSpec(d, env, pid, ans))
    ensures d.descriptors == ApplyCheckout(old(d.descriptors), DescriptorPath(CloudRoot(d).GetOr(""), pid), o.events)
    ensures Pull !in o.events && Push !in o.events ==> d.dirs == old(d.dirs)
  {
    var cloud := CloudRoot(d);
    var fields := ProfileSection(d.profiles, env, pid, "profile");
    if fields.None? {
      return Outcome(Threw(AttributeError), []);
    }
    var local := Ini.Lookup(fields.value, "local_save_folder");
    var slot := Ini.Lookup(fields.value, "save_slot");
    var mode := Ini.Lookup(fields.value, "sync_mode");
    if cloud.None? || slot.None? {
      return Outcome(Threw(TypeError), []);
    }
    var slotDir := SyncSlotDir(cloud.value, pid, slot.value);
    if mode != Some("Sync") {
      o := LaunchWithoutSync(d, env, pid);
      return;
    }
    FieldOfSection(d, env, pid, "save_slot");
    o := ClaimThenPlay(d, env, pid, local, slotDir, ans);
  }

  method ClaimThenPlay(d: Disk, env: Env, pid: string, local: Option<string>, slotDir: string, ans: Answers) returns (o: Outcome)
    requires CloudRoot(d).Some? && SlotPath(d, env, pid).Some?
    modifies d`descriptors, d`dirs
    ensures o == old(ClaimThenPlaySpec(d, env, pid, local, slotDir, ans))
    ensures d.descriptors == ApplyCheckout(old(d.descriptors), DescriptorPath(CloudRoot(d).value, pid), o.events)
    ensures Pull !in o.events && Push !in o.events ==> d.dirs == old(d.dirs)
  {
    var proceed, claimed := ClaimCheckout(d, env, pid, ans.contest);
    if !proceed {
      return Outcome(Exited, []);
    }
    var rest := Play(d, env, pid, local, slotDir, ans);
    o := Then(claimed, rest);
    ApplyCheckoutConcat(old(d.descriptors), DescriptorPath(CloudRoot(d).value, pid), claimed, rest.events);
  }
}

module SyncProperties {

  import opened Wrappers
  import Ini
  import opened Trees
  import opened FileSystem
  import opened State
  import opened Io
  import opened Sync

  /** A run that started the game and returned has cleared the checkout last. */
  predicate ReleasedAfterLaunch(o: Outcome)
  {
    o.status == Returned && (exists i :: 0 <= i < |o.events| && o.events[i].Launch?) ==> o.events != [] && o.events[|o.events| - 1] == Release
  }

  lemma ThenReleased(first: seq<Event>, o: Outcome)
    requires forall i :: 0 <= i < |first| ==> !first[i].Launch?
    requires ReleasedAfterLaunch(o)
    ensures ReleasedAfterLaunch(Then(first, o))
  {
    var t := Then(first, o);
    if t.status == Returned && exists i :: 0 <= i < |t.events| && t.events[i].Launch? {
      var i :| 0 <= i < |t.events| && t.events[i].Launch?;
      assert o.events[i - |first|].Launch?;
    }
  }

  lemma LaunchReleased(d: Disk, env: Env, pid: string, upload: bool)
    ensures ReleasedAfterLaunch(LaunchSpec(d, env, pid, upload))
  {
  }

  lemma DivergedReleased(d: Disk, env: Env, pid: string, choice: Choice, upload: bool, cloudNewer: bool)
    ensures ReleasedAfterLaunch(DivergedSpec(d, env, pid, choice, upload, cloudNewer))
  {
    LaunchReleased(d, env, pid, upload);
    match choice
    case Download => ThenReleased([Offer(cloudNewer), Pull], LaunchSpec(d, env, pid, upload));
    case Upload => ThenReleased([Offer(cloudNewer)], LaunchSpec(d, env, pid, upload));
    case NoSync => ThenReleased([Offer(cloudNewer)], WithoutSyncSpec(d, env, pid));
    case Closed =>
  }

  lemma IdenticalReleased(d: Disk, env: Env, pid: string, local: string, slotDir: string, upload: bool)
    requires slotDir in d.dirs
    ensures ReleasedAfterLaunch(IdenticalSpec(d, env, pid, local, slotDir, upload))
  {
    LaunchReleased(d, env, pid, upload);
    ThenReleased([Pull], LaunchSpec(d, env, pid, upload));
  }

  lemma ReturnedPlayReleases(d: Disk, env: Env, pid: string, local: Option<string>, slotDir: string, ans: Answers)
    ensures ReleasedAfterLaunch(PlaySpec(d, env, pid, local, slotDir, ans))
  {
    LaunchReleased(d, env, pid, ans.upload);
    if slotDir in d.dirs && d.dirs[slotDir] != map[] && local.Some? {
      var l, r := Contents(d.dirs, local.value), d.dirs[slotDir];
      IdenticalReleased(d, env, pid, local.value, slotDir, ans.upload);
      DivergedReleased(d, env, pid, ans.choice, ans.upload, Latest(r) > Latest(l));
    }
  }

  /** The configuration under which `check_and_sync_saves` syncs at all: a readable profile in "Sync" mode with a slot and a cloud root. */
  predicate SyncMode(d: Disk, env: Env, pid: string)
    reads d`profiles, d`global
  {
    var fields := ProfileSection(d.profiles, env, pid, "profile");
    CloudRoot(d).Some? && fields.Some? && Ini.Lookup(fields.value, "save_slot").Some?
    && Ini.Lookup(fields.value, "sync_mode") == Some("Sync")
  }

  /** The slot folder a sync-mode run compares against. */
  function RunSlotDir(d: Disk, env: Env, pid: string): string
    requires SyncMode(d, env, pid)
    reads d`profiles, d`global
  {
    SyncSlotDir(CloudRoot(d).value, pid, Ini.Lookup(ProfileSection(d.profiles, env, pid, "profile").value, "save_slot").value)
  }

  /** Outside "Sync" mode a run at most starts the game: no checkout, no copy, no dialog. */
  lemma WithoutSyncOnlyLaunches(d: Disk, env: Env, pid: string, ans: Answers)
    requires !SyncMode(d, env, pid)
    ensures var o := SyncSpec(d, env, pid, ans);
            o.events == [] || (o.status == Exited && |o.events| == 1 && o.events[0].Launch?)
  {
  }

  /** A checkout held by another host that the user does not take over ends the run before anything is written or copied. */
  lemma DeclinedContestEndsRun(d: Disk, env: Env, pid: string, ans: Answers)
    requires SyncMode(d, env, pid)
    requires var previous := DescriptorValue(d, pid, "profile", "checkout").value;
             Truthy(previous) && previous.value != env.hostname
    requires ans.contest == No
    ensures SyncSpec(d, env, pid, ans) == Outcome(Exited, [])
  {
  }

  /**
   * A sync-mode run that goes on first claims the checkout for this host,
   * unless this host already holds it, in which case it claims nothing.
   */
  lemma {:induction false} ClaimFirst(d: Disk, env: Env, pid: string, ans: Answers)
    requires SyncMode(d, env, pid)
    ensures var o := SyncSpec(d, env, pid, ans);
            var previous := DescriptorValue(d, pid, "profile", "checkout").value;
            (!Truthy(previous) || (previous.value != env.hostname && ans.contest == Yes)) ==> o.events != [] && o.events[0] == Claim(env.hostname)
    ensures var o := SyncSpec(d, env, pid, ans);
            var previous := DescriptorValue(d, pid, "profile", "checkout").value;
            Truthy(previous) && previous.value == env.hostname ==> forall h :: Claim(h) !in o.events
  {
    var o := SyncSpec(d, env, pid, ans);
    var fields := ProfileSection(d.profiles, env, pid, "profile").value;
    var p := PlaySpec(d, env, pid, Ini.Lookup(fields, "local_save_folder"), RunSlotDir(d, env, pid), ans);
    var previous := DescriptorValue(d, pid, "profile", "checkout").value;
    NoClaimInPlay(d, env, pid, Ini.Lookup(fields, "local_save_folder"), RunSlotDir(d, env, pid), ans);
    if !Truthy(previous) || (previous.value != env.hostname && ans.contest == Yes) {
      assert o.events == [Claim(env.hostname)] + p.events;
    } else if Truthy(previous) && previous.value == env.hostname {
      assert o.events == p.events;
    }
  }

  lemma NoClaimInPlay(d: Disk, env: Env, pid: string, local: Option<string>, slotDir: string, ans: Answers)
    ensures forall h :: Claim(h) !in PlaySpec(d, env, pid, local, slotDir, ans).events
  {
    var l := LaunchSpec(d, env, pid, ans.upload);
    if slotDir in d.dirs && d.dirs[slotDir] != map[] && local.Some? {
      var lt, r := Contents(d.dirs, local.value), d.dirs[slotDir];
      NoClaimDiverged(d, env, pid, ans.choice, ans.upload, Latest(r) > Latest(lt));
      forall h ensures Claim(h) !in [Pull] + l.events {
        assert Claim(h) !in l.events;
      }
    }
  }

  lemma NoClaimDiverged(d: Disk, env: Env, pid: string, choice: Choice, upload: bool, cloudNewer: bool)
    ensures forall h :: Claim(h) !in DivergedSpec(d, env, pid, choice, upload, cloudNewer).events
  {
    var l := LaunchSpec(d, env, pid, upload);
    forall h ensures Claim(h) !in [Offer(cloudNewer), Pull] + l.events && Claim(h) !in [Offer(cloudNewer)] + l.events {
      assert Claim(h) !in l.events;
    }
  }

  lemma PullIdentical(d: Disk, env: Env, pid: string, local: string, slotDir: string, upload: bool)
    requires slotDir in d.dirs
    ensures Pull in IdenticalSpec(d, env, pid, local, slotDir, upload).events <==>
              local in d.dirs && |TopNames(d.dirs[slotDir])| > |TopNames(d.dirs[local])|
  {
    assert Pull in [Pull] + LaunchSpec(d, env, pid, upload).events;
  }

  lemma PullDiverged(d: Disk, env: Env, pid: string, choice: Choice, upload: bool, cloudNewer: bool)
    ensures Pull in DivergedSpec(d, env, pid, choice, upload, cloudNewer).events <==> choice == Download
  {
    var l := LaunchSpec(d, env, pid, upload);
    assert Pull in [Offer(cloudNewer), Pull] + l.events;
    assert Pull !in [Offer(cloudNewer)] + l.events;
  }

  /** The cloud slot is pulled exactly when the files agree but the slot lists more entries, or the user chose "Download". */
  lemma PullExactlyWhen(d: Disk, env: Env, pid: string, local: Option<string>, slotDir: string, ans: Answers)
    ensures Pull in PlaySpec(d, env, pid, local, slotDir, ans).events <==>
              slotDir in d.dirs && d.dirs[slotDir] != map[] && local.Some? &&
              var l, r := Contents(d.dirs, local.value), d.dirs[slotDir];
              if Covers(l, r) then local.value in d.dirs && |TopNames(r)| > |TopNames(l)| else ans.choice == Download
  {
    if slotDir in d.dirs && d.dirs[slotDir] != map[] && local.Some? {
      var l, r := Contents(d.dirs, local.value), d.dirs[slotDir];
      PullIdentical(d, env, pid, local.value, slotDir, ans.upload);
      PullDiverged(d, env, pid, ans.choice, ans.upload, Latest(r) > Latest(l));
    }
  }

  lemma NoOfferIdentical(d: Disk, env: Env, pid: string, local: string, slotDir: string, upload: bool)
    requires slotDir in d.dirs
    ensures forall b :: Offer(b) !in IdenticalSpec(d, env, pid, local, slotDir, upload).events
  {
    var l := LaunchSpec(d, env, pid, upload);
    forall b ensures Offer(b) !in [Pull] + l.events {
      assert Offer(b) !in l.events;
    }
  }

  /** The sync dialog is shown exactly when the cloud slot holds files the local folder does not match, labelled by the newest file times. */
  lemma OfferExactlyWhen(d: Disk, env: Env, pid: string, local: Option<string>, slotDir: string, ans: Answers)
    ensures var o := PlaySpec(d, env, pid, local, slotDir, ans);
            if slotDir in d.dirs && d.dirs[slotDir] != map[] && local.Some? && !Covers(Contents(d.dirs, local.value), d.dirs[slotDir])
            then o.events != [] && o.events[0] == Offer(Latest(d.dirs[slotDir]) > Latest(Contents(d.dirs, local.value)))
            else forall b :: Offer(b) !in o.events
  {
    if slotDir in d.dirs && d.dirs[slotDir] != map[] && local.Some? {
      var l, r := Contents(d.dirs, local.value), d.dirs[slotDir];
      NoOfferIdentical(d, env, pid, local.value, slotDir, ans.upload);
      OfferDiverged(d, env, pid, ans.choice, ans.upload, Latest(r) > Latest(l));
    }
  }

  lemma OfferDiverged(d: Disk, env: Env, pid: string, choice: Choice, upload: bool, cloudNewer: bool)
    ensures var o := DivergedSpec(d, env, pid, choice, upload, cloudNewer);
            o.events != [] && o.events[0] == Offer(cloudNewer)
  {
  }

  lemma PushIdentical(d: Disk, env: Env, pid: string, local: string, slotDir: string, upload: bool)
    requires slotDir in d.dirs
    ensures Push in IdenticalSpec(d, env, pid, local, slotDir, upload).events ==> upload
  {
    assert Push in [Pull] + LaunchSpec(d, env, pid, upload).events ==> Push in LaunchSpec(d, env, pid, upload).events;
  }

  lemma PushDiverged(d: Disk, env: Env, pid: string, choice: Choice, upload: bool, cloudNewer: bool)
    ensures Push in DivergedSpec(d, env, pid, choice, upload, cloudNewer).events ==> upload
  {
    var l := LaunchSpec(d, env, pid, upload);
    assert Push in [Offer(cloudNewer), Pull] + l.events ==> Push in l.events;
    assert Push in [Offer(cloudNewer)] + l.events ==> Push in l.events;
  }

  lemma PushPlay(d: Disk, env: Env, pid: string, local: Option<string>, slotDir: string, ans: Answers)
    ensures Push in PlaySpec(d, env, pid, local, slotDir, ans).events ==> ans.upload
  {
    if slotDir in d.dirs && d.dirs[slotDir] != map[] && local.Some? {
      var l, r := Contents(d.dirs, local.value), d.dirs[slotDir];
      PushIdentical(d, env, pid, local.value, slotDir, ans.upload);
      PushDiverged(d, env, pid, ans.choice, ans.upload, Latest(r) > Latest(l));
    }
  }

  /** The slot is written only after the user asked for an upload. */
  lemma PushOnlyOnRequest(d: Disk, env: Env, pid: string, ans: Answers)
    ensures Push in SyncSpec(d, env, pid, ans).events ==> ans.upload
  {
    if SyncMode(d, env, pid) {
      var fields := ProfileSection(d.profiles, env, pid, "profile").value;
      var local, slotDir := Ini.Lookup(fields, "local_save_folder"), RunSlotDir(d, env, pid);
      PushPlay(d, env, pid, local, slotDir, ans);
      match ClaimSpec(d, env, pid, ans.contest)
      case None =>
      case Some(claimed) =>
        var p := PlaySpec(d, env, pid, local, slotDir, ans);
        assert Push in claimed + p.events ==> Push in p.events;
    }
  }

  /** Every sync-mode run that started the game and returned leaves the checkout cleared in its descriptor. */
  lemma {:induction false} ReturnedRunClearsCheckout(d: Disk, env: Env, pid: string, ans: Answers)
    requires SyncMode(d, env, pid)
    ensures var o := SyncSpec(d, env, pid, ans);
            var path := DescriptorPath(CloudRoot(d).value, pid);
            o.status == Returned && (exists i :: 0 <= i < |o.events| && o.events[i].Launch?) ==>
              Ini.Get(DescriptorAt(ApplyCheckout(d.descriptors, path, o.events), path), "profile", "checkout") == Some("")
  {
    var o := SyncSpec(d, env, pid, ans);
    var fields := ProfileSection(d.profiles, env, pid, "profile").value;
    var local, slotDir := Ini.Lookup(fields, "local_save_folder"), RunSlotDir(d, env, pid);
    ReturnedPlayReleases(d, env, pid, local, slotDir, ans);
    assert o == ClaimThenPlaySpec(d, env, pid, local, slotDir, ans);
    match ClaimSpec(d, env, pid, ans.contest)
    case None =>
    case Some(claimed) =>
      assert o == Then(claimed, PlaySpec(d, env, pid, local, slotDir, ans));
      ThenReleased(claimed, PlaySpec(d, env, pid, local, slotDir, ans));
      CheckoutOnlyChanges(d.descriptors, DescriptorPath(CloudRoot(d).value, pid), o.events);
  }
}
