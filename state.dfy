/**
 * The on-disk state the program reads and rewrites, and what it learns from
 * the machine it runs on.
 */
module State {

  import Ini
  import opened FileSystem

  datatype Action = Read | Write | Execute

  /** What a permission is asked about: a profile file `<id>.ini`, a game executable, or a folder or descriptor path. */
  datatype Target = ProfileFile(id: string) | Program(file: string) | At(path: string)

  /**
   * The host name (`socket.gethostname()`), paths that exist outside the
   * modelled files (game executables, the cloud root), and the
   * `os.access` checks that fail.
   */
  datatype Env = Env(hostname: string, existing: set<string>, denied: set<(Target, Action)>)

  /**
   * The files the program keeps: one INI file per profile in the profiles
   * folder, the global configuration (read with `ConfigParser`), one
   * `profile_info.savetitan` descriptor per cloud profile folder, keyed by
   * its path, and the save directories.
   */
  class Disk {
    var profiles: map<string, Ini.Config>
    var global: Ini.Config
    var descriptors: map<string, Ini.Config>
    var dirs: Fs

    constructor (profiles: map<string, Ini.Config>, global: Ini.Config, descriptors: map<string, Ini.Config>, dirs: Fs)
      ensures this.profiles == profiles && this.global == global
      ensures this.descriptors == descriptors && this.dirs == dirs
    {
      this.profiles := profiles;
      this.global := global;
      this.descriptors := descriptors;
      this.dirs := dirs;
    }
  }
}
