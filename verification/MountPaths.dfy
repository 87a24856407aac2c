/** Where the paths the core runtime uses in a container lead on the host (cmd/ascend-dra-kubeletplugin/state.go). */
module MountPaths {
  import opened CoreEnv

  const RO: seq<string> := ["ro", "bind"]
  const RW: seq<string> := ["rw", "nosuid", "nodev", "bind"]
  const RUNTIME := "/usr/local/hami-vnpu-core/releases/98ec21f47d6c42c9ef092e7e7e55f10e7f838072"

  predicate Above(dir: string, path: string) {
    path == dir || dir + "/" <= path
  }

  /** In the container this path is that one of the host, whichever mount above it one follows, and there is one. */
  ghost predicate Reaches(mounts: seq<Mount>, inside: string, outside: string, options: seq<string>) {
    Mounted(mounts, inside)
    && forall k :: 0 <= k < |mounts| && Above(mounts[k].containerPath, inside) ==>
         mounts[k].hostPath + inside[|mounts[k].containerPath|..] == outside && mounts[k].options == options
  }

  predicate Mounted(mounts: seq<Mount>, inside: string) {
    exists k :: 0 <= k < |mounts| && Above(mounts[k].containerPath, inside)
  }

  /** A file below a mount point, or the mount point itself. */
  predicate Below(file: string) {
    file == "" || "/" <= file
  }

  lemma NotAbove(dir: string, path: string, k: nat)
    requires k < |dir| && k < |path| && dir[k] != path[k]
    ensures !Above(dir, path)
  {
  }

  /** The mount points lie under three directories of the root. */
  lemma Elsewhere(path: string)
    requires |path| > 1
    ensures path[1] != 'e' ==> !Above("/etc/ascend_install.info", path) && !Above("/etc/ld.so.preload", path)
    ensures path[1] != 'u' ==> !Above("/usr/local/Ascend/driver/lib64/driver", path)
                               && !Above("/usr/local/Ascend/driver/version.info", path)
    ensures path[1] != 'h' ==> !Above("/hami-vnpu-core", path) && !Above("/hami-shared-region", path)
                               && !Above("/hami-vnpu-shmem", path)
  {
    if path[1] != 'e' {
      NotAbove("/etc/ascend_install.info", path, 1);
      NotAbove("/etc/ld.so.preload", path, 1);
    }
    if path[1] != 'u' {
      NotAbove("/usr/local/Ascend/driver/lib64/driver", path, 1);
      NotAbove("/usr/local/Ascend/driver/version.info", path, 1);
    }
    if path[1] != 'h' {
      NotAbove("/hami-vnpu-core", path, 1);
      NotAbove("/hami-shared-region", path, 1);
      NotAbove("/hami-vnpu-shmem", path, 1);
    }
  }

  lemma OnlyAbove(mounts: seq<Mount>, at: nat, file: string)
    requires at < |mounts| && Below(file)
    requires forall k :: 0 <= k < |mounts| && k != at ==>
               !Above(mounts[k].containerPath, mounts[at].containerPath + file)
    ensures Reaches(mounts, mounts[at].containerPath + file, mounts[at].hostPath + file, mounts[at].options)
  {
    var dir := mounts[at].containerPath;
    assert (dir + file)[|dir|..] == file;
    assert file != "" ==> dir + "/" <= dir + file;
    assert Above(mounts[at].containerPath, dir + file);
  }

  /** Every path that the core runtime uses leads to one place on the host. */
  ghost predicate CorePaths(mounts: seq<Mount>, dir: string, file: string) {
    var library, version := "/usr/local/Ascend/driver/lib64/driver", "/usr/local/Ascend/driver/version.info";
    && Reaches(mounts, "/etc/ascend_install.info" + file, "/etc/ascend_install.info" + file, RO)
    && Reaches(mounts, library + file, library + file, RO)
    && Reaches(mounts, version + file, version + file, RO)
    && Reaches(mounts, "/hami-vnpu-core" + file, RUNTIME + file, RO)
    && Reaches(mounts, "/etc/ld.so.preload" + file, RUNTIME + "/ld.so.preload" + file, RO)
    && Reaches(mounts, "/hami-shared-region" + file, "/usr/local/hami-shared-region" + file, RW)
    && Reaches(mounts, "/hami-vnpu-shmem" + file, dir + file, RW)
  }

  lemma InstallInfo(dir: string, file: string)
    requires Below(file)
    ensures Reaches(CoreMounts(dir), "/etc/ascend_install.info" + file, "/etc/ascend_install.info" + file, RO)
  {
    var path := "/etc/ascend_install.info" + file;
    Elsewhere(path);
    NotAbove("/etc/ld.so.preload", path, 5);
    OnlyAbove(CoreMounts(dir), 0, file);
  }

  lemma DriverLibrary(dir: string, file: string)
    requires Below(file)
    ensures var path := "/usr/local/Ascend/driver/lib64/driver" + file; Reaches(CoreMounts(dir), path, path, RO)
  {
    var path := "/usr/local/Ascend/driver/lib64/driver" + file;
    Elsewhere(path);
    NotAbove("/usr/local/Ascend/driver/version.info", path, 25);
    OnlyAbove(CoreMounts(dir), 1, file);
  }

  lemma DriverVersion(dir: string, file: string)
    requires Below(file)
    ensures var path := "/usr/local/Ascend/driver/version.info" + file; Reaches(CoreMounts(dir), path, path, RO)
  {
    var path := "/usr/local/Ascend/driver/version.info" + file;
    Elsewhere(path);
    NotAbove("/usr/local/Ascend/driver/lib64/driver", path, 25);
    OnlyAbove(CoreMounts(dir), 2, file);
  }

  lemma RuntimeDirectory(dir: string, file: string)
    requires Below(file)
    ensures Reaches(CoreMounts(dir), "/hami-vnpu-core" + file, RUNTIME + file, RO)
  {
    var path := "/hami-vnpu-core" + file;
    Elsewhere(path);
    NotAbove("/hami-shared-region", path, 6);
    NotAbove("/hami-vnpu-shmem", path, 11);
    OnlyAbove(CoreMounts(dir), 3, file);
  }

  lemma Preload(dir: string, file: string)
    requires Below(file)
    ensures Reaches(CoreMounts(dir), "/etc/ld.so.preload" + file, RUNTIME + "/ld.so.preload" + file, RO)
  {
    var path := "/etc/ld.so.preload" + file;
    Elsewhere(path);
    NotAbove("/etc/ascend_install.info", path, 5);
    OnlyAbove(CoreMounts(dir), 4, file);
  }

  lemma SharedRegion(dir: string, file: string)
    requires Below(file)
    ensures Reaches(CoreMounts(dir), "/hami-shared-region" + file, "/usr/local/hami-shared-region" + file, RW)
  {
    var path := "/hami-shared-region" + file;
    Elsewhere(path);
    NotAbove("/hami-vnpu-core", path, 6);
    NotAbove("/hami-vnpu-shmem", path, 6);
    OnlyAbove(CoreMounts(dir), 5, file);
  }

  lemma LocalMemory(dir: string, file: string)
    requires Below(file)
    ensures Reaches(CoreMounts(dir), "/hami-vnpu-shmem" + file, dir + file, RW)
  {
    var path := "/hami-vnpu-shmem" + file;
    Elsewhere(path);
    NotAbove("/hami-vnpu-core", path, 11);
    NotAbove("/hami-shared-region", path, 6);
    OnlyAbove(CoreMounts(dir), 6, file);
  }

  lemma CoreMountsLead(dir: string, file: string)
    requires Below(file)
    ensures CorePaths(CoreMounts(dir), dir, file)
  {
    InstallInfo(dir, file);
    DriverLibrary(dir, file);
    DriverVersion(dir, file);
    RuntimeDirectory(dir, file);
    Preload(dir, file);
    SharedRegion(dir, file);
    LocalMemory(dir, file);
  }
}
