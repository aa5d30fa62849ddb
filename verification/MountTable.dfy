/** Mount-table observations and the rules their consumers check. */
module MountTables {
  import opened Basics
  import opened BlockInventory

  const MAX_MOUNT_ENTRIES: nat := 128
  const MAX_FILESYSTEM_BYTES: nat := 64
  const MOUNT_SCOPE: string := "current-process-mount-namespace"

  datatype Mount = Mount(
    mountPoint: string,
    filesystem: string,
    device: DeviceNumber,
    readOnly: bool,
    mountInfoId: Uint32,
    filesystemRoot: string)

  // `observedAt` is zero for an unset time.
  datatype MountSnapshot = MountSnapshot(
    schemaVersion: int,
    observedAt: int,
    scope: string,
    readOnly: bool,
    filesystemContentsRead: bool,
    mountOperationsPerformed: bool,
    mountCount: int,
    mounts: seq<Mount>,
    limitations: seq<string>,
    collectionComplete: bool)

  predicate FilesystemChar(c: char) {
    'a' <= c <= 'z' || 'A' <= c <= 'Z' || '0' <= c <= '9' || c == '.' || c == '_' || c == '+' || c == '-'
  }

  predicate ValidFilesystem(name: string) {
    0 < |name| <= MAX_FILESYSTEM_BYTES && forall i :: 0 <= i < |name| ==> FilesystemChar(name[i])
  }

  predicate ValidMounts(s: MountSnapshot) {
    && s.schemaVersion == 1 && s.scope == MOUNT_SCOPE && s.readOnly
    && !s.filesystemContentsRead && !s.mountOperationsPerformed && s.collectionComplete
    && s.observedAt != 0 && |s.mounts| <= MAX_MOUNT_ENTRIES && s.mountCount == |s.mounts|
    && forall i :: 0 <= i < |s.mounts| ==>
         s.mounts[i].mountPoint != "" && s.mounts[i].mountPoint[0] == '/' && ValidFilesystem(s.mounts[i].filesystem)
  }

  function Lower(text: string): string {
    seq(|text|, i requires 0 <= i < |text| =>
      if 'A' <= text[i] <= 'Z' then ((text[i] as int) - ('A' as int) + ('a' as int)) as char else text[i])
  }

  predicate MultiDevice(m: Mount) {
    Lower(m.filesystem) == "btrfs" || Lower(m.filesystem) == "bcachefs" || Lower(m.filesystem) == "zfs"
  }

  /** The word in any mix of small and capital letters. */
  predicate Spells(text: string, word: string) {
    |text| == |word| &&
    forall i ::
      0 <= i < |word| ==> text[i] == word[i] || ('A' <= text[i] <= 'Z' && text[i] as int + 32 == word[i] as int)
  }

  lemma LowerSpells(text: string, word: string)
    requires forall i :: 0 <= i < |word| ==> 'a' <= word[i] <= 'z'
    ensures Lower(text) == word <==> Spells(text, word)
  {
    if Spells(text, word) {
      assert |Lower(text)| == |word|;
    } else if Lower(text) == word {
      forall i | 0 <= i < |word|
        ensures text[i] == word[i] || ('A' <= text[i] <= 'Z' && text[i] as int + 32 == word[i] as int)
      {
        assert Lower(text)[i] == word[i];
      }
    }
  }

  /** The filesystems that may span devices, however they are spelt. */
  lemma MultiDeviceMeans(m: Mount)
    ensures MultiDevice(m) <==>
              Spells(m.filesystem, "btrfs") || Spells(m.filesystem, "bcachefs") || Spells(m.filesystem, "zfs")
  {
    LowerSpells(m.filesystem, "btrfs");
    LowerSpells(m.filesystem, "bcachefs");
    LowerSpells(m.filesystem, "zfs");
  }

  /** What a valid table tells its readers. */
  lemma ValidTableMeans(s: MountSnapshot)
    requires ValidMounts(s)
    ensures s.scope == "current-process-mount-namespace" && s.schemaVersion == 1 && s.observedAt != 0
    ensures s.collectionComplete && s.readOnly && !s.filesystemContentsRead && !s.mountOperationsPerformed
    ensures s.mountCount == |s.mounts| <= 128
    ensures forall m :: m in s.mounts ==> m.mountPoint != "" && m.mountPoint[0] == '/' && 0 < |m.filesystem| <= 64
  {
    forall m | m in s.mounts ensures m.mountPoint != "" && m.mountPoint[0] == '/' && 0 < |m.filesystem| <= 64 {
      var i :| 0 <= i < |s.mounts| && s.mounts[i] == m;
    }
  }
}
