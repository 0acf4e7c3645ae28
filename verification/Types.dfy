/** The values that travel between the daemon, the server and the disk.

    Two modelling choices carry through the whole project.  A content hash is
    collision-free, so `Blake3` is a constructor: equal hashes mean equal bytes.
    For the same reason a blob is named by the archive it holds.  Identifiers are
    fresh, so they are drawn from a counter. */
module Types {

  datatype Option<+T> = None | Some(value: T)

  type GameId = nat
  type VersionId = nat
  type DeviceId = nat
  type Path = string
  type Content = string

  datatype Hash = Blake3(preimage: Content)

  datatype Kind = Full | Differential

  /** What a snapshot records about one file; the path is the key of the `FileSet`. */
  datatype FileEntry = FileEntry(size: nat, mtime: int, hash: Hash)

  /** A file as it lies on a disk. */
  datatype DiskFile = DiskFile(content: Content, mtime: int)

  type FileSet = map<Path, FileEntry>
  type Contents = map<Path, Content>
  type Hashes = map<Path, Hash>
  type Disk = map<Path, DiskFile>

  lemma {:induction false} MapExists<K(!new), V(!new)>(keys: set<K>, f: K --> V)
    requires forall k :: k in keys ==> f.requires(k)
    ensures exists m: map<K, V> :: m.Keys == keys && forall k :: k in keys ==> m[k] == f(k)
  {
    if keys == {} {
      var m: map<K, V> := map[];
      assert m.Keys == keys;
    } else {
      var k :| k in keys;
      MapExists(keys - {k}, f);
      var m: map<K, V> :| m.Keys == keys - {k} && forall j :: j in keys - {k} ==> m[j] == f(j);
      assert m[k := f(k)].Keys == keys;
    }
  }

  /** The map with these keys and the values `f` gives them.  Stated by its keys and
      values alone, so that two such maps are equal only for what they hold: the
      verifier also equates the bodies of equal map comprehensions at keys they lack. */
  ghost function MapOf<K(!new), V(!new)>(keys: set<K>, f: K --> V): (m: map<K, V>)
    requires forall k :: k in keys ==> f.requires(k)
    ensures m.Keys == keys && forall k :: k in keys ==> m[k] == f(k)
  {
    MapExists(keys, f);
    var m: map<K, V> :| m.Keys == keys && forall k :: k in keys ==> m[k] == f(k);
    m
  }

  /** The path-to-hash set of a file set: everything a version promises to bring back. */
  ghost function HashesOf(files: FileSet): Hashes {
    MapOf(files.Keys, p requires p in files => files[p].hash)
  }

  ghost function HashContents(contents: Contents): Hashes {
    MapOf(contents.Keys, p requires p in contents => Blake3(contents[p]))
  }

  /** A packed `.savr` archive: metadata, the payload files and the deletions. */
  datatype Archive = Archive(
    game: GameId, device: DeviceId, parent: Option<VersionId>, kind: Kind,
    files: FileSet, payload: Contents, deletions: set<Path>, createdAt: nat)

  /** A row of the server's `versions` table. */
  datatype Version = Version(
    game: GameId, device: DeviceId, parent: Option<VersionId>, kind: Kind,
    files: FileSet, blob: Archive, seqNo: nat)

  /** The body of a version upload. */
  datatype CreateVersion = CreateVersion(
    parent: Option<VersionId>, kind: Kind, files: FileSet, blob: Archive, device: DeviceId)

  datatype Retention = Retention(full: nat, diffPerFull: nat)
}
