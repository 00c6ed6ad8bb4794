// The secrets store as the program runs it: a file system and a keychain outside, and the fields the methods
// update in place. Every method is one step of SecretsSpec.
module SecretStore {
  import opened Common
  import opened SecretsSpec

  class FileSystem {
    var files: Files

    constructor (files: Files)
      ensures this.files == files
    {
      this.files := files;
    }

    method Write(path: Path, content: Content, outcome: WriteOutcome) returns (ok: bool)
      modifies this
      ensures files == WriteFile(old(files), path, content, outcome) && ok == (outcome == Written)
    {
      match outcome {
        case Written => files := files[path := content];
        case Untouched =>
        case Torn => files := files[path := Garbage];
      }
      ok := outcome == Written;
    }

    method Move(from: Path, to: Path, possible: bool) returns (ok: bool)
      requires from in files
      modifies this
      ensures files == Rename(old(files), from, to, possible) && ok == possible
    {
      if possible {
        files := files[to := files[from]] - {from};
      }
      ok := possible;
    }

    method Delete(path: Path, possible: bool)
      modifies this
      ensures files == Remove(old(files), path, possible)
    {
      if possible {
        files := files - {path};
      }
    }
  }

  datatype Answer = Found(value: string) | NotFound | Failed

  class Keychain {
    var items: map<string, string>

    constructor ()
      ensures items == map[]
    {
      items := map[];
    }

    method Get(k: string, r: KeychainRead) returns (a: Answer)
      ensures a == if r == ReadFails then Failed else if r == Reads && k in items then Found(items[k]) else NotFound
    {
      match r {
        case Reads => a := if k in items then Found(items[k]) else NotFound;
        case Misses => a := NotFound;
        case ReadFails => a := Failed;
      }
    }

    method Put(k: string, value: string, w: KeychainWrite) returns (ok: bool)
      modifies this
      ensures items == if w == FailsUntouched then old(items) else old(items)[k := value]
      ensures ok == (w == Done)
    {
      if w != FailsUntouched {
        items := items[k := value];
      }
      ok := w == Done;
    }

    /** Deleting an item that is not there is reported as such. */
    method Drop(k: string, w: KeychainWrite) returns (a: Answer)
      modifies this
      ensures items == if w == FailsUntouched then old(items) else old(items) - {k}
      ensures a == Failed <==> w != Done
    {
      a := if w != Done then Failed else if k in items then Found("") else NotFound;
      if w != FailsUntouched {
        items := items - {k};
      }
    }
  }

  datatype KeychainStatus = Active | Off | Unavailable

  class Store {
    const disk: FileSystem
    const keychain: Keychain
    const keyFromFile: bool
    var key: int
    var data: map<string, string>
    var active: bool
    var status: KeychainStatus

    constructor (disk: FileSystem, keychain: Keychain, key: int, keyFromFile: bool, keychainRequested: bool)
      ensures this.disk == disk && this.keychain == keychain && this.keyFromFile == keyFromFile
      ensures this.key == key && data == map[] && active == keychainRequested
      ensures status == if keychainRequested then Active else Off
    {
      this.disk, this.keychain, this.keyFromFile := disk, keychain, keyFromFile;
      this.key, data, active := key, map[], keychainRequested;
      status := if keychainRequested then Active else Off;
    }

    ghost function Abstract(): State
      reads this, disk, keychain
    {
      State(disk.files, key, keyFromFile, data, keychain.items, active)
    }

    /** Writes the sealed map beside the secrets file and moves it over. */
    method SaveLocked(s: SaveScript) returns (ok: bool)
      modifies disk
      ensures (disk.files, ok) == Save(old(disk.files), key, data, s)
    {
      if !s.sealed {
        return false;
      }
      ok := disk.Write(SecretsTemp, Sealed(key, data), s.write);
      if !ok {
        return false;
      }
      ok := disk.Move(SecretsTemp, SecretsFile, s.renamed);
    }

    /** Called once, when the store is opened and its map is still empty. */
    method LoadFiles(s: LoadScript) returns (ok: bool)
      requires data == map[]
      modifies this`data, disk
      ensures disk.files == Load(old(disk.files), key, s).0 && ok == Load(old(disk.files), key, s).1.Some?
      ensures data == LoadedMemory(old(disk.files), key, s)
    {
      if !s.readSecrets {
        return false;
      }
      if SecretsFile in disk.files {
        match disk.files[SecretsFile] {
          case Sealed(k, found) =>
            if k != key {
              return false;
            }
            data := found;
            return true;
          case _ => return false;
        }
      }
      if !s.readLegacy {
        return false;
      }
      if LegacyFile !in disk.files {
        return true;
      }
      if !disk.files[LegacyFile].Plain? {
        return false;
      }
      data := disk.files[LegacyFile].data;
      var saved := SaveLocked(s.save);
      if !saved {
        return false;
      }
      if !s.removeLegacy {
        return false;
      }
      disk.Delete(LegacyFile, true);
      return true;
    }

    method MarkKeychainUnavailable()
      modifies this`active, this`status
      ensures !active && status == Unavailable
    {
      active := false;
      status := Unavailable;
    }

    method Get(k: string, r: KeychainRead) returns (value: string)
      modifies this`active, this`status
      ensures (Abstract(), value) == SecretsSpec.Get(old(Abstract()), k, r)
      ensures status == if old(active) && !active then Unavailable else old(status)
    {
      value := if k in data then data[k] else "";
      if active {
        var a := keychain.Get(k, r);
        match a {
          case Found(found) => return found;
          case NotFound =>
          case Failed => MarkKeychainUnavailable();
        }
      }
    }

    method Set(k: string, value: string, save: SaveScript, w: KeychainWrite) returns (ok: bool)
      modifies this, disk, keychain
      ensures (Abstract(), ok) == SecretsSpec.Set(old(Abstract()), k, value, save, w)
      ensures status == if old(active) && !active then Unavailable else old(status)
    {
      if value == "" || value == "********" {
        return true;
      }
      data := data[k := value];
      ok := SaveLocked(save);
      if !ok {
        return false;
      }
      if active {
        var stored := keychain.Put(k, value, w);
        if !stored {
          MarkKeychainUnavailable();
        }
      }
      return true;
    }

    method Delete(k: string, save: SaveScript, w: KeychainWrite) returns (ok: bool)
      modifies this, disk, keychain
      ensures (Abstract(), ok) == SecretsSpec.Delete(old(Abstract()), k, save, w)
      ensures status == if old(active) && !active then Unavailable else old(status)
    {
      data := data - {k};
      ok := SaveLocked(save);
      if !ok {
        return false;
      }
      if active {
        var a := keychain.Drop(k, w);
        if a == Failed {
          MarkKeychainUnavailable();
        }
      }
      return true;
    }

    /** The deferred rollback of a rekey that was not committed. */
    method RollBack(oldKey: int, oldKeyRaw: Content, oldSecrets: Option<Content>, s: RekeyScript)
      modifies this`key, disk
      ensures disk.files == Rollback(old(disk.files), oldKeyRaw, oldSecrets, s) && key == oldKey
    {
      disk.Delete(KeyTemp, s.removeKey);
      disk.Delete(SecretsTemp, s.removeSecrets);
      var _ := disk.Write(KeyFile, oldKeyRaw, s.restoreKey);
      if oldSecrets.Some? {
        var _ := disk.Write(SecretsFile, oldSecrets.value, s.restoreSecrets);
      }
      key := oldKey;
    }

    method Rekey(newKey: int, s: RekeyScript) returns (done: bool)
      modifies this`key, disk
      ensures Rekeyed(disk.files, key, done)
           == SecretsSpec.Rekey(old(disk.files), old(key), data, keyFromFile, newKey, s)
      ensures (Abstract(), done) == RekeyState(old(Abstract()), newKey, s)
    {
      if !keyFromFile {
        return false;
      }
      var oldKey := key;
      if !s.readKey || KeyFile !in disk.files {
        return false;
      }
      var oldKeyRaw := disk.files[KeyFile];
      if !s.readSecrets {
        return false;
      }
      var oldSecrets := if SecretsFile in disk.files then Some(disk.files[SecretsFile]) else None;
      if !s.random || !s.sealed {
        return false;
      }
      var ok := disk.Write(KeyTemp, KeyBytes(newKey), s.writeKey);
      if !ok {
        return false;
      }
      ok := disk.Write(SecretsTemp, Sealed(newKey, data), s.writeSecrets);
      if !ok {
        disk.Delete(KeyTemp, s.removeKey);
        return false;
      }
      ok := disk.Move(KeyTemp, KeyFile, s.renameKey);
      if !ok {
        RollBack(oldKey, oldKeyRaw, oldSecrets, s);
        return false;
      }
      ok := disk.Move(SecretsTemp, SecretsFile, s.renameSecrets);
      if !ok {
        RollBack(oldKey, oldKeyRaw, oldSecrets, s);
        return false;
      }
      key := newKey;
      return true;
    }
  }
}
