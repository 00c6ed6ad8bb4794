// The secrets store of internal/secrets/store.go over a file system and a keychain whose operations can
// fail. A sealed file is abstractly a key and the map it opens to; every failure is chosen by a script.
module SecretsSpec {
  import opened Common

  // ---------------------------------------------------------------- files

  datatype Path = KeyFile | SecretsFile | LegacyFile | KeyTemp | SecretsTemp
  datatype Content =
    | KeyBytes(key: int) | Sealed(key: int, data: map<string, string>) | Plain(data: map<string, string>) | Garbage

  type Files = map<Path, Content>

  /** A write that fails may have left the file alone, or truncated it. */
  datatype WriteOutcome = Written | Untouched | Torn

  function WriteFile(files: Files, path: Path, content: Content, outcome: WriteOutcome): Files {
    match outcome
    case Written => files[path := content]
    case Untouched => files
    case Torn => files[path := Garbage]
  }

  /** A rename happens whole or not at all. */
  function Rename(files: Files, from: Path, to: Path, ok: bool): Files {
    if ok && from in files then files[to := files[from]] - {from} else files
  }

  function Remove(files: Files, path: Path, ok: bool): Files { if ok then files - {path} else files }

  /** What opening the store finds; nothing when the key does not fit or a file is damaged. */
  function Opened(files: Files): Option<map<string, string>> {
    if KeyFile !in files || !files[KeyFile].KeyBytes? then None
    else if SecretsFile in files then Unseal(files[SecretsFile], files[KeyFile].key)
    else if LegacyFile in files then (if files[LegacyFile].Plain? then Some(files[LegacyFile].data) else None)
    else Some(map[])
  }

  function Unseal(content: Content, key: int): Option<map<string, string>> {
    match content
    case Sealed(k, data) => if k == key then Some(data) else None
    case _ => None
  }

  /** The key file holds the key in memory, and the secrets file opens with it. */
  predicate Agrees(files: Files, key: int) {
    KeyFile in files && files[KeyFile] == KeyBytes(key) && Opened(files).Some?
  }

  // ---------------------------------------------------------------- saving

  datatype SaveScript = SaveScript(sealed: bool, write: WriteOutcome, renamed: bool)

  function Save(files: Files, key: int, data: map<string, string>, s: SaveScript): (Files, bool) {
    if !s.sealed then (files, false)
    else
      var written := WriteFile(files, SecretsTemp, Sealed(key, data), s.write);
      if s.write != Written then (written, false)
      else (Rename(written, SecretsTemp, SecretsFile, s.renamed), s.renamed)
  }

  // ---------------------------------------------------------------- loading

  datatype LoadScript = LoadScript(readSecrets: bool, readLegacy: bool, save: SaveScript, removeLegacy: bool)

  /** A store without a secrets file takes over the plain legacy file, and removes it once saved. */
  function Load(files: Files, key: int, s: LoadScript): (Files, Option<map<string, string>>) {
    if !s.readSecrets then (files, None)
    else if SecretsFile in files then (files, Unseal(files[SecretsFile], key))
    else if !s.readLegacy then (files, None)
    else if LegacyFile !in files then (files, Some(map[]))
    else
      match files[LegacyFile]
      case Plain(data) =>
        var (saved, ok) := Save(files, key, data, s.save);
        if !ok then (saved, None)
        else if !s.removeLegacy then (saved, None)
        else (saved - {LegacyFile}, Some(data))
      case _ => (files, None)
  }

  /** What is in memory after loading into an empty map, also when it failed. */
  function LoadedMemory(files: Files, key: int, s: LoadScript): map<string, string> {
    if !s.readSecrets then map[]
    else if SecretsFile in files then
      (match Unseal(files[SecretsFile], key) case Some(data) => data case None => map[])
    else if s.readLegacy && LegacyFile in files && files[LegacyFile].Plain? then files[LegacyFile].data
    else map[]
  }

  // ---------------------------------------------------------------- rekey

  datatype RekeyScript = RekeyScript(
    readKey: bool, readSecrets: bool, random: bool, sealed: bool, writeKey: WriteOutcome, writeSecrets: WriteOutcome,
    renameKey: bool, renameSecrets: bool, removeKey: bool, removeSecrets: bool,
    restoreKey: WriteOutcome, restoreSecrets: WriteOutcome)

  datatype Rekeyed = Rekeyed(files: Files, key: int, done: bool)

  /** Both temporary files go, then the files read at the start are written back. */
  function Rollback(files: Files, oldKey: Content, oldSecrets: Option<Content>, s: RekeyScript): Files {
    var cleaned := Remove(Remove(files, KeyTemp, s.removeKey), SecretsTemp, s.removeSecrets);
    var restored := WriteFile(cleaned, KeyFile, oldKey, s.restoreKey);
    if oldSecrets.Some? then WriteFile(restored, SecretsFile, oldSecrets.value, s.restoreSecrets) else restored
  }

  function Lookup(files: Files, path: Path): Option<Content> { if path in files then Some(files[path]) else None }

  function Rekey(files: Files, key: int, data: map<string, string>, keyFromFile: bool, newKey: int, s: RekeyScript)
    : Rekeyed
  {
    var oldKey, oldSecrets := Lookup(files, KeyFile), Lookup(files, SecretsFile);
    if !keyFromFile || !s.readKey || oldKey.None? || !s.readSecrets || !s.random || !s.sealed
    then Rekeyed(files, key, false)
    else
      var f1 := WriteFile(files, KeyTemp, KeyBytes(newKey), s.writeKey);
      if s.writeKey != Written then Rekeyed(f1, key, false)
      else
        var f2 := WriteFile(f1, SecretsTemp, Sealed(newKey, data), s.writeSecrets);
        if s.writeSecrets != Written then Rekeyed(Remove(f2, KeyTemp, s.removeKey), key, false)
        else
          var f3 := Rename(f2, KeyTemp, KeyFile, s.renameKey);
          if !s.renameKey then Rekeyed(Rollback(f3, oldKey.value, oldSecrets, s), key, false)
          else
            var f4 := Rename(f3, SecretsTemp, SecretsFile, s.renameSecrets);
            if !s.renameSecrets then Rekeyed(Rollback(f4, oldKey.value, oldSecrets, s), key, false)
            else Rekeyed(f4, newKey, true)
  }

  // ---------------------------------------------------------------- the store and its keychain

  /** A keychain read answers honestly, misses the item, or fails. */
  datatype KeychainRead = Reads | Misses | ReadFails
  /** A keychain write or delete that fails may have taken effect. */
  datatype KeychainWrite = Done | FailsApplied | FailsUntouched

  datatype State = State(
    files: Files, key: int, keyFromFile: bool, data: map<string, string>, keychain: map<string, string>, active: bool)

  function Value(m: map<string, string>, k: string): string { if k in m then m[k] else "" }

  predicate Accepted(value: string) { value != "" && value != "********" }

  function Get(s: State, k: string, r: KeychainRead): (State, string) {
    if s.active && r == Reads && k in s.keychain then (s, s.keychain[k])
    else if s.active && r == ReadFails then (s.(active := false), Value(s.data, k))
    else (s, Value(s.data, k))
  }

  function Set(s: State, k: string, value: string, save: SaveScript, w: KeychainWrite): (State, bool) {
    if !Accepted(value) then (s, true)
    else
      var data := s.data[k := value];
      var (files, ok) := Save(s.files, s.key, data, save);
      var saved := s.(data := data, files := files);
      if !ok then (saved, false)
      else if !s.active then (saved, true)
      else
        var keychain := if w == FailsUntouched then s.keychain else s.keychain[k := value];
        (saved.(keychain := keychain, active := w == Done), true)
  }

  function Delete(s: State, k: string, save: SaveScript, w: KeychainWrite): (State, bool) {
    var data := s.data - {k};
    var (files, ok) := Save(s.files, s.key, data, save);
    var saved := s.(data := data, files := files);
    if !ok then (saved, false)
    else if !s.active then (saved, true)
    else (saved.(keychain := if w == FailsUntouched then s.keychain else s.keychain - {k}, active := w == Done), true)
  }

  function RekeyState(s: State, newKey: int, script: RekeyScript): (State, bool) {
    var r := Rekey(s.files, s.key, s.data, s.keyFromFile, newKey, script);
    (s.(files := r.files, key := r.key), r.done)
  }

  datatype Event =
    | GetEvent(k: string, read: KeychainRead)
    | SetEvent(k: string, value: string, save: SaveScript, write: KeychainWrite)
    | DeleteEvent(k: string, save: SaveScript, write: KeychainWrite)
    | RekeyEvent(newKey: int, script: RekeyScript)

  function Step(s: State, e: Event): (State, bool) {
    match e
    case GetEvent(k, r) => (Get(s, k, r).0, true)
    case SetEvent(k, value, save, w) => Set(s, k, value, save, w)
    case DeleteEvent(k, save, w) => Delete(s, k, save, w)
    case RekeyEvent(newKey, script) => RekeyState(s, newKey, script)
  }
}
