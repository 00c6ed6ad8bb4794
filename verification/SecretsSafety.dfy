// What the secrets store keeps: a rekey never loses secrets as long as its rollback writes succeed, a save is
// all or nothing, and over any run of calls the store behaves like a plain map, keychain failures included.
module SecretsSafety {
  import opened Common
  import opened SecretsSpec

  // ---------------------------------------------------------------- saving

  /** After a save the files open to the new map if it succeeded, and to what they opened to before if not. */
  lemma SaveIsAtomic(files: Files, key: int, data: map<string, string>, s: SaveScript)
    requires Agrees(files, key)
    ensures var (after, ok) := Save(files, key, data, s);
      && Agrees(after, key) && Opened(after) == (if ok then Some(data) else Opened(files))
      && (ok <==> s.sealed && s.write == Written && s.renamed)
  {
  }

  /** Loading loses nothing: whatever step of the takeover fails, the files open to what they opened to, and a
   *  load that succeeds returns that, with no plain copy left behind. A load fails only by a failing step. */
  lemma LoadKeepsSecrets(files: Files, key: int, s: LoadScript)
    requires KeyFile in files && files[KeyFile] == KeyBytes(key)
    ensures var (after, data) := Load(files, key, s);
      && Opened(after) == Opened(files) && KeyFile in after && after[KeyFile] == KeyBytes(key)
      && (data.Some? ==> data == Opened(files) && (SecretsFile in files || LegacyFile !in after))
      && (data.Some? ==> data.value == LoadedMemory(files, key, s))
      && (s == LoadScript(true, true, SaveScript(true, Written, true), true) ==> data == Opened(files))
  {
  }

  // ---------------------------------------------------------------- rekey

  /** The rollback, where one is needed, left no file damaged and put the old key back if it had been replaced. */
  predicate RollbackHolds(files: Files, s: RekeyScript) {
    && (!s.renameKey ==> s.restoreKey != Torn)
    && (s.renameKey && !s.renameSecrets ==> s.restoreKey == Written)
    && ((!s.renameKey || !s.renameSecrets) && SecretsFile in files ==> s.restoreSecrets != Torn)
  }

  /** Whether the failure point, if any, is one of the two renames. */
  predicate ReachesRenames(files: Files, keyFromFile: bool, s: RekeyScript) {
    && keyFromFile && s.readKey && KeyFile in files && s.readSecrets && s.random && s.sealed
    && s.writeKey == Written && s.writeSecrets == Written
  }

  lemma RollbackFiles(files: Files, oldKey: Content, oldSecrets: Option<Content>, s: RekeyScript)
    ensures var r := Rollback(files, oldKey, oldSecrets, s);
      && Lookup(r, KeyFile) == Lookup(WriteFile(files, KeyFile, oldKey, s.restoreKey), KeyFile)
      && (oldSecrets.None? ==> Lookup(r, SecretsFile) == Lookup(files, SecretsFile))
      && (oldSecrets.Some? ==>
            Lookup(r, SecretsFile)
            == Lookup(WriteFile(files, SecretsFile, oldSecrets.value, s.restoreSecrets), SecretsFile))
      && Lookup(r, LegacyFile) == Lookup(files, LegacyFile)
  {
  }

  /** Only these files decide what opens. */
  lemma OpenedBy(a: Files, b: Files)
    requires Lookup(a, KeyFile) == Lookup(b, KeyFile) && Lookup(a, SecretsFile) == Lookup(b, SecretsFile)
    requires Lookup(a, LegacyFile) == Lookup(b, LegacyFile)
    ensures Opened(a) == Opened(b) && forall key :: Agrees(a, key) <==> Agrees(b, key)
  {
  }

  /** A rekey that succeeds leaves files that open with the new key to the map in memory. One that fails, at
   *  whatever step, keeps the old key, and the files still agree with it and open to what they opened to
   *  before, exactly if no rename was reached or the rollback writes held. */
  lemma RekeyKeepsSecrets(files: Files, key: int, data: map<string, string>, keyFromFile: bool, newKey: int,
                          s: RekeyScript)
    requires Agrees(files, key) && newKey != key
    ensures var r := Rekey(files, key, data, keyFromFile, newKey, s);
      && (r.done <==> ReachesRenames(files, keyFromFile, s) && s.renameKey && s.renameSecrets)
      && (r.done ==> r.key == newKey && Agrees(r.files, newKey) && Opened(r.files) == Some(data))
      && (!r.done ==> r.key == key)
      && (!r.done ==> ((Agrees(r.files, key) && Opened(r.files) == Opened(files))
                       <==> (ReachesRenames(files, keyFromFile, s) ==> RollbackHolds(files, s))))
  {
    var r := Rekey(files, key, data, keyFromFile, newKey, s);
    if ReachesRenames(files, keyFromFile, s) {
      var f2 := files[KeyTemp := KeyBytes(newKey)][SecretsTemp := Sealed(newKey, data)];
      if !s.renameKey {
        RollbackFiles(f2, files[KeyFile], Lookup(files, SecretsFile), s);
      } else if !s.renameSecrets {
        RollbackFiles(Rename(f2, KeyTemp, KeyFile, true), files[KeyFile], Lookup(files, SecretsFile), s);
      }
    } else {
      OpenedBy(files, r.files);
    }
  }

  /** A rekey leaves no new key and no newly sealed file beside the old ones: not when it succeeds, nor, if the
   *  temporary files can be removed, when it fails after writing both; and a new key that was written is removed when
   *  the file sealed with it could not be. */
  lemma NothingLeftBehind(files: Files, key: int, data: map<string, string>, keyFromFile: bool, newKey: int,
                          s: RekeyScript)
    ensures var r := Rekey(files, key, data, keyFromFile, newKey, s);
      && (r.done ==> KeyTemp !in r.files && SecretsTemp !in r.files)
      && (ReachesRenames(files, keyFromFile, s) && s.removeKey && s.removeSecrets ==>
            KeyTemp !in r.files && SecretsTemp !in r.files)
      && (s.writeSecrets != Written && s.removeKey ==>
            ReachesRenames(files, keyFromFile, s.(writeSecrets := Written)) ==> KeyTemp !in r.files)
  {
  }

  /** A rollback that fails loses the secrets: the second rename fails, and writing the old key back tears the
   *  key file. */
  lemma TornRollbackLosesSecrets() returns (files: Files, s: RekeyScript)
    ensures Agrees(files, 1) && Opened(files) == Some(map["token" := "abc"])
    ensures var r := Rekey(files, 1, map["token" := "abc"], true, 2, s);
      !r.done && r.key == 1 && Opened(r.files) == None
  {
    files := map[KeyFile := KeyBytes(1), SecretsFile := Sealed(1, map["token" := "abc"])];
    s := RekeyScript(true, true, true, true, Written, Written, true, false, true, true, Torn, Written);
  }

  // ---------------------------------------------------------------- single calls

  /** The value is a secret: an empty one and the mask that stands for one on the page are not. */
  predicate IsSecret(value: string) { value != "" && value != "********" }

  /** A set of anything but a secret changes nothing. A secret is in memory from then on, saved or not, and the call
   *  succeeds exactly if the save does; only then does it go on to an active keychain, which is given up exactly if
   *  it fails. */
  lemma SetDoes(s: State, k: string, value: string, save: SaveScript, w: KeychainWrite)
    ensures var (r, ok) := Set(s, k, value, save, w);
      if !IsSecret(value) then r == s && ok
      else
        && r.data == s.data[k := value] && (r.files, ok) == Save(s.files, s.key, r.data, save)
        && r.keychain == (if ok && s.active && w != FailsUntouched then s.keychain[k := value] else s.keychain)
        && (r.active <==> s.active && (ok ==> w == Done)) && r.key == s.key && r.keyFromFile == s.keyFromFile
  {
  }

  /** A delete takes the secret from the same places on the same conditions. */
  lemma DeleteDoes(s: State, k: string, save: SaveScript, w: KeychainWrite)
    ensures var (r, ok) := Delete(s, k, save, w);
      && r.data == s.data - {k} && (r.files, ok) == Save(s.files, s.key, r.data, save)
      && r.keychain == (if ok && s.active && w != FailsUntouched then s.keychain - {k} else s.keychain)
      && (r.active <==> s.active && (ok ==> w == Done)) && r.key == s.key && r.keyFromFile == s.keyFromFile
  {
  }

  /** A read changes nothing but gives the keychain up if it fails; what it does not find there it takes from
   *  memory, and a secret nobody set is empty. */
  lemma GetDoes(s: State, k: string, read: KeychainRead)
    ensures var (r, value) := Get(s, k, read);
      && r == s.(active := r.active) && (r.active <==> s.active && read != ReadFails)
      && value == (if s.active && read == Reads && k in s.keychain then s.keychain[k]
                   else if k in s.data then s.data[k] else "")
  {
  }

  // ---------------------------------------------------------------- runs

  /** The store, what a plain map would hold for every key whose last write succeeded, and the last saved map. */
  datatype World = World(store: State, expected: map<string, string>, saved: map<string, string>)

  function Expect(expected: map<string, string>, e: Event, ok: bool): map<string, string> {
    match e
    case SetEvent(k, value, _, _) =>
      if !IsSecret(value) then expected else if ok then expected[k := value] else expected - {k}
    case DeleteEvent(k, _, _) => if ok then expected[k := ""] else expected - {k}
    case _ => expected
  }

  predicate Saves(e: Event, ok: bool) {
    match e
    case GetEvent(_, _) => false
    case SetEvent(_, value, _, _) => ok && IsSecret(value)
    case _ => ok
  }

  function WorldStep(w: World, e: Event): World {
    var (next, ok) := Step(w.store, e);
    World(next, Expect(w.expected, e, ok), if Saves(e, ok) then next.data else w.saved)
  }

  function WorldRun(w: World, es: seq<Event>): World
    decreases |es|
  {
    if es == [] then w else WorldRun(WorldStep(w, es[0]), es[1..])
  }

  predicate BenignRekey(s: State, newKey: int, script: RekeyScript) {
    newKey != s.key && (ReachesRenames(s.files, s.keyFromFile, script) ==> RollbackHolds(s.files, script))
  }

  /** The new keys are fresh, and where a rekey has to roll back its writes hold. */
  ghost predicate Benign(w: World, es: seq<Event>)
    decreases |es|
  {
    es == [] || (
      && (es[0].RekeyEvent? ==> BenignRekey(w.store, es[0].newKey, es[0].script))
      && Benign(WorldStep(w, es[0]), es[1..]))
  }

  ghost predicate Remembers(s: State, expected: map<string, string>) {
    forall k :: k in expected ==>
      Value(s.data, k) == expected[k] && (s.active && k in s.keychain ==> s.keychain[k] == expected[k])
  }

  ghost predicate Holds(m: map<string, string>, expected: map<string, string>) {
    forall k :: k in expected ==> Value(m, k) == expected[k]
  }

  /** The files agree with the key and open to the last saved map; that map, the map in memory and an active
   *  keychain all hold what is expected. */
  ghost predicate Inv(w: World) {
    && Agrees(w.store.files, w.store.key) && Opened(w.store.files) == Some(w.saved)
    && Remembers(w.store, w.expected) && Holds(w.saved, w.expected)
  }

  lemma SetRemembers(w: World, e: Event)
    requires Inv(w) && e.SetEvent?
    ensures var next := WorldStep(w, e); Remembers(next.store, next.expected)
  {
  }

  lemma DeleteRemembers(w: World, e: Event)
    requires Inv(w) && e.DeleteEvent?
    ensures var next := WorldStep(w, e); Remembers(next.store, next.expected)
  {
  }

  /** What is expected is what is in memory, so a map saved from memory holds it. */
  lemma MemoryHolds(s: State, expected: map<string, string>)
    requires Remembers(s, expected)
    ensures Holds(s.data, expected)
  {
  }

  lemma SetKeeps(w: World, e: Event)
    requires Inv(w) && e.SetEvent?
    ensures Inv(WorldStep(w, e))
  {
    SetRemembers(w, e);
    SaveIsAtomic(w.store.files, w.store.key, w.store.data[e.k := e.value], e.save);
    MemoryHolds(WorldStep(w, e).store, WorldStep(w, e).expected);
  }

  lemma DeleteKeeps(w: World, e: Event)
    requires Inv(w) && e.DeleteEvent?
    ensures Inv(WorldStep(w, e))
  {
    DeleteRemembers(w, e);
    SaveIsAtomic(w.store.files, w.store.key, w.store.data - {e.k}, e.save);
    MemoryHolds(WorldStep(w, e).store, WorldStep(w, e).expected);
  }

  lemma RekeyKeeps(w: World, e: Event)
    requires Inv(w) && e.RekeyEvent? && Benign(w, [e])
    ensures Inv(WorldStep(w, e))
  {
    RekeyKeepsSecrets(w.store.files, w.store.key, w.store.data, w.store.keyFromFile, e.newKey, e.script);
  }

  lemma StepKeepsInv(w: World, e: Event)
    requires Inv(w) && Benign(w, [e])
    ensures Inv(WorldStep(w, e))
  {
    match e
    case GetEvent(_, _) =>
    case SetEvent(_, _, _, _) => SetKeeps(w, e);
    case DeleteEvent(_, _, _) => DeleteKeeps(w, e);
    case RekeyEvent(_, _) => RekeyKeeps(w, e);
  }

  lemma {:induction false} RunKeepsInv(w: World, es: seq<Event>)
    requires Inv(w) && Benign(w, es)
    ensures Inv(WorldRun(w, es))
    decreases |es|
  {
    if es != [] {
      StepKeepsInv(w, es[0]);
      RunKeepsInv(WorldStep(w, es[0]), es[1..]);
    }
  }

  /** A store opened on files that agree with its key: nothing is expected yet. */
  function Started(s: State): World { World(s, map[], s.data) }

  /** After every run, whatever the keychain does: a read returns the value last set, or nothing for a key last
   *  deleted, and so does a fresh read of the files. */
  lemma {:induction false} BehavesLikeMap(s: State, es: seq<Event>, k: string, r: KeychainRead)
    requires Agrees(s.files, s.key) && Opened(s.files) == Some(s.data) && Benign(Started(s), es)
    ensures var w := WorldRun(Started(s), es);
      k in w.expected ==>
        && Get(w.store, k, r).1 == w.expected[k]
        && Opened(w.store.files).Some? && Value(Opened(w.store.files).value, k) == w.expected[k]
  {
    RunKeepsInv(Started(s), es);
  }

  predicate Writes(e: Event, k: string) { (e.SetEvent? || e.DeleteEvent?) && e.k == k }

  /** What is expected of a key changes only with an attempt to write that key. */
  lemma {:induction false} OthersLeaveItAlone(w: World, es: seq<Event>, k: string)
    requires forall i :: 0 <= i < |es| ==> !Writes(es[i], k)
    ensures var after := WorldRun(w, es).expected;
      (k in after <==> k in w.expected) && (k in after ==> after[k] == w.expected[k])
    decreases |es|
  {
    if es != [] { OthersLeaveItAlone(WorldStep(w, es[0]), es[1..], k); }
  }

  /** Set, then anything that does not write the key, then Get: the value set comes back; after Delete, nothing. */
  lemma {:induction false} GetAfterWrite(s: State, before: seq<Event>, e: Event, after: seq<Event>, k: string,
                                         r: KeychainRead)
    requires Agrees(s.files, s.key) && Opened(s.files) == Some(s.data) && Benign(Started(s), before + [e] + after)
    requires Writes(e, k) && (e.SetEvent? ==> IsSecret(e.value))
    requires Step(WorldRun(Started(s), before).store, e).1
    requires forall i :: 0 <= i < |after| ==> !Writes(after[i], k)
    ensures var w := WorldRun(Started(s), before + [e] + after);
      Get(w.store, k, r).1 == if e.SetEvent? then e.value else ""
  {
    var middle := WorldRun(Started(s), before);
    RunConcat(Started(s), before, [e] + after);
    assert before + [e] + after == before + ([e] + after);
    assert ([e] + after)[1..] == after;
    OthersLeaveItAlone(WorldStep(middle, e), after, k);
    BehavesLikeMap(s, before + [e] + after, k, r);
  }

  lemma {:induction false} RunConcat(w: World, a: seq<Event>, b: seq<Event>)
    ensures WorldRun(w, a + b) == WorldRun(WorldRun(w, a), b)
    decreases |a|
  {
    if a == [] {
      assert a + b == b;
    } else {
      assert (a + b)[1..] == a[1..] + b;
      RunConcat(WorldStep(w, a[0]), a[1..], b);
    }
  }

  /** The switch from the keychain to the encrypted file is never undone. */
  lemma {:induction false} FailoverIsOneWay(w: World, es: seq<Event>)
    ensures WorldRun(w, es).store.active ==> w.store.active
    decreases |es|
  {
    if es != [] { FailoverIsOneWay(WorldStep(w, es[0]), es[1..]); }
  }

  /** Once it is switched off, the keychain is neither written nor read: its items stay, and an answer depends
   *  neither on them nor on how a read of it would have ended. */
  lemma {:induction false} KeychainLeftAlone(w: World, es: seq<Event>)
    requires !w.store.active
    ensures WorldRun(w, es).store.keychain == w.store.keychain && !WorldRun(w, es).store.active
    ensures forall k, r, items :: var s := WorldRun(w, es).store;
      Get(s.(keychain := items), k, r) == (s.(keychain := items), Value(s.data, k))
    decreases |es|
  {
    if es != [] { KeychainLeftAlone(WorldStep(w, es[0]), es[1..]); }
  }
}
