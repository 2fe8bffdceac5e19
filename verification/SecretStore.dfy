/**
 Secrets kept as encrypted files whose keys live in the credential store. A
 secret is spread over a sealed file, a key entry, the identity of the store
 and a value left by an earlier version; `set` and `delete` change them one at
 a time and may stop at any of their steps.

 Sealing is ideal: a file opens only with its own key and under its own
 entry. A secret's file is named by its entry, that is, the digest that names
 files is injective.
 */
module SecretStore {
  import opened Common

  /** A 256-bit file key. */
  type Key = nat

  /** A string, told apart by whether it is the base64 text of a file key. */
  datatype Text = Word(text: string) | KeyText(key: Key)

  /** A service and an account: names a secret, or an entry of the credential store. */
  datatype Entry = Entry(service: string, account: string)

  /** A file: sealed under a key for an entry, or bytes that no key opens. */
  datatype Sealed = Box(key: Key, entry: Entry, secret: Text) | Junk

  datatype Disk = Disk(files: map<Entry, Sealed>, idFile: Option<string>, creds: map<Entry, Text>)

  // Names

  const KEY_SERVICE_SUFFIX := ".file-key"

  predicate IsHexDigit(c: char) {
    '0' <= c <= '9' || 'a' <= c <= 'f' || 'A' <= c <= 'F'
  }

  predicate IsStoreId(id: string) {
    |id| == 32 && forall i :: 0 <= i < |id| ==> IsHexDigit(id[i])
  }

  /** The identity of the store; a malformed one counts as none. */
  function StoreId(idFile: Option<string>): Option<string> {
    if idFile.Some? && IsStoreId(idFile.value) then idFile else None
  }

  /** The credential entry that holds one secret's file key. */
  function KeyEntry(id: string, e: Entry): Entry {
    Entry(e.service + KEY_SERVICE_SUFFIX, id + "/" + e.account)
  }

  predicate EndsInSuffix(service: string) {
    |service| >= |KEY_SERVICE_SUFFIX| &&
    service[|service| - |KEY_SERVICE_SUFFIX|..] == KEY_SERVICE_SUFFIX
  }

  lemma KeyEntryInjective(a: string, d: Entry, b: string, e: Entry)
    requires |a| == |b| && KeyEntry(a, d) == KeyEntry(b, e)
    ensures a == b && d == e
  {
    var left, right := a + "/" + d.account, b + "/" + e.account;
    assert a == left[..|a|] && b == right[..|b|];
    assert d.account == left[|a| + 1..] && e.account == right[|b| + 1..];
    var s, t := d.service + KEY_SERVICE_SUFFIX, e.service + KEY_SERVICE_SUFFIX;
    assert d.service == s[..|s| - |KEY_SERVICE_SUFFIX|] && e.service == t[..|t| - |KEY_SERVICE_SUFFIX|];
  }

  lemma KeyEntryEndsInSuffix(id: string, e: Entry)
    ensures EndsInSuffix(KeyEntry(id, e).service)
  {
  }

  // Reading

  datatype StoredKey = Missing | Malformed | Key(key: Key)

  function ReadKey(creds: map<Entry, Text>, entry: Entry): StoredKey {
    if entry !in creds then Missing
    else if creds[entry].Word? then Malformed
    else Key(creds[entry].key)
  }

  /** The key of a secret's file under the current identity. */
  function KeyOf(d: Disk, e: Entry): StoredKey {
    match StoreId(d.idFile)
    case None => Missing
    case Some(id) => ReadKey(d.creds, KeyEntry(id, e))
  }

  /** What `get` answers: nothing stored, a secret, a malformed key, or a file its key does not open. */
  datatype Answer = Absent | Found(secret: Text) | BadKey | Unopened

  function Open(key: Key, e: Entry, sealed: Sealed): Answer {
    if sealed.Box? && sealed.key == key && sealed.entry == e then Found(sealed.secret) else Unopened
  }

  function Get(d: Disk, e: Entry): Answer {
    if e !in d.files then
      if e in d.creds then Found(d.creds[e]) else Absent
    else
      match KeyOf(d, e)
      case Missing => Absent
      case Malformed => BadKey
      case Key(key) => Open(key, e, d.files[e])
  }

  /**
   When `get` answers what: a secret only from a value of an earlier version
   where there is no file, or from a file sealed for this entry with its key.
   */
  lemma GetAnswers(d: Disk, e: Entry)
    ensures forall secret :: Get(d, e) == Found(secret) <==>
              || (e !in d.files && e in d.creds && d.creds[e] == secret)
              || (e in d.files && KeyOf(d, e).Key? && d.files[e] == Box(KeyOf(d, e).key, e, secret))
    ensures Get(d, e) == Absent <==> if e in d.files then KeyOf(d, e) == Missing else e !in d.creds
    ensures Get(d, e) == BadKey <==> e in d.files && KeyOf(d, e) == Malformed
  {
  }

  // Writing

  /** The steps that can fail. */
  datatype Op =
    | ReadFile | ReadLegacy | ReadId | WriteId | ReadKeyEntry | RemoveFile | MakeKey | WriteKey
    | ProbeFile | WriteFile | DeleteLegacy | DeleteKey

  /** The disk with an identity, created if there was none; `None` where that fails. */
  function WithId(d: Disk, faults: set<Op>, freshId: string): Disk {
    if ReadId in faults || StoreId(d.idFile).Some? || WriteId in faults then d
    else d.(idFile := Some(freshId))
  }

  /** The last steps of `set`: replace the file, then clean up what an earlier version stored. */
  function Replaced(d: Disk, e: Entry, key: Key, secret: Text, faults: set<Op>): (Disk, bool) {
    if WriteFile in faults then (d, false)
    else
      var first := e !in d.files && ProbeFile !in faults;
      var written := d.(files := d.files[e := Box(key, e, secret)]);
      (if first && DeleteLegacy !in faults then written.(creds := written.creds - {e}) else written, true)
  }

  /** The steps of `set` once there is an identity. */
  function SetUnder(d: Disk, id: string, e: Entry, secret: Text, faults: set<Op>, freshKey: Key): (Disk, bool) {
    if ReadKeyEntry in faults then (d, false)
    else
      match ReadKey(d.creds, KeyEntry(id, e))
      case Key(key) => Replaced(d, e, key, secret, faults)
      case _ =>
        if RemoveFile in faults then (d, false)
        else
          var cleared := d.(files := d.files - {e});
          if MakeKey in faults || WriteKey in faults then (cleared, false)
          else
            Replaced(cleared.(creds := cleared.creds[KeyEntry(id, e) := KeyText(freshKey)]), e, freshKey, secret, faults)
  }

  /** `set` with the steps in `faults` failing: the disk it leaves, and whether it succeeded. */
  function Set(d: Disk, e: Entry, secret: Text, faults: set<Op>, freshId: string, freshKey: Key): (Disk, bool) {
    var identified := WithId(d, faults, freshId);
    if ReadId in faults || (StoreId(d.idFile).None? && WriteId in faults) then (identified, false)
    else
      var id := if StoreId(d.idFile).Some? then StoreId(d.idFile).value else freshId;
      SetUnder(identified, id, e, secret, faults, freshKey)
  }

  /** `delete` with the steps in `faults` failing. */
  function Delete(d: Disk, e: Entry, faults: set<Op>): (Disk, bool) {
    if DeleteLegacy in faults then (d, false)
    else
      var noLegacy := d.(creds := d.creds - {e});
      if RemoveFile in faults then (noLegacy, false)
      else
        var noFile := noLegacy.(files := noLegacy.files - {e});
        if ReadId in faults then (noFile, false)
        else
          match StoreId(d.idFile)
          case None => (noFile, true)
          case Some(id) =>
            if DeleteKey in faults then (noFile, false)
            else (noFile.(creds := noFile.creds - {KeyEntry(id, e)}), true)
  }

  /** A generated identity: well formed, and naming no key entry yet. */
  ghost predicate FreshId(d: Disk, id: string) {
    IsStoreId(id) && forall e :: KeyEntry(id, e) !in d.creds
  }

  // A successful write is read back

  lemma KeyEntryNotItself(id: string, e: Entry)
    ensures KeyEntry(id, e) != e
  {
    assert |KeyEntry(id, e).service| > |e.service|;
  }

  lemma ReplacedReadsBack(d: Disk, id: string, e: Entry, key: Key, secret: Text, faults: set<Op>)
    requires StoreId(d.idFile) == Some(id)
    requires ReadKey(d.creds, KeyEntry(id, e)) == Key(key)
    ensures Replaced(d, e, key, secret, faults).1 ==> Get(Replaced(d, e, key, secret, faults).0, e) == Found(secret)
  {
    KeyEntryNotItself(id, e);
  }

  /** From any disk, however damaged, a `set` that succeeds makes `get` answer the secret. */
  lemma SetReadsBack(d: Disk, e: Entry, secret: Text, faults: set<Op>, freshId: string, freshKey: Key)
    requires IsStoreId(freshId)
    ensures
      var (after, ok) := Set(d, e, secret, faults, freshId, freshKey);
      ok ==> Get(after, e) == Found(secret)
  {
    var identified := WithId(d, faults, freshId);
    var id := if StoreId(d.idFile).Some? then StoreId(d.idFile).value else freshId;
    if Set(d, e, secret, faults, freshId, freshKey).1 {
      match ReadKey(identified.creds, KeyEntry(id, e))
      case Key(key) => ReplacedReadsBack(identified, id, e, key, secret, faults);
      case _ =>
        var keyed := identified.(files := identified.files - {e},
                                 creds := identified.creds[KeyEntry(id, e) := KeyText(freshKey)]);
        ReplacedReadsBack(keyed, id, e, freshKey, secret, faults);
    }
  }

  /** No step that `set` needs on this disk fails: those for a new identity or a new key only where there is none. */
  predicate SetCanSucceed(d: Disk, e: Entry, faults: set<Op>) {
    && ReadId !in faults && ReadKeyEntry !in faults && WriteFile !in faults
    && (StoreId(d.idFile).None? ==> WriteId !in faults)
    && (!KeyOf(d, e).Key? ==> RemoveFile !in faults && MakeKey !in faults && WriteKey !in faults)
  }

  /**
   On every disk `set` succeeds if and only if no step it needs there fails,
   and then `get` answers the secret. Looking for the file and deleting what
   an earlier version left never make it fail.
   */
  lemma SetSucceedsIff(d: Disk, e: Entry, secret: Text, faults: set<Op>, freshId: string, freshKey: Key)
    requires FreshId(d, freshId)
    ensures
      var (after, ok) := Set(d, e, secret, faults, freshId, freshKey);
      (ok <==> SetCanSucceed(d, e, faults)) && (ok ==> Get(after, e) == Found(secret))
  {
    WithIdReadsAlike(d, faults, freshId, e);
    SetReadsBack(d, e, secret, faults, freshId, freshKey);
  }

  /** Overwriting, like writing first, succeeds when nothing fails, however the disk is damaged. */
  lemma SetWithoutFaults(d: Disk, e: Entry, secret: Text, freshId: string, freshKey: Key)
    requires FreshId(d, freshId)
    ensures
      var (after, ok) := Set(d, e, secret, {}, freshId, freshKey);
      ok && Get(after, e) == Found(secret)
  {
    SetSucceedsIff(d, e, secret, {}, freshId, freshKey);
  }

  /**
   What a `set` that succeeds leaves: the identity and a well-formed key as
   they were, or new ones; the file sealed with that key; and of an earlier
   version nothing, if the file is new and clean-up did not fail.
   */
  lemma SetLeaves(d: Disk, e: Entry, secret: Text, faults: set<Op>, freshId: string, freshKey: Key)
    requires FreshId(d, freshId) && SetCanSucceed(d, e, faults)
    ensures
      var after := Set(d, e, secret, faults, freshId, freshKey).0;
      var key := if KeyOf(d, e).Key? then KeyOf(d, e).key else freshKey;
      && StoreId(after.idFile) == (if StoreId(d.idFile).Some? then StoreId(d.idFile) else Some(freshId))
      && KeyOf(after, e) == Key(key)
      && after.files == d.files[e := Box(key, e, secret)]
      && (e in after.creds <==>
            e in d.creds && (ProbeFile in faults || DeleteLegacy in faults || (e in d.files && KeyOf(d, e).Key?)))
  {
    WithIdReadsAlike(d, faults, freshId, e);
    var identified := WithId(d, faults, freshId);
    var id := StoreId(identified.idFile).value;
    SetUnderLeaves(identified, id, e, secret, faults, freshKey);
  }

  lemma SetUnderLeaves(d: Disk, id: string, e: Entry, secret: Text, faults: set<Op>, freshKey: Key)
    requires StoreId(d.idFile) == Some(id) && SetCanSucceed(d, e, faults)
    ensures
      var after := SetUnder(d, id, e, secret, faults, freshKey).0;
      var key := if KeyOf(d, e).Key? then KeyOf(d, e).key else freshKey;
      && after.idFile == d.idFile && KeyOf(after, e) == Key(key)
      && after.files == d.files[e := Box(key, e, secret)]
      && (e in after.creds <==>
            e in d.creds && (ProbeFile in faults || DeleteLegacy in faults || (e in d.files && KeyOf(d, e).Key?)))
  {
    KeyEntryNotItself(id, e);
  }

  /** `delete` succeeds if and only if none of its steps fails; there is no key to delete without an identity. */
  lemma DeleteSucceedsIff(d: Disk, e: Entry, faults: set<Op>)
    ensures
      Delete(d, e, faults).1
      <==>
      && DeleteLegacy !in faults && RemoveFile !in faults && ReadId !in faults
      && (StoreId(d.idFile).Some? ==> DeleteKey !in faults)
    ensures Delete(d, e, faults).0.idFile == d.idFile
  {
  }

  // Entries do not disturb each other

  /** `after` reads like `before` for `e`: same file, same value of an earlier version, same key. */
  predicate ReadsAlike(before: Disk, after: Disk, e: Entry) {
    && (e in before.files <==> e in after.files)
    && (e in before.files ==> before.files[e] == after.files[e])
    && (e in before.creds <==> e in after.creds)
    && (e in before.creds ==> before.creds[e] == after.creds[e])
    && KeyOf(before, e) == KeyOf(after, e)
  }

  lemma ReadsAlikeGet(before: Disk, after: Disk, e: Entry)
    requires ReadsAlike(before, after, e)
    ensures Get(before, e) == Get(after, e)
  {
  }

  /** `a` is named like the key entry of `b` in some store. */
  ghost predicate NamesKeyOf(a: Entry, b: Entry) {
    exists id :: IsStoreId(id) && a == KeyEntry(id, b)
  }

  /** Neither entry is named like the other's key entry. */
  ghost predicate Apart(e: Entry, other: Entry) {
    e != other && !NamesKeyOf(e, other) && !NamesKeyOf(other, e)
  }

  /** Services without the suffix of key entries keep any two secrets apart. */
  lemma PlainServicesApart(e: Entry, other: Entry)
    requires e != other && !EndsInSuffix(e.service) && !EndsInSuffix(other.service)
    ensures Apart(e, other)
  {
    forall id
      ensures KeyEntry(id, e) != other && KeyEntry(id, other) != e
    {
      KeyEntryEndsInSuffix(id, e);
      KeyEntryEndsInSuffix(id, other);
    }
  }

  /** Credentials other than another secret's own two do not matter to it. */
  lemma OtherCredentials(id: string, e: Entry, other: Entry)
    requires Apart(e, other) && IsStoreId(id)
    ensures KeyEntry(id, e) != other && KeyEntry(id, other) != e && KeyEntry(id, e) != KeyEntry(id, other)
  {
    if KeyEntry(id, e) == KeyEntry(id, other) {
      KeyEntryInjective(id, e, id, other);
    }
  }

  lemma WithIdReadsAlike(d: Disk, faults: set<Op>, freshId: string, other: Entry)
    requires FreshId(d, freshId)
    ensures ReadsAlike(d, WithId(d, faults, freshId), other)
  {
  }

  lemma ReadsAlikeChain(a: Disk, b: Disk, c: Disk, e: Entry)
    requires ReadsAlike(a, b, e) && ReadsAlike(b, c, e)
    ensures ReadsAlike(a, c, e)
  {
  }

  lemma ReplacedReadsAlike(d: Disk, id: string, e: Entry, key: Key, secret: Text, faults: set<Op>, other: Entry)
    requires StoreId(d.idFile) == Some(id) && e != other && KeyEntry(id, other) != e
    ensures ReadsAlike(d, Replaced(d, e, key, secret, faults).0, other)
  {
  }

  lemma RekeyedReadsAlike(d: Disk, id: string, e: Entry, key: Key, other: Entry)
    requires StoreId(d.idFile) == Some(id)
    requires e != other && KeyEntry(id, e) != other && KeyEntry(id, e) != KeyEntry(id, other)
    ensures ReadsAlike(d, d.(files := d.files - {e}), other)
    ensures ReadsAlike(d, d.(files := d.files - {e}, creds := d.creds[KeyEntry(id, e) := KeyText(key)]), other)
  {
  }

  lemma SetUnderReadsAlike(d: Disk, id: string, e: Entry, secret: Text, faults: set<Op>, freshKey: Key, other: Entry)
    requires StoreId(d.idFile) == Some(id) && Apart(e, other)
    ensures ReadsAlike(d, SetUnder(d, id, e, secret, faults, freshKey).0, other)
  {
    OtherCredentials(id, e, other);
    RekeyedReadsAlike(d, id, e, freshKey, other);
    var keyed := d.(files := d.files - {e}, creds := d.creds[KeyEntry(id, e) := KeyText(freshKey)]);
    match ReadKey(d.creds, KeyEntry(id, e))
    case Key(key) => ReplacedReadsAlike(d, id, e, key, secret, faults, other);
    case _ =>
      ReplacedReadsAlike(keyed, id, e, freshKey, secret, faults, other);
      ReadsAlikeChain(d, keyed, Replaced(keyed, e, freshKey, secret, faults).0, other);
  }

  /** No `set` of one entry, successful or not, changes what `get` answers for another. */
  lemma SetKeepsOthers(
    d: Disk, e: Entry, secret: Text, faults: set<Op>, freshId: string, freshKey: Key, other: Entry)
    requires FreshId(d, freshId) && Apart(e, other)
    ensures Get(Set(d, e, secret, faults, freshId, freshKey).0, other) == Get(d, other)
  {
    var identified := WithId(d, faults, freshId);
    WithIdReadsAlike(d, faults, freshId, other);
    ReadsAlikeGet(d, identified, other);
    if StoreId(identified.idFile).Some? {
      var id := StoreId(identified.idFile).value;
      var after := SetUnder(identified, id, e, secret, faults, freshKey).0;
      SetUnderReadsAlike(identified, id, e, secret, faults, freshKey, other);
      ReadsAlikeGet(identified, after, other);
    }
  }

  /** No `delete` of one entry, successful or not, changes what `get` answers for another. */
  lemma DeleteKeepsOthers(d: Disk, e: Entry, faults: set<Op>, other: Entry)
    requires Apart(e, other)
    ensures Get(Delete(d, e, faults).0, other) == Get(d, other)
  {
    if StoreId(d.idFile).Some? {
      OtherCredentials(StoreId(d.idFile).value, e, other);
    }
    ReadsAlikeGet(d, Delete(d, e, faults).0, other);
  }

  /** An identity that differs from `id`. */
  function AnotherId(id: string): (other: string)
    ensures IsStoreId(other) && other != id
  {
    var zeros, ones := seq(32, _ => '0'), seq(32, _ => '1');
    assert zeros[0] != ones[0];
    if id == zeros then ones else zeros
  }

  /** A disk on which `other` has a file and `e`, named like its key entry, holds the key. */
  function KeyedDisk(id: string, other: Entry): Disk {
    Disk(map[other := Box(0, other, Word("secret"))], Some(id), map[KeyEntry(id, other) := KeyText(0)])
  }

  /** A disk on which `other`, named like a key entry, has a value of an earlier version. */
  function NamedDisk(id: string, other: Entry): Disk {
    Disk(map[], Some(id), map[other := Word("secret")])
  }

  lemma KeyedDiskFresh(id: string, other: Entry)
    requires IsStoreId(id)
    ensures FreshId(KeyedDisk(id, other), AnotherId(id))
  {
    forall x
      ensures KeyEntry(AnotherId(id), x) != KeyEntry(id, other)
    {
      if KeyEntry(AnotherId(id), x) == KeyEntry(id, other) {
        KeyEntryInjective(AnotherId(id), x, id, other);
      }
    }
  }

  lemma NamedDiskFresh(id: string, e: Entry)
    requires IsStoreId(id)
    ensures FreshId(NamedDisk(id, KeyEntry(id, e)), AnotherId(id))
  {
    KeyedDiskFresh(id, e);
  }

  /** Deleting or writing an entry named like another secret's key entry loses that secret. */
  lemma LosesKey(id: string, other: Entry)
    requires IsStoreId(id)
    ensures
      var d, e := KeyedDisk(id, other), KeyEntry(id, other);
      && e != other && Get(d, other) == Found(Word("secret"))
      && Get(Delete(d, e, {}).0, other) == Absent
      && Get(Set(d, e, Word(""), {}, AnotherId(id), 0).0, other) == Absent
  {
    var e := KeyEntry(id, other);
    KeyEntryNotItself(id, other);
    KeyEntryNotItself(id, e);
  }

  /** Deleting or writing a secret loses the value of an entry named like the secret's own key entry. */
  lemma LosesNamed(id: string, e: Entry)
    requires IsStoreId(id)
    ensures
      var other := KeyEntry(id, e);
      var d := NamedDisk(id, other);
      && e != other && Get(d, other) == Found(Word("secret"))
      && Get(Delete(d, e, {}).0, other) == Absent
      && Get(Set(d, e, Word(""), {}, AnotherId(id), 0).0, other) == Found(KeyText(0))
  {
    KeyEntryNotItself(id, e);
  }

  ghost predicate DeleteKeeps(e: Entry, other: Entry) {
    forall d, faults :: Get(Delete(d, e, faults).0, other) == Get(d, other)
  }

  ghost predicate SetKeeps(e: Entry, other: Entry) {
    forall d, secret, faults, freshId, freshKey :: FreshId(d, freshId) ==>
      Get(Set(d, e, secret, faults, freshId, freshKey).0, other) == Get(d, other)
  }

  /** `delete` of one entry leaves another alone on every disk exactly when neither is named like the other's key entry. */
  lemma DeleteKeepsOthersIff(e: Entry, other: Entry)
    requires e != other
    ensures DeleteKeeps(e, other) <==> Apart(e, other)
  {
    if Apart(e, other) {
      forall d, faults
        ensures Get(Delete(d, e, faults).0, other) == Get(d, other)
      {
        DeleteKeepsOthers(d, e, faults, other);
      }
    } else if NamesKeyOf(e, other) {
      var id :| IsStoreId(id) && e == KeyEntry(id, other);
      LosesKey(id, other);
      assert Get(Delete(KeyedDisk(id, other), e, {}).0, other) != Get(KeyedDisk(id, other), other);
    } else {
      var id :| IsStoreId(id) && other == KeyEntry(id, e);
      LosesNamed(id, e);
      assert Get(Delete(NamedDisk(id, other), e, {}).0, other) != Get(NamedDisk(id, other), other);
    }
  }

  /** The same for `set`. */
  lemma SetKeepsOthersIff(e: Entry, other: Entry)
    requires e != other
    ensures SetKeeps(e, other) <==> Apart(e, other)
  {
    if Apart(e, other) {
      forall d, secret, faults, freshId, freshKey | FreshId(d, freshId)
        ensures Get(Set(d, e, secret, faults, freshId, freshKey).0, other) == Get(d, other)
      {
        SetKeepsOthers(d, e, secret, faults, freshId, freshKey, other);
      }
    } else if NamesKeyOf(e, other) {
      var id :| IsStoreId(id) && e == KeyEntry(id, other);
      KeyedDiskFresh(id, other);
      LosesKey(id, other);
      var d := KeyedDisk(id, other);
      assert Get(Set(d, e, Word(""), {}, AnotherId(id), 0).0, other) != Get(d, other);
    } else {
      var id :| IsStoreId(id) && other == KeyEntry(id, e);
      NamedDiskFresh(id, e);
      LosesNamed(id, e);
      var d := NamedDisk(id, other);
      assert Get(Set(d, e, Word(""), {}, AnotherId(id), 0).0, other) != Get(d, other);
    }
  }

  // A write that stops

  /**
   The disks on which a `set` that stops can change the answer: there is a
   file, no well-formed key for it, and either the key is malformed or an
   earlier version's value lies beside the file.
   */
  predicate Exposed(d: Disk, e: Entry) {
    && e in d.files
    && !KeyOf(d, e).Key?
    && (KeyOf(d, e).Malformed? || e in d.creds)
  }

  /** What an entry without a file answers. */
  function LegacyAnswer(d: Disk, e: Entry): Answer {
    if e in d.creds then Found(d.creds[e]) else Absent
  }

  lemma WithIdKeepsKey(d: Disk, faults: set<Op>, freshId: string, e: Entry)
    requires FreshId(d, freshId)
    ensures KeyOf(WithId(d, faults, freshId), e) == KeyOf(d, e)
    ensures Get(WithId(d, faults, freshId), e) == Get(d, e)
  {
  }

  /** A `set` that stops leaves the answer as it was, or, on an exposed disk, the answer without the file. */
  lemma StoppedSet(d: Disk, e: Entry, secret: Text, faults: set<Op>, freshId: string, freshKey: Key)
    requires FreshId(d, freshId)
    ensures
      var (after, ok) := Set(d, e, secret, faults, freshId, freshKey);
      !ok ==> Get(after, e) == Get(d, e) || (Exposed(d, e) && Get(after, e) == LegacyAnswer(d, e))
  {
    WithIdKeepsKey(d, faults, freshId, e);
    var identified := WithId(d, faults, freshId);
    if StoreId(identified.idFile).Some? {
      KeyEntryNotItself(StoreId(identified.idFile).value, e);
    }
  }

  /** On an exposed disk, a `set` that stops before its file is written does change the answer. */
  lemma ExposedSetChanges(d: Disk, e: Entry, secret: Text, freshId: string, freshKey: Key)
    requires FreshId(d, freshId) && Exposed(d, e)
    ensures !Set(d, e, secret, {WriteKey}, freshId, freshKey).1
    ensures Get(Set(d, e, secret, {WriteKey}, freshId, freshKey).0, e) == LegacyAnswer(d, e) != Get(d, e)
  {
    WithIdKeepsKey(d, {WriteKey}, freshId, e);
  }

  /** A `set` that stops at any step leaves `get` as it was, exactly on the disks that are not exposed. */
  lemma StoppedSetKeepsAnswer(d: Disk, e: Entry, freshId: string)
    requires FreshId(d, freshId)
    ensures
      (forall secret, faults, freshKey ::
         var (after, ok) := Set(d, e, secret, faults, freshId, freshKey);
         !ok ==> Get(after, e) == Get(d, e))
      <==> !Exposed(d, e)
  {
    forall secret, faults, freshKey
      ensures
        var (after, ok) := Set(d, e, secret, faults, freshId, freshKey);
        !ok && !Exposed(d, e) ==> Get(after, e) == Get(d, e)
    {
      StoppedSet(d, e, secret, faults, freshId, freshKey);
    }
    if Exposed(d, e) {
      ExposedSetChanges(d, e, Word(""), freshId, 0);
      assert !Set(d, e, Word(""), {WriteKey}, freshId, 0).1;
    }
  }

  /** With nothing of an earlier version beside the file, only a malformed key can change, to absent. */
  lemma StoppedSetWithoutLegacy(d: Disk, e: Entry, secret: Text, faults: set<Op>, freshId: string, freshKey: Key)
    requires FreshId(d, freshId) && (e in d.files ==> e !in d.creds)
    ensures
      var (after, ok) := Set(d, e, secret, faults, freshId, freshKey);
      !ok ==> Get(after, e) == Get(d, e) || (Get(d, e) == BadKey && Get(after, e) == Absent)
  {
    StoppedSet(d, e, secret, faults, freshId, freshKey);
  }

  // Deleting

  /** Nothing of the entry is left: no file, no value of an earlier version, no key under the current identity. */
  predicate Gone(d: Disk, e: Entry) {
    e !in d.files && e !in d.creds && KeyOf(d, e).Missing?
  }

  /**
   A `delete` that stops at any step leaves `get` as it was or absent, never
   an older value; one that succeeds leaves nothing, and repeating one that
   stopped, without further failures, completes it.
   */
  lemma DeleteNeverRevives(d: Disk, e: Entry, faults: set<Op>)
    ensures
      var (after, ok) := Delete(d, e, faults);
      && (Get(after, e) == Get(d, e) || Get(after, e) == Absent)
      && (ok ==> Gone(after, e) && Get(after, e) == Absent)
      && Delete(after, e, {}).1 && Gone(Delete(after, e, {}).0, e)
  {
    if StoreId(d.idFile).Some? {
      KeyEntryNotItself(StoreId(d.idFile).value, e);
    }
  }

  // The store as an object

  class Envelope {
    var files: map<Entry, Sealed>
    var idFile: Option<string>
    var creds: map<Entry, Text>

    ghost function View(): Disk
      reads this
    {
      Disk(files, idFile, creds)
    }

    constructor (creds: map<Entry, Text>)
      ensures View() == Disk(map[], None, creds)
    {
      files, idFile, this.creds := map[], None, creds;
    }

    method Read(e: Entry) returns (answer: Answer)
      ensures answer == Get(View(), e)
    {
      if e !in files {
        return if e in creds then Found(creds[e]) else Absent;
      }
      var id := StoreId(idFile);
      var stored := if id.Some? then ReadKey(creds, KeyEntry(id.value, e)) else Missing;
      match stored
      case Key(key) => return Open(key, e, files[e]);
      case Missing => return Absent;
      case Malformed => return BadKey;
    }

    method CreateStoreId(faults: set<Op>, freshId: string) returns (id: Option<string>)
      modifies this`idFile
      ensures View() == WithId(old(View()), faults, freshId)
      ensures id.None? <==> ReadId in faults || (StoreId(old(idFile)).None? && WriteId in faults)
      ensures id.Some? ==> id.value == if StoreId(old(idFile)).Some? then StoreId(old(idFile)).value else freshId
    {
      if ReadId in faults {
        return None;
      }
      if StoreId(idFile).Some? {
        return StoreId(idFile);
      }
      if WriteId in faults {
        return None;
      }
      idFile := Some(freshId);
      return Some(freshId);
    }

    method Write(e: Entry, secret: Text, faults: set<Op>, freshId: string, freshKey: Key) returns (ok: bool)
      modifies this
      ensures (View(), ok) == Set(old(View()), e, secret, faults, freshId, freshKey)
    {
      var id := CreateStoreId(faults, freshId);
      if id.None? || ReadKeyEntry in faults {
        return false;
      }
      var entry := KeyEntry(id.value, e);
      var key;
      match ReadKey(creds, entry) {
        case Key(stored) => key := stored;
        case _ =>
          if RemoveFile in faults {
            return false;
          }
          files := files - {e};
          if MakeKey in faults || WriteKey in faults {
            return false;
          }
          key := freshKey;
          creds := creds[entry := KeyText(key)];
      }
      var firstWrite := e !in files && ProbeFile !in faults;
      if WriteFile in faults {
        return false;
      }
      files := files[e := Box(key, e, secret)];
      if firstWrite && DeleteLegacy !in faults {
        creds := creds - {e};
      }
      return true;
    }

    method Remove(e: Entry, faults: set<Op>) returns (ok: bool)
      modifies this
      ensures (View(), ok) == Delete(old(View()), e, faults)
    {
      if DeleteLegacy in faults {
        return false;
      }
      creds := creds - {e};
      if RemoveFile in faults {
        return false;
      }
      files := files - {e};
      if ReadId in faults {
        return false;
      }
      var id := StoreId(idFile);
      if id.None? {
        return true;
      }
      if DeleteKey in faults {
        return false;
      }
      creds := creds - {KeyEntry(id.value, e)};
      return true;
    }
  }
}
