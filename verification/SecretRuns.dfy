/**
 Whole runs of the secret store: writes and deletes of any entries, stopping
 at any step, while credentials and the store identity are lost or spoiled. A
 well-formed key under the current identity always belongs to the file beside
 it, so no read ever finds a file its key does not open.
 */
module SecretRuns {
  import opened Common
  import opened SecretStore

  datatype Event =
    | Put(entry: Entry, secret: Text, faults: set<Op>, freshId: string, freshKey: Key)
    | Drop(entry: Entry, faults: set<Op>)
    | LoseCredential(name: Entry)
    | SpoilCredential(name: Entry, text: string)
    | LoseId
    | SpoilId(content: string)

  /** Generated identities are new; a spoiled identity is not well formed; only what exists is spoiled. */
  ghost predicate Possible(d: Disk, event: Event) {
    match event
    case Put(_, _, _, freshId, _) => FreshId(d, freshId)
    case SpoilCredential(name, _) => name in d.creds
    case SpoilId(content) => !IsStoreId(content)
    case _ => true
  }

  function Step(d: Disk, event: Event): Disk {
    match event
    case Put(e, secret, faults, freshId, freshKey) => Set(d, e, secret, faults, freshId, freshKey).0
    case Drop(e, faults) => Delete(d, e, faults).0
    case LoseCredential(name) => d.(creds := d.creds - {name})
    case SpoilCredential(name, text) => d.(creds := d.creds[name := Word(text)])
    case LoseId => d.(idFile := None)
    case SpoilId(content) => d.(idFile := Some(content))
  }

  function Run(d: Disk, events: seq<Event>): Disk {
    if events == [] then d
    else Step(Run(d, events[..|events| - 1]), events[|events| - 1])
  }

  ghost predicate PossibleRun(d: Disk, events: seq<Event>) {
    forall i :: 0 <= i < |events| ==> Possible(Run(d, events[..i]), events[i])
  }

  /** Every well-formed key under the current identity seals the file beside it, for its entry. */
  ghost predicate KeysFit(d: Disk) {
    forall e :: e in d.files && KeyOf(d, e).Key? ==>
      d.files[e].Box? && d.files[e].key == KeyOf(d, e).key && d.files[e].entry == e
  }

  lemma WithIdKeysFit(d: Disk, faults: set<Op>, freshId: string)
    requires KeysFit(d) && FreshId(d, freshId)
    ensures KeysFit(WithId(d, faults, freshId))
  {
    forall e
      ensures KeyOf(WithId(d, faults, freshId), e) == KeyOf(d, e)
    {
      WithIdKeepsKey(d, faults, freshId, e);
    }
  }

  /** Fewer credentials leave fewer well-formed keys. */
  lemma FewerCredentials(d: Disk, names: set<Entry>)
    requires KeysFit(d)
    ensures KeysFit(d.(creds := d.creds - names))
  {
  }

  lemma ReplacedKeysFit(d: Disk, id: string, e: Entry, key: Key, secret: Text, faults: set<Op>)
    requires KeysFit(d) && StoreId(d.idFile) == Some(id) && ReadKey(d.creds, KeyEntry(id, e)) == StoredKey.Key(key)
    ensures KeysFit(Replaced(d, e, key, secret, faults).0)
  {
    var written := d.(files := d.files[e := Box(key, e, secret)]);
    assert KeysFit(written);
    FewerCredentials(written, {e});
  }

  /** A new key is stored only where there is no file. */
  lemma RekeyedKeysFit(d: Disk, id: string, e: Entry, key: Key)
    requires KeysFit(d) && StoreId(d.idFile) == Some(id)
    ensures KeysFit(d.(files := d.files - {e}))
    ensures KeysFit(d.(files := d.files - {e}, creds := d.creds[KeyEntry(id, e) := KeyText(key)]))
  {
    var cleared := d.(files := d.files - {e});
    var after := cleared.(creds := cleared.creds[KeyEntry(id, e) := KeyText(key)]);
    forall other | other in after.files
      ensures KeyOf(after, other) == KeyOf(d, other) && other in d.files && other != e
    {
      if KeyEntry(id, other) == KeyEntry(id, e) {
        KeyEntryInjective(id, other, id, e);
      }
    }
  }

  lemma SetKeysFit(d: Disk, e: Entry, secret: Text, faults: set<Op>, freshId: string, freshKey: Key)
    requires KeysFit(d) && FreshId(d, freshId)
    ensures KeysFit(Set(d, e, secret, faults, freshId, freshKey).0)
  {
    var identified := WithId(d, faults, freshId);
    WithIdKeysFit(d, faults, freshId);
    if StoreId(identified.idFile).Some? {
      var id := StoreId(identified.idFile).value;
      RekeyedKeysFit(identified, id, e, freshKey);
      var keyed := identified.(files := identified.files - {e},
                               creds := identified.creds[KeyEntry(id, e) := KeyText(freshKey)]);
      match ReadKey(identified.creds, KeyEntry(id, e))
      case Key(key) => ReplacedKeysFit(identified, id, e, key, secret, faults);
      case _ => ReplacedKeysFit(keyed, id, e, freshKey, secret, faults);
    }
  }

  lemma DeleteKeysFit(d: Disk, e: Entry, faults: set<Op>)
    requires KeysFit(d)
    ensures KeysFit(Delete(d, e, faults).0)
  {
    var noLegacy := d.(creds := d.creds - {e});
    FewerCredentials(d, {e});
    var noFile := noLegacy.(files := noLegacy.files - {e});
    assert KeysFit(noFile);
    if StoreId(d.idFile).Some? {
      FewerCredentials(noFile, {KeyEntry(StoreId(d.idFile).value, e)});
    }
  }

  /** Every step keeps keys and files together. */
  lemma StepKeysFit(d: Disk, event: Event)
    requires KeysFit(d) && Possible(d, event)
    ensures KeysFit(Step(d, event))
  {
    match event
    case Put(e, secret, faults, freshId, freshKey) => SetKeysFit(d, e, secret, faults, freshId, freshKey);
    case Drop(e, faults) => DeleteKeysFit(d, e, faults);
    case LoseCredential(name) => FewerCredentials(d, {name});
    case SpoilCredential(name, text) =>
      var after := Step(d, event);
      forall e | KeyOf(after, e).Key?
        ensures KeyOf(after, e) == KeyOf(d, e)
      {
      }
    case LoseId =>
    case SpoilId(content) =>
  }

  /**
   In every run from a store without files, whatever fails, is lost or is
   spoiled, keys and files fit, and no entry answers that its file does not
   open.
   */
  lemma {:induction false} RunKeysFit(d: Disk, events: seq<Event>)
    requires d.files == map[] && PossibleRun(d, events)
    ensures KeysFit(Run(d, events))
    ensures forall e :: Get(Run(d, events), e) != Unopened
  {
    if events != [] {
      var n := |events| - 1;
      assert PossibleRun(d, events[..n]) by {
        forall i | 0 <= i < n
          ensures Possible(Run(d, events[..n][..i]), events[..n][i])
        {
          assert events[..n][..i] == events[..i];
        }
      }
      RunKeysFit(d, events[..n]);
      StepKeysFit(Run(d, events[..n]), events[n]);
    }
  }

  /**
   Replacing a secret does not promise what deleting one does: after a
   clean-up that failed, a lost key and a write that stops, `get` answers the
   value of the earlier version again.
   */
  lemma StaleValueCanReturn(d: Disk, e: Entry, secret: Text, freshId: string, freshKey: Key)
    requires e !in d.files && e in d.creds && StoreId(d.idFile).None? && FreshId(d, freshId)
    requires d.creds[e] != secret
    ensures
      var stored := Step(d, Put(e, secret, {DeleteLegacy}, freshId, freshKey));
      var lost := Step(stored, LoseCredential(KeyEntry(freshId, e)));
      var stopped := Step(lost, Put(e, secret, {WriteKey}, freshId, freshKey));
      && Get(stored, e) == Found(secret)
      && Get(lost, e) == Absent
      && Get(stopped, e) == Found(d.creds[e]) != Found(secret)
  {
    KeyEntryNotItself(freshId, e);
    SetReadsBack(d, e, secret, {DeleteLegacy}, freshId, freshKey);
  }
}
