/**
 * The configuration file on disk (crates/rachat-config/src/file_config.rs):
 * the one source that can be written and watched.
 *
 * It keeps the flattened file contents in memory and three watch indices:
 * id to notifier, id to watched key and key to the set of ids watching it.
 * Reading and writing the file, the TOML format and the file-system watcher
 * are outside the model: the parsed document (or the error reading it) and
 * the outcome of writing are parameters.
 */
module FileSource {
  import opened Wrappers
  import opened Json
  import opened Errors
  import opened IdGenerator
  import opened Watch
  import De
  import opened Ser

  /** The ids watching `path`. */
  function Listeners(pathListeners: map<string, set<Id>>, path: string): set<Id> {
    if path in pathListeners then pathListeners[path] else {}
  }

  /** `path_listeners.entry(path).or_default().insert(id)` */
  function AddListener(pathListeners: map<string, set<Id>>, path: string, id: Id): map<string, set<Id>> {
    pathListeners[path := Listeners(pathListeners, path) + {id}]
  }

  /** Lines 189-195: take `id` out of the set of `path`, and drop the path
      once its set is empty. */
  function RemoveListener(pathListeners: map<string, set<Id>>, path: string, id: Id): map<string, set<Id>> {
    if path !in pathListeners then pathListeners
    else if pathListeners[path] - {id} == {} then pathListeners - {path}
    else pathListeners[path := pathListeners[path] - {id}]
  }

  /** The three watch indices agree: an id watches a path exactly when the
      path's set holds the id, no path keeps an empty set, and every watching
      id has a notifier. */
  ghost predicate Indexed(pathListeners: map<string, set<Id>>, notifiers: map<Id, string>, idToNotifies: map<Id, Notify>) {
    && (forall id :: id in notifiers ==> notifiers[id] in pathListeners && id in pathListeners[notifiers[id]])
    && (forall p, id :: p in pathListeners && id in pathListeners[p] ==> id in notifiers && notifiers[id] == p)
    && (forall p :: p in pathListeners ==> pathListeners[p] != {})
    && notifiers.Keys <= idToNotifies.Keys
  }

  /** Lines 165-176: registering a watch under an id not yet in use keeps the
      indices consistent, and the new id then watches exactly `key`. */
  lemma WatchKeepsIndexed(pathListeners: map<string, set<Id>>, notifiers: map<Id, string>, idToNotifies: map<Id, Notify>,
                          id: Id, key: string, notify: Notify)
    requires Indexed(pathListeners, notifiers, idToNotifies) && id !in notifiers
    ensures Indexed(AddListener(pathListeners, key, id), notifiers[id := key], idToNotifies[id := notify])
    ensures forall p :: id in Listeners(AddListener(pathListeners, key, id), p) <==> p == key
  {
  }

  /** Lines 165-176 with an id already in use: a watch on `"a"` re-registered
      for `"b"` leaves the id in the set of `"a"` while it now watches `"b"`,
      so the indices no longer agree. */
  lemma WatchCollisionBreaksIndexed(id: Id, notify: Notify)
    ensures Indexed(map["a" := {id}], map[id := "a"], map[id := notify])
    ensures !Indexed(AddListener(map["a" := {id}], "b", id), map[id := "a"][id := "b"], map[id := notify][id := notify])
  {
    var pl := AddListener(map["a" := {id}], "b", id);
    assert "a" in pl && id in pl["a"];
    assert map[id := "a"][id := "b"][id] == "b";
  }

  /** Lines 185-195: removing a registered watch keeps the indices
      consistent, and the id then watches nothing. The notifier stays. */
  lemma DeleteKeepsIndexed(pathListeners: map<string, set<Id>>, notifiers: map<Id, string>, idToNotifies: map<Id, Notify>, id: Id)
    requires Indexed(pathListeners, notifiers, idToNotifies) && id in notifiers
    ensures Indexed(RemoveListener(pathListeners, notifiers[id], id), notifiers - {id}, idToNotifies)
    ensures forall p :: id !in Listeners(RemoveListener(pathListeners, notifiers[id], id), p)
  {
    var pl := RemoveListener(pathListeners, notifiers[id], id);
    var nf := notifiers - {id};
    forall i | i in nf ensures nf[i] in pl && i in pl[nf[i]] {
      assert notifiers[i] in pathListeners && i in pathListeners[notifiers[i]];
      if notifiers[i] == notifiers[id] {
        assert i in pathListeners[notifiers[id]] - {id};
      }
    }
  }

  function Lookup(m: map<string, Value>, key: string): Option<Value> {
    if key in m then Some(m[key]) else None
  }

  /** The keys a reload changes: present on one side only, or present on
      both with different values. */
  ghost function ChangedKeys(before: map<string, Value>, after: map<string, Value>): set<string> {
    set k | k in before.Keys + after.Keys && Lookup(before, k) != Lookup(after, k)
  }

  /** Line 78: a key counts as changed when it appears or disappears, or when
      its value differs. */
  lemma ChangedKeysMeaning(before: map<string, Value>, after: map<string, Value>, k: string)
    ensures k in ChangedKeys(before, after) <==>
              (k in before) != (k in after) || (k in before && k in after && before[k] != after[k])
  {
  }

  /** Reloading identical contents notifies no one. */
  lemma ReloadUnchangedNothingChanged(contents: map<string, Value>)
    ensures ChangedKeys(contents, contents) == {}
  {
  }

  lemma ChangedStep(before: map<string, Value>, after: map<string, Value>, keyset: set<string>, key: string)
    requires key in keyset
    ensures ChangedKeys(before, after) - (keyset - {key}) ==
              if Lookup(before, key) != Lookup(after, key) && key in before.Keys + after.Keys
              then (ChangedKeys(before, after) - keyset) + {key}
              else ChangedKeys(before, after) - keyset
  {
  }

  /** No serialisation of the contents fails, then the write decides. */
  function Saved(document: Result<Value, Error>, write: Result<(), Error>): Result<(), Error> {
    if document.Failure? then Failure(document.error) else write
  }

  class FileConfig {
    var config: map<string, Value>
    var pathListeners: map<string, set<Id>>
    var notifiers: map<Id, string>
    var idToNotifies: map<Id, Notify>
    /** Whether a `Weak` reference to the file source can still be upgraded. */
    var alive: bool

    constructor(config: map<string, Value>)
      ensures this.config == config && alive
      ensures pathListeners == map[] && notifiers == map[] && idToNotifies == map[]
    {
      this.config := config;
      pathListeners := map[];
      notifiers := map[];
      idToNotifies := map[];
      alive := true;
    }

    ghost predicate Consistent()
      reads this
    {
      Indexed(pathListeners, notifiers, idToNotifies)
    }

    /** The notifiers of the given ids, for the ids that have one. */
    ghost function NotifiersOf(ids: set<Id>): set<Notify>
      reads this
    {
      set id | id in ids && id in idToNotifies :: idToNotifies[id]
    }

    /** The notifiers `notify_path(path)` reaches. */
    ghost function NotifiedBy(path: string): set<Notify>
      reads this
    {
      NotifiersOf(Listeners(pathListeners, path))
    }

    /** The notifiers reached by notifying every path of `paths`. */
    ghost function NotifiedByAny(paths: set<string>): set<Notify>
      reads this
    {
      set p, n | p in paths && n in NotifiedBy(p) :: n
    }

    lemma NotifiedByAnyAdd(paths: set<string>, path: string)
      ensures NotifiedByAny(paths + {path}) == NotifiedByAny(paths) + NotifiedBy(path)
    {
    }

    /** Lines 134-136: the in-memory entry, never an error. */
    function GetValue(key: string): (r: Result<Option<Value>, Error>)
      reads this
      ensures r.Success?
      ensures r.value.Some? <==> key in config
      ensures r.value.Some? ==> r.value.value == config[key]
    {
      Success(Lookup(config, key))
    }

    predicate IsWriteable() {
      true
    }

    /** `notify_path`: every listener of `path` with a notifier gets
        notified; a listener without one is only logged. */
    method NotifyPath(path: string)
      modifies idToNotifies.Values
      ensures forall n :: n in idToNotifies.Values ==> n.permit == (old(n.permit) || n in NotifiedBy(path))
    {
      var ids := Listeners(pathListeners, path);
      var todo := ids;
      while todo != {}
        invariant todo <= ids
        invariant forall n :: n in idToNotifies.Values ==> n.permit == (old(n.permit) || n in NotifiersOf(ids - todo))
        decreases todo
      {
        var id :| id in todo;
        ghost var done := ids - todo;
        if id in idToNotifies {
          idToNotifies[id].NotifyOne();
        }
        todo := todo - {id};
        assert ids - todo == done + {id};
      }
    }

    /** `notify_change`: reload the file, replace the contents and notify the
        listeners of every key whose entry changed. A failed reload returns
        its error and changes nothing. */
    method NotifyChange(reread: Result<Value, Error>) returns (r: Result<(), Error>)
      modifies this, idToNotifies.Values
      ensures pathListeners == old(pathListeners) && notifiers == old(notifiers)
      ensures idToNotifies == old(idToNotifies) && alive == old(alive)
      ensures reread.Failure? ==> r == Failure(reread.error) && config == old(config)
      ensures reread.Failure? ==> forall n :: n in idToNotifies.Values ==> n.permit == old(n.permit)
      ensures reread.Success? ==> r == Success(()) && De.IsFlattening(reread.value, config)
      ensures reread.Success? ==> forall n :: n in idToNotifies.Values ==>
                n.permit == (old(n.permit) || n in NotifiedByAny(ChangedKeys(old(config), config)))
    {
      if reread.Failure? {
        return Failure(reread.error);
      }
      var newConfig := De.Deserialize(reread.value);
      var oldConfig := config;
      config := newConfig;
      var keyset := newConfig.Keys + oldConfig.Keys;
      ghost var all := keyset;
      while keyset != {}
        invariant keyset <= all && all == newConfig.Keys + oldConfig.Keys
        invariant config == newConfig
        invariant pathListeners == old(pathListeners) && notifiers == old(notifiers)
        invariant idToNotifies == old(idToNotifies) && alive == old(alive)
        invariant forall n :: n in idToNotifies.Values ==>
                    n.permit == (old(n.permit) || n in NotifiedByAny(ChangedKeys(oldConfig, newConfig) - keyset))
        decreases keyset
      {
        var key :| key in keyset;
        ghost var done := ChangedKeys(oldConfig, newConfig) - keyset;
        ChangedStep(oldConfig, newConfig, keyset, key);
        if Lookup(newConfig, key) != Lookup(oldConfig, key) {
          NotifyPath(key);
          NotifiedByAnyAdd(done, key);
        }
        keyset := keyset - {key};
      }
      r := Success(());
    }

    /** `set_value`: the entry is stored and its listeners notified before the
        contents are serialised and written; a failure of either is returned
        with the stored entry kept. */
    method SetValue(key: string, value: Value, write: Result<(), Error>) returns (r: Result<(), Error>)
      modifies this, idToNotifies.Values
      ensures config == old(config)[key := value]
      ensures pathListeners == old(pathListeners) && notifiers == old(notifiers)
      ensures idToNotifies == old(idToNotifies) && alive == old(alive)
      ensures GetValue(key) == Success(Some(value))
      ensures forall k :: k != key ==> GetValue(k) == old(GetValue(k))
      ensures forall n :: n in idToNotifies.Values ==> n.permit == (old(n.permit) || n in NotifiedBy(key))
      ensures exists order :: Enumerates(order, config.Keys) && r == Saved(InsertAll(EmptyObject, config, order), write)
      ensures LeafValues(config) ==> (r.Success? <==> PrefixFree(config.Keys) && write.Success?)
    {
      config := config[key := value];
      NotifyPath(key);
      var document, order := Serialize(config);
      if document.Failure? {
        r := Failure(document.error);
      } else {
        r := write;
      }
      if LeafValues(config) {
        SerializeSpec(config, order);
      }
    }

    /** `delete_inner`: like `set_value`, with the entry removed. */
    method DeleteInner(key: string, write: Result<(), Error>) returns (r: Result<(), Error>)
      modifies this, idToNotifies.Values
      ensures config == old(config) - {key}
      ensures pathListeners == old(pathListeners) && notifiers == old(notifiers)
      ensures idToNotifies == old(idToNotifies) && alive == old(alive)
      ensures GetValue(key) == Success(None)
      ensures forall k :: k != key ==> GetValue(k) == old(GetValue(k))
      ensures forall n :: n in idToNotifies.Values ==> n.permit == (old(n.permit) || n in NotifiedBy(key))
      ensures exists order :: Enumerates(order, config.Keys) && r == Saved(InsertAll(EmptyObject, config, order), write)
      ensures LeafValues(config) ==> (r.Success? <==> PrefixFree(config.Keys) && write.Success?)
    {
      config := config - {key};
      NotifyPath(key);
      var document, order := Serialize(config);
      if document.Failure? {
        r := Failure(document.error);
      } else {
        r := write;
      }
      if LeafValues(config) {
        SerializeSpec(config, order);
      }
    }

    /** `watch_property_with_notify`: a new id is recorded in all three
        indices. */
    method WatchPropertyWithNotify(key: string, notify: Notify, gen: Generator, now: Instant)
      returns (h: WatcherHandle<FileConfig>)
      requires now.secs >= 0
      modifies this, gen
      ensures gen.counter == (old(gen.counter) + 1) % TwoTo16 && gen.draws == old(gen.draws) + 1
      ensures h == WatcherHandle(Pack(Nanos(now), gen.node, gen.thread, old(gen.counter)), this, notify)
      ensures gen.last == h.watchId
      ensures idToNotifies == old(idToNotifies)[h.watchId := notify]
      ensures notifiers == old(notifiers)[h.watchId := key]
      ensures pathListeners == AddListener(old(pathListeners), key, h.watchId)
      ensures config == old(config) && alive == old(alive)
      ensures old(Consistent()) && h.watchId !in old(notifiers) ==> Consistent()
    {
      var generated := gen.Generate(now);
      var id := generated.value;
      idToNotifies := idToNotifies[id := notify];
      notifiers := notifiers[id := key];
      pathListeners := pathListeners[key := Listeners(pathListeners, key) + {id}];
      h := WatcherHandle(id, this, notify);
      if old(Consistent()) && id !in old(notifiers) {
        WatchKeepsIndexed(old(pathListeners), old(notifiers), old(idToNotifies), id, key, notify);
      }
    }

    /** `delete_watcher`: an unknown id returns at once; a known one is taken
        out of `notifiers` and of its path's set, its notifier is left in
        place, and the method then reaches `todo!()`. */
    method DeleteWatcher(id: Id) returns (o: Outcome)
      modifies this
      ensures id !in old(notifiers) ==> o == Completed && unchanged(this)
      ensures id in old(notifiers) ==> && o == Panicked
                                       && notifiers == old(notifiers) - {id}
                                       && pathListeners == RemoveListener(old(pathListeners), old(notifiers)[id], id)
      ensures idToNotifies == old(idToNotifies) && config == old(config) && alive == old(alive)
      ensures old(Consistent()) ==> Consistent()
    {
      if id !in notifiers {
        return Completed;
      }
      var path := notifiers[id];
      notifiers := notifiers - {id};
      if path in pathListeners {
        var ids := pathListeners[path] - {id};
        if ids == {} {
          pathListeners := pathListeners - {path};
        } else {
          pathListeners := pathListeners[path := ids];
        }
      }
      if old(Consistent()) {
        DeleteKeepsIndexed(old(pathListeners), old(notifiers), old(idToNotifies), id);
      }
      o := Panicked;
    }

    /** The last strong reference goes away: weak references no longer
        upgrade. */
    method Release()
      modifies this
      ensures !alive
      ensures config == old(config) && pathListeners == old(pathListeners)
      ensures notifiers == old(notifiers) && idToNotifies == old(idToNotifies)
    {
      alive := false;
    }
  }

  /** `FileConfig::new`: the contents are the flattening of the document
      read; a failure to read it or to start watching it is returned. */
  method NewFileConfig(read: Result<Value, Error>, watcher: Result<(), Error>) returns (r: Result<FileConfig, Error>)
    ensures read.Failure? ==> r == Failure(read.error)
    ensures read.Success? && watcher.Failure? ==> r == Failure(watcher.error)
    ensures read.Success? && watcher.Success? ==> && r.Success? && fresh(r.value)
                                                  && De.IsFlattening(read.value, r.value.config)
                                                  && r.value.Consistent() && r.value.notifiers == map[]
                                                  && r.value.idToNotifies == map[] && r.value.alive
  {
    if read.Failure? {
      return Failure(read.error);
    }
    var contents := De.Deserialize(read.value);
    if watcher.Failure? {
      return Failure(watcher.error);
    }
    var file := new FileConfig(contents);
    r := Success(file);
  }
}
