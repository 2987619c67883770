/**
 * The layered configuration (crates/rachat-config/src/lib.rs): every kind of
 * source behind one interface, the overlay that puts one source on top of
 * another, the drop of a watcher handle, and the global configuration
 * built from the platform, packaged and file sources.
 *
 * A source is a `Source` value naming the object behind it. An overlay keeps
 * its two sources, and for every watch it has handed out the pair of handles
 * it took from them. Ghost constants record each overlay's height and the
 * overlays and files below it; they give the frames and the termination
 * measure of the recursion through the layers.
 */
module Config {
  import opened Wrappers
  import opened Json
  import opened Errors
  import opened IdGenerator
  import opened Watch
  import opened Ser
  import opened StaticSource
  import opened PlatformSource
  import opened FileSource

  /** The watch bookkeeping of a layering, level by level: a file source's
      three indices with its contents, and an overlay's entries. */
  datatype Bookkeeping =
    | FileBook(notifiers: map<Id, string>, idToNotifies: map<Id, Notify>, pathListeners: map<string, set<Id>>,
               contents: map<string, Value>, alive: bool)
    | OverlayBook(entries: map<Id, (WatcherHandle<Source>, WatcherHandle<Source>)>, alive: bool,
                  parent: Bookkeeping, source: Bookkeeping)
    | NoBook

  /** `dyn ConfigSource`: one of the four kinds of source. */
  datatype Source = Static(st: StaticConfig) | Platform(pl: PlatformConfig) | File(file: FileConfig) | Layered(overlay: Overlay)
  {
    /** The height of the layering: 0 for a plain source. */
    ghost function Level(): nat {
      if Layered? then overlay.level else 0
    }

    /** Every overlay in the layering records its height and what lies below
        it correctly. */
    ghost predicate WellFormed()
      decreases Level()
    {
      match this
      case Layered(ov) =>
        && ov.parent.Level() < ov.level && ov.source.Level() < ov.level
        && ov.parent.WellFormed() && ov.source.WellFormed()
        && ov.below == ov.parent.Overlays() + ov.source.Overlays()
        && ov.files == ov.parent.Files() + ov.source.Files()
      case _ => true
    }

    /** The overlays in the layering. */
    ghost function Overlays(): set<Overlay> {
      if Layered? then {overlay} + overlay.below else {}
    }

    /** The file sources in the layering. */
    ghost function Files(): set<FileConfig> {
      match this
      case File(f) => {f}
      case Layered(ov) => ov.files
      case _ => {}
    }

    /** The objects a watch or a watch removal may change. */
    ghost function Footprint(): set<object> {
      var overlays: set<object> := Overlays();
      overlays + Files()
    }

    /** The object a weak reference to this source points to. */
    ghost function Obj(): set<object> {
      match this
      case Static(s) => {s}
      case Platform(p) => {p}
      case File(f) => {f}
      case Layered(ov) => {ov}
    }

    /** `Weak::upgrade` succeeds. */
    predicate Alive()
      reads Obj()
    {
      match this
      case Static(s) => s.alive
      case Platform(p) => p.alive
      case File(f) => f.alive
      case Layered(ov) => ov.alive
    }

    /** A well-formed layering whose overlays all hold handles from their own
        two sources. */
    ghost predicate Valid()
      reads Overlays()
    {
      WellFormed() && forall ov {:trigger ov.EntriesValid()} :: ov in Overlays() ==> ov.EntriesValid()
    }

    /** No overlay in the layering shares an overlay or a file between its
        parent and its source. */
    ghost predicate Separated()
      requires WellFormed()
      decreases Level()
    {
      Layered? ==> && overlay.parent.Footprint() !! overlay.source.Footprint()
                   && overlay.parent.Separated() && overlay.source.Separated()
    }

    /** Whether `delete_watcher(id)` reaches `todo!()`: the file source knows
        the id, or an overlay knows it and dropping one of its two handles
        reaches a live source that panics. */
    ghost predicate Panics(id: Id): (p: bool)
      requires Valid()
      reads Overlays(), Files()
      decreases Level()
      ensures p ==> File? || Layered?
    {
      match this
      case File(f) => id in f.notifiers
      case Layered(ov) =>
        Below(ov);
        ValidSplit(ov);
        && id in ov.notifiers
        && (|| (ov.parent.Panics(ov.notifiers[id].0.watchId) && ov.parent.Alive())
            || (ov.source.Panics(ov.notifiers[id].1.watchId) && ov.source.Alive()))
      case _ => false
    }

    /** The watch bookkeeping of every level of the layering. */
    ghost function Book(): Bookkeeping
      requires WellFormed()
      reads Overlays(), Files()
      decreases Level()
    {
      match this
      case File(f) => FileBook(f.notifiers, f.idToNotifies, f.pathListeners, f.config, f.alive)
      case Layered(ov) =>
        Below(ov);
        OverlayBook(ov.notifiers, ov.alive, ov.parent.Book(), ov.source.Book())
      case _ => NoBook
    }

    /** The number of sources and overlays in the layering, counted once per
        occurrence: a watch draws that many ids. */
    ghost function Size(): nat
      requires WellFormed()
      decreases Level()
    {
      if Layered? then 1 + overlay.parent.Size() + overlay.source.Size() else 1
    }

    /** The source that writes go to: the leftmost plain source, following
        each overlay's main source. */
    ghost function Primary(): (p: Source)
      requires WellFormed()
      decreases Level()
      ensures !p.Layered?
      ensures p.File? ==> p.file in Files()
    {
      if Layered? then overlay.source.Primary() else this
    }

    /** The plain sources in the order a lookup consults them. */
    ghost function Layers(): (ls: seq<Source>)
      requires WellFormed()
      decreases Level()
      ensures |ls| >= 1 && ls[0] == Primary()
      ensures forall i :: 0 <= i < |ls| ==> !ls[i].Layered? && ls[i].Files() <= Files()
    {
      if Layered? then overlay.source.Layers() + overlay.parent.Layers() else [this]
    }

    /** `get_value`: a plain source's lookup, or the overlay's. */
    function GetValue(key: string): (r: Result<Option<Value>, Error>)
      requires WellFormed()
      reads Files()
      decreases Level(), 1
      ensures r.Success?
    {
      match this
      case Static(s) => s.GetValue(key)
      case Platform(p) => p.GetValue(key)
      case File(f) => f.GetValue(key)
      case Layered(ov) => ov.GetValue(key)
    }

    /** `is_writeable`: only the file source can be written; an overlay asks its
        main source. The static and platform sources keep the default. */
    predicate IsWriteable(): (w: bool)
      requires WellFormed()
      decreases Level(), 1
      ensures w <==> Primary().File?
    {
      match this
      case File(_) => true
      case Layered(ov) => ov.IsWriteable()
      case _ => false
    }

    /** The objects a write may change: the primary file source and its
        notifiers. */
    ghost function WriteFrame(): set<object>
      requires WellFormed()
      reads Files()
    {
      var p := Primary();
      if p.File? then {p.file} + p.file.idToNotifies.Values else {}
    }

    /** `set_value`: the static and platform sources refuse with the default
        error; the file source stores and saves; an overlay passes the write
        to its main source. */
    method SetValue(key: string, value: Value, write: Result<(), Error>) returns (r: Result<(), Error>)
      requires WellFormed()
      modifies WriteFrame()
      decreases Level(), 1
      ensures !IsWriteable() ==> r == Failure(NotWriteable)
      ensures IsWriteable() ==> WrittenThrough(key, Some(value), write, r)
      ensures IsWriteable() ==> GetValue(key) == Success(Some(value))
    {
      match this
      case Static(_) =>
        r := Failure(NotWriteable);
      case Platform(_) =>
        r := Failure(NotWriteable);
      case File(f) =>
        r := f.SetValue(key, value, write);
      case Layered(ov) =>
        r := ov.SetValue(key, value, write);
    }

    /** `delete_inner`: as `set_value`, removing the entry. */
    method DeleteInner(key: string, write: Result<(), Error>) returns (r: Result<(), Error>)
      requires WellFormed()
      modifies WriteFrame()
      decreases Level(), 1
      ensures !IsWriteable() ==> r == Failure(NotWriteable)
      ensures IsWriteable() ==> WrittenThrough(key, None, write, r)
    {
      match this
      case Static(_) =>
        r := Failure(NotWriteable);
      case Platform(_) =>
        r := Failure(NotWriteable);
      case File(f) =>
        r := f.DeleteInner(key, write);
      case Layered(ov) =>
        r := ov.DeleteInner(key, write);
    }

    /** What a write that reached the primary file source did: the entry of
        `key` is `value` (None: removed), the other entries are kept, the
        listeners of `key` were notified, and the result is that of
        serialising the new map in some order and saving it; for leaf values
        the write succeeds exactly when the keys still fit one document and
        the file could be saved. */
    twostate predicate WrittenThrough(key: string, value: Option<Value>, write: Result<(), Error>, new r: Result<(), Error>)
      requires WellFormed() && IsWriteable()
      reads Files(), Primary().file.idToNotifies.Values
    {
      var f := Primary().file;
      && f.config == (if value.Some? then old(f.config)[key := value.value] else old(f.config) - {key})
      && f.pathListeners == old(f.pathListeners) && f.notifiers == old(f.notifiers)
      && f.idToNotifies == old(f.idToNotifies) && f.alive == old(f.alive)
      && (forall n :: n in f.idToNotifies.Values ==> n.permit == (old(n.permit) || n in f.NotifiedBy(key)))
      && (exists order :: Enumerates(order, f.config.Keys) && r == Saved(InsertAll(EmptyObject, f.config, order), write))
      && (LeafValues(f.config) ==> (r.Success? <==> PrefixFree(f.config.Keys) && write.Success?))
    }

    /** `watch_property_with_notify`: the handle belongs to this source and
        carries `notify`; a watch on a layering of `Size()` parts draws that
        many ids, the last of them for the handle returned. */
    method WatchPropertyWithNotify(key: string, notify: Notify, gen: Generator, now: Instant) returns (h: Handle)
      requires Valid() && now.secs >= 0
      modifies Footprint(), gen
      decreases Level(), 3
      ensures Valid()
      ensures h.config == this && h.notify == notify
      ensures gen.draws == old(gen.draws) + Size()
      ensures h.watchId == gen.last
      ensures !Layered? ==> h.watchId == Pack(Nanos(now), gen.node, gen.thread, old(gen.counter))
      ensures File? ==> && file.notifiers == old(file.notifiers)[h.watchId := key]
                        && file.idToNotifies == old(file.idToNotifies)[h.watchId := notify]
                        && file.pathListeners == FileSource.AddListener(old(file.pathListeners), key, h.watchId)
                        && file.config == old(file.config) && file.alive == old(file.alive)
                        && (old(file.Consistent()) && h.watchId !in old(file.notifiers) ==> file.Consistent())
      ensures Layered? ==> && h.watchId in overlay.notifiers
                           && overlay.notifiers == old(overlay.notifiers)[h.watchId := overlay.notifiers[h.watchId]]
      ensures forall f :: f in Files() ==> f.config == old(f.config) && f.alive == old(f.alive)
      ensures Separated() ==> Watched(old(Book()), Book(), key, notify, h.watchId)
      ensures Separated() ==> forall f :: f in Files() ==> Listens(f, key, notify)
    {
      match this {
        case Static(s) =>
          var sh := s.WatchPropertyWithNotify(key, notify, gen, now);
          h := WatcherHandle(sh.watchId, this, notify);
        case Platform(p) =>
          var ph := p.WatchPropertyWithNotify(key, notify, gen, now);
          h := WatcherHandle(ph.watchId, this, notify);
        case File(f) =>
          var fh := f.WatchPropertyWithNotify(key, notify, gen, now);
          h := WatcherHandle(fh.watchId, this, notify);
        case Layered(ov) =>
          h := ov.WatchPropertyWithNotify(key, notify, gen, now);
      }
      if Separated() {
        WatchedFiles(this, old(Book()), key, notify, h.watchId);
      }
    }

    /** `watch_property`: a watch with a notifier of its own, which holds no
        permit yet. */
    method WatchProperty(key: string, gen: Generator, now: Instant) returns (h: Handle)
      requires Valid() && now.secs >= 0
      modifies Footprint(), gen
      ensures Valid()
      ensures h.config == this && fresh(h.notify) && !h.notify.permit
      ensures gen.draws == old(gen.draws) + Size()
      ensures h.watchId == gen.last
      ensures !Layered? ==> h.watchId == Pack(Nanos(now), gen.node, gen.thread, old(gen.counter))
      ensures File? ==> && file.notifiers == old(file.notifiers)[h.watchId := key]
                        && file.idToNotifies == old(file.idToNotifies)[h.watchId := h.notify]
                        && file.pathListeners == FileSource.AddListener(old(file.pathListeners), key, h.watchId)
                        && file.config == old(file.config) && file.alive == old(file.alive)
                        && (old(file.Consistent()) && h.watchId !in old(file.notifiers) ==> file.Consistent())
      ensures Layered? ==> && h.watchId in overlay.notifiers
                           && overlay.notifiers == old(overlay.notifiers)[h.watchId := overlay.notifiers[h.watchId]]
      ensures forall f :: f in Files() ==> f.config == old(f.config) && f.alive == old(f.alive)
      ensures Separated() ==> Watched(old(Book()), Book(), key, h.notify, h.watchId)
      ensures Separated() ==> forall f :: f in Files() ==> Listens(f, key, h.notify)
    {
      var notify := new Notify();
      assert unchanged(Overlays()) && unchanged(Files());
      h := WatchPropertyWithNotify(key, notify, gen, now);
    }

    /** `delete_watcher`: nothing for the static and platform sources; the
        file source's bookkeeping and `todo!()`; an overlay forgets the id and
        drops the two handles it held for it. An unknown id changes nothing,
        and the file indices stay consistent. */
    method DeleteWatcher(id: Id) returns (o: Outcome)
      requires Valid()
      modifies Footprint()
      decreases Level(), 3
      ensures Valid()
      ensures Forgot(this, id)
      ensures Static? || Platform? ==> o == Completed
      ensures File? ==> (o == Panicked <==> id in old(file.notifiers))
      ensures Separated() ==> (o == Panicked <==> old(Panics(id)))
      ensures File? && id !in old(file.notifiers) ==> unchanged(Footprint())
      ensures Layered? && id !in old(overlay.notifiers) ==> o == Completed && unchanged(Footprint())
      ensures Layered? && id in old(overlay.notifiers) && Separated() ==>
                Dropped(old(overlay.notifiers)[id].0) && Dropped(old(overlay.notifiers)[id].1)
      ensures forall f :: f in Files() && old(f.Consistent()) ==> f.Consistent()
    {
      match this
      case Static(s) =>
        o := s.DeleteWatcher(id);
      case Platform(p) =>
        o := p.DeleteWatcher(id);
      case File(f) =>
        o := f.DeleteWatcher(id);
      case Layered(ov) =>
        o := ov.DeleteWatcher(id);
    }
  }

  /** `WatcherHandle`, holding a `Weak<dyn ConfigSource>`. */
  type Handle = WatcherHandle<Source>

  /** `ConfigurationOverlay`: `source` is consulted first and takes the
      writes; `parent` is the fallback. */
  class Overlay {
    const parent: Source
    const source: Source
    ghost const level: nat
    ghost const below: set<Overlay>
    ghost const files: set<FileConfig>
    /** Watch id to the handles taken from the parent and from the source. */
    var notifiers: map<Id, (Handle, Handle)>
    /** Whether the weak self-reference can still be upgraded. */
    var alive: bool

    /** `ConfigurationOverlay::new`: no watches yet. */
    constructor(parent: Source, source: Source)
      requires parent.Valid() && source.Valid()
      ensures this.parent == parent && this.source == source
      ensures notifiers == map[] && alive
      ensures Layered(this).Valid()
    {
      this.parent := parent;
      this.source := source;
      level := 1 + (if parent.Level() < source.Level() then source.Level() else parent.Level());
      below := parent.Overlays() + source.Overlays();
      files := parent.Files() + source.Files();
      notifiers := map[];
      alive := true;
    }

    /** Every handle pair belongs to the parent and the source and shares one
        notifier. */
    ghost predicate EntriesValid()
      reads this
    {
      HandlePairs(notifiers, parent, source)
    }

    /** Lines 212-217: the source's value when it has one, else whatever the
        parent answers (its error included). */
    function GetValue(key: string): (r: Result<Option<Value>, Error>)
      requires Layered(this).WellFormed()
      reads files
      decreases level, 0
      ensures r.Success?
      ensures source.GetValue(key).value.Some? ==> r == source.GetValue(key)
      ensures source.GetValue(key).value.None? ==> r == parent.GetValue(key)
    {
      var answer := source.GetValue(key);
      if answer.Success? && answer.value.Some? then answer else parent.GetValue(key)
    }

    predicate IsWriteable(): (w: bool)
      requires Layered(this).WellFormed()
      decreases level, 0
      ensures w <==> source.Primary().File?
    {
      source.IsWriteable()
    }

    method SetValue(key: string, value: Value, write: Result<(), Error>) returns (r: Result<(), Error>)
      requires Layered(this).WellFormed()
      modifies source.WriteFrame()
      decreases level, 0
      ensures !source.IsWriteable() ==> r == Failure(NotWriteable)
      ensures source.IsWriteable() ==> source.WrittenThrough(key, Some(value), write, r)
      ensures source.IsWriteable() ==> source.GetValue(key) == Success(Some(value))
    {
      r := source.SetValue(key, value, write);
    }

    method DeleteInner(key: string, write: Result<(), Error>) returns (r: Result<(), Error>)
      requires Layered(this).WellFormed()
      modifies source.WriteFrame()
      decreases level, 0
      ensures !source.IsWriteable() ==> r == Failure(NotWriteable)
      ensures source.IsWriteable() ==> source.WrittenThrough(key, None, write, r)
    {
      r := source.DeleteInner(key, write);
    }

    /** Lines 231-247: watch the parent, then the source, with the same
        notifier; then draw an id and keep both handles under it. */
    method WatchPropertyWithNotify(key: string, notify: Notify, gen: Generator, now: Instant) returns (h: Handle)
      requires Layered(this).Valid() && now.secs >= 0
      modifies Layered(this).Footprint(), gen
      decreases level, 2
      ensures Layered(this).Valid()
      ensures h.config == Layered(this) && h.notify == notify
      ensures gen.draws == old(gen.draws) + Layered(this).Size()
      ensures h.watchId == gen.last
      ensures h.watchId in notifiers
      ensures notifiers == old(notifiers)[h.watchId := notifiers[h.watchId]]
      ensures notifiers[h.watchId].0.config == parent && notifiers[h.watchId].1.config == source
      ensures notifiers[h.watchId].0.notify == notify && notifiers[h.watchId].1.notify == notify
      ensures alive == old(alive)
      ensures forall f :: f in files ==> f.config == old(f.config) && f.alive == old(f.alive)
      ensures Layered(this).Separated() ==> Watched(old(Layered(this).Book()), Layered(this).Book(), key, notify, h.watchId)
    {
      Below(this);
      ghost var entries := notifiers;
      ghost var before := Layered(this).Book();
      ValidSplit(this);
      var p, c := WatchPair(parent, source, key, notify, gen, now, level);
      label Watched:
      assert notifiers == entries;
      h := Register(p, c, notify, gen, now, before, key);
      AddPair(entries, parent, source, h.watchId, p, c);
      ValidSplit(this);
    }

    /** Lines 238-246: draw the watch's own id, keep both handles under it
        and hand out a handle of this overlay. When the two sources below
        were watched, the whole overlay has been. */
    method Register(p: Handle, c: Handle, notify: Notify, gen: Generator, now: Instant, ghost before: Bookkeeping, ghost key: string)
      returns (h: Handle)
      requires now.secs >= 0
      requires Layered(this).WellFormed() && before.OverlayBook? && before.entries == notifiers && before.alive == alive
      modifies this`notifiers, gen
      ensures notifiers == old(notifiers)[h.watchId := (p, c)]
      ensures h.config == Layered(this) && h.notify == notify
      ensures h.watchId == gen.last && gen.draws == old(gen.draws) + 1
      ensures old(Watched(before.parent, parent.Book(), key, notify, p.watchId) && Watched(before.source, source.Book(), key, notify, c.watchId)) ==>
                Watched(before, Layered(this).Book(), key, notify, h.watchId)
    {
      Below(this);
      var generated := gen.Generate(now);
      h := WatcherHandle(generated.value, Layered(this), notify);
      notifiers := notifiers[h.watchId := (p, c)];
      assert parent.Book() == old(parent.Book()) && source.Book() == old(source.Book());
    }

    /** Lines 249-251: forget the id; the handles removed with it are
        dropped, the parent's first, and the call panics when either drop
        does. An unknown id changes nothing. */
    method DeleteWatcher(id: Id) returns (o: Outcome)
      requires Layered(this).Valid()
      modifies Layered(this).Footprint()
      decreases level, 2
      ensures Layered(this).Valid()
      ensures notifiers == old(notifiers) - {id}
      ensures id !in old(notifiers) ==> o == Completed && unchanged(Layered(this).Footprint())
      ensures id in old(notifiers) && Layered(this).Separated() ==>
                Dropped(old(notifiers)[id].0) && Dropped(old(notifiers)[id].1)
      ensures Layered(this).Separated() ==> (o == Panicked <==> old(Layered(this).Panics(id)))
      ensures forall f :: f in files && old(f.Consistent()) ==> f.Consistent()
    {
      if id !in notifiers {
        return Completed;
      }
      Below(this);
      ValidSplit(this);
      var pair := notifiers[id];
      assert pair.0.config == parent && pair.1.config == source;
      notifiers := notifiers - {id};
      assert unchanged(parent.Overlays()) && unchanged(parent.Files()) && unchanged(source.Overlays()) && unchanged(source.Files());
      label Start:
      o := DropPair(pair.0, pair.1, level);
      assert Layered(this).Separated() ==>
               old(Layered(this).Panics(id)) == old@Start((parent.Alive() && parent.Panics(pair.0.watchId)) || (source.Alive() && source.Panics(pair.1.watchId)));
      ValidSplit(this);
    }

    /** The last strong reference goes away. */
    method Release()
      modifies this
      ensures !alive && notifiers == old(notifiers)
    {
      alive := false;
    }
  }

  /** Each pair holds a handle of `parent` and one of `source`, both with the
      same notifier. */
  ghost predicate HandlePairs(m: map<Id, (Handle, Handle)>, parent: Source, source: Source) {
    forall id :: id in m ==>
      && m[id].0.config == parent && m[id].1.config == source
      && m[id].0.notify == m[id].1.notify
  }

  lemma AddPair(m: map<Id, (Handle, Handle)>, parent: Source, source: Source, id: Id, p: Handle, c: Handle)
    requires HandlePairs(m, parent, source)
    requires p.config == parent && c.config == source && p.notify == c.notify
    ensures HandlePairs(m[id := (p, c)], parent, source)
  {
  }

  /** The value of the first of `layers` that has one for `key`, consulted
      in order. */
  ghost function FirstHit(layers: seq<Source>, key: string): Option<Value>
    requires forall i :: 0 <= i < |layers| ==> !layers[i].Layered?
    reads set i | 0 <= i < |layers| && layers[i].File? :: layers[i].file
    decreases |layers|
  {
    if layers == [] then None
    else
      var answer := layers[0].GetValue(key);
      if answer.value.Some? then answer.value else FirstHit(layers[1..], key)
  }

  /** `FirstHit` finds a value exactly when some layer has one, and it is the
      value of the first such layer. */
  lemma {:induction false} FirstHitMeaning(layers: seq<Source>, key: string)
    requires forall i :: 0 <= i < |layers| ==> !layers[i].Layered?
    ensures FirstHit(layers, key).None? <==> forall i :: 0 <= i < |layers| ==> layers[i].GetValue(key).value.None?
    ensures FirstHit(layers, key).Some? ==>
              exists i :: && 0 <= i < |layers| && layers[i].GetValue(key).value == FirstHit(layers, key)
                          && forall j :: 0 <= j < i ==> layers[j].GetValue(key).value.None?
    decreases |layers|
  {
    if layers != [] {
      FirstHitMeaning(layers[1..], key);
      if layers[0].GetValue(key).value.None? {
        if FirstHit(layers, key).Some? {
          var k :| && 0 <= k < |layers[1..]| && layers[1..][k].GetValue(key).value == FirstHit(layers, key)
                   && forall j :: 0 <= j < k ==> layers[1..][j].GetValue(key).value.None?;
          assert layers[k + 1] == layers[1..][k];
          forall j | 0 <= j < k + 1 ensures layers[j].GetValue(key).value.None? {
            if j > 0 {
              assert layers[j] == layers[1..][j - 1];
            }
          }
        }
        forall i | 0 <= i < |layers[1..]| ensures layers[1..][i] == layers[i + 1] {
        }
      }
    }
  }

  lemma {:induction false} FirstHitAppend(a: seq<Source>, b: seq<Source>, key: string)
    requires forall i :: 0 <= i < |a| ==> !a[i].Layered?
    requires forall i :: 0 <= i < |b| ==> !b[i].Layered?
    ensures FirstHit(a + b, key) == if FirstHit(a, key).Some? then FirstHit(a, key) else FirstHit(b, key)
    decreases |a|
  {
    if a == [] {
      assert a + b == b;
    } else {
      assert (a + b)[0] == a[0];
      assert (a + b)[1..] == a[1..] + b;
      FirstHitAppend(a[1..], b, key);
    }
  }

  /** Lines 212-217, through every level: a lookup answers with the first of
      the plain sources, main sources before fallbacks, that has the key. */
  lemma {:induction false} LookupOrder(s: Source, key: string)
    requires s.WellFormed()
    ensures s.GetValue(key) == Success(FirstHit(s.Layers(), key))
    decreases s.Level()
  {
    if s.Layered? {
      var ov := s.overlay;
      LookupOrder(ov.source, key);
      LookupOrder(ov.parent, key);
      FirstHitAppend(ov.source.Layers(), ov.parent.Layers(), key);
    } else {
      assert s.Layers()[1..] == [];
    }
  }

  /** Lines 219-229: a layering is writeable exactly when its primary
      source is the file source, and a removed entry leaves the lookup to the
      layers after the primary one. */
  lemma DeletedFallsThrough(s: Source, key: string)
    requires s.WellFormed() && s.IsWriteable() && key !in s.Primary().file.config
    ensures s.GetValue(key) == Success(FirstHit(s.Layers()[1..], key))
  {
    LookupOrder(s, key);
  }

  /** What `delete_watcher(id)` did at the top of `s`: the file source lost
      the id from `notifiers` and from its path's set, keeping its notifier
      and contents; an overlay lost the id from its map. */
  twostate predicate Forgot(s: Source, id: Id)
    reads s.Footprint()
  {
    match s
    case File(f) =>
      && f.notifiers == old(f.notifiers) - {id}
      && f.pathListeners == (if id in old(f.notifiers) then RemoveListener(old(f.pathListeners), old(f.notifiers)[id], id)
                             else old(f.pathListeners))
      && f.idToNotifies == old(f.idToNotifies) && f.config == old(f.config) && f.alive == old(f.alive)
    case Layered(ov) => ov.notifiers == old(ov.notifiers) - {id}
    case _ => true
  }

  /** What a watch on `key` with `notify` did at every level of a layering,
      from the bookkeeping `before` to `after`, `id` being the id of the
      handle it returned: a file source registered the id in its three
      indices and kept its contents; an overlay added one entry under the id,
      and each of its two sources was watched in turn under the id of the
      handle the entry holds from it. */
  ghost predicate Watched(before: Bookkeeping, after: Bookkeeping, key: string, notify: Notify, id: Id)
    decreases after
  {
    match after
    case FileBook(notifiers, idToNotifies, pathListeners, contents, alive) =>
      && before.FileBook?
      && notifiers == before.notifiers[id := key]
      && idToNotifies == before.idToNotifies[id := notify]
      && pathListeners == AddListener(before.pathListeners, key, id)
      && contents == before.contents && alive == before.alive
    case OverlayBook(entries, alive, parent, source) =>
      && before.OverlayBook?
      && id in entries
      && entries == before.entries[id := entries[id]]
      && alive == before.alive
      && Watched(before.parent, parent, key, notify, entries[id].0.watchId)
      && Watched(before.source, source, key, notify, entries[id].1.watchId)
    case NoBook => before.NoBook?
  }

  /** A file source listens for `key` with `notify`: some id is registered
      in all three indices for that path and that notifier. */
  ghost predicate Listens(f: FileConfig, key: string, notify: Notify)
    reads f
  {
    exists i :: && i in f.notifiers && f.notifiers[i] == key
                && i in f.idToNotifies && f.idToNotifies[i] == notify
                && key in f.pathListeners && i in f.pathListeners[key]
  }

  /** After a watch of `key` every file source of the layering listens for
      `key` with the watch's notifier (lines 164-176 at the bottom, 231-237
      passing the notifier down). */
  lemma {:induction false} WatchedFiles(s: Source, before: Bookkeeping, key: string, notify: Notify, id: Id)
    requires s.WellFormed() && Watched(before, s.Book(), key, notify, id)
    decreases s.Level()
    ensures forall f :: f in s.Files() ==> Listens(f, key, notify)
  {
    match s
    case File(f) =>
      assert f.notifiers[id] == key && f.idToNotifies[id] == notify && id in f.pathListeners[key];
    case Layered(ov) =>
      Below(ov);
      WatchedFiles(ov.parent, before.parent, key, notify, ov.notifiers[id].0.watchId);
      WatchedFiles(ov.source, before.source, key, notify, ov.notifiers[id].1.watchId);
    case _ =>
  }

  /** What dropping `h` did: nothing when its source was gone, else the
      source forgot the handle's id. */
  twostate predicate Dropped(h: Handle)
    reads h.config.Obj(), h.config.Footprint()
  {
    if old(h.config.Alive()) then Forgot(h.config, h.watchId) else unchanged(h.config.Footprint())
  }

  /** `Drop for WatcherHandle` (lines 57-63): if the source is still alive,
      remove the watch from it; otherwise do nothing. */
  method Drop(h: Handle) returns (o: Outcome)
    requires h.config.Valid()
    modifies h.config.Footprint()
    decreases h.config.Level(), 4
    ensures h.config.Valid()
    ensures Dropped(h)
    ensures !old(h.config.Alive()) || h.config.Static? || h.config.Platform? ==> o == Completed
    ensures old(h.config.Alive()) && h.config.File? ==>
              (o == Panicked <==> h.watchId in old(h.config.file.notifiers))
    ensures h.config.Separated() ==> (o == Panicked <==> old(h.config.Alive() && h.config.Panics(h.watchId)))
    ensures forall f :: f in h.config.Files() && old(f.Consistent()) ==> f.Consistent()
  {
    if h.config.Alive() {
      o := h.config.DeleteWatcher(h.watchId);
    } else {
      o := Completed;
    }
  }

  /** Watching `key` through `first`, then through `second`. When the two
      share nothing, each is watched as if it stood alone. */
  method WatchPair(first: Source, second: Source, key: string, notify: Notify, gen: Generator, now: Instant, ghost bound: nat)
    returns (p: Handle, c: Handle)
    requires first.Valid() && second.Valid() && now.secs >= 0
    requires first.Level() < bound && second.Level() < bound
    modifies first.Footprint(), second.Footprint(), gen
    decreases bound, 1
    ensures first.Valid() && second.Valid()
    ensures p.config == first && p.notify == notify && c.config == second && c.notify == notify
    ensures gen.draws == old(gen.draws) + first.Size() + second.Size()
    ensures forall f :: f in first.Files() + second.Files() ==> f.config == old(f.config) && f.alive == old(f.alive)
    ensures first.Footprint() !! second.Footprint() && first.Separated() && second.Separated() ==>
              && Watched(old(first.Book()), first.Book(), key, notify, p.watchId)
              && Watched(old(second.Book()), second.Book(), key, notify, c.watchId)
  {
    ghost var apart := first.Footprint() !! second.Footprint();
    p := WatchBeside(first, second, key, notify, gen, now, bound);
    if apart {
      assert unchanged(second.Overlays()) && unchanged(second.Files());
    }
    label First:
    c := WatchBeside(second, first, key, notify, gen, now, bound);
    if apart {
      assert unchanged@First(first.Overlays()) && unchanged@First(first.Files());
    }
  }

  /** Watching through `s` leaves a source beside it valid, even where the
      two share overlays. */
  method WatchBeside(s: Source, other: Source, key: string, notify: Notify, gen: Generator, now: Instant, ghost bound: nat)
    returns (h: Handle)
    requires s.Valid() && other.Valid() && now.secs >= 0
    requires s.Level() < bound
    modifies s.Footprint(), gen
    decreases bound, 0
    ensures s.Valid() && other.Valid()
    ensures h.config == s && h.notify == notify
    ensures gen.draws == old(gen.draws) + s.Size()
    ensures forall f :: f in s.Files() + other.Files() ==> f.config == old(f.config) && f.alive == old(f.alive)
    ensures s.Separated() ==> Watched(old(s.Book()), s.Book(), key, notify, h.watchId)
  {
    label Start:
    h := s.WatchPropertyWithNotify(key, notify, gen, now);
    forall ov | ov in other.Overlays() ensures ov.EntriesValid() {
      if ov !in s.Overlays() {
        assert old@Start(ov.EntriesValid());
        assert unchanged@Start(ov);
      }
    }
    forall f | f in s.Files() + other.Files() ensures f.config == old(f.config) && f.alive == old(f.alive) {
      if f !in s.Files() {
        assert unchanged@Start(f);
      }
    }
  }

  /** Dropping a pair of handles: the first one, then the second. The drop
      panics when either does. When the two share nothing, each one's source
      forgets its id. */
  method DropPair(first: Handle, second: Handle, ghost bound: nat) returns (o: Outcome)
    requires first.config.Valid() && second.config.Valid()
    requires first.config.Level() < bound && second.config.Level() < bound
    modifies first.config.Footprint(), second.config.Footprint()
    decreases bound, 1
    ensures first.config.Valid() && second.config.Valid()
    ensures forall f :: f in first.config.Files() + second.config.Files() && old(f.Consistent()) ==> f.Consistent()
    ensures first.config.Footprint() !! second.config.Footprint() ==> Dropped(first) && Dropped(second)
    ensures first.config.Footprint() !! second.config.Footprint() && first.config.Separated() && second.config.Separated() ==>
              (o == Panicked <==> old(first.config.Alive() && first.config.Panics(first.watchId))
                                  || old(second.config.Alive() && second.config.Panics(second.watchId)))
  {
    ghost var apart := first.config.Footprint() !! second.config.Footprint();
    label Start:
    var o0 := DropBeside(first, second.config, bound);
    if apart {
      assert unchanged@Start(second.config.Overlays()) && unchanged@Start(second.config.Files());
    }
    label First:
    var o1 := DropBeside(second, first.config, bound);
    if apart {
      assert unchanged@First(first.config.Overlays()) && unchanged@First(first.config.Files());
    }
    o := if o0 == Panicked || o1 == Panicked then Panicked else Completed;
  }

  /** Dropping `h` leaves a source beside it valid, and every file index
      consistent, even where the two share overlays or files. */
  method DropBeside(h: Handle, other: Source, ghost bound: nat) returns (o: Outcome)
    requires h.config.Valid() && other.Valid()
    requires h.config.Level() < bound
    modifies h.config.Footprint()
    decreases bound, 0
    ensures h.config.Valid() && other.Valid()
    ensures forall f :: f in h.config.Files() + other.Files() && old(f.Consistent()) ==> f.Consistent()
    ensures Dropped(h)
    ensures h.config.Separated() ==> (o == Panicked <==> old(h.config.Alive() && h.config.Panics(h.watchId)))
  {
    label Start:
    o := Drop(h);
    forall ov | ov in other.Overlays() ensures ov.EntriesValid() {
      if ov !in h.config.Overlays() {
        assert old@Start(ov.EntriesValid());
        assert unchanged@Start(ov);
      }
    }
    forall f | f in h.config.Files() + other.Files() && old(f.Consistent()) ensures f.Consistent() {
      if f !in h.config.Files() {
        assert unchanged@Start(f);
      }
    }
  }

  /** No overlay sits above its own height: an overlay is never below itself. */
  lemma {:induction false} LevelBound(s: Source)
    requires s.WellFormed()
    ensures forall ov :: ov in s.Overlays() ==> ov.level <= s.Level()
    decreases s.Level()
  {
    if s.Layered? {
      LevelBound(s.overlay.parent);
      LevelBound(s.overlay.source);
    }
  }

  /** The footprint of an overlay is the overlay and the footprints of its
      two sources, neither of which contains the overlay. */
  lemma Below(ov: Overlay)
    requires Layered(ov).WellFormed()
    ensures Layered(ov).Footprint() == {ov} + ov.parent.Footprint() + ov.source.Footprint()
    ensures ov !in ov.parent.Overlays() && ov !in ov.source.Overlays()
    ensures ov !in ov.parent.Footprint() && ov !in ov.source.Footprint()
  {
    LevelBound(ov.parent);
    LevelBound(ov.source);
  }

  /** An overlay's layering is valid when its own entries are and both its
      sources are valid. */
  lemma ValidSplit(ov: Overlay)
    requires Layered(ov).WellFormed()
    ensures Layered(ov).Valid() <==> ov.EntriesValid() && ov.parent.Valid() && ov.source.Valid()
  {
  }

  /** The layering `global_config` builds (lines 265-268): the file source
      over an overlay of the static source over the platform source. */
  ghost predicate GlobalShape(s: Source) {
    && s.Layered? && s.overlay.source.File? && s.overlay.parent.Layered?
    && s.overlay.parent.overlay.source.Static? && s.overlay.parent.overlay.parent.Platform?
  }

  /** In the global configuration a key is looked up in the file first, then
      in the packaged configuration, then in the platform defaults; it is
      writeable, and writes go to the file. */
  lemma GlobalLookupOrder(s: Source, key: string)
    requires s.WellFormed() && GlobalShape(s)
    ensures var f, st, pl := s.overlay.source.file, s.overlay.parent.overlay.source.st, s.overlay.parent.overlay.parent.pl;
      s.GetValue(key) == Success(if key in f.config then Some(f.config[key])
                                 else if key in st.config then Some(st.config[key])
                                 else Lookup(pl.config, key))
    ensures s.IsWriteable() && s.Primary() == s.overlay.source
  {
    LookupOrder(s, key);
    var layers := s.Layers();
    var inner := s.overlay.parent;
    assert inner.Layers() == [inner.overlay.source] + [inner.overlay.parent];
    assert layers == [s.overlay.source, s.overlay.parent.overlay.source, s.overlay.parent.overlay.parent];
    assert layers[1..] == [layers[1], layers[2]] && layers[1..][1..] == [layers[2]] && layers[1..][1..][1..] == [];
  }

  /** `global_config`: build the platform, static and file sources in that
      order, stopping at the first error, and layer them. */
  method GlobalConfig(host: Host, packaged: Result<Value, Error>, fileRead: Result<Value, Error>, watcher: Result<(), Error>)
    returns (r: Result<Source, Error>)
    ensures packaged.Failure? ==> r == Failure(packaged.error)
    ensures packaged.Success? && fileRead.Failure? ==> r == Failure(fileRead.error)
    ensures packaged.Success? && fileRead.Success? && watcher.Failure? ==> r == Failure(watcher.error)
    ensures packaged.Success? && fileRead.Success? && watcher.Success? ==>
              && r.Success? && r.value.Valid() && GlobalShape(r.value)
              && fresh(r.value.overlay) && fresh(r.value.overlay.parent.overlay)
              && De.IsFlattening(fileRead.value, r.value.overlay.source.file.config)
              && De.IsFlattening(packaged.value, r.value.overlay.parent.overlay.source.st.config)
              && r.value.overlay.parent.overlay.parent.pl.config == Defaults(host)
              && r.value.Separated()
              && r.value.overlay.source.file.Consistent()
              && r.value.overlay.source.file.notifiers == map[]
              && r.value.overlay.source.file.idToNotifies == map[]
  {
    var platform := new PlatformConfig(host);
    var packagedConfig := NewStaticConfig(packaged);
    if packagedConfig.Failure? {
      return Failure(packagedConfig.error);
    }
    var file := NewFileConfig(fileRead, watcher);
    if file.Failure? {
      return Failure(file.error);
    }
    var builtIn := new Overlay(Platform(platform), Static(packagedConfig.value));
    var global := new Overlay(Layered(builtIn), File(file.value));
    r := Success(Layered(global));
  }
}
