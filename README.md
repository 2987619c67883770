# rachat configuration, modelled in Dafny

This project models the layered configuration of rachat and proves properties
of the model. These are the parts it covers:

- **The flatten codec.** `deserialize` turns a nested document into a map from
  dotted keys to leaf values. `serialize` rebuilds a document from such a map
  and fails on conflicting keys.
- **The `ConfigSource` interface** and its four kinds of source:
  - the immutable packaged (static) configuration;
  - the immutable platform defaults;
  - the mutable configuration file with its three watch indices;
  - `ConfigurationOverlay`, which puts one source on top of another.
- **Watcher handles**, which deregister themselves when dropped.
- **The global configuration**: the file over the packaged configuration over
  the platform defaults.
- **The Snowflake-style id generator** that issues watch ids.

Files, one module each:

| file | module | models |
|---|---|---|
| `wrappers.dfy` | `Wrappers` | `Option`, `Result` |
| `json.dfy` | `Json` | `serde_json::Value` (integers only), and following field names through a value |
| `paths.dfy` | `Paths` | dotted keys and `str::split('.')` |
| `errors.dfy` | `Errors` | the errors the subsystem reports |
| `de.dfy` | `De` | `flatten`, `deserialize` |
| `ser.dfy` | `Ser` | `insert`, `serialize` |
| `codec.dfy` | `Codec` | the round trip |
| `id_generator.dfy` | `IdGenerator` | `generate` |
| `watch.dfy` | `Watch` | `WatcherHandle`, `tokio::sync::Notify` reduced to its stored permit |
| `static_config.dfy` | `StaticSource` | `StaticConfig` |
| `platform_config.dfy` | `PlatformSource` | `PlatformConfig` |
| `file_config.dfy` | `FileSource` | `FileConfig` |
| `config.dfy` | `Config` | `dyn ConfigSource`, `ConfigurationOverlay`, `Drop for WatcherHandle`, `global_config` |

## How the model is built

**The codec.** The model follows the code as written:

- `deserialize` starts from the empty key and builds `"{key}.{k}"`. Every key
  loaded from a document is therefore `'.'` followed by the field names,
  for example `".gui.qt.style"`.
- Keys that the platform defaults and callers use have no leading dot, for
  example `"profile.default"`.
- The round trip is `serialize(deserialize(d)) == {"": d}`: the document comes
  back under the empty field name, not as `d` itself.

**Iteration order.** Fields and map entries are visited in an unspecified
order, because `serde_json::Map` and `HashMap` do not promise one.

- The Dafny `Flatten` and `Serialize` pick the next element with `:|`.
- `Flatten` is specified relationally: every key it inserts holds one of the
  leaves that flatten to that key.
- `Serialize` returns a ghost `order`. It is specified by the function
  `InsertAll` over that order.
- The lemmas then show that for maps of leaf values, neither the outcome nor
  the result depends on the order.

**The sources.** A source (`dyn ConfigSource`) is the datatype `Source`, which
names the object behind it.

- The file source and the overlay are classes whose methods update their
  fields.
- A weak reference is the `alive` flag of the object it points to. `Release`
  models the last strong reference going away.
- A `Notify` is an object with one stored permit.
- A call that ends in `todo!()` returns the outcome `Panicked` after the
  bookkeeping that precedes it.

**Ghost state.** An overlay records, as ghost constants, its height and the
overlays and files below it. These give the frames and the termination measure
of the recursion through the layers.

**The generator.** The generator records, as ghost state, the last id it
handed out and the number of calls made.

**Parameters.** The model does no I/O, so the following are parameters:

- the parsed packaged document;
- the file read, the start of the file watcher and each file write;
- the host's environment, arguments, Windows version, Qt build flags and
  locales;
- the clock reading;
- the random node and thread ids.

**Behaviour worth knowing.** The model keeps each of these:

- `set_value` and `delete_inner` of the file source wait for the rewrite and
  return its error (file_config.rs:146-159). The error is returned after the
  in-memory change and the notification have already happened.
- `FileConfig::delete_watcher` ends in `todo!()`, and it never removes the
  notifier from `id_to_notifies`.
- `insert` fails in two cases:
  - when it must descend through a value that is not an object;
  - when a key ends where there is already a value other than the empty
    object (ser.rs:28-39).

## Model

| member | source | states |
|---|---|---|
| De.Flatten | crates/rachat-config/src/de.rs:12-23 | the result is the accumulator with one entry added for each key a leaf of `value` flattens to (the key extended by `.field` per step); every other entry is kept, and each added key holds a leaf that flattens to it |
| De.Deserialize | crates/rachat-config/src/de.rs:28-32 | the result is a flattening of `d` starting from the empty key; no value in it is an object; a non-object `d` gives exactly the entry `"" ↦ d`; the empty object gives no entries |
| De.FieldStep | crates/rachat-config/src/de.rs:15-17 | one more pass of the field loop keeps the loop invariant: the map holds the leaves of the fields visited so far |
| De.LeavesAreNotObjects | crates/rachat-config/src/de.rs:13-22 | flattening never stores an object |
| De.LeafPath | crates/rachat-config/src/de.rs:13-22 | every stored entry is a non-object value (an array is kept whole) at some path of field names, under the key extended by `.name` for each name of the path |
| De.PathLeaf | crates/rachat-config/src/de.rs:19-21 | conversely, every non-object value reachable through object fields (arrays included) is a stored entry under its dotted path |
| De.DeserializedKey | crates/rachat-config/src/de.rs:16 | every key of `deserialize(d)` is `'.'` before each field name on the path to its leaf, so every key from an object document begins with `'.'` |
| De.LeafPathsFollow | crates/rachat-config/src/de.rs:13-22 | a path is a leaf path exactly when following it reaches a non-object value |
| De.FollowDotFree | crates/rachat-config/src/de.rs:16 | in a document with no `'.'` in its field names, every path contains no `'.'` |
| De.DottedImageSize | crates/rachat-config/src/de.rs:16 | joining paths injectively into keys keeps their number |
| De.FlatteningKeys | crates/rachat-config/src/de.rs:12-23 | the keys of `deserialize(d)` are exactly the leaf paths of `d`, each joined with dots |
| De.EntryCount | crates/rachat-config/src/de.rs:12-23 | when no field name contains `'.'`, the number of entries equals the number of non-object values reachable through object fields |
| Paths.Split | src/config/ser.rs:54 | `split('.')` always yields at least one segment |
| Paths.JoinSplit | src/config/ser.rs:54 | joining the segments of `split('.')` with `'.'` gives back the key |
| Paths.SplitInjective | src/config/ser.rs:54 | different keys split into different segment lists |
| Paths.SplitDotted | src/config/ser.rs:54 | a key built as `s` followed by `.name` per dot-free name splits back into `s` and those names |
| Paths.DottedInjective | crates/rachat-config/src/de.rs:16 | dot-free paths flatten to different keys |
| Json.FollowAppend | src/config/ser.rs:19-26 | following `p + q` is following `p` and then `q` |
| Json.FollowStrictPrefix | src/config/ser.rs:19-26 | every strict prefix of a followed path reaches an object that has the next field |
| Json.AgreeEqual | src/config/ser.rs:51-57 | two values that agree at every path (present or absent, object or not, and equal leaves) are equal |
| Ser.Enumeration | src/config/ser.rs:53 | every finite key set has an enumeration without repeats |
| Ser.InsertAllAppend | src/config/ser.rs:53-55 | inserting along `a + b` is inserting along `a` and then along `b`, stopping at the first error |
| Ser.EnumeratesJoin | src/config/ser.rs:53 | the keys visited so far, then the chosen key, then the remaining keys enumerate the whole map |
| Ser.Serialize | src/config/ser.rs:51-57 | the result is inserting the entries into `{}` along some enumeration of the keys, without repeats, stopping at the first error; the empty map gives `{}` |
| Ser.FollowField | src/config/ser.rs:21-26 | following a path into an object is following the rest of the path into the named field, and gives nothing if that field is missing |
| Ser.FollowEmptyObject | src/config/ser.rs:23 | only the empty path reaches anything in `{}` |
| Ser.InsertAllowedField | src/config/ser.rs:19-31 | the success condition of `insert` passes from an object to the child named by the first segment (a missing child counts as `{}`) |
| Ser.InsertEffectField | src/config/ser.rs:21-26 | the effect of `insert` on a child lifts to the object, with the child replaced |
| Ser.InsertSpec | src/config/ser.rs:14-43 | `insert` succeeds exactly when no proper prefix of the path reaches a non-object and the full path reaches nothing or `{}`. On success the path reaches the value, every proper prefix reaches an object, and paths off the inserted branch are unchanged |
| Ser.InsertThroughLeafFails | src/config/ser.rs:28-30 | a non-object (a leaf) at a proper prefix of the path makes `insert` fail with `NotAMap` of that leaf |
| Ser.InsertOverNonEmptyFails | src/config/ser.rs:33-39 | a value other than `{}` where the path ends makes `insert` fail with `CannotOverwrite` of that value |
| Ser.DescribesNothing | src/config/ser.rs:52 | `{}` describes the empty set of keys |
| Ser.DescribesAgreeAt | src/config/ser.rs:51-57 | two documents that describe the same entries agree at every path |
| Ser.DescribesUnique | src/config/ser.rs:51-57 | a set of entries describes at most one document |
| Ser.StepAllowed | src/config/ser.rs:19-41 | for leaf values, a key can be added to a document built from some keys exactly when it is prefix-compatible with each of them |
| Ser.CompatibleAllowed | src/config/ser.rs:19-41 | a key prefix-compatible with every key so far can be inserted |
| Ser.ClashForbidden | src/config/ser.rs:28-39 | a key for which one of the earlier keys is a segment prefix, or which is itself a segment prefix of one, cannot be inserted |
| Ser.StepDescribes | src/config/ser.rs:19-41 | a successful insert of a compatible key describes one more key |
| Ser.StepLeaf | src/config/ser.rs:33-35 | after an insert, every leaf of the document belongs to a key |
| Ser.StepObject | src/config/ser.rs:21-24 | after an insert, every non-root object of the document lies strictly above some key |
| Ser.InsertStep | src/config/ser.rs:19-41 | inserting one more leaf entry succeeds exactly when its key is compatible with the keys so far, and its result then describes one more key |
| Ser.InsertAllDescribes | src/config/ser.rs:53-55 | inserting a sequence of new leaf entries succeeds exactly when all the keys together are prefix-free, and its result then describes all of them |
| Ser.SerializeSpec | src/config/ser.rs:51-57 | with leaf values, `serialize` succeeds exactly when no key is a segment prefix of another, and its document then holds exactly the entries of the map |
| Ser.SerializeReaches | src/config/ser.rs:19-26 | on success, following `k.split('.')` from the document reaches `v` for every entry `(k, v)` |
| Ser.SerializeOrderIndependent | src/config/ser.rs:53-55 | for leaf values, neither the outcome nor the document depends on the iteration order |
| Ser.ObjectEntryOrderMatters | src/config/ser.rs:33-39 | with an object value in the map, the iteration order can decide between success and failure: an entry `"a" ↦ {}` followed by `"a.b" ↦ 1` succeeds, and the reverse order fails |
| Codec.ObjectsNonEmptyFollow | crates/rachat-config/src/de.rs:13-17 | no empty objects anywhere is inherited by every reachable value |
| Codec.LeafBelow | crates/rachat-config/src/de.rs:13-17 | below every non-empty object there is a non-object leaf |
| Codec.KeySegments | crates/rachat-config/src/de.rs:16 | the key of a deserialized entry splits into `""` followed by the field names on the path to its leaf |
| Codec.LeafKey | crates/rachat-config/src/de.rs:19-21 | every leaf path of the document is a key of its flattening |
| Codec.RootLeaf | src/config/ser.rs:51-57 | every leaf of `{"": d}` belongs to a key of `deserialize(d)` |
| Codec.RootObject | src/config/ser.rs:51-57 | every object below the root of `{"": d}` lies above a key of `deserialize(d)` |
| Codec.DescribesNested | src/config/ser.rs:51-57 | `{"": d}` holds exactly the entries of `deserialize(d)` |
| Codec.LeafPrefixEqual | crates/rachat-config/src/de.rs:19-21 | a path that reaches a leaf is not a proper prefix of any reachable path |
| Codec.FlatteningPrefixFree | crates/rachat-config/src/de.rs:12-23 | without `'.'` in field names, no key of `deserialize(d)` is a segment prefix of another |
| Codec.RoundTrip | src/config/ser.rs:51-57 | if `d` has no empty objects and no `'.'` in field names, `serialize(deserialize(d))` succeeds with `{"": d}` in every iteration order |
| IdGenerator.Shl16 | src/utils/id_generator.rs:44 | `<<= 16` on a u128 stays below 2^128 and clears the low 16 bits |
| IdGenerator.PackFormula | src/utils/id_generator.rs:41-49 | below 2^80 ns, the id is `T·2^48 + node·2^32 + thread·2^16 + counter` |
| IdGenerator.PackFields | src/utils/id_generator.rs:41-49 | each of counter, thread, node and timestamp can be read back from the id by division and remainder |
| IdGenerator.DivMod16 | src/utils/id_generator.rs:44-49 | a 16-bit field put under a shift comes back out by division and remainder |
| IdGenerator.PackCounter | src/utils/id_generator.rs:48-49 | the counter is the low 16 bits of the id, whatever the timestamp |
| IdGenerator.PackInjective | src/utils/id_generator.rs:41-49 | below 2^80 ns, different `(T, node, thread, counter)` give different ids |
| IdGenerator.ConsecutiveOrder | src/utils/id_generator.rs:61-66 | of two consecutive ids on one thread, the second is larger if the clock advanced, or if it stood still and the counter did not wrap; it is smaller if the clock went back |
| IdGenerator.ConsecutiveDistinct | src/utils/id_generator.rs:69-77 | up to 2^16 consecutive counters give pairwise different ids, whatever the clock readings |
| IdGenerator.GeneratedDistinct | src/utils/id_generator.rs:69-77 | ids packed from consecutive counters are pairwise different |
| IdGenerator.WrapSucc | src/utils/id_generator.rs:39 | wrapping once or at the end gives the same counter |
| IdGenerator.Generator.constructor | src/utils/id_generator.rs:28-33 | the thread's counter starts at 0 |
| IdGenerator.Generator.Generate | src/utils/id_generator.rs:26-52 | the counter becomes `(old + 1) mod 2^16` even when the call panics; a negative clock is the `Configured Clock` panic; otherwise the id packs the clock, node, thread and the old counter |
| IdGenerator.Generator.GenerateMany | src/utils/id_generator.rs:69-77 | `n` calls give ids with counters `old + i mod 2^16` and advance the counter by `n`; with at most 2^16 calls they are pairwise different |
| Watch.Notify.constructor | crates/rachat-config/src/lib.rs:107 | a new notifier holds no permit |
| Watch.Notify.NotifyOne | crates/rachat-config/src/file_config.rs:61 | `notify_one` leaves a permit |
| StaticSource.StaticConfig.constructor | crates/rachat-config/src/static_config.rs:33-36 | the contents are the flattening of the document, and the source is alive |
| StaticSource.StaticConfig.GetValue | crates/rachat-config/src/static_config.rs:41-43 | never an error: `Some` exactly for the keys of the contents, and then their value |
| StaticSource.StaticConfig.WatchPropertyWithNotify | crates/rachat-config/src/static_config.rs:45-51 | the handle has the next generated id, this source and the given notifier, and only the generator changes |
| StaticSource.StaticConfig.DeleteWatcher | crates/rachat-config/src/static_config.rs:53 | nothing happens, and the call completes |
| StaticSource.StaticConfig.Release | crates/rachat-config/src/static_config.rs:19 | the weak self-reference no longer upgrades |
| StaticSource.StaticKeys | crates/rachat-config/src/static_config.rs:29-36 | every key of contents flattened from a table is `'.'` before each field name on the path to a non-object value of the document |
| StaticSource.NewStaticConfig | crates/rachat-config/src/static_config.rs:28-37 | a malformed packaged document is returned as the error; otherwise the contents are its flattening |
| PlatformSource.AddWindowsProperties | crates/rachat-config/src/platform_config.rs:29-74 | the map is unchanged when the style variable or `-style` is present, the version is unknown, or the version is below 6.2.0; otherwise only `gui.qt.style` is set, to the chosen style |
| PlatformSource.StyleByVersion | crates/rachat-config/src/platform_config.rs:44-73 | FluentWinUI3 at 10.0.22000 or later with Qt 6.8; Universal at 10.0.0 or later with Qt 5.7 only; Fusion from 6.2.0 without either flag; nothing below 6.2.0 |
| PlatformSource.LangsValue | crates/rachat-config/src/platform_config.rs:76-82 | an array with one string per locale, in the order reported |
| PlatformSource.DefaultsContents | crates/rachat-config/src/platform_config.rs:85-102 | `profile.default` is `"default"`, `i18n.langs` lists the locales in order, and `gui.qt.style` is present exactly on Windows hosts that get a style; there are no other keys |
| PlatformSource.PlatformConfig.constructor | crates/rachat-config/src/platform_config.rs:85-102 | the contents are the defaults of the host |
| PlatformSource.PlatformConfig.GetValue | crates/rachat-config/src/platform_config.rs:106-108 | never an error: `Some` exactly for the keys of the contents, and then their value |
| PlatformSource.PlatformConfig.WatchPropertyWithNotify | crates/rachat-config/src/platform_config.rs:110-116 | the handle has the next generated id, this source and the given notifier, and only the generator changes |
| PlatformSource.PlatformConfig.DeleteWatcher | crates/rachat-config/src/platform_config.rs:118 | nothing happens, and the call completes |
| PlatformSource.PlatformConfig.Release | crates/rachat-config/src/platform_config.rs:21 | the weak self-reference no longer upgrades |
| FileSource.WatchKeepsIndexed | crates/rachat-config/src/file_config.rs:165-176 | registering an unused id keeps the three indices consistent, and the id then watches exactly its key |
| FileSource.DeleteKeepsIndexed | crates/rachat-config/src/file_config.rs:185-195 | removing a registered id keeps the indices consistent (no empty sets remain), and the id then watches nothing |
| FileSource.ChangedKeysMeaning | crates/rachat-config/src/file_config.rs:74-78 | a key of either map has changed exactly when it is present on one side only or differs between the two |
| FileSource.ReloadUnchangedNothingChanged | crates/rachat-config/src/file_config.rs:77-81 | reloading identical contents changes no key |
| FileSource.ChangedStep | crates/rachat-config/src/file_config.rs:77-81 | visiting one more key adds it to the notified set exactly when it changed |
| FileSource.FileConfig.constructor | crates/rachat-config/src/file_config.rs:119-127 | the contents are given, all three indices are empty, and the source is alive |
| FileSource.FileConfig.NotifiedByAnyAdd | crates/rachat-config/src/file_config.rs:77-81 | notifying one more path adds exactly that path's notifiers |
| FileSource.FileConfig.GetValue | crates/rachat-config/src/file_config.rs:134-136 | never an error: `Some` exactly for the in-memory keys, and then their value |
| FileSource.FileConfig.NotifyPath | crates/rachat-config/src/file_config.rs:53-67 | exactly the notifiers of the ids listening on `path` receive a permit; no other notifier changes |
| FileSource.FileConfig.NotifyChange | crates/rachat-config/src/file_config.rs:70-83 | a failed reload is returned and changes nothing; otherwise the contents become the flattening of the new document. Exactly the notifiers of listeners on keys whose lookup changed receive a permit, and the indices are untouched |
| FileSource.FileConfig.SetValue | crates/rachat-config/src/file_config.rs:142-151 | the map becomes `old[key := value]` and every other lookup is unchanged; only the listeners of `key` are notified. The result is the serialize error or else the write's result, after the change. For leaf values it succeeds exactly when the keys are prefix-free and the write succeeds |
| FileSource.FileConfig.DeleteInner | crates/rachat-config/src/file_config.rs:153-162 | the key is removed and every other lookup is unchanged; only its listeners are notified; the result is as for `set_value` |
| FileSource.FileConfig.WatchPropertyWithNotify | crates/rachat-config/src/file_config.rs:164-182 | the new id gets the notifier in `id_to_notifies`, the key in `notifiers`, and joins the key's set in `path_listeners`; the indices stay consistent when the id was unused |
| FileSource.WatchCollisionBreaksIndexed | crates/rachat-config/src/file_config.rs:164-176 | a watch registered under an id that already watches another key leaves that id in the old key's set, so consistent indices become inconsistent |
| FileSource.FileConfig.DeleteWatcher | crates/rachat-config/src/file_config.rs:184-198 | an unknown id changes nothing and completes. A known id leaves `notifiers` and its path's set (dropping an emptied set) while `id_to_notifies` is kept, and the call then panics. Consistency is preserved |
| FileSource.FileConfig.Release | crates/rachat-config/src/file_config.rs:26 | the weak self-reference no longer upgrades; nothing else changes |
| FileSource.NewFileConfig | crates/rachat-config/src/file_config.rs:87-129 | a read error, then a watcher error, is returned; otherwise the contents are the flattening of the document read, with no watchers |
| Config.Source.Primary | crates/rachat-config/src/lib.rs:219-229 | the source that writes reach is a plain source, and a file among the layers |
| Config.Source.Layers | crates/rachat-config/src/lib.rs:212-217 | the plain sources in lookup order start with the primary one |
| Config.Source.GetValue | crates/rachat-config/src/lib.rs:76 | no source in the model fails a lookup |
| Config.Source.IsWriteable | crates/rachat-config/src/lib.rs:79-81 | a source is writeable exactly when its primary source is the file source; the default is false |
| Config.Source.SetValue | crates/rachat-config/src/lib.rs:88-90 | a source that is not writeable fails with `NotWriteable`; otherwise the write reaches the primary file source as `set_value` describes, and the key then reads back the value |
| Config.Source.DeleteInner | crates/rachat-config/src/lib.rs:97-99 | a source that is not writeable fails with `NotWriteable`; otherwise the removal reaches the primary file source as `delete_inner` describes |
| Config.Source.WatchPropertyWithNotify | crates/rachat-config/src/lib.rs:116 | the handle belongs to this source and carries the notifier; one id is drawn per part of the layering, the handle's last. A file source records the id in all three indices as its own watch does, keeps its contents, and stays consistent when the id was unused; an overlay adds exactly one entry. Every file below keeps its contents and liveness. Without sharing, every level records the watch (`Watched`): each overlay adds one entry whose two handles were registered by its parent and its source, and each file adds the handle's id to its three indices, so every file then listens for the key with the notifier |
| Config.Source.WatchProperty | crates/rachat-config/src/lib.rs:106-109 | a watch with a freshly allocated notifier that holds no permit yet, with everything `watch_property_with_notify` promises for that notifier: the draws and the last id, the file indices, the overlay's one entry, the files' contents, and without sharing the watch at every level and every file listening |
| Config.Source.DeleteWatcher | crates/rachat-config/src/lib.rs:123 | static and platform sources complete without change; a file source forgets the id as its `delete_watcher` does and panics exactly for a known id; an overlay loses only the id, and an unknown id changes nothing. Without sharing between the parts of an overlay, both removed handles are dropped and the call panics exactly when a live source below panics. Every file stays consistent |
| Config.Overlay.constructor | crates/rachat-config/src/lib.rs:197-204 | an overlay of two valid sources with no watches is valid |
| Config.Overlay.GetValue | crates/rachat-config/src/lib.rs:212-217 | the main source's value when it has one, else the parent's answer |
| Config.Overlay.IsWriteable | crates/rachat-config/src/lib.rs:219-221 | writeable exactly when the main source's primary source is a file |
| Config.Overlay.SetValue | crates/rachat-config/src/lib.rs:223-225 | the write goes to the main source only; the parent cannot change |
| Config.Overlay.DeleteInner | crates/rachat-config/src/lib.rs:227-229 | the removal goes to the main source only; the parent cannot change |
| Config.Overlay.WatchPropertyWithNotify | crates/rachat-config/src/lib.rs:231-247 | exactly one entry is added, under the returned id. It holds a handle from the parent and one from the main source, both with the returned handle's notifier. The overlay stays alive and every file below keeps its contents and liveness. Without sharing, the parent and the source were each watched under the ids of the handles in the entry, down to the files |
| Config.Overlay.Register | crates/rachat-config/src/lib.rs:238-246 | the handle gets the next generated id and this overlay; the entry under it is the given pair and no other entry changes; when the pair's handles recorded the watch in the parent and the source, the overlay has recorded it |
| Config.Overlay.DeleteWatcher | crates/rachat-config/src/lib.rs:249-251 | only the given id is removed and the layering stays valid; an absent id changes nothing and completes. Without sharing, each removed handle is dropped (a live source forgets its id, a dead one is untouched) and the call panics exactly when one of the drops does. Every file stays consistent |
| Config.Overlay.Release | crates/rachat-config/src/lib.rs:182 | the weak self-reference no longer upgrades |
| Config.AddPair | crates/rachat-config/src/lib.rs:240 | adding a pair of handles from the parent and the source with one notifier keeps the entries valid |
| Config.FirstHitMeaning | crates/rachat-config/src/lib.rs:212-217 | the first-hit lookup finds nothing exactly when no layer has the key; otherwise it is the value of the first layer that has it |
| Config.FirstHitAppend | crates/rachat-config/src/lib.rs:212-217 | the first hit in `a + b` is the hit in `a`, or else the hit in `b` |
| Config.LookupOrder | crates/rachat-config/src/lib.rs:212-217 | a lookup at any depth of layering answers with the first plain source, main sources before fallbacks, that has the key |
| Config.DeletedFallsThrough | crates/rachat-config/src/lib.rs:227-229 | once the primary file lacks the key, the lookup is answered by the layers after it |
| Config.Drop | crates/rachat-config/src/lib.rs:57-63 | a source that no longer upgrades is left untouched and the call completes. Otherwise the source forgets the handle's id as its `delete_watcher` does: a file source removes it from `notifiers` and from its path's set and keeps `id_to_notifies`, panicking exactly for a known id; an overlay loses the entry. Without sharing, the drop panics exactly when the removal reaches a panic. Every file stays consistent |
| Config.WatchPair | crates/rachat-config/src/lib.rs:232-237 | the parent is watched, then the source, with one notifier: both stay valid, both handles carry the notifier, the draws add up and no file changes its contents. When the two share nothing, each records the watch as if it stood alone |
| Config.WatchBeside | crates/rachat-config/src/lib.rs:232-237 | watching one source keeps a source beside it valid and leaves the files of both with their contents; without sharing inside it, the watched source records the watch at every level |
| Config.WatchedFiles | crates/rachat-config/src/file_config.rs:164-176 | after a recorded watch of a key, every file source of the layering listens for that key with the watch's notifier under some id, in all three indices |
| Config.DropPair | crates/rachat-config/src/lib.rs:250 | the removed pair is dropped, the parent's handle first; the result is a panic when either drop panics, and when the two share nothing each handle is dropped as `Drop` describes |
| Config.LevelBound | crates/rachat-config/src/lib.rs:184-186 | no overlay lies above the layering that contains it |
| Config.Below | crates/rachat-config/src/lib.rs:184-188 | an overlay is not among the objects of its own parent or source |
| Config.ValidSplit | crates/rachat-config/src/lib.rs:184-188 | an overlay's layering is valid exactly when its entries and both its sources are valid |
| Config.GlobalLookupOrder | crates/rachat-config/src/lib.rs:265-268 | the global configuration looks in the file, then the packaged configuration, then the platform defaults; it is writeable, and writes reach the file |
| Config.GlobalConfig | crates/rachat-config/src/lib.rs:259-269 | a packaged-document error, then a file read error, then a watcher error is returned. Otherwise the result is a valid layering of the file over the packaged configuration over the platform defaults, holding the flattened documents and the host's defaults, with no part shared, no watches and consistent, empty file indices |

## Left out

- File I/O, TOML parsing and pretty-printing, and creating a missing file
  (`read_config`, file_config.rs:43-50) are left out. The parsed document or the
  error is a parameter, and writing the file is a `Result` parameter.
- The debounced file-system watcher, its background thread and
  `tokio::spawn` in `FileConfig::new` are concurrency and I/O. `NotifyChange`
  is the operation the listener would start. Whether the watcher starts is a
  parameter.
- Locks (`RwLock`, `Mutex`, `blocking_read`, `blocking_lock`) are modelled as
  exclusive sequential access.
  - `blocking_*` panicking inside an async context is not modelled.
  - Two calls interleaving is not modelled.
- `Notify` waking a waiting task is not modelled; only the permit it stores is
  kept. `WatcherHandle::notified` is left out, because it awaits.
- `ConfigSourceExt::get`, `set` and `delete` are left out, because they go
  through serde's foreign (de)serialisation traits.
- Floating-point numbers and TOML dates are left out: `Value` has integers
  only.
- The extra error-log lines (a listener without a notifier, a failed reload in
  the spawned task) are left out, because they are logging.
- Randomness and thread-local storage in the id generator become parameters:
  the node and thread ids are given to `Generator`, and each call gets one clock
  reading.
- Ids drawn by different threads (the `ensure_unique_mt` test) are not
  modelled, so there is no statement about collisions across threads.
- IdGenerator.PackFormula, IdGenerator.PackFields, IdGenerator.PackInjective
  and IdGenerator.ConsecutiveOrder need the timestamp in nanoseconds to be
  below 2^80. At or above that the shifts lose bits, and `Pack` models the
  loss.
- Config.Source.WatchPropertyWithNotify, Config.Source.WatchProperty,
  Config.Overlay.WatchPropertyWithNotify,
  StaticSource.StaticConfig.WatchPropertyWithNotify,
  PlatformSource.PlatformConfig.WatchPropertyWithNotify and
  FileSource.FileConfig.WatchPropertyWithNotify require a clock at or after
  the epoch (`now.secs >= 0`), and a layered watch reads one clock value for
  all the ids it draws.
  - A clock before the epoch panics in `generate`; that panic is modelled by
    `Generator.Generate` alone.
  - Through an overlay, the relation to the generator's counter is stated only
    as the number of draws and the last id.
- Config.Overlay.WatchPropertyWithNotify does not state that the new id was
  absent before.
  - The id generator promises that only within the bounds proved in
    `IdGenerator`.
  - On a collision, the entry's old handle pair is replaced and would be
    dropped; that drop is not modelled.
  - In `FileConfig`, index consistency is stated under the assumption that the
    id is new.
- Config.Overlay.DeleteWatcher, Config.Source.DeleteWatcher, Config.Drop and
  Config.DropPair state what each drop did to its source, and exactly when the
  call panics, only for a layering in which no overlay's parent and source
  share an overlay or a file (`Separated`).
  - With sharing, the second drop can undo or repeat what the first one did to
    a shared part, so only validity, the overlay's own entry and the files'
    consistency are stated.
  - The global configuration has no sharing: Config.GlobalConfig ensures
    `Separated`.
- The validity of a layering (`Valid`) does not include the consistency of
  the file indices.
  A watch whose generated id is already in use breaks it, in the code as in
  the model (file_config.rs:164-182).
  - Config.GlobalConfig ensures it for the new file source.
  - Every removal keeps it, at every level.
  - A watch through an overlay states what it adds to the indices of every
    file below (`Watched`), but not that they stay consistent: that needs
    every id drawn to be unused.
- Config.Source.WatchPropertyWithNotify, Config.Source.WatchProperty,
  Config.Overlay.WatchPropertyWithNotify, Config.WatchPair and
  Config.WatchBeside state what the watch recorded at every level only for a
  layering without sharing (`Separated`).
  - With sharing, a shared file or overlay is watched twice, and the second
    watch starts from what the first one left.
  - For any layering, validity, the draws, the top-level entry and the files'
    contents and liveness are stated.
- Config.Drop, Config.DropPair, Config.Source.DeleteWatcher and
  Config.Overlay.DeleteWatcher describe what was forgotten (`Forgot`) one
  level deep: the file's indices, or the overlay's own entry.
  - Without sharing, an overlay's removal adds `Dropped` for its two handles,
    so the two sources directly below it are described too.
  - Levels further down are not described by one relation over the whole
    layering. In the global configuration, those two levels cover every
    overlay and file.
- Config.Drop and Release model the weak reference as an `alive` flag. The
  `Arc` reference counts, and the cascade of drops when the last one goes
  away, are not modelled.
  - `Release` only clears the flag.
  - The drop of handles taken out of an overlay happens after removal, in
    parent-then-source order.
  - The process abort on a second panic while unwinding is not modelled.
- Ser.SerializeSpec, Ser.SerializeOrderIndependent and Codec.RoundTrip assume
  the map holds no object values.
  - `deserialize` never stores objects, but `set_value` can.
  - With objects, the outcome can depend on the iteration order, as
    `Ser.ObjectEntryOrderMatters` shows.
- FileSource.FileConfig.SetValue, FileSource.FileConfig.DeleteInner,
  Config.Source.SetValue, Config.Source.DeleteInner, Config.Overlay.SetValue
  and Config.Overlay.DeleteInner state their result for any map as serialising
  along some enumeration of the keys.
  The closed form (prefix-free keys and a successful write) is given for leaf
  values only.
- Ser.Insert works on a value rather than on a `&mut Value`. It returns the new
  document or the error. The partly built document left behind by a failed
  `insert` is unobservable, because `serialize` then returns the error and
  drops the document.
- The platform source's `#[cfg(...)]` build flags become fields of `Host`.
  - `windows` is the `cfg(windows)` flag.
  - `qtAtLeast5_7` is any of the Qt ≥ 5.7, 6 and 7 flags.
  - `qtAtLeast6_8` is either of the Qt ≥ 6.8 and 7 flags.
- The Windows version detection, the environment variable and the argument
  list are fields of `Host`.
