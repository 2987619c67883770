/**
 * The build-time configuration shipped by the packager
 * (crates/rachat-config/src/static_config.rs): the flattening of a packaged
 * TOML document, fixed once built. The parsed document, or the parse error,
 * is a parameter.
 */
module StaticSource {
  import opened Wrappers
  import opened Json
  import opened Errors
  import opened IdGenerator
  import opened Watch
  import opened Paths
  import De

  class StaticConfig {
    const config: map<string, Value>
    /** The packaged document the contents were flattened from. */
    ghost const document: Value
    /** Whether a `Weak` reference to this source can still be upgraded. */
    var alive: bool

    constructor(ghost document: Value, config: map<string, Value>)
      requires De.IsFlattening(document, config)
      ensures this.document == document && this.config == config && alive
      ensures Valid()
    {
      this.document := document;
      this.config := config;
      alive := true;
    }

    ghost predicate Valid() {
      De.IsFlattening(document, config)
    }

    /** Lines 41-43: a plain lookup in the fixed contents, never an error. */
    function GetValue(key: string): (r: Result<Option<Value>, Error>)
      ensures r.Success?
      ensures r.value.Some? <==> key in config
      ensures r.value.Some? ==> r.value.value == config[key]
    {
      if key in config then Success(Some(config[key])) else Success(None)
    }

    /** Lines 45-51: a handle with a new id and the given notifier; nothing
        is recorded. */
    method WatchPropertyWithNotify(key: string, notify: Notify, gen: Generator, now: Instant)
      returns (h: WatcherHandle<StaticConfig>)
      requires now.secs >= 0
      modifies gen
      ensures gen.counter == (old(gen.counter) + 1) % TwoTo16 && gen.draws == old(gen.draws) + 1
      ensures h == WatcherHandle(Pack(Nanos(now), gen.node, gen.thread, old(gen.counter)), this, notify)
      ensures gen.last == h.watchId
    {
      var generated := gen.Generate(now);
      h := WatcherHandle(generated.value, this, notify);
    }

    /** Line 53: nothing to remove. */
    method DeleteWatcher(id: Id) returns (o: Outcome)
      ensures o == Completed
    {
      o := Completed;
    }

    method Release()
      modifies this
      ensures !alive
    {
      alive := false;
    }
  }

  /** Lines 29-36: every key of contents flattened from a table is a '.'
      followed by the field names leading to its value. */
  lemma StaticKeys(s: StaticConfig, key: string) returns (path: seq<string>)
    requires s.Valid() && s.document.Object? && key in s.config
    ensures key == Dotted(path) && |key| > 0 && key[0] == '.'
    ensures Follow(s.document, path) == Some(s.config[key]) && !s.config[key].Object?
  {
    path := De.DeserializedKey(s.document, s.config, key);
  }

  /** `StaticConfig::new`: a malformed packaged document is an error;
      otherwise the contents are its flattening. */
  method NewStaticConfig(parsed: Result<Value, Error>) returns (r: Result<StaticConfig, Error>)
    ensures parsed.Failure? ==> r == Failure(parsed.error)
    ensures parsed.Success? ==> && r.Success? && fresh(r.value) && r.value.alive
                                && r.value.document == parsed.value
                                && De.IsFlattening(parsed.value, r.value.config)
  {
    if parsed.Failure? {
      return Failure(parsed.error);
    }
    var contents := De.Deserialize(parsed.value);
    var s := new StaticConfig(parsed.value, contents);
    r := Success(s);
  }
}
