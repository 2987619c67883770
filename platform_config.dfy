/**
 * The platform defaults (crates/rachat-config/src/platform_config.rs): a
 * read-only map built once from what the host reports. The host's locales,
 * environment, arguments, Windows version and the Qt version flags of the
 * build are given as a `Host` value.
 */
module PlatformSource {
  import opened Wrappers
  import opened Json
  import opened Errors
  import opened IdGenerator
  import opened Watch

  /** `winver::WindowsVersion`, ordered field by field. */
  datatype WindowsVersion = WindowsVersion(major: nat, minor: nat, build: nat)

  predicate AtLeast(v: WindowsVersion, w: WindowsVersion) {
    || v.major > w.major
    || (v.major == w.major && v.minor > w.minor)
    || (v.major == w.major && v.minor == w.minor && v.build >= w.build)
  }

  /** What the platform source learns from its host. */
  datatype Host = Host(
    windows: bool,            // built for Windows (`#[cfg(windows)]`)
    styleVariableSet: bool,   // QT_QUICK_CONTROLS_STYLE is set
    args: seq<string>,        // the command-line arguments
    version: Option<WindowsVersion>, // None when the version cannot be detected
    qtAtLeast5_7: bool,       // built against Qt 5.7 or later
    qtAtLeast6_8: bool,       // built against Qt 6.8 or later
    locales: seq<string>)     // the system locales, in the order reported

  const StyleKey := "gui.qt.style"

  /** Whether the host leaves the Qt style alone (lines 31-46): the user chose
      one, or the version is unknown or older than 6.2.0. */
  predicate KeepsStyle(host: Host) {
    || host.styleVariableSet
    || "-style" in host.args
    || host.version.None?
    || !AtLeast(host.version.value, WindowsVersion(6, 2, 0))
  }

  /** The style picked for a Windows host, by priority: FluentWinUI3 on
      Windows 11 with Qt 6.8, else Universal on Windows 10 with Qt 5.7, else
      Fusion. */
  function ChosenStyle(host: Host): Option<string> {
    if KeepsStyle(host) then None
    else if host.qtAtLeast6_8 && AtLeast(host.version.value, WindowsVersion(10, 0, 22000)) then Some("FluentWinUI3")
    else if host.qtAtLeast5_7 && AtLeast(host.version.value, WindowsVersion(10, 0, 0)) then Some("Universal")
    else Some("Fusion")
  }

  /** `add_windows_properties`: give up early when the style is the user's
      or the version too old, then insert Fusion and let each later
      applicable rule overwrite it. */
  method AddWindowsProperties(hm: map<string, Value>, host: Host) returns (r: map<string, Value>)
    ensures ChosenStyle(host).None? ==> r == hm
    ensures ChosenStyle(host).Some? ==> r == hm[StyleKey := Str(ChosenStyle(host).value)]
  {
    r := hm;
    if host.styleVariableSet {
      return;
    }
    if "-style" in host.args {
      return;
    }
    if host.version.None? {
      return;
    }
    var version := host.version.value;
    if !AtLeast(version, WindowsVersion(6, 2, 0)) {
      return;
    }
    r := r[StyleKey := Str("Fusion")];
    if host.qtAtLeast5_7 && AtLeast(version, WindowsVersion(10, 0, 0)) {
      r := r[StyleKey := Str("Universal")];
    }
    if host.qtAtLeast6_8 && AtLeast(version, WindowsVersion(10, 0, 22000)) {
      r := r[StyleKey := Str("FluentWinUI3")];
    }
  }

  /** `get_langs_value`: one string per locale, in the order reported. */
  method LangsValue(locales: seq<string>) returns (v: Value)
    ensures v.Array? && |v.items| == |locales|
    ensures forall i :: 0 <= i < |locales| ==> v.items[i] == Str(locales[i])
  {
    var langs: seq<Value> := [];
    for i := 0 to |locales|
      invariant |langs| == i
      invariant forall j :: 0 <= j < i ==> langs[j] == Str(locales[j])
    {
      langs := langs + [Str(locales[i])];
    }
    v := Array(langs);
  }

  /** Windows 11 with Qt 6.8 gets FluentWinUI3 whatever the other flag says,
      and Windows 10 with only Qt 5.7 gets Universal. */
  lemma StyleByVersion(host: Host)
    requires !host.styleVariableSet && "-style" !in host.args && host.version.Some?
    ensures AtLeast(host.version.value, WindowsVersion(10, 0, 22000)) && host.qtAtLeast6_8 ==>
              ChosenStyle(host) == Some("FluentWinUI3")
    ensures AtLeast(host.version.value, WindowsVersion(10, 0, 0)) && host.qtAtLeast5_7 && !host.qtAtLeast6_8 ==>
              ChosenStyle(host) == Some("Universal")
    ensures AtLeast(host.version.value, WindowsVersion(6, 2, 0)) && !host.qtAtLeast5_7 && !host.qtAtLeast6_8 ==>
              ChosenStyle(host) == Some("Fusion")
    ensures !AtLeast(host.version.value, WindowsVersion(6, 2, 0)) ==> ChosenStyle(host).None?
  {
  }

  /** The locales as JSON strings, in order. */
  function LangStrings(locales: seq<string>): seq<Value> {
    seq(|locales|, i requires 0 <= i < |locales| => Str(locales[i]))
  }

  /** The defaults a host gets: the default profile, the locales, and on
      Windows the chosen Qt style if any. */
  function Defaults(host: Host): map<string, Value> {
    var base := map["profile.default" := Str("default"), "i18n.langs" := Array(LangStrings(host.locales))];
    if host.windows && ChosenStyle(host).Some? then base[StyleKey := Str(ChosenStyle(host).value)] else base
  }

  /** Lines 85-102: the profile is "default", the languages are the
      locales in order, and the style key is present exactly on Windows
      hosts that get a style; nothing else is set. */
  lemma DefaultsContents(host: Host)
    ensures var d := Defaults(host);
      && d["profile.default"] == Str("default")
      && d["i18n.langs"].Array? && |d["i18n.langs"].items| == |host.locales|
      && (forall i :: 0 <= i < |host.locales| ==> d["i18n.langs"].items[i] == Str(host.locales[i]))
      && (StyleKey in d <==> host.windows && ChosenStyle(host).Some?)
      && (StyleKey in d ==> d[StyleKey] == Str(ChosenStyle(host).value))
      && d.Keys == {"profile.default", "i18n.langs"} + (if StyleKey in d then {StyleKey} else {})
  {
  }

  class PlatformConfig {
    const config: map<string, Value>
    /** Whether a `Weak` reference to this source can still be upgraded. */
    var alive: bool

    /** `PlatformConfig::new` (lines 85-102). */
    constructor(host: Host)
      ensures alive && config == Defaults(host)
    {
      var hm: map<string, Value> := map[];
      hm := hm["profile.default" := Str("default")];
      var langs := LangsValue(host.locales);
      hm := hm["i18n.langs" := langs];
      if host.windows {
        hm := AddWindowsProperties(hm, host);
      }
      config := hm;
      alive := true;
      assert langs.items == LangStrings(host.locales);
    }

    /** Lines 106-108: a lookup, never an error. */
    function GetValue(key: string): (r: Result<Option<Value>, Error>)
      ensures r.Success?
      ensures r.value.Some? <==> key in config
      ensures r.value.Some? ==> r.value.value == config[key]
    {
      if key in config then Success(Some(config[key])) else Success(None)
    }

    /** Lines 110-116: a handle with a new id and the given notifier; nothing
        is recorded. */
    method WatchPropertyWithNotify(key: string, notify: Notify, gen: Generator, now: Instant)
      returns (h: WatcherHandle<PlatformConfig>)
      requires now.secs >= 0
      modifies gen
      ensures gen.counter == (old(gen.counter) + 1) % TwoTo16 && gen.draws == old(gen.draws) + 1
      ensures h == WatcherHandle(Pack(Nanos(now), gen.node, gen.thread, old(gen.counter)), this, notify)
      ensures gen.last == h.watchId
    {
      var generated := gen.Generate(now);
      h := WatcherHandle(generated.value, this, notify);
    }

    /** Line 118: nothing to remove. */
    method DeleteWatcher(id: Id) returns (o: Outcome)
      ensures o == Completed
    {
      o := Completed;
    }

    method Release()
      modifies this
      ensures !alive
    {
      alive := false;
    }
  }
}
