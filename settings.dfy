/**
 * settings.js: the plugin settings kept as one JSON object in local storage under the key
 * `jg-yuyin:settings`, read back merged over the defaults, and the change callbacks that are
 * told about every save and reset.
 */
module Settings {
  import opened Wrappers
  import opened Json

  /** A plain settings object as getSettings returns it. */
  type Settings = map<string, Value>

  /** An object being merged in: a property may hold `undefined` (`None`). */
  type Patch = map<string, Option<Value>>

  const CosyModel: string := "FunAudioLLM/CosyVoice2-0.5B"

  /** `defaultSettings`. */
  function Defaults(): Settings {
    map[
      "apiKey" := Str(""),
      "apiUrl" := Str("https://api.siliconflow.cn/v1"),
      "ttsModel" := Str(CosyModel),
      "ttsVoice" := Str("alex"),
      "ttsSpeed" := Num(1.0),
      "ttsGain" := Num(0.0),
      "responseFormat" := Str("mp3"),
      "sampleRate" := Num(32000.0),
      "textStart" := Str(""),
      "textEnd" := Str(""),
      "autoPlay" := Bool(true),
      "autoPlayUser" := Bool(false),
      "customVoices" := Arr([])
    ]
  }

  /**
   * What `localStorage.getItem` offers: no entry (or empty text), text that cannot be read
   * or parsed as JSON, or the parsed JSON value.
   */
  datatype Storage = Empty | Unreadable | Saved(data: Value)

  /** The own properties an object spread `...v` contributes; `null` and numbers contribute none. */
  function Spread(v: Value): Settings {
    if v.Obj? then v.fields else map[]
  }

  /** `getSettings()`: the defaults overlaid with what storage holds, or the defaults alone. */
  function Read(st: Storage): Settings {
    match st
    case Saved(v) => Defaults() + Spread(v)
    case _ => Defaults()
  }

  /** `getDefaultSettings()`: a copy of the defaults, which is also what an empty storage reads as. */
  function GetDefaultSettings(): (r: Settings)
    ensures r == Read(Empty) && r == Read(Unreadable)
    ensures forall st: Storage :: r.Keys <= Read(st).Keys
  {
    Defaults()
  }

  function AsPatch(s: Settings): Patch {
    map k | k in s :: Some(s[k])
  }

  /** `{ ...current, ...partial }`. */
  function Merge(current: Settings, partial: Patch): Patch {
    AsPatch(current) + partial
  }

  /** `JSON.stringify` followed by `JSON.parse`: a property holding `undefined` is dropped. */
  function Stringify(m: Patch): Value {
    Obj(map k | k in m && m[k].Some? :: m[k].value)
  }

  /** What saveSettings(partial) writes when the current storage is `st`. */
  function Saving(st: Storage, partial: Patch): Storage {
    Saved(Stringify(Merge(Read(st), partial)))
  }

  /** getSettings returns every default key, with the stored value wherever storage has one. */
  lemma ReadSpec(st: Storage, k: string)
    ensures k in Defaults() ==> k in Read(st)
    ensures st.Saved? && k in Spread(st.data) ==> k in Read(st) && Read(st)[k] == Spread(st.data)[k]
    ensures !(st.Saved? && k in Spread(st.data)) ==>
      (k in Read(st) <==> k in Defaults()) && (k in Defaults() ==> Read(st)[k] == Defaults()[k])
  {
  }

  /**
   * Saving then reading back: a key of `partial` reads as its new value, or as its default when
   * the new value is `undefined` (JSON drops it); every other key reads as before.
   */
  lemma SaveThenRead(st: Storage, partial: Patch, k: string)
    ensures var after := Read(Saving(st, partial));
      && (k in partial && partial[k].Some? ==> k in after && after[k] == partial[k].value)
      && (k in partial && partial[k].None? ==>
            (k in after <==> k in Defaults()) && (k in Defaults() ==> after[k] == Defaults()[k]))
      && (k !in partial ==> (k in after <==> k in Read(st)) && (k in after ==> after[k] == Read(st)[k]))
  {
    var stored := Spread(Stringify(Merge(Read(st), partial)));
    if k in partial {
      assert k in stored <==> partial[k].Some?;
    } else if k in Read(st) {
      assert k in stored && stored[k] == Read(st)[k];
    } else {
      assert k !in stored;
    }
  }

  /** Saving a patch of defined values twice is the same as saving it once. */
  lemma SaveIdempotent(st: Storage, partial: Patch)
    requires forall k :: k in partial ==> partial[k].Some?
    ensures Read(Saving(Saving(st, partial), partial)) == Read(Saving(st, partial))
  {
    var once := Read(Saving(st, partial));
    var twice := Read(Saving(Saving(st, partial), partial));
    forall k | k in once || k in twice
      ensures k in once && k in twice && once[k] == twice[k]
    {
      SaveThenRead(st, partial, k);
      SaveThenRead(Saving(st, partial), partial, k);
    }
  }

  /** After a reset, getSettings returns exactly the defaults. */
  lemma ResetThenRead()
    ensures Read(Saved(Obj(Defaults()))) == Defaults()
  {
  }

  /** The patch updateCustomVoices(voices) saves: `{ customVoices: voices || [] }`. */
  function CustomVoicesPatch(voices: Option<Value>): Patch {
    map["customVoices" := Or(voices, Some(Arr([])))]
  }

  /** `getCustomVoices()`: the stored list, or `[]` when it is missing or falsy. */
  function GetCustomVoices(s: Settings): (r: Value)
    ensures "customVoices" in s && Truthy(Some(s["customVoices"])) ==> r == s["customVoices"]
    ensures !("customVoices" in s && Truthy(Some(s["customVoices"]))) ==> r == Arr([])
  {
    Or(Get(s, "customVoices"), Some(Arr([]))).value
  }

  /** Round trip: the list updateCustomVoices stores is the one getCustomVoices returns, `[]` for a falsy one. */
  lemma UpdateThenGetCustomVoices(st: Storage, voices: Option<Value>)
    ensures Truthy(voices) ==> GetCustomVoices(Read(Saving(st, CustomVoicesPatch(voices)))) == voices.value
    ensures !Truthy(voices) ==> GetCustomVoices(Read(Saving(st, CustomVoicesPatch(voices)))) == Arr([])
  {
    SaveThenRead(st, CustomVoicesPatch(voices), "customVoices");
  }

  /** What `onSettingsChange` is handed: a function, identified by `id`, or anything else. */
  datatype Arg = Function(id: nat) | NotAFunction

  /** One invocation of a change callback with the object it was passed. */
  datatype Delivery = Delivery(callback: nat, settings: Patch)

  /** `changeCallbacks.forEach(cb => cb(s))`: every callback, in registration order. */
  function Deliveries(callbacks: seq<nat>, s: Patch): seq<Delivery> {
    if callbacks == [] then [] else [Delivery(callbacks[0], s)] + Deliveries(callbacks[1..], s)
  }

  /** The callbacks among `callbacks` that throw, in order; each is caught and logged. */
  function Throwing(callbacks: seq<nat>, throws: set<nat>): seq<nat> {
    if callbacks == [] then []
    else (if callbacks[0] in throws then [callbacks[0]] else []) + Throwing(callbacks[1..], throws)
  }

  /** The registered callbacks: registration only ever adds one function at the end. */
  function Register(callbacks: seq<nat>, callback: Arg): (r: seq<nat>)
    ensures callback.Function? ==> r == callbacks + [callback.id]
    ensures callback.NotAFunction? ==> r == callbacks
    ensures |callbacks| <= |r| <= |callbacks| + 1 && r[..|callbacks|] == callbacks
  {
    if callback.Function? then callbacks + [callback.id] else callbacks
  }

  /**
   * The module state of settings.js: local storage, the `changeCallbacks` list, and the record
   * of callback invocations and of the callbacks that threw.
   */
  class Store {
    var storage: Storage
    var callbacks: seq<nat>
    var delivered: seq<Delivery>
    var failures: seq<nat>

    constructor (initial: Storage)
      ensures storage == initial && callbacks == [] && delivered == [] && failures == []
    {
      storage := initial;
      callbacks := [];
      delivered := [];
      failures := [];
    }

    /** `getSettings()` on the current storage. */
    function GetSettings(): Settings
      reads this
    {
      Read(storage)
    }

    /** Calls every callback with `s`, in order; one that throws does not stop the rest. */
    method Notify(s: Patch, throws: set<nat>)
      modifies this
      ensures storage == old(storage) && callbacks == old(callbacks)
      ensures delivered == old(delivered) + Deliveries(callbacks, s)
      ensures failures == old(failures) + Throwing(callbacks, throws)
    {
      var cbs := callbacks;
      var calls: seq<Delivery> := [];
      var thrown: seq<nat> := [];
      var i: nat := 0;
      while i < |cbs|
        invariant i <= |cbs|
        invariant calls == Deliveries(cbs[..i], s)
        invariant thrown == Throwing(cbs[..i], throws)
        modifies {}
      {
        var cb := cbs[i];
        DeliveriesSnoc(cbs[..i], cb, s);
        ThrowingSnoc(cbs[..i], cb, throws);
        assert cbs[..i + 1] == cbs[..i] + [cb];
        calls := calls + [Delivery(cb, s)];
        if cb in throws {
          thrown := thrown + [cb];
        }
        i := i + 1;
      }
      assert cbs[..i] == cbs;
      delivered := delivered + calls;
      failures := failures + thrown;
    }

    /**
     * `saveSettings(partial)`: the current settings overlaid with `partial` are written, then
     * every callback gets the merged object. When the write throws (`writeOk` false) nothing
     * changes and no callback runs.
     */
    method SaveSettings(partial: Patch, writeOk: bool, throws: set<nat>)
      modifies this
      ensures writeOk ==> storage == Saving(old(storage), partial)
      ensures !writeOk ==> storage == old(storage)
      ensures callbacks == old(callbacks)
      ensures writeOk ==> delivered == old(delivered) + Deliveries(callbacks, Merge(Read(old(storage)), partial))
      ensures writeOk ==> failures == old(failures) + Throwing(callbacks, throws)
      ensures !writeOk ==> delivered == old(delivered) && failures == old(failures)
    {
      var current := GetSettings();
      var updated := Merge(current, partial);
      if !writeOk {
        return;
      }
      storage := Saved(Stringify(updated));
      Notify(updated, throws);
    }

    /** `onSettingsChange(callback)`: only a function is registered. */
    method OnSettingsChange(callback: Arg)
      modifies this
      ensures callbacks == Register(old(callbacks), callback)
      ensures storage == old(storage) && delivered == old(delivered) && failures == old(failures)
    {
      if callback.Function? {
        callbacks := callbacks + [callback.id];
      }
    }

    /** `resetSettings()`: the defaults are written and every callback gets a copy of them. */
    method ResetSettings(writeOk: bool, throws: set<nat>)
      modifies this
      ensures writeOk ==> storage == Saved(Obj(Defaults()))
      ensures !writeOk ==> storage == old(storage)
      ensures callbacks == old(callbacks)
      ensures writeOk ==> delivered == old(delivered) + Deliveries(callbacks, AsPatch(Defaults()))
      ensures writeOk ==> failures == old(failures) + Throwing(callbacks, throws)
      ensures !writeOk ==> delivered == old(delivered) && failures == old(failures)
    {
      if !writeOk {
        return;
      }
      storage := Saved(Obj(Defaults()));
      Notify(AsPatch(Defaults()), throws);
    }

    /** `updateCustomVoices(voices)`: saves `voices`, or `[]` when it is falsy. */
    method UpdateCustomVoices(voices: Option<Value>, writeOk: bool, throws: set<nat>)
      modifies this
      ensures writeOk ==> storage == Saving(old(storage), CustomVoicesPatch(voices))
      ensures !writeOk ==> storage == old(storage)
      ensures callbacks == old(callbacks)
      ensures writeOk ==> delivered == old(delivered) + Deliveries(callbacks, Merge(Read(old(storage)), CustomVoicesPatch(voices)))
      ensures writeOk ==> failures == old(failures) + Throwing(callbacks, throws)
      ensures !writeOk ==> delivered == old(delivered) && failures == old(failures)
    {
      SaveSettings(CustomVoicesPatch(voices), writeOk, throws);
    }
  }

  lemma {:induction false} DeliveriesSnoc(cbs: seq<nat>, cb: nat, s: Patch)
    ensures Deliveries(cbs + [cb], s) == Deliveries(cbs, s) + [Delivery(cb, s)]
  {
    if cbs != [] {
      assert (cbs + [cb])[1..] == cbs[1..] + [cb];
      DeliveriesSnoc(cbs[1..], cb, s);
    } else {
      assert [cb][1..] == [];
    }
  }

  lemma {:induction false} ThrowingSnoc(cbs: seq<nat>, cb: nat, throws: set<nat>)
    ensures Throwing(cbs + [cb], throws) == Throwing(cbs, throws) + (if cb in throws then [cb] else [])
  {
    if cbs != [] {
      assert (cbs + [cb])[1..] == cbs[1..] + [cb];
      ThrowingSnoc(cbs[1..], cb, throws);
    } else {
      assert [cb][1..] == [];
    }
  }

  /**
   * A throwing callback is isolated: every registered callback receives the settings once, in
   * registration order, whichever of them throw.
   */
  lemma {:induction false} DeliveriesSpec(callbacks: seq<nat>, s: Patch)
    ensures |Deliveries(callbacks, s)| == |callbacks|
    ensures forall i :: 0 <= i < |callbacks| ==> Deliveries(callbacks, s)[i] == Delivery(callbacks[i], s)
  {
    if callbacks != [] {
      DeliveriesSpec(callbacks[1..], s);
    }
  }

  /** Only callbacks that are registered can appear among the failures, each in registration order. */
  lemma {:induction false} ThrowingIsSubsequence(callbacks: seq<nat>, throws: set<nat>)
    ensures |Throwing(callbacks, throws)| <= |callbacks|
    ensures forall x :: x in Throwing(callbacks, throws) ==> x in callbacks && x in throws
  {
    if callbacks != [] {
      ThrowingIsSubsequence(callbacks[1..], throws);
    }
  }
}
