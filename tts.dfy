/**
 * tts.js: the voice table, the speech request generateTTS builds and the guards in front of
 * it, the shared `audioState`, the name check of uploadVoice, and the list loadCustomVoices
 * keeps. Every HTTP exchange is an oracle parameter: whether it succeeded and what it returned.
 */
module Tts {
  import opened Wrappers
  import opened Json
  import Settings

  const CosyModel: string := Settings.CosyModel

  /** One entry of `TTS_MODELS`: the model key, its display name and its preset voices in table order. */
  datatype ModelEntry = ModelEntry(key: string, name: string, voices: seq<(string, string)>)

  /** `TTS_MODELS`. */
  const Models: seq<ModelEntry> := [
    ModelEntry(CosyModel, "CosyVoice2-0.5B", [
      ("alex", "Alex (男声)"),
      ("anna", "Anna (女声)"),
      ("bella", "Bella (女声)"),
      ("benjamin", "Benjamin (男声)"),
      ("charles", "Charles (男声)"),
      ("claire", "Claire (女声)"),
      ("david", "David (男声)"),
      ("diana", "Diana (女声)")
    ])
  ]

  /** `TTS_MODELS[model]?.voices`: the preset voices of a known model. */
  function PresetVoices(model: string): (r: Option<seq<(string, string)>>)
    ensures r.Some? <==> model == CosyModel
    ensures r.Some? ==> r.value == Models[0].voices
  {
    if model == Models[0].key then Some(Models[0].voices) else None
  }

  // ----- generateTTS -----

  /** The optional second argument of generateTTS; `None` is a property left undefined. */
  datatype Options = Options(voice: Option<Value>, speed: Option<Value>, gain: Option<Value>, autoPlay: Option<Value>)

  const NoOptions: Options := Options(None, None, None, None)

  /** The POST to `/audio/speech`: where it goes, the bearer token and the JSON body. */
  datatype Request = Request(
    url: string, authorization: string,
    model: string, input: string, voice: string, responseFormat: string,
    speed: Option<Value>, gain: Option<Value>)

  /** Why generateTTS returned `null` without sending anything. */
  datatype Refusal = NoApiKey | EmptyText | StillPlaying | VoiceNotText

  /** What generateTTS decides before the network: refuse, or send this request. */
  datatype Plan = Refuse(why: Refusal) | Send(request: Request)

  /**
   * The voice parameter: a value holding a colon (a custom voice URI) is sent as it is, any
   * other value names a preset of the CosyVoice model.
   */
  function VoiceParam(voiceValue: string): string {
    if ':' in voiceValue then voiceValue else CosyModel + ":" + voiceValue
  }

  lemma VoiceParamSpec(v: string)
    ensures ':' in VoiceParam(v)
    ensures ':' in v ==> VoiceParam(v) == v
    ensures ':' !in v ==> VoiceParam(v) == CosyModel + ":" + v && VoiceParam(v)[|CosyModel| + 1..] == v
  {
    if ':' !in v {
      assert (CosyModel + ":" + v)[|CosyModel|] == ':';
    }
  }

  /** Resolving a voice parameter again changes nothing: every parameter already holds a colon. */
  lemma VoiceParamIdempotent(v: string)
    ensures VoiceParam(VoiceParam(v)) == VoiceParam(v)
  {
    VoiceParamSpec(v);
  }

  /** `options.voice || settings.ttsVoice || "alex"`. */
  function VoiceValue(settings: Settings.Settings, options: Options): Value {
    Or(Or(options.voice, Get(settings, "ttsVoice")), Some(Str("alex"))).value
  }

  /** `options.x !== undefined ? options.x : (settings.y || fallback)`. */
  function Override(option: Option<Value>, settings: Settings.Settings, key: string, fallback: Value): Option<Value> {
    if option.Some? then option else Or(Get(settings, key), Some(fallback))
  }

  /**
   * The decision of generateTTS(text, options) before any request: no key, then empty text,
   * then a sound already playing, each refuses; a voice value that is not text makes
   * `includes` throw, which the catch turns into `null`. Otherwise the request is built, with
   * the model and the format fixed whatever the settings say.
   */
  function PlanTTS(settings: Settings.Settings, text: string, options: Options, isPlaying: bool): Plan {
    var apiKey := Get(settings, "apiKey");
    if !Truthy(apiKey) then Refuse(NoApiKey)
    else if text == "" then Refuse(EmptyText)
    else if isPlaying then Refuse(StillPlaying)
    else
      var voiceValue := VoiceValue(settings, options);
      if !voiceValue.Str? then Refuse(VoiceNotText)
      else
        Send(Request(
          Render(Get(settings, "apiUrl")) + "/audio/speech",
          "Bearer " + Render(apiKey),
          CosyModel, text, VoiceParam(voiceValue.s), "mp3",
          Override(options.speed, settings, "ttsSpeed", Num(1.0)),
          Override(options.gain, settings, "ttsGain", Num(0.0))))
  }

  /** The guards in order: a missing key wins over everything, then empty text, then a playing sound. */
  lemma GuardOrder(settings: Settings.Settings, text: string, options: Options, isPlaying: bool)
    ensures !Truthy(Get(settings, "apiKey")) ==> PlanTTS(settings, text, options, isPlaying) == Refuse(NoApiKey)
    ensures Truthy(Get(settings, "apiKey")) && text == "" ==> PlanTTS(settings, text, options, isPlaying) == Refuse(EmptyText)
    ensures Truthy(Get(settings, "apiKey")) && text != "" && isPlaying ==>
      PlanTTS(settings, text, options, isPlaying) == Refuse(StillPlaying)
    ensures PlanTTS(settings, text, options, isPlaying).Send? <==>
      Truthy(Get(settings, "apiKey")) && text != "" && !isPlaying && VoiceValue(settings, options).Str?
  {
  }

  /**
   * A request always names the CosyVoice model and asks for mp3, carries the text unchanged
   * and a voice resolved from the options, the settings or "alex"; the stored model, format and
   * sample rate play no part.
   */
  lemma RequestShape(settings: Settings.Settings, text: string, options: Options, isPlaying: bool)
    requires PlanTTS(settings, text, options, isPlaying).Send?
    ensures var q := PlanTTS(settings, text, options, isPlaying).request;
      && q.model == CosyModel && q.responseFormat == "mp3" && q.input == text
      && q.voice == VoiceParam(VoiceValue(settings, options).s)
      && (Truthy(options.voice) ==> VoiceValue(settings, options) == options.voice.value)
      && (!Truthy(options.voice) && !Truthy(Get(settings, "ttsVoice")) ==> q.voice == CosyModel + ":alex")
  {
  }

  /** Changing the stored model, response format or sample rate does not change the request. */
  lemma RequestIgnoresFormatSettings(settings: Settings.Settings, v1: Value, v2: Value, v3: Value, text: string, options: Options, isPlaying: bool)
    ensures PlanTTS(settings, text, options, isPlaying) ==
      PlanTTS(settings["ttsModel" := v1]["responseFormat" := v2]["sampleRate" := v3], text, options, isPlaying)
  {
    var changed := settings["ttsModel" := v1]["responseFormat" := v2]["sampleRate" := v3];
    assert Get(changed, "apiKey") == Get(settings, "apiKey");
    assert Get(changed, "apiUrl") == Get(settings, "apiUrl");
    assert Get(changed, "ttsVoice") == Get(settings, "ttsVoice");
    assert Get(changed, "ttsSpeed") == Get(settings, "ttsSpeed");
    assert Get(changed, "ttsGain") == Get(settings, "ttsGain");
  }

  /** The default settings hold no API key, so nothing is sent until one is configured. */
  lemma DefaultsSendNothing(text: string, options: Options, isPlaying: bool)
    ensures PlanTTS(Settings.Defaults(), text, options, isPlaying) == Refuse(NoApiKey)
  {
    assert Get(Settings.Defaults(), "apiKey") == Some(Str(""));
  }

  /** `options.autoPlay !== undefined ? options.autoPlay : settings.autoPlay`, taken as a condition. */
  predicate ShouldAutoPlay(settings: Settings.Settings, options: Options) {
    Truthy(if options.autoPlay.Some? then options.autoPlay else Get(settings, "autoPlay"))
  }

  // ----- audioState -----

  /**
   * The fields of `audioState`, plus the audios whose `ended`/`error` listeners and `play()`
   * rejection handler are attached. An audio is a number standing for its `Audio` element.
   */
  datatype Playback = Playback(isPlaying: bool, currentAudio: Option<nat>, watched: set<nat>)

  const Idle: Playback := Playback(false, None, {})

  /** The state after a generateTTS call whose request was answered (`ok`) with a new audio. */
  function AfterGenerate(p: Playback, plan: Plan, ok: bool, autoPlay: bool, audio: nat): Playback {
    if plan.Refuse? || !ok then p
    else if autoPlay then Playback(true, Some(audio), p.watched + {audio})
    else Playback(p.isPlaying, Some(audio), p.watched)
  }

  /** An audio's `ended` or `error` event, or its `play()` rejecting: handled only where attached. */
  function AfterFinish(p: Playback, audio: nat): Playback {
    if audio in p.watched then Playback(false, None, p.watched) else p
  }

  /** `stopCurrentAudio()`. */
  function AfterStop(p: Playback): Playback {
    Playback(false, None, p.watched)
  }

  /**
   * While a sound plays, every further request is refused until it ends, fails or is stopped:
   * after an auto-played success the next call is refused, and after stopping it is not.
   */
  lemma PlayingBlocksUntilStopped(p: Playback, plan: Plan, audio: nat, settings: Settings.Settings, text: string, options: Options)
    requires plan.Send?
    ensures var q := AfterGenerate(p, plan, true, true, audio);
      && q.isPlaying && q.currentAudio == Some(audio)
      && PlanTTS(settings, text, options, q.isPlaying).Refuse?
      && !AfterStop(q).isPlaying && !AfterFinish(q, audio).isPlaying
      && PlanTTS(settings, text, options, AfterStop(q).isPlaying) == PlanTTS(settings, text, options, false)
  {
  }

  /** Without auto-play a success only replaces the current audio; `isPlaying` is left as it was. */
  lemma NoAutoPlayKeepsFlag(p: Playback, plan: Plan, audio: nat)
    requires plan.Send?
    ensures AfterGenerate(p, plan, true, false, audio).isPlaying == p.isPlaying
    ensures AfterGenerate(p, plan, true, false, audio).currentAudio == Some(audio)
  {
  }

  /** A refused or failed call leaves the audio state alone. */
  lemma FailureKeepsState(p: Playback, plan: Plan, ok: bool, autoPlay: bool, audio: nat)
    requires plan.Refuse? || !ok
    ensures AfterGenerate(p, plan, ok, autoPlay, audio) == p
  {
  }

  /** Stopping always leaves the state idle, and stopping twice is the same as once. */
  lemma StopIsIdle(p: Playback)
    ensures !AfterStop(p).isPlaying && AfterStop(p).currentAudio.None?
    ensures AfterStop(AfterStop(p)) == AfterStop(p)
  {
  }

  /** The shared `audioState` object and the audios it has handed to the browser. */
  class AudioState {
    var isPlaying: bool
    var currentAudio: Option<nat>
    var watched: set<nat>
    /** The audios `pause()` was called on, in order. */
    var paused: seq<nat>

    constructor ()
      ensures Snapshot() == Idle && paused == []
    {
      isPlaying := false;
      currentAudio := None;
      watched := {};
      paused := [];
    }

    function Snapshot(): Playback
      reads this
    {
      Playback(isPlaying, currentAudio, watched)
    }

    /**
     * `generateTTS(text, options)` with `settings` as getSettings returns them. `ok` is whether
     * the request was answered with audio, `audio` the new element and `url` its object URL.
     * The result is the URL, or `None` for `null`; `sent` is the request, if one was made.
     */
    method GenerateTTS(settings: Settings.Settings, text: string, options: Options, ok: bool, audio: nat, url: string)
      returns (result: Option<string>, sent: Option<Request>)
      modifies this
      ensures sent == (if PlanTTS(settings, text, options, old(isPlaying)).Send?
        then Some(PlanTTS(settings, text, options, old(isPlaying)).request) else None)
      ensures result == (if sent.Some? && ok then Some(url) else None)
      ensures Snapshot() == AfterGenerate(old(Snapshot()), PlanTTS(settings, text, options, old(isPlaying)), ok, ShouldAutoPlay(settings, options), audio)
      ensures paused == old(paused)
    {
      var plan := PlanTTS(settings, text, options, isPlaying);
      if plan.Refuse? {
        return None, None;
      }
      sent := Some(plan.request);
      if !ok {
        return None, sent;
      }
      currentAudio := Some(audio);
      if ShouldAutoPlay(settings, options) {
        isPlaying := true;
        watched := watched + {audio};
      }
      result := Some(url);
    }

    /** The `ended` or `error` listener of `audio`, or the rejection of its `play()`. */
    method AudioFinished(audio: nat)
      modifies this
      ensures Snapshot() == AfterFinish(old(Snapshot()), audio) && paused == old(paused)
    {
      if audio in watched {
        isPlaying := false;
        currentAudio := None;
      }
    }

    /** `stopCurrentAudio()`: the current audio, if any, is paused and dropped. */
    method StopCurrentAudio()
      modifies this
      ensures Snapshot() == AfterStop(old(Snapshot()))
      ensures paused == old(paused) + (if old(currentAudio).Some? then [old(currentAudio).value] else [])
    {
      if currentAudio.Some? {
        paused := paused + [currentAudio.value];
        currentAudio := None;
      }
      isPlaying := false;
    }
  }

  // ----- loadCustomVoices -----

  /**
   * `data.result || data.results || []` on the parsed reply; `None` when `data` is `null`,
   * where reading a property throws and the catch returns `[]` without saving anything.
   */
  function SelectVoices(data: Value): (r: Option<Value>)
    ensures r.None? <==> data.Null?
    ensures r.Some? ==> Truthy(r)
    ensures r.Some? && Truthy(Prop(data, "result")) ==> r == Prop(data, "result")
    ensures r.Some? && !Truthy(Prop(data, "result")) && Truthy(Prop(data, "results")) ==> r == Prop(data, "results")
    ensures r.Some? && !Truthy(Prop(data, "result")) && !Truthy(Prop(data, "results")) ==> r == Some(Arr([]))
  {
    if data.Null? then None
    else Or(Or(Prop(data, "result"), Prop(data, "results")), Some(Arr([])))
  }

  /**
   * `loadCustomVoices()`. `reply` is the parsed body of a successful listing, or `None` when
   * the fetch failed, the status was not ok or the body was not JSON. The list found is saved
   * through updateCustomVoices and returned; every failure returns `[]`.
   */
  method LoadCustomVoices(store: Settings.Store, reply: Option<Value>, writeOk: bool, throws: set<nat>)
    returns (voices: Value, requested: bool)
    modifies store
    ensures requested == Truthy(Get(Settings.Read(old(store.storage)), "apiKey"))
    ensures var found := if requested && reply.Some? then SelectVoices(reply.value) else None;
      && (found.Some? ==> voices == found.value)
      && (found.None? ==> voices == Arr([]))
      && (found.Some? && writeOk ==> store.storage == Settings.Saving(old(store.storage), Settings.CustomVoicesPatch(found)))
      && (found.None? || !writeOk ==> store.storage == old(store.storage))
      && (found.Some? && writeOk ==>
            store.delivered == old(store.delivered) +
              Settings.Deliveries(store.callbacks, Settings.Merge(Settings.Read(old(store.storage)), Settings.CustomVoicesPatch(found))))
      && (found.Some? && writeOk ==> store.failures == old(store.failures) + Settings.Throwing(store.callbacks, throws))
      && (found.None? || !writeOk ==> store.delivered == old(store.delivered) && store.failures == old(store.failures))
    ensures store.callbacks == old(store.callbacks)
  {
    var settings := store.GetSettings();
    if !Truthy(Get(settings, "apiKey")) {
      return Arr([]), false;
    }
    requested := true;
    if reply.None? {
      return Arr([]), requested;
    }
    var found := SelectVoices(reply.value);
    if found.None? {
      return Arr([]), requested;
    }
    store.UpdateCustomVoices(found, writeOk, throws);
    voices := found.value;
  }

  /** After a successful listing is saved, getCustomVoices returns the list loadCustomVoices returned. */
  lemma LoadThenGetCustomVoices(st: Settings.Storage, data: Value)
    requires SelectVoices(data).Some?
    ensures Settings.GetCustomVoices(Settings.Read(Settings.Saving(st, Settings.CustomVoicesPatch(SelectVoices(data))))) ==
      SelectVoices(data).value
  {
    Settings.UpdateThenGetCustomVoices(st, SelectVoices(data));
  }

  // ----- uploadVoice -----

  /** Why uploadVoice returned false before reading the file. */
  datatype UploadError = UploadNoKey | MissingInput | BadNameCharacters | NameTooLong

  /** A character `[a-zA-Z0-9_-]` admits. */
  predicate IsNameChar(c: char) {
    ('a' <= c <= 'z') || ('A' <= c <= 'Z') || ('0' <= c <= '9') || c == '_' || c == '-'
  }

  /** `/^[a-zA-Z0-9_-]+$/.test(name)`. */
  predicate NamePatternHolds(name: string) {
    |name| > 0 && forall i :: 0 <= i < |name| ==> IsNameChar(name[i])
  }

  /**
   * The checks of uploadVoice in order: the key, then name, text and file all present, then
   * the name's characters, then its length of at most 64. `None` means the upload goes ahead.
   */
  function UploadCheck(settings: Settings.Settings, name: Option<string>, text: Option<string>, hasFile: bool): Option<UploadError> {
    if !Truthy(Get(settings, "apiKey")) then Some(UploadNoKey)
    else if name.None? || name.value == "" || text.None? || text.value == "" || !hasFile then Some(MissingInput)
    else if !NamePatternHolds(name.value) then Some(BadNameCharacters)
    else if |name.value| > 64 then Some(NameTooLong)
    else None
  }

  /** An upload goes ahead exactly when the key is set, the text and file are there, and the name is 1 to 64 pattern characters. */
  lemma UploadCheckSpec(settings: Settings.Settings, name: Option<string>, text: Option<string>, hasFile: bool)
    ensures UploadCheck(settings, name, text, hasFile).None? <==>
      && Truthy(Get(settings, "apiKey"))
      && name.Some? && 1 <= |name.value| <= 64
      && (forall i :: 0 <= i < |name.value| ==> IsNameChar(name.value[i]))
      && text.Some? && text.value != "" && hasFile
    ensures name.Some? && name.value != "" && Truthy(Get(settings, "apiKey")) && text.Some? && text.value != "" && hasFile
      && (exists i :: 0 <= i < |name.value| && !IsNameChar(name.value[i]))
      ==> UploadCheck(settings, name, text, hasFile) == Some(BadNameCharacters)
  {
  }

  /**
   * `uploadVoice(name, text, file)`. After the checks the file is read (`readOk`) and sent as
   * JSON (`jsonOk`); when that is refused it is sent again as a form (`formOk`). A success
   * refreshes the voice list through loadCustomVoices, whose listing reply is `listing`, and
   * yields true; the key was checked, so the listing is always requested.
   */
  method UploadVoice(store: Settings.Store, name: Option<string>, text: Option<string>, hasFile: bool,
                     readOk: bool, jsonOk: bool, formOk: bool, listing: Option<Value>, writeOk: bool, throws: set<nat>)
    returns (success: bool, error: Option<UploadError>)
    modifies store
    ensures error == UploadCheck(Settings.Read(old(store.storage)), name, text, hasFile)
    ensures success <==> error.None? && readOk && (jsonOk || formOk)
    ensures !success ==> store.storage == old(store.storage)
    ensures success && listing.Some? && !listing.value.Null? && writeOk ==>
      store.storage == Settings.Saving(old(store.storage), Settings.CustomVoicesPatch(SelectVoices(listing.value)))
    ensures success && (listing.None? || listing.value.Null? || !writeOk) ==> store.storage == old(store.storage)
    ensures success && listing.Some? && !listing.value.Null? && writeOk ==>
      && store.delivered == old(store.delivered) + Settings.Deliveries(store.callbacks,
           Settings.Merge(Settings.Read(old(store.storage)), Settings.CustomVoicesPatch(SelectVoices(listing.value))))
      && store.failures == old(store.failures) + Settings.Throwing(store.callbacks, throws)
    ensures !(success && listing.Some? && !listing.value.Null? && writeOk) ==>
      store.delivered == old(store.delivered) && store.failures == old(store.failures)
    ensures store.callbacks == old(store.callbacks)
  {
    var settings := store.GetSettings();
    error := UploadCheck(settings, name, text, hasFile);
    if error.Some? || !readOk || !(jsonOk || formOk) {
      return false, error;
    }
    UploadCheckSpec(settings, name, text, hasFile);
    var voices, requested := LoadCustomVoices(store, listing, writeOk, throws);
    success := true;
  }
}
