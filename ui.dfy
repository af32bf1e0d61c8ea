/**
 * ui.js, the parts that decide something: the options of the voice select and which one ends
 * up selected, the label and value a custom voice is shown with, the custom-voice list, the
 * two auto-play boxes, and the flag that lets the panel be injected only once. The DOM is
 * modelled by the values it holds.
 */
module Ui {
  import opened Wrappers
  import opened Json
  import Settings
  import Tts

  const Unnamed: string := "未命名"

  /** `voice.name || voice.customName || voice.custom_name || "未命名"`. */
  function VoiceName(voice: Value): Value {
    Or(Or(Or(Prop(voice, "name"), Prop(voice, "customName")), Prop(voice, "custom_name")), Some(Str(Unnamed))).value
  }

  /** `voice.uri || voice.id || voice.voice_id`, `None` when all three are falsy. */
  function VoiceUri(voice: Value): Option<Value> {
    Or(Or(Prop(voice, "uri"), Prop(voice, "id")), Prop(voice, "voice_id"))
  }

  /** The label is the first truthy of `name`, `customName`, `custom_name`, else "未命名". */
  lemma VoiceNameFallback(voice: Value)
    ensures Truthy(Some(VoiceName(voice)))
    ensures Truthy(Prop(voice, "name")) ==> VoiceName(voice) == Prop(voice, "name").value
    ensures !Truthy(Prop(voice, "name")) && Truthy(Prop(voice, "customName")) ==>
      VoiceName(voice) == Prop(voice, "customName").value
    ensures !Truthy(Prop(voice, "name")) && !Truthy(Prop(voice, "customName")) && Truthy(Prop(voice, "custom_name")) ==>
      VoiceName(voice) == Prop(voice, "custom_name").value
    ensures !Truthy(Prop(voice, "name")) && !Truthy(Prop(voice, "customName")) && !Truthy(Prop(voice, "custom_name")) ==>
      VoiceName(voice) == Str(Unnamed)
  {
  }

  /** The value is the first truthy of `uri`, `id`, `voice_id`; with none of them the template prints "undefined" or the last falsy value. */
  lemma VoiceUriFallback(voice: Value)
    ensures Truthy(Prop(voice, "uri")) ==> VoiceUri(voice) == Prop(voice, "uri")
    ensures !Truthy(Prop(voice, "uri")) && Truthy(Prop(voice, "id")) ==> VoiceUri(voice) == Prop(voice, "id")
    ensures !Truthy(Prop(voice, "uri")) && !Truthy(Prop(voice, "id")) ==> VoiceUri(voice) == Prop(voice, "voice_id")
    ensures voice == Obj(map[]) ==> Render(VoiceUri(voice)) == "undefined"
  {
  }

  // ----- updateVoiceOptions -----

  /** An `<option>`: its `value` attribute and its text. */
  datatype VoiceOption = VoiceOption(value: string, text: string)

  /** `$("#tts_model").val() || "FunAudioLLM/CosyVoice2-0.5B"`. */
  function ModelOf(modelValue: Option<string>): string {
    if modelValue.Some? && modelValue.value != "" then modelValue.value else Tts.CosyModel
  }

  /** The option a preset voice of the table gets. */
  function PresetOption(entry: (string, string)): VoiceOption {
    VoiceOption(entry.0, entry.1)
  }

  /** The option a custom voice gets: its value, and its label marked "(自定义)". */
  function CustomOption(voice: Value): VoiceOption {
    VoiceOption(Render(VoiceUri(voice)), RenderValue(VoiceName(voice)) + " (自定义)")
  }

  function PresetOptions(model: string): seq<VoiceOption> {
    match Tts.PresetVoices(model)
    case None => []
    case Some(vs) => seq(|vs|, i requires 0 <= i < |vs| => PresetOption(vs[i]))
  }

  /** The presets of the model in table order, then each custom voice in list order. */
  function OptionList(model: string, customVoices: seq<Value>): seq<VoiceOption> {
    PresetOptions(model) + seq(|customVoices|, i requires 0 <= i < |customVoices| => CustomOption(customVoices[i]))
  }

  /** `voiceSelect.find('option[value="…"]').length > 0`. */
  predicate HasOption(options: seq<VoiceOption>, value: string) {
    exists i :: 0 <= i < |options| && options[i].value == value
  }

  /** `Object.keys(TTS_MODELS[model]?.voices || {})[0]`. */
  function FirstPresetKey(model: string): Option<Value> {
    match Tts.PresetVoices(model)
    case None => None
    case Some(vs) => if vs == [] then None else Some(Str(vs[0].0))
  }

  /** `settings.ttsVoice || Object.keys(…)[0]`. */
  function DefaultVoice(model: string, settings: Settings.Settings): Option<Value> {
    Or(Get(settings, "ttsVoice"), FirstPresetKey(model))
  }

  /**
   * The text `.val(v)` looks for among the option values: a string as it is, a number in decimal,
   * `undefined` and `null` as the empty string; for a boolean or an object no option can match.
   */
  function ValText(v: Option<Value>): Option<string> {
    match v
    case None => Some("")
    case Some(Null) => Some("")
    case Some(Str(s)) => Some(s)
    case Some(Num(_)) => Some(RenderValue(v.value))
    case Some(_) => None
  }

  /** `voiceSelect.val(v)`: the option with that value is selected, or none at all. */
  function SelectVal(options: seq<VoiceOption>, v: Option<Value>): Option<string> {
    var t := ValText(v);
    if t.Some? && HasOption(options, t.value) then t else None
  }

  /** The previous selection if it is still offered, else the configured voice, else the model's first preset. */
  function Selection(current: Option<string>, options: seq<VoiceOption>, model: string, settings: Settings.Settings): Option<string> {
    if current.Some? && current.value != "" && HasOption(options, current.value) then current
    else SelectVal(options, DefaultVoice(model, settings))
  }

  /** The options hold the presets in table order, then one option per custom voice carrying its value. */
  lemma OptionListSpec(model: string, customVoices: seq<Value>)
    ensures var opts := OptionList(model, customVoices);
      && |opts| == |PresetOptions(model)| + |customVoices|
      && (model == Tts.CosyModel ==>
            (|PresetOptions(model)| == 8 && forall i :: 0 <= i < 8 ==> opts[i].value == Tts.Models[0].voices[i].0))
      && (model != Tts.CosyModel ==> PresetOptions(model) == [])
      && (forall k :: 0 <= k < |customVoices| ==>
            opts[|PresetOptions(model)| + k].value == Render(VoiceUri(customVoices[k])))
  {
  }

  /** A non-empty previous selection is kept if and only if it is among the new options. */
  lemma SelectionKeptIff(current: string, options: seq<VoiceOption>, model: string, settings: Settings.Settings)
    requires current != ""
    ensures Selection(Some(current), options, model, settings) == Some(current) <==> HasOption(options, current)
  {
  }

  /** Whatever is selected is one of the options. */
  lemma SelectionIsOffered(current: Option<string>, options: seq<VoiceOption>, model: string, settings: Settings.Settings)
    ensures var sel := Selection(current, options, model, settings);
      sel.Some? ==> HasOption(options, sel.value)
  {
  }

  /** With nothing to keep and no voice configured, the CosyVoice model falls back to its first preset, "alex". */
  lemma SelectionFallsBackToFirstPreset(current: Option<string>, customVoices: seq<Value>, settings: Settings.Settings)
    requires !Truthy(Get(settings, "ttsVoice"))
    requires current.None? || current == Some("")
    ensures Selection(current, OptionList(Tts.CosyModel, customVoices), Tts.CosyModel, settings) == Some("alex")
  {
    var opts := OptionList(Tts.CosyModel, customVoices);
    assert opts[0].value == "alex";
  }

  /** The voice `<select>`: its options and the value of the selected one (`None`: nothing selected). */
  class VoiceSelect {
    var options: seq<VoiceOption>
    var selected: Option<string>

    constructor ()
      ensures options == [] && selected == None
    {
      options := [];
      selected := None;
    }

    /**
     * `updateVoiceOptions()`: the select is emptied and refilled, presets first and then the
     * custom voices, and the selection restored or defaulted.
     */
    method UpdateVoiceOptions(modelValue: Option<string>, customVoices: seq<Value>, settings: Settings.Settings)
      modifies this
      ensures options == OptionList(ModelOf(modelValue), customVoices)
      ensures selected == Selection(old(selected), options, ModelOf(modelValue), settings)
    {
      var model := ModelOf(modelValue);
      var currentValue := selected;
      var opts := AddPresetOptions(model);
      opts := AddCustomOptions(opts, customVoices);
      options := opts;
      if currentValue.Some? && currentValue.value != "" && HasOption(options, currentValue.value) {
        selected := currentValue;
      } else {
        selected := SelectVal(options, DefaultVoice(model, settings));
      }
    }
  }

  /** The first forEach of updateVoiceOptions: one option per preset voice of the model. */
  method AddPresetOptions(model: string) returns (opts: seq<VoiceOption>)
    ensures opts == PresetOptions(model)
  {
    opts := [];
    var presets := Tts.PresetVoices(model);
    if presets.None? {
      return;
    }
    var vs := presets.value;
    var i: nat := 0;
    while i < |vs|
      invariant i <= |vs|
      invariant opts == seq(i, k requires 0 <= k < i => PresetOption(vs[k]))
    {
      opts := opts + [PresetOption(vs[i])];
      i := i + 1;
    }
  }

  /** The second forEach of updateVoiceOptions: one option per custom voice, appended in list order. */
  method AddCustomOptions(presets: seq<VoiceOption>, customVoices: seq<Value>) returns (opts: seq<VoiceOption>)
    ensures opts == presets + seq(|customVoices|, i requires 0 <= i < |customVoices| => CustomOption(customVoices[i]))
  {
    opts := presets;
    var j: nat := 0;
    while j < |customVoices|
      invariant j <= |customVoices|
      invariant opts == presets + seq(j, k requires 0 <= k < j => CustomOption(customVoices[k]))
    {
      opts := opts + [CustomOption(customVoices[j])];
      j := j + 1;
    }
  }

  // ----- updateCustomVoicesList -----

  /** One entry of the custom-voice list: the placeholder, or a voice with its label and the URI its delete button carries. */
  datatype ListEntry = Placeholder | Entry(name: string, uri: string)

  function VoiceEntry(voice: Value): ListEntry {
    Entry(RenderValue(VoiceName(voice)), Render(VoiceUri(voice)))
  }

  /** The list `updateCustomVoicesList` renders. */
  function CustomVoiceEntries(voices: seq<Value>): seq<ListEntry> {
    if voices == [] then [Placeholder]
    else seq(|voices|, i requires 0 <= i < |voices| => VoiceEntry(voices[i]))
  }

  /** An empty list shows only the placeholder; otherwise one entry per voice, in order, and no placeholder. */
  lemma CustomVoiceEntriesSpec(voices: seq<Value>)
    ensures voices == [] <==> CustomVoiceEntries(voices) == [Placeholder]
    ensures voices != [] ==>
      (&& |CustomVoiceEntries(voices)| == |voices|
       && (forall i :: 0 <= i < |voices| ==> CustomVoiceEntries(voices)[i] == VoiceEntry(voices[i]))
       && Placeholder !in CustomVoiceEntries(voices))
  {
    if voices != [] {
      assert CustomVoiceEntries(voices)[0] != Placeholder;
    }
  }

  /** A voice's list entry and its option carry the same value. */
  lemma EntryMatchesOption(voice: Value)
    ensures VoiceEntry(voice).uri == CustomOption(voice).value
  {
  }

  /** `updateCustomVoicesList()`: the HTML accumulated voice by voice, here as its entries. */
  method UpdateCustomVoicesList(customVoices: seq<Value>) returns (list: seq<ListEntry>)
    ensures list == CustomVoiceEntries(customVoices)
  {
    if |customVoices| == 0 {
      return [Placeholder];
    }
    list := [];
    var i: nat := 0;
    while i < |customVoices|
      invariant i <= |customVoices|
      invariant list == seq(i, k requires 0 <= k < i => VoiceEntry(customVoices[k]))
    {
      list := list + [VoiceEntry(customVoices[i])];
      i := i + 1;
    }
  }

  // ----- renderFromSettings -----

  /** `settings.autoPlay !== false`. */
  predicate AutoPlayChecked(settings: Settings.Settings) {
    Get(settings, "autoPlay") != Some(Bool(false))
  }

  /** `settings.autoPlayUser === true`. */
  predicate AutoPlayUserChecked(settings: Settings.Settings) {
    Get(settings, "autoPlayUser") == Some(Bool(true))
  }

  /**
   * The boxes lean opposite ways on a value that is not a boolean: auto-play shows checked
   * unless the setting is exactly false, user auto-play shows unchecked unless it is exactly true.
   */
  lemma CheckboxCoercion(settings: Settings.Settings)
    ensures "autoPlay" !in settings ==> AutoPlayChecked(settings)
    ensures "autoPlayUser" !in settings ==> !AutoPlayUserChecked(settings)
    ensures AutoPlayChecked(Settings.Defaults()) && !AutoPlayUserChecked(Settings.Defaults())
    ensures (forall b: bool :: Get(settings, "autoPlay") == Some(Bool(b)) ==> (AutoPlayChecked(settings) <==> b))
    ensures (forall b: bool :: Get(settings, "autoPlayUser") == Some(Bool(b)) ==> (AutoPlayUserChecked(settings) <==> b))
  {
  }

  /** A box's state saved by its change handler is the state it is rendered with again. */
  lemma CheckboxRoundTrip(st: Settings.Storage, autoPlay: bool, autoPlayUser: bool)
    ensures var after := Settings.Read(Settings.Saving(st, map["autoPlay" := Some(Bool(autoPlay))]));
      AutoPlayChecked(after) == autoPlay
    ensures var after := Settings.Read(Settings.Saving(st, map["autoPlayUser" := Some(Bool(autoPlayUser))]));
      AutoPlayUserChecked(after) == autoPlayUser
  {
    Settings.SaveThenRead(st, map["autoPlay" := Some(Bool(autoPlay))], "autoPlay");
    Settings.SaveThenRead(st, map["autoPlayUser" := Some(Bool(autoPlayUser))], "autoPlayUser");
  }

  /** The selection renderFromSettings leaves: the configured voice when set, after updateVoiceOptions chose one. */
  function RenderedSelection(afterUpdate: Option<string>, options: seq<VoiceOption>, settings: Settings.Settings): Option<string> {
    if Truthy(Get(settings, "ttsVoice")) then SelectVal(options, Get(settings, "ttsVoice")) else afterUpdate
  }

  /** A configured voice that is offered is what renderFromSettings shows, whatever was selected before. */
  lemma RenderedSelectionSpec(afterUpdate: Option<string>, options: seq<VoiceOption>, settings: Settings.Settings, voice: string)
    requires Get(settings, "ttsVoice") == Some(Str(voice)) && voice != ""
    ensures HasOption(options, voice) ==> RenderedSelection(afterUpdate, options, settings) == Some(voice)
    ensures !HasOption(options, voice) ==> RenderedSelection(afterUpdate, options, settings) == None
  {
  }

  // ----- injectUI -----

  /** How an injectUI call ended. */
  datatype InjectPath = AlreadyInjected | LoadFailed | Mounted | FloatingPanel

  /** The module flag `uiInjected`, and how many times the panel was bound and rendered. */
  class Injector {
    var uiInjected: bool
    var renders: nat

    constructor ()
      ensures !uiInjected && renders == 0
    {
      uiInjected := false;
      renders := 0;
    }

    /**
     * `injectUI()`: nothing once injected; otherwise the HTML is fetched (`fetchOk`) and put at
     * the mount point, or in a floating panel when there is none (`mountFound`). Both paths
     * set the flag, then bind the handlers and render.
     */
    method InjectUI(fetchOk: bool, mountFound: bool) returns (path: InjectPath)
      modifies this
      ensures path == InjectOutcome(old(uiInjected), fetchOk, mountFound)
      ensures uiInjected == (old(uiInjected) || fetchOk)
      ensures renders == old(renders) + (if path == Mounted || path == FloatingPanel then 1 else 0)
    {
      if uiInjected {
        return AlreadyInjected;
      }
      if !fetchOk {
        return LoadFailed;
      }
      if !mountFound {
        uiInjected := true;
        renders := renders + 1;
        return FloatingPanel;
      }
      uiInjected := true;
      renders := renders + 1;
      return Mounted;
    }
  }

  function InjectOutcome(injected: bool, fetchOk: bool, mountFound: bool): InjectPath {
    if injected then AlreadyInjected
    else if !fetchOk then LoadFailed
    else if mountFound then Mounted
    else FloatingPanel
  }

  /** A call is a no-op exactly when an earlier one injected, and injects exactly when the fetch succeeds. */
  lemma InjectOnce(injected: bool, fetchOk: bool, mountFound: bool)
    ensures InjectOutcome(injected, fetchOk, mountFound) == AlreadyInjected <==> injected
    ensures InjectOutcome(injected, fetchOk, mountFound) in {Mounted, FloatingPanel} <==> !injected && fetchOk
    ensures InjectOutcome(injected, fetchOk, mountFound) == FloatingPanel <==> !injected && fetchOk && !mountFound
  {
  }
}
