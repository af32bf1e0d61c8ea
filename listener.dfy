/**
 * listener.js: the state machine deciding which rendered chat messages are narrated. Timers
 * are events: a handler arms one, and a later call "fires" it. The page is an oracle: what a
 * lookup of a message element finds is passed in. What a fired timer hands to generateTTS is
 * returned as `spoken`.
 */
module Listener {
  import opened Wrappers
  import opened Json
  import opened Utils
  import Settings

  /** The `mesid` SillyTavern passes with a rendered message. */
  type MessageId = Value

  /** A `.mes` element of the chat, by identity. */
  type ElementId = nat

  // ----- processMessage -----

  /** `settings.textStart || ''` and `settings.textEnd || ''`. */
  function Marker(settings: Settings.Settings, key: string): Value {
    Or(Get(settings, key), Some(Str(""))).value
  }

  /** The text processMessage hands to generateTTS for an extraction result. */
  function Narration(result: Extraction, messageText: string): Option<string> {
    match result.mode
    case Marked => result.text
    case Full => Some(messageText)
    case Skip => None
  }

  /**
   * `processMessage(messageText)`: nothing for an empty text; otherwise the marked text, the
   * whole message, or nothing, as extractSpeakText decides with the configured markers. A
   * marker that is neither empty nor a string makes the extraction throw (or never match, when
   * both markers are the same value), so nothing is narrated.
   */
  function ProcessMessage(messageText: string, settings: Settings.Settings): Option<string> {
    if messageText == "" then None
    else
      var startMark := Marker(settings, "textStart");
      var endMark := Marker(settings, "textEnd");
      if startMark.Str? && endMark.Str? then Narration(Extract(messageText, startMark.s, endMark.s), messageText)
      else if startMark == Str("") || endMark == Str("") then Some(messageText)
      else None
  }

  /** processMessage narrates the marked text for `marked`, the message for `full`, nothing for `skip`. */
  lemma ProcessMessageSpec(messageText: string, settings: Settings.Settings)
    ensures messageText == "" ==> ProcessMessage(messageText, settings) == None
    ensures messageText != "" && !Truthy(Get(settings, "textStart")) ==> ProcessMessage(messageText, settings) == Some(messageText)
    ensures messageText != "" && !Truthy(Get(settings, "textEnd")) ==> ProcessMessage(messageText, settings) == Some(messageText)
    ensures var a, b := Marker(settings, "textStart"), Marker(settings, "textEnd");
      messageText != "" && a.Str? && b.Str? ==>
        var r := Extract(messageText, a.s, b.s);
        && (r.mode == Marked ==> ProcessMessage(messageText, settings) == r.text)
        && (r.mode == Full ==> ProcessMessage(messageText, settings) == Some(messageText))
        && (r.mode == Skip ==> ProcessMessage(messageText, settings) == None)
  {
    var a, b := Marker(settings, "textStart"), Marker(settings, "textEnd");
    if !Truthy(Get(settings, "textStart")) {
      assert a == Str("");
    }
    if !Truthy(Get(settings, "textEnd")) {
      assert b == Str("");
    }
  }

  /** Whatever processMessage narrates is non-empty, and trimmed unless it is the whole message. */
  lemma NarrationIsSpeakable(messageText: string, settings: Settings.Settings)
    ensures var r := ProcessMessage(messageText, settings);
      r.Some? ==> r.value != "" && (r.value == messageText || Strings.Trimmed(r.value))
  {
  }

  /** With the default settings (no markers), a non-empty message is narrated whole. */
  lemma DefaultsNarrateWholeMessage(messageText: string)
    requires messageText != ""
    ensures ProcessMessage(messageText, Settings.Defaults()) == Some(messageText)
  {
    assert Get(Settings.Defaults(), "textStart") == Some(Str(""));
  }

  // ----- listenerState -----

  /** What the page offers at setup: `eventSource`, `event_types` and its two RENDERED types. */
  datatype Host = Host(eventSource: bool, eventTypes: bool, characterRendered: bool, userRendered: bool)

  /** The event-feed strategy is chosen only when all four are present. */
  predicate HasEventFeed(h: Host) {
    h.eventSource && h.eventTypes && h.characterRendered && h.userRendered
  }

  /** An added DOM node: whether it is an element, whether it is `.mes`, and its `.mes` descendants. */
  datatype Node = Node(id: ElementId, isElement: bool, isMes: bool, mesDescendants: seq<ElementId>)

  /** What the debounced handler finds on an element: its `.mes_text` content and whether it is a user message. */
  datatype Rendered = Rendered(text: Option<string>, isUser: bool)

  /**
   * `listenerState`, the retry counter, and the armed timers: the one `processingTimeout` with
   * the id it will handle, the 500 ms user timers, the setup retries, the 1000 ms element
   * timers, and the element the debounced handler is waiting to run with. `observer` says
   * whether `listenerState.observer` holds a connected observer; `orphans` counts the observers
   * still connected that it no longer refers to, because a later setup replaced them.
   */
  datatype State = State(
    initialized: bool,
    observer: bool,
    orphans: nat,
    lastCharacterId: MessageId,
    lastUserId: MessageId,
    characterTimer: Option<MessageId>,
    userTimers: seq<MessageId>,
    processedElements: set<ElementId>,
    retryCount: nat,
    retryTimers: nat,
    elementTimers: seq<ElementId>,
    debounced: Option<ElementId>,
    subscriptions: nat)

  const Initial: State := State(false, false, 0, Null, Null, None, [], {}, 0, 0, [], None, 0)

  /** The observers connected to the chat container. */
  function Connected(s: State): nat {
    s.orphans + (if s.observer then 1 else 0)
  }

  const MaxObserverRetries: nat := 5

  /** `handleCharacterMessage(id)`: unless already handled or auto-play is off, (re)arm the one character timer. */
  function CharacterEvent(s: State, id: MessageId, settings: Settings.Settings): State {
    if s.lastCharacterId == id || !Truthy(Get(settings, "autoPlay")) then s
    else s.(characterTimer := Some(id))
  }

  /**
   * The character timer fires: skip an id handled meanwhile; otherwise record it, then look
   * the element up (`element`) and process its text.
   */
  function CharacterFire(s: State, element: Option<string>, settings: Settings.Settings): (State, Option<string>) {
    if s.characterTimer.None? then (s, None)
    else
      var id := s.characterTimer.value;
      var s1 := s.(characterTimer := None);
      if s.lastCharacterId == id then (s1, None)
      else
        var s2 := s1.(lastCharacterId := id);
        if element.None? then (s2, None) else (s2, ProcessMessage(element.value, settings))
  }

  /** `handleUserMessage(id)`: unless already handled or user auto-play is off, record the id now and arm a user timer. */
  function UserEvent(s: State, id: MessageId, settings: Settings.Settings): State {
    if s.lastUserId == id || !Truthy(Get(settings, "autoPlayUser")) then s
    else s.(lastUserId := id, userTimers := s.userTimers + [id])
  }

  /** The oldest user timer fires: the element is looked up and its text processed, with no further check. */
  function UserFire(s: State, element: Option<string>, settings: Settings.Settings): (State, Option<string>) {
    if s.userTimers == [] then (s, None)
    else
      var s1 := s.(userTimers := s.userTimers[1..]);
      if element.None? then (s1, None) else (s1, ProcessMessage(element.value, settings))
  }

  /**
   * `setupMutationObserver()` with the chat container found or not: a miss counts a retry and
   * arms another attempt until the count reaches 5; a hit resets the count and installs a new
   * observer, and one installed before stays connected as an orphan.
   */
  function MutationSetup(s: State, chatFound: bool): State {
    if !chatFound then
      var n := s.retryCount + 1;
      if n >= MaxObserverRetries then s.(retryCount := n)
      else s.(retryCount := n, retryTimers := s.retryTimers + 1)
    else s.(retryCount := 0, observer := true, orphans := Connected(s))
  }

  /** An armed retry fires and runs setupMutationObserver again. */
  function RetryFire(s: State, chatFound: bool): State {
    if s.retryTimers == 0 then s else MutationSetup(s.(retryTimers := s.retryTimers - 1), chatFound)
  }

  /** `setupMessageListener()`: once initialized a no-op; otherwise the event feed or the fallback, then initialized. */
  function Setup(s: State, host: Host, chatFound: bool): State {
    if s.initialized then s
    else
      var s1 := if HasEventFeed(host) then s.(subscriptions := s.subscriptions + 1) else MutationSetup(s, chatFound);
      s1.(initialized := true)
  }

  /** The elements one mutation's added nodes arm a timer for: a `.mes` node itself, then its `.mes` descendants. */
  function ArmedNodes(nodes: seq<Node>): seq<ElementId> {
    if nodes == [] then []
    else
      var n := nodes[0];
      (if n.isElement then (if n.isMes then [n.id] else []) + n.mesDescendants else []) + ArmedNodes(nodes[1..])
  }

  /** The elements a batch of mutation records arms timers for, in order. */
  function Armed(mutations: seq<seq<Node>>): seq<ElementId> {
    if mutations == [] then [] else ArmedNodes(mutations[0]) + Armed(mutations[1..])
  }

  /** `n` copies of `xs`, one after another. */
  function Repeat<T>(xs: seq<T>, n: nat): seq<T> {
    if n == 0 then [] else Repeat(xs, n - 1) + xs
  }

  /** The observer callbacks: every connected observer arms the timers for the whole batch. */
  function Observe(s: State, mutations: seq<seq<Node>>): State {
    s.(elementTimers := s.elementTimers + Repeat(Armed(mutations), Connected(s)))
  }

  /** An element timer fires and calls the debounced handler, which re-arms its wait with that element. */
  function ElementFire(s: State): State {
    if s.elementTimers == [] then s
    else s.(elementTimers := s.elementTimers[1..], debounced := Pending(s.debounced, [Invoke(s.elementTimers[0])]))
  }

  /**
   * The debounced handler runs with the last element it was called with: an element seen
   * before is skipped; otherwise it is recorded first, then its text and kind decide.
   */
  function DebounceFire(s: State, view: Rendered, settings: Settings.Settings): (State, Option<string>) {
    if s.debounced.None? then (s, None)
    else
      var el := s.debounced.value;
      var s1 := s.(debounced := Pending(s.debounced, [Elapse]));
      if el in s.processedElements then (s1, None)
      else
        var s2 := s1.(processedElements := s.processedElements + {el});
        if view.text.None? || view.text.value == "" then (s2, None)
        else if view.isUser then (s2, if Truthy(Get(settings, "autoPlayUser")) then ProcessMessage(view.text.value, settings) else None)
        else (s2, if Truthy(Get(settings, "autoPlay")) then ProcessMessage(view.text.value, settings) else None)
  }

  /**
   * `stopMessageListener()`: the observer `listenerState` refers to is disconnected, and the
   * character timer and the initialized flag are cleared; orphaned observers stay connected.
   */
  function Stop(s: State): State {
    s.(observer := false, characterTimer := None, initialized := false)
  }

  /** `resetListenerState()`: both last ids and the element set are cleared. */
  function Reset(s: State): State {
    s.(lastCharacterId := Null, lastUserId := Null, processedElements := {})
  }

  // ----- properties -----

  /** A character event for the id last handled, or with auto-play off, changes nothing and arms nothing. */
  lemma CharacterEventFiltered(s: State, id: MessageId, settings: Settings.Settings)
    ensures s.lastCharacterId == id || !Truthy(Get(settings, "autoPlay")) ==> CharacterEvent(s, id, settings) == s
    ensures !(s.lastCharacterId == id || !Truthy(Get(settings, "autoPlay"))) ==>
      CharacterEvent(s, id, settings) == s.(characterTimer := Some(id))
  {
  }

  /** The character events of a burst, applied in order. */
  function CharacterEvents(s: State, ids: seq<MessageId>, settings: Settings.Settings): State
    decreases |ids|
  {
    if ids == [] then s else CharacterEvents(CharacterEvent(s, ids[0], settings), ids[1..], settings)
  }

  /**
   * Last id wins: in a burst of character events with auto-play on, each cancels the pending
   * timer, so only the last id's timer is left, and firing it records and processes that id.
   */
  lemma {:induction false} LastCharacterEventWins(s: State, ids: seq<MessageId>, settings: Settings.Settings, element: Option<string>)
    requires |ids| > 0 && Truthy(Get(settings, "autoPlay"))
    requires forall k :: 0 <= k < |ids| ==> s.lastCharacterId != ids[k]
    ensures CharacterEvents(s, ids, settings) == s.(characterTimer := Some(ids[|ids| - 1]))
    ensures var f := CharacterFire(CharacterEvents(s, ids, settings), element, settings);
      && f.0.lastCharacterId == ids[|ids| - 1] && f.0.characterTimer.None?
      && f.1 == (if element.Some? then ProcessMessage(element.value, settings) else None)
    decreases |ids|
  {
    var s1 := CharacterEvent(s, ids[0], settings);
    if |ids| > 1 {
      LastCharacterEventWins(s1, ids[1..], settings, element);
      assert CharacterEvents(s, ids, settings) == s1.(characterTimer := Some(ids[|ids| - 1]));
    }
  }

  /** A fired character timer records its id before the element lookup, so it stays recorded when the element is missing. */
  lemma CharacterFireRecordsId(s: State, element: Option<string>, settings: Settings.Settings)
    requires s.characterTimer.Some?
    ensures var f := CharacterFire(s, element, settings);
      && f.0.lastCharacterId == s.characterTimer.value
      && (element.None? ==> f.1.None?)
      && (s.lastCharacterId == s.characterTimer.value ==> f.1.None? && f.0 == s.(characterTimer := None))
  {
  }

  /**
   * A user event records its id at once, before its delay, so a repeat of the id is dropped;
   * and it leaves the character timer and the last character id alone.
   */
  lemma UserEventRecordsAtOnce(s: State, id: MessageId, settings: Settings.Settings)
    requires Truthy(Get(settings, "autoPlayUser"))
    ensures UserEvent(s, id, settings).lastUserId == id
    ensures UserEvent(UserEvent(s, id, settings), id, settings) == UserEvent(s, id, settings)
    ensures UserEvent(s, id, settings).characterTimer == s.characterTimer
    ensures UserEvent(s, id, settings).lastCharacterId == s.lastCharacterId
  {
  }

  /** The user events of a burst, applied in order. */
  function UserEvents(s: State, ids: seq<MessageId>, settings: Settings.Settings): State
    decreases |ids|
  {
    if ids == [] then s else UserEvents(UserEvent(s, ids[0], settings), ids[1..], settings)
  }

  /** User events and user timers never touch `processingTimeout`: a pending character timer survives any of them. */
  lemma {:induction false} UserPathKeepsCharacterTimer(s: State, ids: seq<MessageId>, settings: Settings.Settings, element: Option<string>)
    ensures UserEvents(s, ids, settings).characterTimer == s.characterTimer
    ensures UserEvents(s, ids, settings).lastCharacterId == s.lastCharacterId
    ensures UserFire(s, element, settings).0.characterTimer == s.characterTimer
    ensures UserFire(s, element, settings).0.lastCharacterId == s.lastCharacterId
    decreases |ids|
  {
    if ids != [] {
      UserPathKeepsCharacterTimer(UserEvent(s, ids[0], settings), ids[1..], settings, element);
    }
  }

  /** Every accepted user event arms a timer of its own: none cancels an earlier one. */
  lemma UserTimersAccumulate(s: State, id: MessageId, settings: Settings.Settings)
    ensures var t := UserEvent(s, id, settings).userTimers;
      t == s.userTimers || t == s.userTimers + [id]
  {
  }

  /** Setup is a no-op once initialized, and picks the event feed exactly when the page offers it. */
  lemma SetupSpec(s: State, host: Host, chatFound: bool)
    ensures s.initialized ==> Setup(s, host, chatFound) == s
    ensures !s.initialized ==> Setup(s, host, chatFound).initialized
    ensures !s.initialized && HasEventFeed(host) ==>
      Setup(s, host, chatFound) == s.(subscriptions := s.subscriptions + 1, initialized := true)
    ensures !s.initialized && !HasEventFeed(host) ==>
      Setup(s, host, chatFound) == MutationSetup(s, chatFound).(initialized := true)
  {
  }

  /** Finding the chat resets the retry count; a miss arms another attempt only while the count stays below 5. */
  lemma MutationSetupSpec(s: State)
    ensures MutationSetup(s, true).retryCount == 0 && MutationSetup(s, true).observer
    ensures MutationSetup(s, true).orphans == Connected(s) && Connected(MutationSetup(s, true)) == Connected(s) + 1
    ensures MutationSetup(s, false).observer == s.observer && MutationSetup(s, false).orphans == s.orphans
    ensures MutationSetup(s, false).retryCount == s.retryCount + 1
    ensures MutationSetup(s, false).retryTimers == s.retryTimers + (if s.retryCount + 1 >= MaxObserverRetries then 0 else 1)
  {
  }

  /**
   * With the chat never found, looking it up gives up after the fifth attempt: the first
   * lookup and four retries, after which no retry is left armed.
   */
  lemma RetriesGiveUpAfterFive(s: State)
    requires s.retryCount == 0 && s.retryTimers == 0
    ensures var s5 := RetryFire(RetryFire(RetryFire(RetryFire(MutationSetup(s, false), false), false), false), false);
      && s5.retryCount == MaxObserverRetries && s5.retryTimers == 0
      && RetryFire(s5, false) == s5
  {
  }

  /** An element already processed is skipped; a new one is recorded before its text is looked at. */
  lemma FallbackDedup(s: State, view: Rendered, settings: Settings.Settings)
    requires s.debounced.Some?
    ensures var f := DebounceFire(s, view, settings);
      && f.0.processedElements == s.processedElements + {s.debounced.value}
      && f.0.debounced.None?
      && (s.debounced.value in s.processedElements ==> f.1.None?)
      && (view.text.None? || view.text == Some("") ==> f.1.None?)
  {
  }

  /** Once handled, an element is never narrated again, whatever is rendered in it later. */
  lemma FallbackNarratesOnce(s: State, view1: Rendered, view2: Rendered, settings: Settings.Settings, el: ElementId)
    requires s.debounced == Some(el)
    ensures var s1 := DebounceFire(s, view1, settings).0;
      DebounceFire(s1.(debounced := Some(el)), view2, settings).1.None?
  {
  }

  /** Element timers feed the debounced handler; a burst leaves only the last element waiting. */
  lemma ElementBurstKeepsLast(s: State)
    requires |s.elementTimers| >= 2
    ensures ElementFire(ElementFire(s)).debounced == Some(s.elementTimers[1])
    ensures ElementFire(ElementFire(s)).elementTimers == s.elementTimers[2..]
  {
    DebounceStepSpec(s.debounced, s.elementTimers[0]);
    DebounceStepSpec(Some(s.elementTimers[0]), s.elementTimers[1]);
  }

  /** The elements armed by the observer: every `.mes` node added, and every `.mes` inside an added element. */
  lemma {:induction false} ArmedSpec(mutations: seq<seq<Node>>, el: ElementId)
    ensures el in Armed(mutations) <==>
      exists i, j :: 0 <= i < |mutations| && 0 <= j < |mutations[i]| && ArmsFor(mutations[i][j], el)
  {
    if mutations != [] {
      ArmedSpec(mutations[1..], el);
      ArmedNodesSpec(mutations[0], el);
      if el in ArmedNodes(mutations[0]) {
        var j :| 0 <= j < |mutations[0]| && ArmsFor(mutations[0][j], el);
        assert ArmsFor(mutations[0][j], el);
      }
      if exists i, j :: 1 <= i < |mutations| && 0 <= j < |mutations[i]| && ArmsFor(mutations[i][j], el) {
        var i, j :| 1 <= i < |mutations| && 0 <= j < |mutations[i]| && ArmsFor(mutations[i][j], el);
        assert mutations[1..][i - 1][j] == mutations[i][j];
      }
      if el in Armed(mutations[1..]) {
        var i, j :| 0 <= i < |mutations[1..]| && 0 <= j < |mutations[1..][i]| && ArmsFor(mutations[1..][i][j], el);
        assert mutations[i + 1][j] == mutations[1..][i][j];
      }
    }
  }

  /** Node `n` arms a timer for element `el`. */
  predicate ArmsFor(n: Node, el: ElementId) {
    n.isElement && ((n.isMes && n.id == el) || el in n.mesDescendants)
  }

  lemma {:induction false} ArmedNodesSpec(nodes: seq<Node>, el: ElementId)
    ensures el in ArmedNodes(nodes) <==> exists j :: 0 <= j < |nodes| && ArmsFor(nodes[j], el)
  {
    if nodes != [] {
      ArmedNodesSpec(nodes[1..], el);
      if exists j :: 1 <= j < |nodes| && ArmsFor(nodes[j], el) {
        var j :| 1 <= j < |nodes| && ArmsFor(nodes[j], el);
        assert nodes[1..][j - 1] == nodes[j];
      }
      if el in ArmedNodes(nodes[1..]) {
        var j :| 0 <= j < |nodes[1..]| && ArmsFor(nodes[1..][j], el);
        assert nodes[j + 1] == nodes[1..][j];
      }
    }
  }

  /**
   * Stopping disconnects the observer `listenerState` refers to and clears the character timer
   * and the flag; orphaned observers, the ids and the elements survive, and those orphans go on
   * arming element timers.
   */
  lemma StopSpec(s: State, mutations: seq<seq<Node>>)
    ensures !Stop(s).observer && Stop(s).characterTimer.None? && !Stop(s).initialized
    ensures Stop(s).orphans == s.orphans && Connected(Stop(s)) == s.orphans
    ensures Observe(Stop(s), mutations).elementTimers == s.elementTimers + Repeat(Armed(mutations), s.orphans)
    ensures Stop(s).lastCharacterId == s.lastCharacterId && Stop(s).processedElements == s.processedElements
    ensures Stop(s).userTimers == s.userTimers && Stop(s).retryTimers == s.retryTimers
  {
  }

  /** Resetting forgets the handled ids and elements but keeps the initialized flag, so a handled id is accepted again. */
  lemma ResetSpec(s: State, id: MessageId, settings: Settings.Settings)
    requires Truthy(Get(settings, "autoPlay"))
    ensures Reset(s).initialized == s.initialized && Reset(s).processedElements == {}
    ensures Reset(s).lastCharacterId == Null && Reset(s).lastUserId == Null
    ensures id != Null ==> CharacterEvent(Reset(s), id, settings).characterTimer == Some(id)
    ensures CharacterEvent(Reset(s), Null, settings) == Reset(s)
  {
  }

  /**
   * Both last ids start, and are reset, at `null`, and `===` compares an id with them: an
   * event carrying a `null` id is taken as already handled, at the start and after a reset.
   */
  lemma NullIdIgnored(s: State, settings: Settings.Settings)
    ensures CharacterEvent(Initial, Null, settings) == Initial && UserEvent(Initial, Null, settings) == Initial
    ensures CharacterEvent(Reset(s), Null, settings) == Reset(s) && UserEvent(Reset(s), Null, settings) == Reset(s)
  {
  }

  /**
   * A retry armed before a stop outlives it: setup misses the chat and arms a retry, a stop
   * and a second setup install an observer, and the retry then installs another. The next stop
   * disconnects only the newer one; the orphan keeps arming element timers.
   */
  lemma RetryOrphansObserverPastStop(s: State, host: Host, mutations: seq<seq<Node>>)
    requires !s.initialized && !s.observer && s.orphans == 0 && s.retryCount == 0 && s.retryTimers == 0
    requires !HasEventFeed(host)
    ensures var s1 := Setup(s, host, false);
      var s3 := RetryFire(Setup(Stop(s1), host, true), true);
      && s1.retryTimers == 1
      && s3.observer && s3.orphans == 1
      && !Stop(s3).observer && Connected(Stop(s3)) == 1
      && Observe(Stop(s3), mutations).elementTimers == s3.elementTimers + Armed(mutations)
  {
    var s1 := Setup(s, host, false);
    var s3 := RetryFire(Setup(Stop(s1), host, true), true);
    assert Repeat(Armed(mutations), 1) == Armed(mutations);
  }

  /** After a stop the listener can be set up again. */
  lemma SetupAfterStop(s: State, host: Host, chatFound: bool)
    ensures Setup(Stop(s), host, chatFound).initialized
    ensures HasEventFeed(host) ==> Setup(Stop(s), host, chatFound).subscriptions == s.subscriptions + 1
  {
  }

  lemma {:induction false} RepeatCons<T>(x: T, n: nat)
    requires n > 0
    ensures Repeat([x], n) == [x] + Repeat([x], n - 1)
    decreases n
  {
    if n > 1 {
      RepeatCons(x, n - 1);
    }
  }

  lemma {:induction false} CharacterFixedPoint(t: State, id: MessageId, settings: Settings.Settings, n: nat)
    requires CharacterEvent(t, id, settings) == t
    ensures CharacterEvents(t, Repeat([id], n), settings) == t
    decreases n
  {
    if n > 0 {
      RepeatCons(id, n);
      CharacterFixedPoint(t, id, settings, n - 1);
    }
  }

  lemma {:induction false} UserFixedPoint(t: State, id: MessageId, settings: Settings.Settings, n: nat)
    requires UserEvent(t, id, settings) == t
    ensures UserEvents(t, Repeat([id], n), settings) == t
    decreases n
  {
    if n > 0 {
      RepeatCons(id, n);
      UserFixedPoint(t, id, settings, n - 1);
    }
  }

  /**
   * Each setup after a stop subscribes the handlers again, and stopping never unsubscribes
   * them, so a rendered message reaches each handler once per subscription. Delivering the
   * same id `n` times, for any `n > 0`, leaves the state a single delivery leaves.
   */
  lemma {:induction false} RepeatedDeliveryHarmless(s: State, id: MessageId, settings: Settings.Settings, n: nat)
    requires n > 0
    ensures CharacterEvents(s, Repeat([id], n), settings) == CharacterEvent(s, id, settings)
    ensures UserEvents(s, Repeat([id], n), settings) == UserEvent(s, id, settings)
  {
    RepeatCons(id, n);
    var c := CharacterEvent(s, id, settings);
    var u := UserEvent(s, id, settings);
    assert CharacterEvent(c, id, settings) == c;
    assert UserEvent(u, id, settings) == u;
    CharacterFixedPoint(c, id, settings, n - 1);
    UserFixedPoint(u, id, settings, n - 1);
  }

  // ----- the listener as the module holds it -----

  /** The module state of listener.js, with the debounced handler of the fallback path. */
  class Listener {
    var initialized: bool
    var observer: bool
    var orphans: nat
    var lastCharacterId: MessageId
    var lastUserId: MessageId
    var characterTimer: Option<MessageId>
    var userTimers: seq<MessageId>
    var processedElements: set<ElementId>
    var retryCount: nat
    var retryTimers: nat
    var elementTimers: seq<ElementId>
    var subscriptions: nat
    const debouncer: Debouncer<ElementId>

    function Snapshot(): State
      reads this, debouncer
    {
      State(initialized, observer, orphans, lastCharacterId, lastUserId, characterTimer, userTimers,
            processedElements, retryCount, retryTimers, elementTimers, debouncer.pending, subscriptions)
    }

    constructor ()
      ensures Snapshot() == Initial
    {
      initialized := false;
      observer := false;
      orphans := 0;
      lastCharacterId := Null;
      lastUserId := Null;
      characterTimer := None;
      userTimers := [];
      processedElements := {};
      retryCount := 0;
      retryTimers := 0;
      elementTimers := [];
      subscriptions := 0;
      debouncer := new Debouncer<ElementId>();
    }

    method HandleCharacterMessage(id: MessageId, settings: Settings.Settings)
      modifies this
      ensures Snapshot() == CharacterEvent(old(Snapshot()), id, settings)
    {
      if lastCharacterId == id {
        return;
      }
      if !Truthy(Get(settings, "autoPlay")) {
        return;
      }
      characterTimer := Some(id);
    }

    /** The character timer's callback; `element` is the text found for its id, if the element exists. */
    method FireCharacterTimer(element: Option<string>, settings: Settings.Settings) returns (spoken: Option<string>)
      modifies this
      ensures (Snapshot(), spoken) == CharacterFire(old(Snapshot()), element, settings)
    {
      if characterTimer.None? {
        return None;
      }
      var id := characterTimer.value;
      characterTimer := None;
      if lastCharacterId == id {
        return None;
      }
      lastCharacterId := id;
      if element.None? {
        return None;
      }
      spoken := ProcessMessage(element.value, settings);
    }

    method HandleUserMessage(id: MessageId, settings: Settings.Settings)
      modifies this
      ensures Snapshot() == UserEvent(old(Snapshot()), id, settings)
    {
      if lastUserId == id {
        return;
      }
      if !Truthy(Get(settings, "autoPlayUser")) {
        return;
      }
      lastUserId := id;
      userTimers := userTimers + [id];
    }

    /** The oldest user timer's callback. */
    method FireUserTimer(element: Option<string>, settings: Settings.Settings) returns (spoken: Option<string>)
      modifies this
      ensures (Snapshot(), spoken) == UserFire(old(Snapshot()), element, settings)
    {
      if userTimers == [] {
        return None;
      }
      userTimers := userTimers[1..];
      if element.None? {
        return None;
      }
      spoken := ProcessMessage(element.value, settings);
    }

    method SetupMutationObserver(chatFound: bool)
      modifies this
      ensures Snapshot() == MutationSetup(old(Snapshot()), chatFound)
    {
      if !chatFound {
        retryCount := retryCount + 1;
        if retryCount >= MaxObserverRetries {
          return;
        }
        retryTimers := retryTimers + 1;
        return;
      }
      retryCount := 0;
      if observer {
        orphans := orphans + 1;
      }
      observer := true;
    }

    /** An armed retry of setupMutationObserver fires. */
    method FireRetry(chatFound: bool)
      modifies this
      ensures Snapshot() == RetryFire(old(Snapshot()), chatFound)
    {
      if retryTimers == 0 {
        return;
      }
      retryTimers := retryTimers - 1;
      SetupMutationObserver(chatFound);
    }

    method SetupMessageListener(host: Host, chatFound: bool)
      modifies this
      ensures Snapshot() == Setup(old(Snapshot()), host, chatFound)
    {
      if initialized {
        return;
      }
      if HasEventFeed(host) {
        subscriptions := subscriptions + 1;
      } else {
        SetupMutationObserver(chatFound);
      }
      initialized := true;
    }

    /** A batch of mutations reaches every connected observer, whose callback arms its timers. */
    method OnMutations(mutations: seq<seq<Node>>)
      modifies this
      ensures Snapshot() == Observe(old(Snapshot()), mutations)
    {
      var n := orphans + (if observer then 1 else 0);
      var armed: seq<ElementId> := [];
      var k: nat := 0;
      while k < n
        invariant k <= n
        invariant armed == Repeat(Armed(mutations), k)
        modifies {}
      {
        var fromCallback := ArmMutations(mutations);
        armed := armed + fromCallback;
        k := k + 1;
      }
      elementTimers := elementTimers + armed;
    }

    /** The oldest element timer fires and calls the debounced handler with its element. */
    method FireElementTimer()
      modifies this, debouncer
      ensures Snapshot() == ElementFire(old(Snapshot()))
    {
      if elementTimers == [] {
        return;
      }
      var el := elementTimers[0];
      elementTimers := elementTimers[1..];
      debouncer.Call(el);
    }

    /** The debounced handler's wait runs out; `view` is what its element shows. */
    method FireDebounced(view: Rendered, settings: Settings.Settings) returns (spoken: Option<string>)
      modifies this, debouncer
      ensures (Snapshot(), spoken) == DebounceFire(old(Snapshot()), view, settings)
    {
      var pending := debouncer.Expire();
      if pending.None? {
        return None;
      }
      var el := pending.value;
      if el in processedElements {
        return None;
      }
      processedElements := processedElements + {el};
      if view.text.None? || view.text.value == "" {
        return None;
      }
      if view.isUser {
        spoken := if Truthy(Get(settings, "autoPlayUser")) then ProcessMessage(view.text.value, settings) else None;
      } else {
        spoken := if Truthy(Get(settings, "autoPlay")) then ProcessMessage(view.text.value, settings) else None;
      }
    }

    method StopMessageListener()
      modifies this
      ensures Snapshot() == Stop(old(Snapshot()))
    {
      if observer {
        observer := false;
      }
      if characterTimer.Some? {
        characterTimer := None;
      }
      initialized := false;
    }

    method ResetListenerState()
      modifies this
      ensures Snapshot() == Reset(old(Snapshot()))
    {
      lastCharacterId := Null;
      lastUserId := Null;
      processedElements := {};
    }
  }

  /** One observer callback: for each mutation, for each added node, arm the timers it calls for. */
  method ArmMutations(mutations: seq<seq<Node>>) returns (armed: seq<ElementId>)
    ensures armed == Armed(mutations)
  {
    armed := [];
    var i: nat := 0;
    while i < |mutations|
      invariant i <= |mutations|
      invariant armed == Armed(mutations[..i])
    {
      var nodes := mutations[i];
      var fromNodes := ArmAddedNodes(nodes);
      ArmedSnoc(mutations[..i], nodes);
      assert mutations[..i + 1] == mutations[..i] + [nodes];
      armed := armed + fromNodes;
      i := i + 1;
    }
    assert mutations[..i] == mutations;
  }

  /** The inner loop of the observer callback: the timers one mutation's added nodes arm. */
  method ArmAddedNodes(nodes: seq<Node>) returns (armed: seq<ElementId>)
    ensures armed == ArmedNodes(nodes)
  {
    armed := [];
    var j: nat := 0;
    while j < |nodes|
      invariant j <= |nodes|
      invariant armed == ArmedNodes(nodes[..j])
    {
      var node := nodes[j];
      ArmedNodesSnoc(nodes[..j], node);
      assert nodes[..j + 1] == nodes[..j] + [node];
      if node.isElement {
        if node.isMes {
          armed := armed + [node.id];
        }
        armed := armed + node.mesDescendants;
      }
      j := j + 1;
    }
    assert nodes[..j] == nodes;
  }

  lemma {:induction false} ArmedNodesSnoc(nodes: seq<Node>, n: Node)
    ensures ArmedNodes(nodes + [n]) ==
      ArmedNodes(nodes) + (if n.isElement then (if n.isMes then [n.id] else []) + n.mesDescendants else [])
  {
    if nodes == [] {
      assert [n][1..] == [];
    } else {
      assert (nodes + [n])[1..] == nodes[1..] + [n];
      ArmedNodesSnoc(nodes[1..], n);
    }
  }

  lemma {:induction false} ArmedSnoc(mutations: seq<seq<Node>>, nodes: seq<Node>)
    ensures Armed(mutations + [nodes]) == Armed(mutations) + ArmedNodes(nodes)
  {
    if mutations == [] {
      assert [nodes][1..] == [];
    } else {
      assert (mutations + [nodes])[1..] == mutations[1..] + [nodes];
      ArmedSnoc(mutations[1..], nodes);
    }
  }
}
