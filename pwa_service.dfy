/**
 * Model of src/services/pwaService.ts: the installability tracker. It holds
 * the deferred `beforeinstallprompt` event and the installed flag, reacts to
 * the window's `beforeinstallprompt` and `appinstalled` events, and tells the
 * page about changes by dispatching the custom events
 * "pwa-install-available" and "pwa-install-hidden". Platform probes (the
 * display-mode query, `navigator.standalone`, `navigator.onLine`, the user's
 * answer to the prompt) are parameters.
 */
module PwaService {
  import opened Wrappers

  const InstallAvailable: string := "pwa-install-available"
  const InstallHidden: string := "pwa-install-hidden"

  /** A `beforeinstallprompt` event: an opaque one-shot platform handle and whether its default action was prevented. */
  datatype InstallPromptEvent = InstallPromptEvent(id: nat, defaultPrevented: bool)

  /**
   * What calling `prompt()` and awaiting `userChoice` gives: the outcome
   * string the user's answer resolved to, or an exception thrown by either.
   */
  datatype UserChoice = Resolved(outcome: string) | Threw

  /** The two fields of the service. */
  datatype InstallState = InstallState(deferredPrompt: Option<InstallPromptEvent>, isInstalled: bool)

  /** The window events the service reacts to, and calls of `promptInstall`. */
  datatype Signal =
    | BeforeInstallPrompt(event: InstallPromptEvent)
    | AppInstalled
    | PromptInstall(choice: UserChoice)

  /** `canInstall`: a prompt is held and the app is not installed. */
  predicate CanInstall(s: InstallState)
  {
    s.deferredPrompt.Some? && !s.isInstalled
  }

  /** The state right after construction, from the two standalone-mode probes. */
  function Initial(displayModeStandalone: bool, navigatorStandalone: Option<bool>): InstallState
  {
    InstallState(None, displayModeStandalone || navigatorStandalone == Some(true))
  }

  /** The effect of one signal on the state. */
  function Next(s: InstallState, signal: Signal): InstallState
  {
    match signal
    case BeforeInstallPrompt(e) => s.(deferredPrompt := Some(e.(defaultPrevented := true)))
    case AppInstalled => InstallState(None, true)
    case PromptInstall(choice) =>
      if s.deferredPrompt.Some? && choice.Resolved? then s.(deferredPrompt := None) else s
  }

  /** The custom events one signal dispatches. */
  function Emitted(signal: Signal): seq<string>
  {
    match signal
    case BeforeInstallPrompt(_) => [InstallAvailable]
    case AppInstalled => [InstallHidden]
    case PromptInstall(_) => []
  }

  /** What `promptInstall` resolves to in state `s`. */
  function PromptResult(s: InstallState, choice: UserChoice): bool
  {
    s.deferredPrompt.Some? && choice.Resolved? && choice.outcome == "accepted"
  }

  /** The state after a sequence of signals, handled one at a time. */
  function Run(s: InstallState, signals: seq<Signal>): InstallState
    decreases |signals|
  {
    if signals == [] then s else Run(Next(s, signals[0]), signals[1..])
  }

  /** The custom events dispatched by a sequence of signals, in order. */
  function EmittedBy(signals: seq<Signal>): seq<string>
  {
    if signals == [] then [] else Emitted(signals[0]) + EmittedBy(signals[1..])
  }

  /** Only `appinstalled` sets the installed flag, and nothing ever clears it. */
  lemma {:induction false} RunInstalledIff(s: InstallState, signals: seq<Signal>)
    ensures Run(s, signals).isInstalled <==> s.isInstalled || AppInstalled in signals
    decreases |signals|
  {
    if signals != [] {
      RunInstalledIff(Next(s, signals[0]), signals[1..]);
      assert signals == [signals[0]] + signals[1..];
    }
  }

  /** Once installed, the app is never offered for installation again, whatever happens. */
  lemma {:induction false} InstalledNeverInstallable(s: InstallState, signals: seq<Signal>)
    requires s.isInstalled
    ensures Run(s, signals).isInstalled && !CanInstall(Run(s, signals))
  {
    RunInstalledIff(s, signals);
  }

  /** Every prompt the service holds had its default action (the browser's own banner) prevented. */
  predicate HeldPromptPrevented(s: InstallState)
  {
    s.deferredPrompt.Some? ==> s.deferredPrompt.value.defaultPrevented
  }

  lemma {:induction false} RunKeepsHeldPromptPrevented(s: InstallState, signals: seq<Signal>)
    requires HeldPromptPrevented(s)
    ensures HeldPromptPrevented(Run(s, signals))
    decreases |signals|
  {
    if signals != [] {
      RunKeepsHeldPromptPrevented(Next(s, signals[0]), signals[1..]);
    }
  }

  /** "pwa-install-hidden" is dispatched exactly when an `appinstalled` event arrives. */
  lemma {:induction false} InstallHiddenIff(signals: seq<Signal>)
    ensures InstallHidden in EmittedBy(signals) <==> AppInstalled in signals
  {
    if signals != [] {
      InstallHiddenIff(signals[1..]);
      assert signals == [signals[0]] + signals[1..];
    }
  }

  /**
   * The held prompt is single-use: after the user answers, a second
   * `promptInstall` resolves to false and changes nothing. Answering never
   * sets the installed flag.
   */
  lemma {:induction false} AnsweredPromptIsConsumed(s: InstallState, outcome: string, again: UserChoice)
    requires s.deferredPrompt.Some?
    ensures var after := Next(s, PromptInstall(Resolved(outcome)));
            && after.deferredPrompt == None
            && after.isInstalled == s.isInstalled
            && !PromptResult(after, again)
            && Next(after, PromptInstall(again)) == after
  {
  }

  /** A window listener: its event type, the identity of the handler function, the subscriber it calls, and the value it passes. */
  datatype Listener = Listener(eventType: string, handler: nat, callback: nat, isOnline: bool)

  /** The function `onConnectionChange` returns, naming the two handlers it registered. */
  datatype Cleanup = Cleanup(onlineHandler: nat, offlineHandler: nat)

  /** A call of a subscriber's callback with its `isOnline` argument. */
  datatype Call = Call(callback: nat, isOnline: bool)

  /** The callback calls a window event runs, in registration order. */
  function Calls(listeners: seq<Listener>, eventType: string): seq<Call>
  {
    if listeners == [] then []
    else (if listeners[0].eventType == eventType then [Call(listeners[0].callback, listeners[0].isOnline)] else [])
         + Calls(listeners[1..], eventType)
  }

  /** `removeEventListener`: drops the listener with this type and handler. */
  function Without(listeners: seq<Listener>, eventType: string, handler: nat): (r: seq<Listener>)
    ensures |r| <= |listeners|
    ensures forall l :: l in r <==> l in listeners && (l.eventType != eventType || l.handler != handler)
  {
    if listeners == [] then []
    else
      assert listeners == [listeners[0]] + listeners[1..];
      if listeners[0].eventType == eventType && listeners[0].handler == handler then Without(listeners[1..], eventType, handler)
      else [listeners[0]] + Without(listeners[1..], eventType, handler)
  }

  lemma {:induction false} CallsAppend(a: seq<Listener>, b: seq<Listener>, eventType: string)
    ensures Calls(a + b, eventType) == Calls(a, eventType) + Calls(b, eventType)
  {
    if a != [] {
      assert (a + b)[0] == a[0] && (a + b)[1..] == a[1..] + b;
      CallsAppend(a[1..], b, eventType);
    } else {
      assert a + b == b;
    }
  }

  lemma {:induction false} WithoutAbsent(listeners: seq<Listener>, eventType: string, handler: nat)
    requires forall i :: 0 <= i < |listeners| ==> listeners[i].handler != handler
    ensures Without(listeners, eventType, handler) == listeners
  {
    if listeners != [] {
      WithoutAbsent(listeners[1..], eventType, handler);
      assert listeners == [listeners[0]] + listeners[1..];
    }
  }

  lemma {:induction false} WithoutAppend(a: seq<Listener>, b: seq<Listener>, eventType: string, handler: nat)
    ensures Without(a + b, eventType, handler) == Without(a, eventType, handler) + Without(b, eventType, handler)
  {
    if a != [] {
      assert (a + b)[0] == a[0] && (a + b)[1..] == a[1..] + b;
      WithoutAppend(a[1..], b, eventType, handler);
    } else {
      assert a + b == b;
    }
  }

  /** The window's list of event listeners, with a counter that makes each new handler function distinct. */
  class Window {
    var listeners: seq<Listener>
    var nextHandler: nat

    ghost predicate Valid()
      reads this
    {
      forall i :: 0 <= i < |listeners| ==> listeners[i].handler < nextHandler
    }

    constructor ()
      ensures Valid() && listeners == []
    {
      listeners := [];
      nextHandler := 0;
    }

    /** `addEventListener` for a handler created just now. */
    method AddListener(eventType: string, callback: nat, isOnline: bool) returns (handler: nat)
      requires Valid()
      modifies this
      ensures Valid()
      ensures handler == old(nextHandler) && nextHandler > handler
      ensures listeners == old(listeners) + [Listener(eventType, handler, callback, isOnline)]
    {
      handler := nextHandler;
      listeners := listeners + [Listener(eventType, handler, callback, isOnline)];
      nextHandler := nextHandler + 1;
    }

    /** `removeEventListener`. */
    method RemoveListener(eventType: string, handler: nat)
      requires Valid()
      modifies this`listeners
      ensures Valid()
      ensures listeners == Without(old(listeners), eventType, handler)
    {
      listeners := Without(listeners, eventType, handler);
    }
  }

  /** Subscribing adds one "online" call and one "offline" call of the callback, after those already registered. */
  lemma {:induction false} SubscribeAddsCalls(listeners: seq<Listener>, callback: nat, h: nat, h': nat)
    ensures var subscribed := listeners + [Listener("online", h, callback, true), Listener("offline", h', callback, false)];
            && Calls(subscribed, "online") == Calls(listeners, "online") + [Call(callback, true)]
            && Calls(subscribed, "offline") == Calls(listeners, "offline") + [Call(callback, false)]
  {
    var on := Listener("online", h, callback, true);
    var off := Listener("offline", h', callback, false);
    assert [on, off][1..] == [off] && [off][1..] == [];
    assert Calls([off], "online") == [] + Calls([], "online") == [];
    assert Calls([off], "offline") == [Call(callback, false)] + Calls([], "offline") == [Call(callback, false)];
    assert Calls([on, off], "online") == [Call(callback, true)] + Calls([off], "online");
    assert Calls([on, off], "offline") == [] + Calls([off], "offline");
    CallsAppend(listeners, [on, off], "online");
    CallsAppend(listeners, [on, off], "offline");
  }

  /** Releasing a subscription puts the window's listeners back as they were before it. */
  lemma {:induction false} ReleaseUndoesSubscribe(listeners: seq<Listener>, callback: nat, h: nat, h': nat)
    requires forall i :: 0 <= i < |listeners| ==> listeners[i].handler < h < h'
    ensures var subscribed := listeners + [Listener("online", h, callback, true), Listener("offline", h', callback, false)];
            Without(Without(subscribed, "online", h), "offline", h') == listeners
  {
    var on := Listener("online", h, callback, true);
    var off := Listener("offline", h', callback, false);
    assert [on, off][1..] == [off] && [off][1..] == [];
    assert Without([on, off], "online", h) == [off];
    assert Without([off], "offline", h') == [];
    WithoutAppend(listeners, [on, off], "online", h);
    WithoutAbsent(listeners, "online", h);
    WithoutAppend(listeners, [off], "offline", h');
    WithoutAbsent(listeners, "offline", h');
    assert listeners + [] == listeners;
  }

  /** `getInstallationInfo`. */
  datatype InstallationInfo = InstallationInfo(canInstall: bool, isInstalled: bool, isOffline: bool, hasServiceWorker: bool)

  /** `PWAService`, with the custom events it has dispatched kept as a log. */
  class PwaService {
    var deferredPrompt: Option<InstallPromptEvent>
    var isInstalled: bool
    var dispatched: seq<string>

    function State(): InstallState
      reads this
    {
      InstallState(deferredPrompt, isInstalled)
    }

    /** The constructor: listeners are set up (the handlers below), then the standalone checks run. */
    constructor (displayModeStandalone: bool, navigatorStandalone: Option<bool>)
      ensures State() == Initial(displayModeStandalone, navigatorStandalone)
      ensures isInstalled <==> displayModeStandalone || navigatorStandalone == Some(true)
      ensures deferredPrompt == None && dispatched == []
    {
      deferredPrompt := None;
      isInstalled := false;
      dispatched := [];
      new;
      CheckInstallationStatus(displayModeStandalone, navigatorStandalone);
    }

    /** `checkInstallationStatus`: either standalone probe sets the installed flag; neither clears it. */
    method CheckInstallationStatus(displayModeStandalone: bool, navigatorStandalone: Option<bool>)
      modifies this`isInstalled
      ensures isInstalled <==> old(isInstalled) || displayModeStandalone || navigatorStandalone == Some(true)
    {
      if displayModeStandalone {
        isInstalled := true;
      }
      if navigatorStandalone == Some(true) {
        isInstalled := true;
      }
    }

    /** The `beforeinstallprompt` handler: prevents the default, keeps the event (replacing any earlier one) and announces it. */
    method OnBeforeInstallPrompt(e: InstallPromptEvent)
      modifies this
      ensures deferredPrompt == Some(e.(defaultPrevented := true))
      ensures isInstalled == old(isInstalled)
      ensures dispatched == old(dispatched) + [InstallAvailable]
      ensures State() == Next(old(State()), BeforeInstallPrompt(e))
    {
      var prevented := e.(defaultPrevented := true);
      deferredPrompt := Some(prevented);
      dispatched := dispatched + [InstallAvailable];
    }

    /** The `appinstalled` handler: marks the app installed, announces it and drops the held prompt. */
    method OnAppInstalled()
      modifies this
      ensures isInstalled && deferredPrompt == None
      ensures dispatched == old(dispatched) + [InstallHidden]
      ensures State() == Next(old(State()), AppInstalled)
    {
      isInstalled := true;
      dispatched := dispatched + [InstallHidden];
      deferredPrompt := None;
    }

    /**
     * `promptInstall`: false with no held prompt; otherwise whether the user
     * accepted, clearing the prompt once the answer arrives. When `prompt()`
     * or `userChoice` throws, the result is false and the prompt is kept.
     * The installed flag is never touched.
     */
    method PromptInstall(choice: UserChoice) returns (accepted: bool)
      modifies this`deferredPrompt
      ensures accepted <==> old(deferredPrompt).Some? && choice == Resolved("accepted")
      ensures deferredPrompt == if old(deferredPrompt).Some? && choice.Resolved? then None else old(deferredPrompt)
      ensures State() == Next(old(State()), Signal.PromptInstall(choice))
      ensures accepted == PromptResult(old(State()), choice)
    {
      if deferredPrompt.None? {
        return false;
      }
      match choice {
        case Threw =>
          accepted := false;
        case Resolved(outcome) =>
          deferredPrompt := None;
          accepted := outcome == "accepted";
      }
    }

    /** `canInstall`. */
    function CanInstallNow(): (r: bool)
      reads this
      ensures r <==> deferredPrompt.Some? && !isInstalled
    {
      CanInstall(State())
    }

    /** `isAppInstalled`. */
    function IsAppInstalled(): (r: bool)
      reads this
      ensures r == isInstalled
    {
      isInstalled
    }

    /** `getInstallationInfo`, with `navigator.onLine` and service-worker support as probes. */
    function GetInstallationInfo(online: bool, serviceWorkerInNavigator: bool): (info: InstallationInfo)
      reads this
      ensures info.canInstall <==> CanInstall(State())
      ensures info.isInstalled == isInstalled && info.isOffline == !online
      ensures info.hasServiceWorker == serviceWorkerInNavigator
    {
      InstallationInfo(CanInstallNow(), IsAppInstalled(), !online, serviceWorkerInNavigator)
    }

    /**
     * `onConnectionChange`: registers an "online" handler calling the callback
     * with true and an "offline" handler calling it with false; the result
     * names both for removal.
     */
    method OnConnectionChange(window: Window, callback: nat) returns (cleanup: Cleanup)
      requires window.Valid()
      modifies window
      ensures window.Valid()
      ensures cleanup.onlineHandler < cleanup.offlineHandler
      ensures window.listeners == old(window.listeners)
                + [Listener("online", cleanup.onlineHandler, callback, true),
                   Listener("offline", cleanup.offlineHandler, callback, false)]
      ensures Calls(window.listeners, "online") == Calls(old(window.listeners), "online") + [Call(callback, true)]
      ensures Calls(window.listeners, "offline") == Calls(old(window.listeners), "offline") + [Call(callback, false)]
      ensures Without(Without(window.listeners, "online", cleanup.onlineHandler), "offline", cleanup.offlineHandler)
                == old(window.listeners)
    {
      var onlineHandler := window.AddListener("online", callback, true);
      var offlineHandler := window.AddListener("offline", callback, false);
      cleanup := Cleanup(onlineHandler, offlineHandler);
      SubscribeAddsCalls(old(window.listeners), callback, onlineHandler, offlineHandler);
      ReleaseUndoesSubscribe(old(window.listeners), callback, onlineHandler, offlineHandler);
    }

    /** Running the function `onConnectionChange` returned: removes both handlers. */
    method ReleaseConnectionListeners(window: Window, cleanup: Cleanup)
      requires window.Valid()
      modifies window`listeners
      ensures window.Valid()
      ensures window.listeners
                == Without(Without(old(window.listeners), "online", cleanup.onlineHandler), "offline", cleanup.offlineHandler)
    {
      window.RemoveListener("online", cleanup.onlineHandler);
      window.RemoveListener("offline", cleanup.offlineHandler);
    }
  }
}
