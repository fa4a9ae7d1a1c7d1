/** The animated-unmount hook: it keeps an element rendered after its
    `isVisible` input turns false, until the element's exit animation
    signals `animationend`.

    The hook's effect depends on `isVisible` only, so it re-runs exactly
    when that input changes: the previous run's cleanup first removes the
    listener the previous run added (if it captured an element), then the
    new run raises `shouldRender` when visible, and adds an `animationend`
    listener when invisible and an element is present. The listener's
    handler lowers `shouldRender`. Whether the element is present is decided
    by the component that renders it, so each re-run receives it as an
    input. */
module AnimatedUnmount {

  /** What the hook holds between events: the last `isVisible` its effect ran
      for, `shouldRender`, whether the element captured by the last effect run
      was present, and whether that run's listener is still registered. */
  datatype HookState = HookState(
    isVisible: bool,
    shouldRender: bool,
    hasElement: bool,
    listenerAttached: bool)

  /** The inputs that drive the hook. */
  datatype HookEvent =
    | VisibilityChanged(visible: bool, elementPresent: bool)  // re-render with this `isVisible`
    | AnimationEnded                                          // `animationend` fired on the element
    | Unmounted                                               // the owning component is torn down

  /** The effect's run for `visible`, after the cleanup of the previous run:
      the listener is registered only when invisible and an element is
      present. */
  function EffectRun(shouldRender: bool, visible: bool, elementPresent: bool): (r: HookState)
    ensures r.isVisible == visible && r.hasElement == elementPresent
    ensures visible ==> r.shouldRender
    ensures !visible ==> r.shouldRender == shouldRender
    ensures r.listenerAttached <==> !visible && elementPresent
  {
    HookState(visible, visible || shouldRender, elementPresent, !visible && elementPresent)
  }

  /** The hook right after mounting: `shouldRender` starts as the initial
      `isVisible`, and the first effect run has happened. */
  function Initial(visible: bool, elementPresent: bool): (s: HookState)
    ensures s.shouldRender == visible
    ensures s.listenerAttached <==> !visible && elementPresent
  {
    EffectRun(visible, visible, elementPresent)
  }

  /** One event. */
  function Step(s: HookState, e: HookEvent): (r: HookState)
    ensures e.VisibilityChanged? ==> r.isVisible == e.visible
    ensures e.VisibilityChanged? && e.visible && (e.visible != s.isVisible || Inv(s)) ==> r.shouldRender
    ensures e.VisibilityChanged? && e.visible != s.isVisible ==>
              (r.listenerAttached <==> !e.visible && e.elementPresent)
    ensures r.shouldRender != s.shouldRender ==>
              if r.shouldRender then e.VisibilityChanged? && e.visible
              else e == AnimationEnded && s.listenerAttached
    ensures e == Unmounted ==> !r.listenerAttached
  {
    match e
    case VisibilityChanged(visible, elementPresent) =>
      if visible == s.isVisible then s
      else EffectRun(s.shouldRender, visible, elementPresent)
    case AnimationEnded =>
      if s.listenerAttached then s.(shouldRender := false) else s
    case Unmounted =>
      s.(listenerAttached := false)
  }

  /** A sequence of events, in order. */
  function Run(s: HookState, events: seq<HookEvent>): HookState
    decreases |events|
  {
    if events == [] then s else Run(Step(s, events[0]), events[1..])
  }

  /** While the element is wanted it is rendered, and a listener is only
      registered on an element, and only while the hook is invisible. */
  predicate Inv(s: HookState)
  {
    && (s.isVisible ==> s.shouldRender)
    && (s.listenerAttached ==> s.hasElement && !s.isVisible)
  }

  lemma InitialInv(visible: bool, elementPresent: bool)
    ensures Inv(Initial(visible, elementPresent))
  {
  }

  lemma StepKeepsInv(s: HookState, e: HookEvent)
    requires Inv(s)
    ensures Inv(Step(s, e))
  {
  }

  /** The invariant holds after any sequence of events. */
  lemma {:induction false} RunKeepsInv(s: HookState, events: seq<HookEvent>)
    requires Inv(s)
    ensures Inv(Run(s, events))
    decreases |events|
  {
    if events != [] {
      StepKeepsInv(s, events[0]);
      RunKeepsInv(Step(s, events[0]), events[1..]);
    }
  }

  /** From mount on, whenever `isVisible` is true the element is rendered,
      and no listener is ever registered while visible. */
  lemma VisibleIsAlwaysRendered(visible: bool, elementPresent: bool, events: seq<HookEvent>)
    ensures var s := Run(Initial(visible, elementPresent), events);
            (s.isVisible ==> s.shouldRender) && (s.listenerAttached ==> !s.isVisible)
  {
    InitialInv(visible, elementPresent);
    RunKeepsInv(Initial(visible, elementPresent), events);
  }

  /** Without an `animationend` event the element is never released. */
  lemma {:induction false} NoReleaseBeforeAnimationEnd(s: HookState, events: seq<HookEvent>)
    requires s.shouldRender
    requires forall i :: 0 <= i < |events| ==> events[i] != AnimationEnded
    ensures Run(s, events).shouldRender
    decreases |events|
  {
    if events != [] {
      NoReleaseBeforeAnimationEnd(Step(s, events[0]), events[1..]);
    }
  }

  /** With no element present at any re-run, no listener is ever registered,
      so a rendered element stays rendered indefinitely, whatever
      `animationend` events arrive. */
  lemma {:induction false} NoElementNeverReleased(s: HookState, events: seq<HookEvent>)
    requires s.shouldRender && !s.listenerAttached
    requires forall i :: 0 <= i < |events| && events[i].VisibilityChanged? ==> !events[i].elementPresent
    ensures Run(s, events).shouldRender && !Run(s, events).listenerAttached
    decreases |events|
  {
    if events != [] {
      NoElementNeverReleased(Step(s, events[0]), events[1..]);
    }
  }

  /** Once `isVisible` turns true again the previous listener is gone, so an
      `animationend` from the earlier exit animation changes nothing. */
  lemma StaleAnimationEndIgnored(s: HookState, elementPresent: bool)
    requires Inv(s)
    ensures var shown := Step(s, VisibilityChanged(true, elementPresent));
            shown.shouldRender && Step(shown, AnimationEnded) == shown
  {
  }

  /** Shown, hidden, then the exit animation ends: `shouldRender` goes
      true, true, false. */
  lemma ShowHideAnimateScenario()
    ensures var shown := Initial(true, true);
            var hidden := Step(shown, VisibilityChanged(false, true));
            var ended := Step(hidden, AnimationEnded);
            shown.shouldRender && hidden.shouldRender && !ended.shouldRender
  {
  }

  /** The hook as a component instance holds it. */
  class Hook {
    var isVisible: bool
    var shouldRender: bool
    var hasElement: bool
    var listenerAttached: bool

    function State(): HookState
      reads this
    {
      HookState(isVisible, shouldRender, hasElement, listenerAttached)
    }

    /** Mount with the initial `isVisible`, then the first effect run. */
    constructor (visible: bool, elementPresent: bool)
      ensures State() == Initial(visible, elementPresent)
      ensures shouldRender == visible
      ensures Inv(State())
    {
      isVisible := visible;
      shouldRender := visible;
      hasElement := elementPresent;
      listenerAttached := !visible && elementPresent;
    }

    /** A re-render with `isVisible == visible`; the effect re-runs only
        when the value changed: cleanup, then the new run. */
    method SetVisible(visible: bool, elementPresent: bool)
      requires Inv(State())
      modifies this
      ensures State() == Step(old(State()), VisibilityChanged(visible, elementPresent))
      ensures Inv(State())
      ensures visible ==> shouldRender
      ensures !visible ==> shouldRender == old(shouldRender)
    {
      if visible != isVisible {
        // cleanup of the previous run
        listenerAttached := false;
        // the new run
        isVisible := visible;
        if visible {
          shouldRender := true;
        }
        hasElement := elementPresent;
        if !visible && elementPresent {
          listenerAttached := true;
        }
      }
    }

    /** `animationend` on the element: the handler lowers `shouldRender`
        if it is registered. */
    method AnimationEnd()
      requires Inv(State())
      modifies this`shouldRender
      ensures State() == Step(old(State()), AnimationEnded)
      ensures Inv(State())
      ensures shouldRender == (old(shouldRender) && !listenerAttached)
    {
      if listenerAttached {
        shouldRender := false;
      }
    }

    /** Teardown: the last cleanup removes the listener. */
    method Unmount()
      requires Inv(State())
      modifies this`listenerAttached
      ensures State() == Step(old(State()), Unmounted)
      ensures Inv(State())
      ensures !listenerAttached
    {
      listenerAttached := false;
    }
  }
}
