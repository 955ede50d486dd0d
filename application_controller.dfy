/**
 * The application's root `ApplicationController`: it owns the menu and the
 * gameplay scene lists, listens for the quit, load-menu and load-gameplay
 * messages, and switches between the two scene groups behind the curtain.
 *
 * The `LoadScenes` coroutine is an explicit continuation: `LoadScenes` runs it
 * up to its first `yield` (the curtain show), and every `Resume` is the frame
 * on which the step it waits for has completed, after which it runs up to the
 * next `yield`. `log` records every step the controller has started, in order.
 */
module ApplicationLifecycle {
  import opened GameScenes
  import opened SceneLoading
  import opened PubSub
  import opened ScreenCurtain
  import opened GameMessages

  /** The three parameterless handlers the controller registers:
      `OnQuitRequested`, `OnLoadMenuRequested` and `OnLoadGameplayRequested`. */
  const QuitHandler: HandlerId := 0
  const LoadMenuHandler: HandlerId := 1
  const LoadGameplayHandler: HandlerId := 2

  // ---------------------------------------------------------------------------
  // The steps of a scene switch

  /** One `yield return` of `LoadScenes`. */
  datatype TransitionStep =
    | CurtainShow
    | SceneUnload(scene: GameScene)
    | SceneLoad(scene: GameScene)
    | CurtainHide

  function Unloads(scenes: seq<GameScene>): (r: seq<TransitionStep>)
    ensures |r| == |scenes|
    ensures forall i :: 0 <= i < |scenes| ==> r[i] == SceneUnload(scenes[i])
  {
    if scenes == [] then [] else [SceneUnload(scenes[0])] + Unloads(scenes[1..])
  }

  function Loads(scenes: seq<GameScene>): (r: seq<TransitionStep>)
    ensures |r| == |scenes|
    ensures forall i :: 0 <= i < |scenes| ==> r[i] == SceneLoad(scenes[i])
  {
    if scenes == [] then [] else [SceneLoad(scenes[0])] + Loads(scenes[1..])
  }

  /** The steps of `LoadScenes(unload, load)`: the curtain comes down, every
      scene of `unload` is unloaded in array order, every scene of `load` is
      loaded in array order, and the curtain goes up. */
  function TransitionSteps(unload: seq<GameScene>, load: seq<GameScene>): (r: seq<TransitionStep>)
    ensures |r| == |unload| + |load| + 2
    ensures r[0] == CurtainShow && r[|r| - 1] == CurtainHide
  {
    [CurtainShow] + Unloads(unload) + Loads(load) + [CurtainHide]
  }

  /** Between the two curtain steps come the unloads in array order, then
      the loads in array order. */
  lemma TransitionOrder(unload: seq<GameScene>, load: seq<GameScene>)
    ensures var r := TransitionSteps(unload, load);
      && (forall i :: 0 <= i < |unload| ==> r[1 + i] == SceneUnload(unload[i]))
      && (forall i :: 0 <= i < |load| ==> r[1 + |unload| + i] == SceneLoad(load[i]))
  {
    var r := TransitionSteps(unload, load);
    forall i | 0 <= i < |unload| ensures r[1 + i] == SceneUnload(unload[i]) {
      assert r[1 + i] == Unloads(unload)[i];
    }
    forall i | 0 <= i < |load| ensures r[1 + |unload| + i] == SceneLoad(load[i]) {
      assert r[1 + |unload| + i] == Loads(load)[i];
    }
  }

  /** What one step does to the set of loaded scenes. */
  function ApplyStep(m: set<GameScene>, st: TransitionStep): set<GameScene>
  {
    match st
    case SceneUnload(x) => m - {x}
    case SceneLoad(x) => m + {x}
    case _ => m
  }

  /** The set of loaded scenes after a run of steps. */
  function MembersAfter(m: set<GameScene>, steps: seq<TransitionStep>): set<GameScene>
  {
    if steps == [] then m else ApplyStep(MembersAfter(m, steps[..|steps| - 1]), steps[|steps| - 1])
  }

  lemma MembersAfterSnoc(m: set<GameScene>, steps: seq<TransitionStep>, st: TransitionStep)
    ensures MembersAfter(m, steps + [st]) == ApplyStep(MembersAfter(m, steps), st)
  {
    assert (steps + [st])[..|steps|] == steps;
  }

  /** The first step of a switch leaves the loaded set alone, and the steps
      still to come are the rest of the fixed order. */
  lemma FirstStepFacts(log: seq<TransitionStep>, m: set<GameScene>, steps: seq<TransitionStep>)
    requires |steps| > 0 && steps[0] == CurtainShow
    ensures (log + [CurtainShow])[|log|..] == [CurtainShow]
    ensures (log + [CurtainShow])[|log|..] + steps[1..] == steps
    ensures MembersAfter(m, [CurtainShow]) == m
  {
    assert [CurtainShow][..0] == [];
  }

  /** Starting the next step keeps the fixed order and accounts for the
      step's effect on the loaded set. */
  lemma NextStepFacts(log: seq<TransitionStep>, start: nat, pending: seq<TransitionStep>, steps: seq<TransitionStep>, m: set<GameScene>)
    requires start < |log| && pending != [] && log[start..] + pending == steps
    ensures (log + [pending[0]])[start..] + pending[1..] == steps
    ensures MembersAfter(m, (log + [pending[0]])[start..]) == ApplyStep(MembersAfter(m, log[start..]), pending[0])
  {
    assert (log + [pending[0]])[start..] == log[start..] + [pending[0]];
    MembersAfterSnoc(m, log[start..], pending[0]);
  }

  lemma {:induction false} MembersAfterConcat(m: set<GameScene>, a: seq<TransitionStep>, b: seq<TransitionStep>)
    ensures MembersAfter(m, a + b) == MembersAfter(MembersAfter(m, a), b)
  {
    if b == [] {
      assert a + b == a;
    } else {
      assert (a + b)[..|a + b| - 1] == a + b[..|b| - 1];
      MembersAfterConcat(m, a, b[..|b| - 1]);
    }
  }

  lemma {:induction false} UnloadsRemove(m: set<GameScene>, scenes: seq<GameScene>)
    ensures MembersAfter(m, Unloads(scenes)) == m - Members(scenes)
    decreases scenes
  {
    if scenes != [] {
      var first := [SceneUnload(scenes[0])];
      assert first[..0] == [];
      MembersAfterConcat(m, first, Unloads(scenes[1..]));
      UnloadsRemove(m - {scenes[0]}, scenes[1..]);
      assert scenes == [scenes[0]] + scenes[1..];
      assert Members(scenes) == {scenes[0]} + Members(scenes[1..]);
    }
  }

  lemma {:induction false} LoadsAdd(m: set<GameScene>, scenes: seq<GameScene>)
    ensures MembersAfter(m, Loads(scenes)) == m + Members(scenes)
    decreases scenes
  {
    if scenes != [] {
      var first := [SceneLoad(scenes[0])];
      assert first[..0] == [];
      MembersAfterConcat(m, first, Loads(scenes[1..]));
      LoadsAdd(m + {scenes[0]}, scenes[1..]);
      assert scenes == [scenes[0]] + scenes[1..];
      assert Members(scenes) == {scenes[0]} + Members(scenes[1..]);
    }
  }

  /** A completed switch leaves loaded exactly the scenes that were loaded and
      not in `unload`, plus every scene of `load`; a scene in both lists is
      unloaded and loaded again, so it ends up loaded. */
  lemma TransitionOutcome(m: set<GameScene>, unload: seq<GameScene>, load: seq<GameScene>)
    ensures MembersAfter(m, TransitionSteps(unload, load)) == (m - Members(unload)) + Members(load)
  {
    var down := [CurtainShow];
    var up := [CurtainHide];
    assert down[..0] == [] && up[..0] == [];
    assert TransitionSteps(unload, load) == down + Unloads(unload) + Loads(load) + up;
    MembersAfterConcat(m, down + Unloads(unload) + Loads(load), up);
    MembersAfterConcat(m, down + Unloads(unload), Loads(load));
    MembersAfterConcat(m, down, Unloads(unload));
    UnloadsRemove(m, unload);
    LoadsAdd(m - Members(unload), load);
  }

  /** After the menu switch every menu scene is loaded, no gameplay scene
      that is not also a menu scene is, and any other scene keeps its state;
      the gameplay switch is the mirror image. */
  lemma MenuSwitchOutcome(m: set<GameScene>, menuScenes: seq<GameScene>, gameplayScenes: seq<GameScene>)
    ensures var after := MembersAfter(m, TransitionSteps(gameplayScenes, menuScenes));
      && (forall x :: x in menuScenes ==> x in after)
      && (forall x :: x in gameplayScenes && x !in menuScenes ==> x !in after)
      && (forall x :: x !in gameplayScenes && x !in menuScenes ==> (x in after <==> x in m))
    ensures var after := MembersAfter(m, TransitionSteps(menuScenes, gameplayScenes));
      && (forall x :: x in gameplayScenes ==> x in after)
      && (forall x :: x in menuScenes && x !in gameplayScenes ==> x !in after)
      && (forall x :: x !in gameplayScenes && x !in menuScenes ==> (x in after <==> x in m))
  {
    TransitionOutcome(m, gameplayScenes, menuScenes);
    TransitionOutcome(m, menuScenes, gameplayScenes);
  }

  /** The curtain after the step the coroutine waited for has completed: the
      awaited fade runs its tail, a scene step leaves the curtain alone. */
  function Completed(c: Curtain, st: TransitionStep): Curtain
  {
    match st
    case CurtainShow => Ended(c, FadingIn)
    case CurtainHide => Ended(c, FadingOut)
    case _ => c
  }

  /** The curtain once the step is started. */
  function Started(c: Curtain, st: TransitionStep): Curtain
  {
    match st
    case CurtainShow => BeginShow(c)
    case CurtainHide => BeginHide(c)
    case _ => c
  }

  /** The loader once the step is started; `at` is where the hash set places
      a newly loaded scene. */
  function LoaderAfter(l: LoaderState, st: TransitionStep, at: nat): LoaderState
  {
    match st
    case SceneUnload(x) => Perform(l, UnloadCall(x))
    case SceneLoad(x) => Perform(l, LoadCall(x, at))
    case _ => l
  }

  // ---------------------------------------------------------------------------
  // Listener registration

  /** The parameterless table after `Start` registers its three handlers. */
  function Registered(t: Table): (r: Table)
    ensures NoEmptyLists(t) ==> NoEmptyLists(r)
  {
    Subscribed(Subscribed(Subscribed(t, QuitApplicationMessage, QuitHandler),
      LoadMenuMessage, LoadMenuHandler), LoadGameplayMessage, LoadGameplayHandler)
  }

  /** The parameterless table after `OnDestroy` removes them again. */
  function Unregistered(t: Table): (r: Table)
    ensures NoEmptyLists(t) ==> NoEmptyLists(r)
  {
    Unsubscribed(Unsubscribed(Unsubscribed(t, QuitApplicationMessage, QuitHandler),
      LoadMenuMessage, LoadMenuHandler), LoadGameplayMessage, LoadGameplayHandler)
  }

  /** After `Start` each message reaches its handler once more than before. */
  lemma StartListensToMessages(t: Table)
    ensures Count(Handlers(Registered(t), QuitApplicationMessage), QuitHandler)
         == Count(Handlers(t, QuitApplicationMessage), QuitHandler) + 1
    ensures Count(Handlers(Registered(t), LoadMenuMessage), LoadMenuHandler)
         == Count(Handlers(t, LoadMenuMessage), LoadMenuHandler) + 1
    ensures Count(Handlers(Registered(t), LoadGameplayMessage), LoadGameplayHandler)
         == Count(Handlers(t, LoadGameplayMessage), LoadGameplayHandler) + 1
  {
    var t1 := Subscribed(t, QuitApplicationMessage, QuitHandler);
    var t2 := Subscribed(t1, LoadMenuMessage, LoadMenuHandler);
    RegistrationsAccumulate(t, QuitApplicationMessage, QuitHandler);
    RegistrationsAccumulate(t1, LoadMenuMessage, LoadMenuHandler);
    RegistrationsAccumulate(t2, LoadGameplayMessage, LoadGameplayHandler);
  }

  /** `OnDestroy` after `Start` gives back the table `Start` found. */
  lemma StartThenDestroyRestoresListeners(t: Table)
    requires NoEmptyLists(t)
    ensures Unregistered(Registered(t)) == t
  {
    var q, m, g := QuitApplicationMessage, LoadMenuMessage, LoadGameplayMessage;
    var sq := Subscribed(t, q, QuitHandler);
    var sm := Subscribed(sq, m, LoadMenuHandler);
    SubscribeCommutesWithUnsubscribe(sm, g, LoadGameplayHandler, q, QuitHandler);
    SubscribeCommutesWithUnsubscribe(sq, m, LoadMenuHandler, q, QuitHandler);
    UnsubscribeUndoesSubscribe(t, q, QuitHandler);
    var tm := Subscribed(t, m, LoadMenuHandler);
    SubscribeCommutesWithUnsubscribe(tm, g, LoadGameplayHandler, m, LoadMenuHandler);
    UnsubscribeUndoesSubscribe(t, m, LoadMenuHandler);
    UnsubscribeUndoesSubscribe(t, g, LoadGameplayHandler);
  }

  // ---------------------------------------------------------------------------
  // The controller

  class ApplicationController {
    const menuScenes: seq<GameScene>
    const gameplayScenes: seq<GameScene>
    const sceneLoader: SceneLoader
    const screenCurtain: AlphaScreenCurtain
    const pubSub: PubSubService

    /** `_isRestarting`: set once `RestartRoutine` begins, never cleared. */
    var isRestarting: bool
    /** `_isLoading`: a scene switch is running. */
    var isLoading: bool
    /** The steps of the running switch that are still to come. */
    var pending: seq<TransitionStep>
    /** Every step the controller started, in order. */
    var log: seq<TransitionStep>
    /** `RestartRoutine` is waiting for its curtain show. */
    var restartShowing: bool
    /** `SceneManager.LoadScene(0)` was called. */
    var reloadRequested: bool
    /** The application was asked to exit. */
    var quitRequested: bool

    /** The loaded set when the running switch began, its two scene lists and
        the index in `log` of its first step. */
    ghost var origin: set<GameScene>
    ghost var planUnload: seq<GameScene>
    ghost var planLoad: seq<GameScene>
    ghost var planStart: nat

    /** While a switch runs, the steps started so far and the ones to come
        make up its fixed step order, and the loaded set is what those steps
        made of the set it started from. */
    ghost predicate Valid()
      reads this, sceneLoader, pubSub
    {
      && sceneLoader.Valid() && pubSub.Valid()
      && (!isLoading ==> pending == [])
      && (isLoading ==>
            && planStart < |log|
            && log[planStart..] + pending == TransitionSteps(planUnload, planLoad)
            && Members(sceneLoader.loaded) == MembersAfter(origin, log[planStart..]))
    }

    constructor (menuScenes: seq<GameScene>, gameplayScenes: seq<GameScene>,
                 sceneLoader: SceneLoader, screenCurtain: AlphaScreenCurtain, pubSub: PubSubService)
      requires sceneLoader.Valid() && pubSub.Valid()
      ensures Valid()
      ensures this.menuScenes == menuScenes && this.gameplayScenes == gameplayScenes
      ensures this.sceneLoader == sceneLoader && this.screenCurtain == screenCurtain && this.pubSub == pubSub
      ensures !isRestarting && !isLoading && pending == [] && log == []
      ensures !restartShowing && !reloadRequested && !quitRequested
    {
      this.menuScenes := menuScenes;
      this.gameplayScenes := gameplayScenes;
      this.sceneLoader := sceneLoader;
      this.screenCurtain := screenCurtain;
      this.pubSub := pubSub;
      isRestarting, isLoading, pending, log := false, false, [], [];
      restartShowing, reloadRequested, quitRequested := false, false, false;
    }

    /** The effect of a `LoadScenes(unload, load)` that was not dropped, up to
        its first `yield`. */
    twostate predicate BeganTransition(unload: seq<GameScene>, load: seq<GameScene>)
      reads this, sceneLoader
    {
      && isLoading
      && log == old(log) + [CurtainShow]
      && pending == TransitionSteps(unload, load)[1..]
      && planUnload == unload && planLoad == load && planStart == |old(log)|
      && origin == Members(sceneLoader.loaded)
    }

    /** Starts a switch unless one is running, in which case the request is
        dropped and nothing changes. */
    method LoadScenes(unload: seq<GameScene>, load: seq<GameScene>)
      requires Valid()
      modifies this`isLoading, this`pending, this`log, this`origin, this`planUnload, this`planLoad, this`planStart
      modifies screenCurtain
      ensures Valid()
      ensures old(isLoading) ==> unchanged(this) && unchanged(screenCurtain)
      ensures !old(isLoading) ==> BeganTransition(unload, load)
      ensures !old(isLoading) ==> screenCurtain.State() == BeginShow(old(screenCurtain.State()))
    {
      if isLoading {
        return;
      }
      isLoading := true;
      origin := Members(sceneLoader.loaded);
      planUnload, planLoad, planStart := unload, load, |log|;
      log := log + [CurtainShow];
      var steps := TransitionSteps(unload, load);
      FirstStepFacts(old(log), origin, steps);
      pending := steps[1..];
      screenCurtain.ShowCurtain();
    }

    /**
     * The step the coroutine waits for has completed (`at` is where the hash
     * set places a scene the next step loads). A finished curtain fade runs
     * its tail; then the next step is started, or, after the curtain hide,
     * `_isLoading` is cleared and the switch has reached its end state.
     */
    method Resume(at: nat)
      requires Valid() && isLoading
      modifies this`isLoading, this`pending, this`log, sceneLoader, screenCurtain
      ensures Valid()
      ensures var c := Completed(old(screenCurtain.State()), old(log[|log| - 1]));
        screenCurtain.State() == if old(pending) == [] then c else Started(c, old(pending[0]))
      ensures sceneLoader.State()
           == if old(pending) == [] then old(sceneLoader.State()) else LoaderAfter(old(sceneLoader.State()), old(pending[0]), at)
      ensures old(pending) != [] ==>
        isLoading && log == old(log) + [old(pending[0])] && pending == old(pending[1..])
      ensures old(pending) == [] ==>
        && !isLoading && log == old(log)
        && log[planStart..] == TransitionSteps(planUnload, planLoad)
        && Members(sceneLoader.loaded) == (origin - Members(planUnload)) + Members(planLoad)
    {
      FinishCurrentStep();
      if pending == [] {
        isLoading := false;
        assert log[planStart..] == TransitionSteps(planUnload, planLoad);
        TransitionOutcome(origin, planUnload, planLoad);
        return;
      }
      StartNextStep(at);
    }

    /** The tail of the step just completed: a curtain fade runs its end. */
    method FinishCurrentStep()
      requires |log| > 0
      modifies screenCurtain
      ensures screenCurtain.State() == Completed(old(screenCurtain.State()), log[|log| - 1])
    {
      var current := log[|log| - 1];
      if current.CurtainShow? {
        screenCurtain.EndFade(FadingIn);
      } else if current.CurtainHide? {
        screenCurtain.EndFade(FadingOut);
      }
    }

    /** Runs the coroutine up to its next `yield`: the next step is started. */
    method StartNextStep(at: nat)
      requires Valid() && isLoading && pending != []
      modifies this`pending, this`log, sceneLoader, screenCurtain
      ensures Valid() && isLoading
      ensures log == old(log) + [old(pending[0])] && pending == old(pending[1..])
      ensures screenCurtain.State() == Started(old(screenCurtain.State()), old(pending[0]))
      ensures sceneLoader.State() == LoaderAfter(old(sceneLoader.State()), old(pending[0]), at)
    {
      var next := pending[0];
      NextStepFacts(log, planStart, pending, TransitionSteps(planUnload, planLoad), origin);
      pending := pending[1..];
      log := log + [next];
      if next.SceneUnload? || next.SceneLoad? {
        StartSceneStep(next, at);
      } else {
        StartCurtainStep(next);
      }
    }

    /** A scene step: the loader commits the change and issues the engine
        call at once. */
    method StartSceneStep(next: TransitionStep, at: nat)
      requires sceneLoader.Valid() && (next.SceneUnload? || next.SceneLoad?)
      modifies sceneLoader
      ensures sceneLoader.Valid()
      ensures sceneLoader.State() == LoaderAfter(old(sceneLoader.State()), next, at)
      ensures Members(sceneLoader.loaded) == ApplyStep(old(Members(sceneLoader.loaded)), next)
    {
      if next.SceneUnload? {
        sceneLoader.Unload(next.scene);
      } else {
        sceneLoader.Load(next.scene, at);
      }
    }

    /** A curtain step: the fade starts. */
    method StartCurtainStep(next: TransitionStep)
      requires next.CurtainShow? || next.CurtainHide?
      modifies screenCurtain
      ensures screenCurtain.State() == Started(old(screenCurtain.State()), next)
    {
      if next.CurtainShow? {
        screenCurtain.ShowCurtain();
      } else {
        screenCurtain.HideCurtain();
      }
    }

    /** `LoadScenes(_gameplayScenes, _menuScenes)`. */
    method LoadMenuRoutine()
      requires Valid()
      modifies this`isLoading, this`pending, this`log, this`origin, this`planUnload, this`planLoad, this`planStart
      modifies screenCurtain
      ensures Valid()
      ensures old(isLoading) ==> unchanged(this) && unchanged(screenCurtain)
      ensures !old(isLoading) ==> BeganTransition(gameplayScenes, menuScenes)
      ensures !old(isLoading) ==> screenCurtain.State() == BeginShow(old(screenCurtain.State()))
    {
      LoadScenes(gameplayScenes, menuScenes);
    }

    /** `LoadScenes(_menuScenes, _gameplayScenes)`. */
    method LoadGameplayRoutine()
      requires Valid()
      modifies this`isLoading, this`pending, this`log, this`origin, this`planUnload, this`planLoad, this`planStart
      modifies screenCurtain
      ensures Valid()
      ensures old(isLoading) ==> unchanged(this) && unchanged(screenCurtain)
      ensures !old(isLoading) ==> BeganTransition(menuScenes, gameplayScenes)
      ensures !old(isLoading) ==> screenCurtain.State() == BeginShow(old(screenCurtain.State()))
    {
      LoadScenes(menuScenes, gameplayScenes);
    }

    /** The `LoadMenuMessage` handler: a request during a switch is dropped. */
    method OnLoadMenuRequested()
      requires Valid()
      modifies this`isLoading, this`pending, this`log, this`origin, this`planUnload, this`planLoad, this`planStart
      modifies screenCurtain
      ensures Valid()
      ensures old(isLoading) ==> unchanged(this) && unchanged(screenCurtain)
      ensures !old(isLoading) ==> BeganTransition(gameplayScenes, menuScenes)
      ensures !old(isLoading) ==> screenCurtain.State() == BeginShow(old(screenCurtain.State()))
    {
      if !isLoading {
        LoadMenuRoutine();
      }
    }

    /** The `LoadGameplayMessage` handler: a request during a switch is dropped. */
    method OnLoadGameplayRequested()
      requires Valid()
      modifies this`isLoading, this`pending, this`log, this`origin, this`planUnload, this`planLoad, this`planStart
      modifies screenCurtain
      ensures Valid()
      ensures old(isLoading) ==> unchanged(this) && unchanged(screenCurtain)
      ensures !old(isLoading) ==> BeganTransition(menuScenes, gameplayScenes)
      ensures !old(isLoading) ==> screenCurtain.State() == BeginShow(old(screenCurtain.State()))
    {
      if !isLoading {
        LoadGameplayRoutine();
      }
    }

    /** Starts the restart routine unless it already began. */
    method Restart()
      modifies this`isRestarting, this`restartShowing, screenCurtain
      ensures isRestarting
      ensures old(isRestarting) ==> restartShowing == old(restartShowing) && unchanged(screenCurtain)
      ensures !old(isRestarting) ==>
        restartShowing && screenCurtain.State() == BeginShow(old(screenCurtain.State()))
    {
      if isRestarting {
        return;
      }
      RestartRoutine();
    }

    /** `RestartRoutine` up to its `yield`: the flag is set before the curtain
        show starts. */
    method RestartRoutine()
      modifies this`isRestarting, this`restartShowing, screenCurtain
      ensures isRestarting && restartShowing
      ensures screenCurtain.State() == BeginShow(old(screenCurtain.State()))
    {
      isRestarting := true;
      screenCurtain.ShowCurtain();
      restartShowing := true;
    }

    /** The rest of `RestartRoutine` once its curtain show completed: the
        first scene of the build is reloaded. */
    method ResumeRestart()
      requires restartShowing
      modifies this`restartShowing, this`reloadRequested, screenCurtain
      ensures !restartShowing && reloadRequested
      ensures screenCurtain.State() == Ended(old(screenCurtain.State()), FadingIn)
      ensures screenCurtain.isCurtainShown && screenCurtain.canvasEnabled
    {
      screenCurtain.EndFade(FadingIn);
      reloadRequested := true;
      restartShowing := false;
    }

    /** Removes the quit listener, then exits. */
    method Quit()
      requires pubSub.Valid()
      modifies this`quitRequested, pubSub`parameterless
      ensures pubSub.Valid() && quitRequested
      ensures pubSub.parameterless == Unsubscribed(old(pubSub.parameterless), QuitApplicationMessage, QuitHandler)
    {
      pubSub.UnregisterListener(QuitApplicationMessage, QuitHandler);
      quitRequested := true;
    }

    /** The `QuitApplicationMessage` handler. */
    method OnQuitRequested()
      requires pubSub.Valid()
      modifies this`quitRequested, pubSub`parameterless
      ensures pubSub.Valid() && quitRequested
      ensures pubSub.parameterless == Unsubscribed(old(pubSub.parameterless), QuitApplicationMessage, QuitHandler)
    {
      Quit();
    }

    /** Registers the three listeners, shows the curtain at once and starts
        the menu switch. */
    method Start()
      requires Valid()
      modifies this`isLoading, this`pending, this`log, this`origin, this`planUnload, this`planLoad, this`planStart
      modifies screenCurtain, pubSub`parameterless
      ensures Valid()
      ensures pubSub.parameterless == Registered(old(pubSub.parameterless))
      ensures old(isLoading) ==> unchanged(this) && screenCurtain.State() == ShowImmediate(old(screenCurtain.State()))
      ensures !old(isLoading) ==> BeganTransition(gameplayScenes, menuScenes)
      ensures !old(isLoading) ==> screenCurtain.State() == BeginShow(ShowImmediate(old(screenCurtain.State())))
    {
      pubSub.RegisterListener(QuitApplicationMessage, QuitHandler);
      pubSub.RegisterListener(LoadMenuMessage, LoadMenuHandler);
      pubSub.RegisterListener(LoadGameplayMessage, LoadGameplayHandler);
      screenCurtain.ShowCurtainImmediate();
      LoadMenuRoutine();
    }

    /** Removes the three listeners `Start` registered. */
    method OnDestroy()
      requires pubSub.Valid()
      modifies pubSub`parameterless
      ensures pubSub.Valid()
      ensures pubSub.parameterless == Unregistered(old(pubSub.parameterless))
    {
      pubSub.UnregisterListener(QuitApplicationMessage, QuitHandler);
      pubSub.UnregisterListener(LoadMenuMessage, LoadMenuHandler);
      pubSub.UnregisterListener(LoadGameplayMessage, LoadGameplayHandler);
    }
  }
}
