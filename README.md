# Survival: scene switching, event bus and screen curtain

This project models the application core of the Unity game "Survival".

The core has five parts:

- **Scene loading.** A `SceneLoader` keeps a hash set of loaded `GameScene` descriptors and loads and unloads Unity scenes additively. After every real change it activates the scene its priority scan picks over `order`. That is the loaded scene of highest order when some order is at least 0, and the first scene in iteration order when all orders are negative. An emptied set makes no activation.
- **The event bus.** A `PubSubService` registers, removes and invokes parameterless and parameterized handlers per event type. It also lets coroutines wait until an event type is published.
- **The screen curtain.** An `AlphaScreenCurtain` covers the screen. It fades in and out, or shows and hides at once.
- **The application controller.** An `ApplicationController` switches between the menu scene group and the gameplay scene group behind the curtain. It listens for the quit, load-menu and load-gameplay messages, and it can restart or quit the application.
- **The gameplay state.** A `GameplayState` starts a network session, lifts the curtain once a game is found, and leaves the session at most once.

The Dafny modules follow the source files:

| module | file |
|---|---|
| `GameScenes` | `game_scene.dfy` |
| `SceneLoading` | `scene_loader.dfy` |
| `PubSub` | `pub_sub_service.dfy` |
| `ScreenCurtain` | `alpha_screen_curtain.dfy` |
| `ApplicationLifecycle` | `application_controller.dfy` |
| `GameplayStates` | `gameplay_state.dfy` |

`GameMessages` gives the three message types their tags. `Wrappers` holds `Option`.

Every part that changes state has two layers:

- **Pure transition functions**, with lemmas about them. Examples are `Perform`, `Subscribed`/`Unsubscribed`, `Armed`/`Signalled`, `BeginShow`/`Finish` and `Quit`.
- **A class** with the source's fields. Each method's `ensures` ties the new fields to the transition function applied to the old ones.

Some encodings:

- **The hash set** is a duplicate-free sequence in iteration order. `Load` receives the position at which the set places the new element: the end for an insertion-ordered set, earlier when a set reuses a free slot.
- **Engine calls** (`LoadSceneAsync`, `UnloadSceneAsync`, `SetActiveScene`) are recorded in a trace.
- **Delegates** are lists of handler ids.
- **`Publish`** returns the trace of the handler calls it makes.
- **Event counters** are 32-bit C# `int`s with unchecked wrap-around.
- **A coroutine** is a method that runs up to its first `yield`, plus a resume method for the frame on which the awaited step is complete. `ApplicationController.Resume` advances `LoadScenes` one step at a time.

Main results:

- **Last call wins.** After any sequence of loads and unloads, a scene is loaded exactly when the last call naming it was a load (`LastCallWins`).
- **Active-scene choice.**
  - If some loaded scene has `order >= 0`, the chosen scene has the highest order and is the last one of that order in iteration order (`ChosenIsLastOfHighest`).
  - If every order is negative, the first scene in iteration order is chosen (`ChosenWhenAllNegative`).
- **The tooltip rule** "on equal order the last loaded wins" holds when the set iterates in insertion order (`LastLoadedWinsWhenAppending`). A set that reuses a removed element's slot breaks it (`SlotReuseBreaksLastLoaded`).
- **Unregistering undoes registering.** Removing a handler right after registering it restores the handler table exactly (`UnsubscribeUndoesSubscribe`). `OnDestroy` after `Start` gives back the table `Start` found (`StartThenDestroyRestoresListeners`).
- **Waiter release.** A coroutine waiter is released exactly when the last counter operation on its type was a publish, provided the type was armed at some point (`ReleaseFollowsLastOperation`). A waiter armed after the publish keeps an earlier one waiting (`LateArmHoldsEarlierWaiter`). The 2^31-th arm without a publish wraps the counter and releases everyone (`CounterWrapReleasesWaiters`).
- **Fades.** An animated show ends exactly where an immediate show does, and an animated hide ends like an immediate hide (`AnimatedShowMatchesImmediate`, `AnimatedHideMatchesImmediate`).
- **Overlapping fades.** `StopFade` does not stop a fade that a caller's coroutine is awaiting. So when a second fade starts while a first is still awaited, the first fade's tail still runs in the middle of the second (`EarlierCallerFadeStillLands`). An earlier hide turns the canvas off during a show. Both fades last the same time, so the later call's tail runs last and decides the end state. Only when the earlier caller's coroutine is stopped does the later fade alone decide (`LatestFadeWins`).
- **Scene switches.** A switch runs curtain show, unloads, loads, curtain hide. It ends with the set `(before − unload) + load` (`TransitionOutcome`, `MenuSwitchOutcome`, `ApplicationController.Resume`). A request made during a switch is dropped.
- **Leaving the session.** `QuitGameplay` leaves and asks for the menu at most once, however often it is called (`QuitFiresAtMostOnce`).

Where the code and the documented behaviour differ, the model follows the code:

- **Empty set.** When the loaded set becomes empty, `UpdateActiveScene` returns early, so the loader does not change the active scene (SceneLoader.cs:34-35).
- **Highest order.** The priority scan starts its running maximum at 0, not at the first scene's order (SceneLoader.cs:51). When every order is negative, the active scene is therefore the first scene in iteration order, not the scene of highest order.

## Model

| member | source | states |
|---|---|---|
| GameScenes.GameScene.constructor | Survival/Assets/Survival/Code/Infrastructure/SceneManagement/GameScene.cs:10-17 | a descriptor holds its serialized scene name and order, and the `Order` and `SceneName` getters return them unchanged (order has no setter, so it is a constant) |
| GameScenes.GameScene.UpdateSceneName | Survival/Assets/Survival/Code/Infrastructure/SceneManagement/GameScene.cs:24-35 | the stored name becomes the asset's name (empty when no asset); the asset is marked dirty exactly when the name changed |
| GameScenes.UpdateSceneNameTwice | Survival/Assets/Survival/Code/Infrastructure/SceneManagement/GameScene.cs:29-30 | the name sync is idempotent: a second run neither writes nor marks dirty |
| SceneLoading.Added | Survival/Assets/Survival/Code/SceneManagement/SceneLoader.cs:16 | `HashSet.Add` of a new scene: the members grow by exactly that scene, duplicates stay excluded, and an insertion-ordered set appends it |
| SceneLoading.Removed | Survival/Assets/Survival/Code/SceneManagement/SceneLoader.cs:25 | `HashSet.Remove`: the members lose exactly that scene, and removing an absent scene changes nothing |
| SceneLoading.UnloadUndoesLoad | Survival/Assets/Survival/Code/SceneManagement/SceneLoader.cs:14-30 | unloading a scene right after loading it restores the set's exact iteration order, wherever the load placed it |
| SceneLoading.ScanIsSound | Survival/Assets/Survival/Code/SceneManagement/SceneLoader.cs:51-64 | the priority scan's maximum is the largest of 0 and all orders seen; its candidate is the last scene that reached it, or the first scene when none did |
| SceneLoading.ChosenIsLastOfHighest | Survival/Assets/Survival/Code/SceneManagement/SceneLoader.cs:51-64 | when some loaded scene has order >= 0, the chosen scene has the highest order and every later scene in iteration order has a lower one |
| SceneLoading.ChosenWhenAllNegative | Survival/Assets/Survival/Code/SceneManagement/SceneLoader.cs:51-52 | when every loaded order is negative, the first scene in iteration order is chosen |
| SceneLoading.ChosenIsLoaded | Survival/Assets/Survival/Code/SceneManagement/SceneLoader.cs:52-64 | the chosen scene is always one of the loaded scenes |
| SceneLoading.ActiveHasHighestOrder | Survival/Assets/Survival/Code/SceneManagement/SceneLoader.cs:32-47 | after an update on a non-empty set with some order >= 0, the active scene is a loaded scene of the highest order, and a repeated update issues no `SetActiveScene` |
| SceneLoading.Perform | Survival/Assets/Survival/Code/SceneManagement/SceneLoader.cs:14-47 | a redundant load or unload leaves the whole loader state alone; a real one changes the set, issues the engine load or unload, then recomputes the active scene on the new set |
| SceneLoading.LastCallWins | Survival/Assets/Survival/Code/SceneManagement/SceneLoader.cs:10-30 | after any sequence of calls a scene is loaded exactly when the last call naming it was a load; an unnamed scene keeps its initial membership |
| SceneLoading.ReplayKeepsDistinct | Survival/Assets/Survival/Code/SceneManagement/SceneLoader.cs:10 | no sequence of calls puts a scene into the set twice |
| SceneLoading.AppendingKeepsLoadOrder | Survival/Assets/Survival/Code/Infrastructure/SceneManagement/GameScene.cs:13 | with an insertion-ordered set, iteration order is the order in which the loaded scenes were added |
| SceneLoading.LastLoadedWinsWhenAppending | Survival/Assets/Survival/Code/Infrastructure/SceneManagement/GameScene.cs:13 | with an insertion-ordered set and some order >= 0, the highest order is activated, and among equal highest orders the scene loaded last wins |
| SceneLoading.SlotReuseBreaksLastLoaded | Survival/Assets/Survival/Code/Infrastructure/SceneManagement/GameScene.cs:13 | counterexample: load a, load b, unload a, load c into a's slot, all of order 0; b is activated although c was loaded last |
| SceneLoading.SceneLoader.constructor | Survival/Assets/Survival/Code/SceneManagement/SceneLoader.cs:10 | the loader starts with an empty set and has issued no engine call |
| SceneLoading.SceneLoader.IsLoaded | Survival/Assets/Survival/Code/SceneManagement/SceneLoader.cs:12 | a pure query: true exactly for members of the set |
| SceneLoading.SceneLoader.Load | Survival/Assets/Survival/Code/SceneManagement/SceneLoader.cs:14-21 | afterwards the scene is loaded and only its membership changed; an already loaded scene causes no engine call and no active-scene update; otherwise the loader state is `Perform` of a load |
| SceneLoading.SceneLoader.Unload | Survival/Assets/Survival/Code/SceneManagement/SceneLoader.cs:23-30 | afterwards the scene is not loaded and only its membership changed; an absent scene is a no-op; otherwise the loader state is `Perform` of an unload, and an emptied set keeps the active scene |
| SceneLoading.SceneLoader.UpdateActiveScene | Survival/Assets/Survival/Code/SceneManagement/SceneLoader.cs:32-39 | an empty set leaves the active scene and the engine alone; otherwise the chosen scene becomes active |
| SceneLoading.SceneLoader.ActivateScene | Survival/Assets/Survival/Code/SceneManagement/SceneLoader.cs:41-47 | the scene becomes active, and the engine is called only when it was not active already |
| SceneLoading.SceneLoader.GetSceneToActivate | Survival/Assets/Survival/Code/SceneManagement/SceneLoader.cs:49-68 | the loop returns the scan's choice: a loaded scene of highest order when some order >= 0, the first scene when all are negative |
| PubSub.Subscribed | Survival/Assets/Survival/Code/Infrastructure/PubSub/PubSubService.cs:38-69 | registration creates the entry on first use and otherwise appends the handler after the registered ones; every other event type is untouched |
| PubSub.LastIndexOf | Survival/Assets/Survival/Code/Infrastructure/PubSub/PubSubService.cs:142 | the position `Delegate.Remove` removes: the last occurrence of the handler, or none |
| PubSub.RemoveLast | Survival/Assets/Survival/Code/Infrastructure/PubSub/PubSubService.cs:122 | removing a handler takes away its last occurrence and keeps every other handler in order, and an absent handler changes nothing |
| PubSub.Unsubscribed | Survival/Assets/Survival/Code/Infrastructure/PubSub/PubSubService.cs:116-149 | unregistration removes one registration of the handler and drops an entry that became empty; an absent entry is a no-op; other types are untouched |
| PubSub.UnsubscribeUndoesSubscribe | Survival/Assets/Survival/Code/Infrastructure/PubSub/PubSubService.cs:38-129 | unregistering right after registering restores the table exactly, including the absence of an entry that registration created |
| PubSub.RegistrationsAccumulate | Survival/Assets/Survival/Code/Infrastructure/PubSub/PubSubService.cs:48 | duplicate registrations accumulate: registering twice and removing once leaves one more occurrence than before |
| PubSub.SubscribeCommutesWithUnsubscribe | Survival/Assets/Survival/Code/Infrastructure/PubSub/PubSubService.cs:116-129 | registration under one type and removal under another do not interfere |
| PubSub.Notify | Survival/Assets/Survival/Code/Infrastructure/PubSub/PubSubService.cs:162 | calling a multicast delegate calls each handler of its list in registration order with the same argument |
| PubSub.PublishCallsOncePerRegistration | Survival/Assets/Survival/Code/Infrastructure/PubSub/PubSubService.cs:156-169 | a publish calls each handler once per registration it holds for the type, counting both tables |
| PubSub.RegisterPublishUnregister | Survival/Assets/Survival/Code/Infrastructure/PubSub/PubSubService.cs:38-169 | a registered handler is called exactly once more per publish; after it is removed again the publish trace is as before |
| PubSub.Inc32 | Survival/Assets/Survival/Code/Infrastructure/PubSub/PubSubService.cs:105 | `++` on a C# int: plus one below the top, wrapping to the minimum at the top |
| PubSub.Armed | Survival/Assets/Survival/Code/Infrastructure/PubSub/PubSubService.cs:97-106 | arming a waiter creates the type's counter at 1 or increments it; other counters are untouched |
| PubSub.Signalled | Survival/Assets/Survival/Code/Infrastructure/PubSub/PubSubService.cs:175-183 | publishing a coroutine event sets an existing counter to 0 and leaves a never-armed type without a counter |
| PubSub.CounterKeys | Survival/Assets/Survival/Code/Infrastructure/PubSub/PubSubService.cs:97-183 | a type has a counter exactly when it had one at the start or was armed |
| PubSub.ReleaseFollowsLastOperation | Survival/Assets/Survival/Code/Infrastructure/PubSub/PubSubService.cs:97-191 | without overflow, a waiter is released exactly when the last operation on its type was a publish and the type has a counter; a waiter armed after a publish waits for the next |
| PubSub.ArmedWaiterWaits | Survival/Assets/Survival/Code/Infrastructure/PubSub/PubSubService.cs:97-108 | a freshly armed waiter is not released on its first check, unless the counter was at the top or negative after a wrap (both excluded by the requires) |
| PubSub.CounterWrapReleasesWaiters | Survival/Assets/Survival/Code/Infrastructure/PubSub/PubSubService.cs:105 | arming at counter `int.MaxValue` wraps it negative, which releases every waiter of the type without a publish |
| PubSub.LateArmHoldsEarlierWaiter | Survival/Assets/Survival/Code/Infrastructure/PubSub/PubSubService.cs:175-191 | a publish releases the waiters, but an arm before their next check overwrites the 0 and keeps them waiting |
| PubSub.PubSubService.constructor | Survival/Assets/Survival/Code/Infrastructure/PubSub/PubSubService.cs:15-18 | both handler tables and the counters start empty |
| PubSub.PubSubService.RegisterListener | Survival/Assets/Survival/Code/Infrastructure/PubSub/PubSubService.cs:38-50 | the parameterless table becomes `Subscribed` of the old one; the parameterized table and the counters are untouched |
| PubSub.PubSubService.RegisterParameterizedListener | Survival/Assets/Survival/Code/Infrastructure/PubSub/PubSubService.cs:57-69 | the parameterized table becomes `Subscribed` of the old one; the parameterless table and the counters are untouched |
| PubSub.PubSubService.RegisterCoroutineListener | Survival/Assets/Survival/Code/Infrastructure/PubSub/PubSubService.cs:97-109 | the counters become `Armed` of the old ones |
| PubSub.PubSubService.UnregisterListener | Survival/Assets/Survival/Code/Infrastructure/PubSub/PubSubService.cs:116-129 | the parameterless table becomes `Unsubscribed` of the old one, keeping no empty entry |
| PubSub.PubSubService.UnregisterParameterizedListener | Survival/Assets/Survival/Code/Infrastructure/PubSub/PubSubService.cs:136-149 | the parameterized table becomes `Unsubscribed` of the old one, keeping no empty entry |
| PubSub.PubSubService.Publish | Survival/Assets/Survival/Code/Infrastructure/PubSub/PubSubService.cs:156-169 | every parameterized handler of the type is called with the event, then every parameterless one, each list in registration order; with no handlers nothing is called |
| PubSub.PubSubService.PublishCoroutineEvent | Survival/Assets/Survival/Code/Infrastructure/PubSub/PubSubService.cs:175-183 | the counters become `Signalled` of the old ones |
| PubSub.PubSubService.WaitForEvent | Survival/Assets/Survival/Code/Infrastructure/PubSub/PubSubService.cs:185-191 | the polling loop exits exactly when the type has a counter and it is not positive |
| ScreenCurtain.Stopped | Survival/Assets/Survival/Code/Infrastructure/ScreenCurtain/AlphaScreenCurtain.cs:59-62 | stopping empties the curtain's fade slot and changes nothing else |
| ScreenCurtain.OnShown | Survival/Assets/Survival/Code/Infrastructure/ScreenCurtain/AlphaScreenCurtain.cs:64-69 | alpha 1, canvas enabled, curtain shown |
| ScreenCurtain.OnHidden | Survival/Assets/Survival/Code/Infrastructure/ScreenCurtain/AlphaScreenCurtain.cs:71-75 | canvas disabled and curtain not shown; the alpha is not touched |
| ScreenCurtain.ShowImmediate | Survival/Assets/Survival/Code/Infrastructure/ScreenCurtain/AlphaScreenCurtain.cs:37-41 | shown, canvas on, alpha 1 and the fade slot empty, whatever the state before; a fade a caller awaits is not stopped and its tail still runs (`AwaitedFadeOutlivesImmediate`) |
| ScreenCurtain.HideImmediate | Survival/Assets/Survival/Code/Infrastructure/ScreenCurtain/AlphaScreenCurtain.cs:53-57 | not shown, canvas off, the fade slot empty, alpha as it was; a fade a caller awaits is not stopped and its tail still runs (`AwaitedFadeOutlivesImmediate`) |
| ScreenCurtain.BeginShow | Survival/Assets/Survival/Code/Infrastructure/ScreenCurtain/AlphaScreenCurtain.cs:27-32 | the fade slot is emptied and then takes the fade-in, and the canvas is enabled; a fade a caller awaits is not stopped and its tail still runs (`EarlierCallerFadeStillLands`); the flag and alpha are not touched yet |
| ScreenCurtain.BeginHide | Survival/Assets/Survival/Code/Infrastructure/ScreenCurtain/AlphaScreenCurtain.cs:43-48 | the fade slot is emptied and then takes the fade-out, and the canvas stays enabled; a fade a caller awaits is not stopped and its tail still runs (`EarlierCallerFadeStillLands`) |
| ScreenCurtain.OneFrame | Survival/Assets/Survival/Code/Infrastructure/ScreenCurtain/AlphaScreenCurtain.cs:82-87 | a frame of the interpolation writes only the alpha |
| ScreenCurtain.Ended | Survival/Assets/Survival/Code/Infrastructure/ScreenCurtain/AlphaScreenCurtain.cs:32-50 | when an awaited fade ends, its own tail runs whatever fade the slot holds: a show ends shown with alpha 1 and the canvas on, a hide ends hidden with the canvas off and the alpha kept |
| ScreenCurtain.Finish | Survival/Assets/Survival/Code/Infrastructure/ScreenCurtain/AlphaScreenCurtain.cs:27-51 | the fade in the slot ending with no other tail in between: a fade-in ends in the shown state, a fade-out in the hidden state with the alpha it reached; no fade is left running |
| ScreenCurtain.FramesOnlyMoveAlpha | Survival/Assets/Survival/Code/Infrastructure/ScreenCurtain/AlphaScreenCurtain.cs:77-88 | the interpolation never changes `IsCurtainShown`, the canvas or the fade; the alpha ends at the last frame's value |
| ScreenCurtain.AnimatedShowMatchesImmediate | Survival/Assets/Survival/Code/Infrastructure/ScreenCurtain/AlphaScreenCurtain.cs:27-41 | with only the curtain's own fade running, the canvas is on throughout an animated show, which ends exactly in the immediate show's state |
| ScreenCurtain.AnimatedHideMatchesImmediate | Survival/Assets/Survival/Code/Infrastructure/ScreenCurtain/AlphaScreenCurtain.cs:43-57 | with only the curtain's own fade running, the canvas stays on while an animated hide fades; it ends hidden with the canvas off, like an immediate hide |
| ScreenCurtain.LatestFadeWins | Survival/Assets/Survival/Code/Infrastructure/ScreenCurtain/AlphaScreenCurtain.cs:27-51 | when only the later fade's tail runs (the earlier caller's coroutine was stopped), a show that interrupts a hide ends shown and a hide that interrupts a show ends hidden |
| ScreenCurtain.EarlierCallerFadeStillLands | Survival/Assets/Survival/Code/Infrastructure/ScreenCurtain/AlphaScreenCurtain.cs:27-62 | `StopFade` does not stop a fade a caller awaits: an earlier hide's tail turns the canvas off and clears the flag while a later show is still fading, and an earlier show's tail turns the canvas on during a later hide; the later tail then decides the end state |
| ScreenCurtain.AwaitedFadeOutlivesImmediate | Survival/Assets/Survival/Code/Infrastructure/ScreenCurtain/AlphaScreenCurtain.cs:27-62 | an immediate show or hide does not stop a fade a caller awaits: that fade's tail runs afterwards, so an immediate show during an awaited hide ends hidden with the canvas off, and an immediate hide during an awaited show ends shown |
| ScreenCurtain.AlphaScreenCurtain.constructor | Survival/Assets/Survival/Code/Infrastructure/ScreenCurtain/AlphaScreenCurtain.cs:9-14 | a new curtain is not shown, runs no fade, and holds the serialized canvas and alpha |
| ScreenCurtain.AlphaScreenCurtain.Awake | Survival/Assets/Survival/Code/Infrastructure/ScreenCurtain/AlphaScreenCurtain.cs:22-25 | after `Awake` the curtain is hidden with its canvas disabled |
| ScreenCurtain.AlphaScreenCurtain.ShowCurtain | Survival/Assets/Survival/Code/Infrastructure/ScreenCurtain/AlphaScreenCurtain.cs:27-35 | the state becomes `BeginShow` of the old one |
| ScreenCurtain.AlphaScreenCurtain.ShowCurtainImmediate | Survival/Assets/Survival/Code/Infrastructure/ScreenCurtain/AlphaScreenCurtain.cs:37-41 | the state becomes `ShowImmediate` of the old one |
| ScreenCurtain.AlphaScreenCurtain.HideCurtain | Survival/Assets/Survival/Code/Infrastructure/ScreenCurtain/AlphaScreenCurtain.cs:43-51 | the state becomes `BeginHide` of the old one |
| ScreenCurtain.AlphaScreenCurtain.HideCurtainImmediate | Survival/Assets/Survival/Code/Infrastructure/ScreenCurtain/AlphaScreenCurtain.cs:53-57 | the state becomes `HideImmediate` of the old one |
| ScreenCurtain.AlphaScreenCurtain.StopFade | Survival/Assets/Survival/Code/Infrastructure/ScreenCurtain/AlphaScreenCurtain.cs:59-62 | the state becomes `Stopped` of the old one |
| ScreenCurtain.AlphaScreenCurtain.OnCurtainShown | Survival/Assets/Survival/Code/Infrastructure/ScreenCurtain/AlphaScreenCurtain.cs:64-69 | the state becomes `OnShown` of the old one |
| ScreenCurtain.AlphaScreenCurtain.OnCurtainHidden | Survival/Assets/Survival/Code/Infrastructure/ScreenCurtain/AlphaScreenCurtain.cs:71-75 | the state becomes `OnHidden` of the old one |
| ScreenCurtain.AlphaScreenCurtain.LerpStep | Survival/Assets/Survival/Code/Infrastructure/ScreenCurtain/AlphaScreenCurtain.cs:84-86 | one frame of the fade: the state becomes `OneFrame` of the old one |
| ScreenCurtain.AlphaScreenCurtain.LerpAlpha | Survival/Assets/Survival/Code/Infrastructure/ScreenCurtain/AlphaScreenCurtain.cs:77-88 | the interpolation loop: the state becomes `Frames` of the old one over the supplied alphas |
| ScreenCurtain.AlphaScreenCurtain.EndFade | Survival/Assets/Survival/Code/Infrastructure/ScreenCurtain/AlphaScreenCurtain.cs:32-50 | the awaited fade's tail after its `yield`: the state becomes `Ended` of the old one |
| ApplicationLifecycle.Unloads | Survival/Assets/Survival/Code/ApplicationLyfecycle/ApplicationController.cs:82-83 | one unload step per scene, in array order |
| ApplicationLifecycle.Loads | Survival/Assets/Survival/Code/ApplicationLyfecycle/ApplicationController.cs:85-86 | one load step per scene, in array order |
| ApplicationLifecycle.TransitionSteps | Survival/Assets/Survival/Code/ApplicationLyfecycle/ApplicationController.cs:80-88 | a switch starts with the curtain show and ends with the curtain hide, and has one step per listed scene in between |
| ApplicationLifecycle.TransitionOrder | Survival/Assets/Survival/Code/ApplicationLyfecycle/ApplicationController.cs:80-88 | between the curtain steps come all unloads in array order, then all loads in array order |
| ApplicationLifecycle.UnloadsRemove | Survival/Assets/Survival/Code/ApplicationLyfecycle/ApplicationController.cs:82-83 | the unload steps remove exactly the listed scenes from the loaded set |
| ApplicationLifecycle.LoadsAdd | Survival/Assets/Survival/Code/ApplicationLyfecycle/ApplicationController.cs:85-86 | the load steps add exactly the listed scenes to the loaded set |
| ApplicationLifecycle.TransitionOutcome | Survival/Assets/Survival/Code/ApplicationLyfecycle/ApplicationController.cs:80-88 | a completed switch leaves `(before − unload) + load` loaded, so a scene in both lists ends up loaded |
| ApplicationLifecycle.MenuSwitchOutcome | Survival/Assets/Survival/Code/ApplicationLyfecycle/ApplicationController.cs:64-72 | after the menu switch every menu scene is loaded and no gameplay scene outside the menu list is; the gameplay switch is the mirror image; other scenes keep their state |
| ApplicationLifecycle.Registered | Survival/Assets/Survival/Code/ApplicationLyfecycle/ApplicationController.cs:46-48 | registering the three handlers keeps the table free of empty entries |
| ApplicationLifecycle.Unregistered | Survival/Assets/Survival/Code/ApplicationLyfecycle/ApplicationController.cs:59-61 | removing the three handlers keeps the table free of empty entries |
| ApplicationLifecycle.StartListensToMessages | Survival/Assets/Survival/Code/ApplicationLyfecycle/ApplicationController.cs:46-48 | after `Start` each of the three messages reaches its handler once more than before |
| ApplicationLifecycle.StartThenDestroyRestoresListeners | Survival/Assets/Survival/Code/ApplicationLyfecycle/ApplicationController.cs:44-62 | `OnDestroy` removes exactly what `Start` registered: the table is as it was before `Start` |
| ApplicationLifecycle.ApplicationController.constructor | Survival/Assets/Survival/Code/ApplicationLyfecycle/ApplicationController.cs:17-42 | the controller is neither loading nor restarting and is wired to its loader, curtain and bus |
| ApplicationLifecycle.ApplicationController.LoadScenes | Survival/Assets/Survival/Code/ApplicationLyfecycle/ApplicationController.cs:74-80 | a request made while loading is dropped with no state change; otherwise `_isLoading` is set, the curtain show starts, and the remaining steps are the fixed step order |
| ApplicationLifecycle.ApplicationController.Resume | Survival/Assets/Survival/Code/ApplicationLyfecycle/ApplicationController.cs:80-90 | each resume completes the awaited step and starts the next one on the loader or curtain; after the curtain hide `_isLoading` is cleared, the steps taken are exactly the fixed order, and the loaded set is `(before − unload) + load` |
| ApplicationLifecycle.ApplicationController.FinishCurrentStep | Survival/Assets/Survival/Code/ApplicationLyfecycle/ApplicationController.cs:80-88 | a completed curtain step runs the tail of the fade it awaited (`OnCurtainShown` or `OnCurtainHidden`); a scene step leaves the curtain alone |
| ApplicationLifecycle.ApplicationController.StartNextStep | Survival/Assets/Survival/Code/ApplicationLyfecycle/ApplicationController.cs:80-88 | the next step in the fixed order is started and logged, keeping the invariant that the loaded set is what the logged steps made of the initial one |
| ApplicationLifecycle.ApplicationController.StartSceneStep | Survival/Assets/Survival/Code/ApplicationLyfecycle/ApplicationController.cs:82-86 | a scene step is a loader `Unload` or `Load`, and changes the loaded set exactly as the step says |
| ApplicationLifecycle.ApplicationController.StartCurtainStep | Survival/Assets/Survival/Code/ApplicationLyfecycle/ApplicationController.cs:80-88 | a curtain step starts the show or the hide fade |
| ApplicationLifecycle.ApplicationController.LoadMenuRoutine | Survival/Assets/Survival/Code/ApplicationLyfecycle/ApplicationController.cs:64-67 | a switch that unloads the gameplay scenes and loads the menu scenes |
| ApplicationLifecycle.ApplicationController.LoadGameplayRoutine | Survival/Assets/Survival/Code/ApplicationLyfecycle/ApplicationController.cs:69-72 | a switch that unloads the menu scenes and loads the gameplay scenes |
| ApplicationLifecycle.ApplicationController.OnLoadMenuRequested | Survival/Assets/Survival/Code/ApplicationLyfecycle/ApplicationController.cs:120-124 | dropped during a switch; otherwise it starts the menu switch |
| ApplicationLifecycle.ApplicationController.OnLoadGameplayRequested | Survival/Assets/Survival/Code/ApplicationLyfecycle/ApplicationController.cs:126-130 | dropped during a switch; otherwise it starts the gameplay switch |
| ApplicationLifecycle.ApplicationController.Restart | Survival/Assets/Survival/Code/ApplicationLyfecycle/ApplicationController.cs:93-99 | a no-op once a restart has begun; otherwise the restart routine starts |
| ApplicationLifecycle.ApplicationController.RestartRoutine | Survival/Assets/Survival/Code/ApplicationLyfecycle/ApplicationController.cs:113-116 | `_isRestarting` is set before the curtain show starts |
| ApplicationLifecycle.ApplicationController.ResumeRestart | Survival/Assets/Survival/Code/ApplicationLyfecycle/ApplicationController.cs:116-117 | once the awaited show has completed, its tail shows the curtain and the first scene of the build is reloaded |
| ApplicationLifecycle.ApplicationController.Quit | Survival/Assets/Survival/Code/ApplicationLyfecycle/ApplicationController.cs:102-111 | the quit listener is removed, then the application is asked to exit |
| ApplicationLifecycle.ApplicationController.OnQuitRequested | Survival/Assets/Survival/Code/ApplicationLyfecycle/ApplicationController.cs:132-135 | the quit message handler does what `Quit` does |
| ApplicationLifecycle.ApplicationController.Start | Survival/Assets/Survival/Code/ApplicationLyfecycle/ApplicationController.cs:44-53 | the three listeners are registered, the curtain is shown immediately, then the menu switch begins from that shown curtain |
| ApplicationLifecycle.ApplicationController.OnDestroy | Survival/Assets/Survival/Code/ApplicationLyfecycle/ApplicationController.cs:55-62 | the three listeners are removed |
| GameplayStates.Quit | Survival/Assets/Survival/Code/Gameplay/States/GameplayState.cs:43-52 | a no-op before initialization or after leaving; otherwise it leaves the session, then publishes one `LoadMenuMessage`, and then counts as left |
| GameplayStates.QuitFiresAtMostOnce | Survival/Assets/Survival/Code/Gameplay/States/GameplayState.cs:43-52 | any number of calls leaves the session and asks for the menu at most once, and only after initialization |
| GameplayStates.QuitIsNoOpAfterLeaving | Survival/Assets/Survival/Code/Gameplay/States/GameplayState.cs:45-46 | once left, further calls change nothing and call nothing |
| GameplayStates.GameplayState.constructor | Survival/Assets/Survival/Code/Gameplay/States/GameplayState.cs:17-36 | the state starts neither initialized nor left, with no external calls yet |
| GameplayStates.GameplayState.QuitGameplay | Survival/Assets/Survival/Code/Gameplay/States/GameplayState.cs:43-52 | the flags and the effects are those `Quit` gives for the old flags |
| GameplayStates.GameplayState.StartGame | Survival/Assets/Survival/Code/Gameplay/States/GameplayState.cs:54-64 | a found game starts the curtain hide; a failure publishes `LoadMenuMessage` and leaves the curtain alone; neither sets `_isInitialized` |
| GameplayStates.GameplayState.OnGameFoundRoutine | Survival/Assets/Survival/Code/Gameplay/States/GameplayState.cs:66-68 | the curtain hide starts, and the state is not initialized yet |
| GameplayStates.GameplayState.ResumeGameFound | Survival/Assets/Survival/Code/Gameplay/States/GameplayState.cs:68-69 | only once the awaited hide completed does the state become initialized, and its tail has hidden the curtain |

## Left out

- SceneLoading.SceneLoader.Unload: the engine's own change of the active scene is not modelled. When the active scene is unloaded, Unity activates another loaded scene itself, possibly one no descriptor names. The loader's `active` is the scene the loader last activated. After unloading the active scene, a later `ActivateScene` compares against that stale value, so the recorded `SetActiveScene` calls can differ from the ones the engine check at SceneLoader.cs:43-44 makes.
- **Unity scene API.** `SceneManager.LoadSceneAsync`, `UnloadSceneAsync` and `SetActiveScene` are recorded as engine calls, and the `GetActiveScene` check is made against a field of the loader holding the scene the loader last activated. `GetSceneByName` is left out: the model identifies a scene with its descriptor, so two descriptors with the same name are two scenes.
- **Await inside load and unload.** In the source, the `yield` between the membership change and `UpdateActiveScene` (SceneLoader.cs:19, 28) lets other coroutines run in between. The model makes `Load` and `Unload` atomic.
- **Hash-set iteration order** is not computed. `Load` receives the position at which the set places a new element.
- **Coroutine scheduling.** `StartCoroutine` is not modelled. Each coroutine runs up to its first `yield`, and an explicit resume method stands for the frame on which the awaited step is complete. Interleavings with other coroutines are not explored beyond what the resume methods allow.
- **Curtain numerics.** The interpolation's arithmetic is not modelled: `Mathf.Lerp`, `AnimationCurve.Evaluate`, `Time.deltaTime`, the duration and `float`. Each frame writes an alpha value that the caller supplies.
- ScreenCurtain.AlphaScreenCurtain.StopFade: `StopAllCoroutines` stops only the coroutines the curtain itself started, and every fade is run by a caller through `yield return`. So in the source it stops no fade. The model keeps a fade slot that records the kind of the fade started last, and `StopFade` empties it. Each awaited fade still runs its own tail when its caller's wait ends (`Ended`).
- ScreenCurtain.OneFrame: only the fade in the slot writes the alpha. When two fades overlap in the source, both interpolations write the alpha every frame; the model keeps only the later one's writes. When a fade ends, the slot is emptied if it holds a fade of the same kind, even if that is a later fade of that kind still running.
- **Handler code.** Delegates are handler ids, reflection `Type`s are numeric tags, and `Publish` returns the trace of calls it makes. Handlers that register or unregister while `Publish` is running, and exceptions thrown by handlers, are not modelled.
- PubSub.PubSubService.RegisterCoroutineListener: the returned `Coroutine` is not modelled. A waiter is the polling condition `WaitForEvent`.
- **Editor-only code.** `OnValidate`, the `#if UNITY_EDITOR` branches, `EditorApplication.isPlaying`, `ContextMenu` and `EditorUtility.SetDirty` are reduced to what they change. The dirty mark is a counter and the asset reference is an optional name.
- **Application exit.** `Application.Quit` and `SceneManager.LoadScene(0)` are flags on the controller.
- GameplayStates.GameplayState.QuitGameplay: the publish of `LoadMenuMessage` (also in `StartGame`) is a recorded effect. It is not a call of `PubSubService.Publish`, so the immediate dispatch to the controller's `OnLoadMenuRequested` is not connected in the model.
- **Network calls.** The network manager's `StartGame` result is a parameter of `GameplayState.StartGame`, and `Leave` is a recorded effect.
- **Dependency injection.** VContainer's `Configure` and `Construct` are replaced by constructor parameters.
- **Message declarations.** The declarations of the message structs (`QuitApplicationMessage`, `LoadMenuMessage`, `LoadGameplayMessage`) are not part of this model. Each is a distinct tag.
- **Other source files.** `BasicSpawner` (network SDK callbacks), `Player`, `Joystick`, `GameplayCamera`, `InputActions` and `MenuState` are not part of this model.
