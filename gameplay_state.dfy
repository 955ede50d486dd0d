/**
 * The gameplay scene's root `GameplayState`: it starts a network session,
 * lifts the curtain once a game is found, and leaves the session at most
 * once. The session start, `Leave` and the publish of `LoadMenuMessage` are
 * external; the model records them in order as effects.
 */
module GameplayStates {
  import opened PubSub
  import opened ScreenCurtain
  import opened GameMessages

  /** What the state asks of the outside world. */
  datatype Effect = LeaveSession | Published(tag: TypeTag)

  /** The guard flags of `QuitGameplay`. */
  datatype Flags = Flags(isInitialized: bool, left: bool)

  /** One `QuitGameplay` call: before initialization or after leaving it
      does nothing; otherwise it leaves the session, then asks for the menu,
      and remembers that it left. */
  function Quit(f: Flags): (r: (Flags, seq<Effect>))
    ensures r.0.isInitialized == f.isInitialized
    ensures (!f.isInitialized || f.left) ==> r == (f, [])
    ensures (f.isInitialized && !f.left) ==>
      r.0.left && r.1 == [LeaveSession, Published(LoadMenuMessage)]
  {
    if !f.isInitialized || f.left then (f, [])
    else (f.(left := true), [LeaveSession, Published(LoadMenuMessage)])
  }

  /** `n` calls of `QuitGameplay` in a row, with their effects in order. */
  function QuitTimes(f: Flags, n: nat): (Flags, seq<Effect>)
    decreases n
  {
    if n == 0 then (f, [])
    else
      var (g, first) := Quit(f);
      var (h, rest) := QuitTimes(g, n - 1);
      (h, first + rest)
  }

  /** However often it is called, `QuitGameplay` leaves the session and asks
      for the menu at most once, and only when called after initialization
      and before any earlier exit. */
  lemma {:induction false} QuitFiresAtMostOnce(f: Flags, n: nat)
    ensures QuitTimes(f, n).0 == f.(left := f.left || (f.isInitialized && n > 0))
    ensures QuitTimes(f, n).1
         == if n > 0 && f.isInitialized && !f.left then [LeaveSession, Published(LoadMenuMessage)] else []
    decreases n
  {
    if n > 0 {
      var g := Quit(f).0;
      QuitFiresAtMostOnce(g, n - 1);
      if f.isInitialized && !f.left {
        QuitIsNoOpAfterLeaving(g, n - 1);
      }
    }
  }

  /** Once the state has left, further calls change nothing. */
  lemma {:induction false} QuitIsNoOpAfterLeaving(f: Flags, n: nat)
    requires f.left
    ensures QuitTimes(f, n) == (f, [])
    decreases n
  {
    if n > 0 {
      assert Quit(f) == (f, []);
      QuitIsNoOpAfterLeaving(f, n - 1);
      var r := QuitTimes(f, n - 1);
      assert r.0 == f;
      assert r.1 == [];
      assert QuitTimes(f, n) == (r.0, [] + r.1);
      assert [] + r.1 == r.1;
    }
  }

  class GameplayState {
    const curtain: AlphaScreenCurtain
    /** `_left`. */
    var left: bool
    /** `_isInitialized`. */
    var isInitialized: bool
    /** `OnGameFoundRoutine` is waiting for the curtain hide. */
    var gameFoundWaiting: bool
    /** Every external call made, in order. */
    var effects: seq<Effect>

    constructor (curtain: AlphaScreenCurtain)
      ensures this.curtain == curtain
      ensures !left && !isInitialized && !gameFoundWaiting && effects == []
    {
      this.curtain := curtain;
      left, isInitialized, gameFoundWaiting, effects := false, false, false, [];
    }

    method QuitGameplay()
      modifies this`left, this`effects
      ensures Flags(isInitialized, left) == Quit(old(Flags(isInitialized, left))).0
      ensures effects == old(effects) + Quit(old(Flags(isInitialized, left))).1
    {
      if !isInitialized || left {
        return;
      }
      effects := effects + [LeaveSession];
      effects := effects + [Published(LoadMenuMessage)];
      left := true;
    }

    /** `StartGame` once the session start has answered: a found game starts
        `OnGameFoundRoutine` (the curtain hide), a failure asks for the menu and
        leaves the state uninitialized. */
    method StartGame(sessionStarted: bool)
      modifies this`gameFoundWaiting, this`effects, curtain
      ensures isInitialized == old(isInitialized) && left == old(left)
      ensures sessionStarted ==>
        && gameFoundWaiting && effects == old(effects)
        && curtain.State() == BeginHide(old(curtain.State()))
      ensures !sessionStarted ==>
        && gameFoundWaiting == old(gameFoundWaiting)
        && effects == old(effects) + [Published(LoadMenuMessage)]
        && unchanged(curtain)
    {
      if sessionStarted {
        OnGameFoundRoutine();
      } else {
        effects := effects + [Published(LoadMenuMessage)];
      }
    }

    /** `OnGameFoundRoutine` up to its `yield`: the curtain hide starts. */
    method OnGameFoundRoutine()
      modifies this`gameFoundWaiting, curtain
      ensures gameFoundWaiting
      ensures curtain.State() == BeginHide(old(curtain.State()))
    {
      curtain.HideCurtain();
      gameFoundWaiting := true;
    }

    /** The rest of `OnGameFoundRoutine` once the hide completed: its tail
        hides the curtain, and only then does the state count as initialized. */
    method ResumeGameFound()
      requires gameFoundWaiting
      modifies this`gameFoundWaiting, this`isInitialized, curtain
      ensures isInitialized && !gameFoundWaiting
      ensures curtain.State() == Ended(old(curtain.State()), FadingOut)
      ensures !curtain.isCurtainShown && !curtain.canvasEnabled
    {
      curtain.EndFade(FadingOut);
      isInitialized := true;
      gameFoundWaiting := false;
    }
  }
}
