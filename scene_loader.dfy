/**
 * The scene set manager `SceneLoader`: a hash set of loaded scene
 * descriptors, additive load and unload that are idempotent on that set, and
 * the priority scan that picks the active scene after every real change.
 *
 * The hash set is a duplicate-free sequence in its iteration order. Where a
 * newly added scene lands in that order is the set's business, not the
 * loader's: a set that reuses the slot of a removed element puts the new
 * element ahead of older ones. `Load` therefore takes that position as a
 * parameter, and "insertion-ordered iteration" is the special case in which
 * every new scene is appended.
 */
module SceneLoading {
  import opened Wrappers
  import opened GameScenes

  // ---------------------------------------------------------------------------
  // The loaded-scene set in iteration order

  /** No scene occurs twice. */
  predicate Distinct(s: seq<GameScene>)
  {
    forall i, j :: 0 <= i < j < |s| ==> s[i] != s[j]
  }

  /** The scenes of `s`, forgetting the order. */
  function Members(s: seq<GameScene>): set<GameScene>
  {
    set x | x in s
  }

  /** `HashSet.Add` of a scene that is not yet present: the scene is placed at
      position `at`, or at the end when `at` is past it; nothing else moves. */
  function Added(s: seq<GameScene>, x: GameScene, at: nat): (r: seq<GameScene>)
    ensures |r| == |s| + 1
    ensures Members(r) == Members(s) + {x}
    ensures at >= |s| ==> r == s + [x]
    ensures Distinct(s) && x !in s ==> Distinct(r)
  {
    var k := if at < |s| then at else |s|;
    assert s == s[..k] + s[k..];
    s[..k] + [x] + s[k..]
  }

  /** `HashSet.Remove`: the scene leaves, every other scene keeps its place. */
  function Removed(s: seq<GameScene>, x: GameScene): (r: seq<GameScene>)
    ensures Members(r) == Members(s) - {x}
    ensures x !in s ==> r == s
    ensures Distinct(s) ==> Distinct(r)
    ensures |r| <= |s|
  {
    if s == [] then []
    else
      var rest := Removed(s[1..], x);
      assert s == [s[0]] + s[1..];
      assert Distinct(s) ==> Distinct(s[1..]) && s[0] !in s[1..] by {
        if Distinct(s) {
          forall i, j | 0 <= i < j < |s[1..]| ensures s[1..][i] != s[1..][j] {
            assert s[1..][i] == s[i + 1] && s[1..][j] == s[j + 1];
          }
        }
      }
      assert s[0] !in s[1..] ==> s[0] !in rest by {
        assert s[0] in rest ==> s[0] in Members(rest);
      }
      assert Members(s) == {s[0]} + Members(s[1..]);
      assert Members([s[0]] + rest) == {s[0]} + Members(rest);
      if s[0] == x then rest else [s[0]] + rest
  }

  lemma {:induction false} RemovedOverConcat(a: seq<GameScene>, b: seq<GameScene>, x: GameScene)
    ensures Removed(a + b, x) == Removed(a, x) + Removed(b, x)
  {
    if a == [] {
      assert a + b == b;
    } else {
      assert (a + b)[0] == a[0] && (a + b)[1..] == a[1..] + b;
      RemovedOverConcat(a[1..], b, x);
    }
  }

  /** Unloading a scene right after loading it gives back the very same
      iteration order, wherever the set had put it. */
  lemma {:induction false} UnloadUndoesLoad(s: seq<GameScene>, x: GameScene, at: nat)
    requires x !in s
    ensures Removed(Added(s, x, at), x) == s
  {
    var k := if at < |s| then at else |s|;
    assert s[..k] + [x] + s[k..] == s[..k] + ([x] + s[k..]);
    assert x !in s[..k] && x !in s[k..] by {
      assert s == s[..k] + s[k..];
    }
    RemovedOverConcat(s[..k], [x] + s[k..], x);
    RemovedOverConcat([x], s[k..], x);
    assert s[..k] + s[k..] == s;
  }

  // ---------------------------------------------------------------------------
  // The priority scan of GetSceneToActivate

  /** The state of the scan after visiting `s` from left to right: the running
      maximum, which starts at 0 rather than at the first scene's order, and
      the candidate, which starts at `first`. A scene whose order equals the
      running maximum replaces the candidate; one with a larger order also
      raises the maximum. */
  function Scan(s: seq<GameScene>, first: GameScene): (int, GameScene)
  {
    if s == [] then (0, first)
    else
      var prev := Scan(s[..|s| - 1], first);
      var x := s[|s| - 1];
      if x.order == prev.0 then (prev.0, x)
      else if x.order > prev.0 then (x.order, x)
      else prev
  }

  /** What the scan knows after visiting `s` with maximum `m` and candidate `c`:
      `m` is the largest of 0 and every order seen; if some scene reached `m`,
      the candidate is the last such scene and every later one is lower;
      otherwise the candidate is still `first`. */
  ghost predicate ScanFacts(s: seq<GameScene>, m: int, c: GameScene, first: GameScene)
  {
    && m >= 0
    && (forall i :: 0 <= i < |s| ==> s[i].order <= m)
    && (m > 0 ==> exists i :: 0 <= i < |s| && s[i].order == m)
    && ((forall i :: 0 <= i < |s| ==> s[i].order != m) ==> c == first)
    && ((exists i :: 0 <= i < |s| && s[i].order == m) ==>
          exists k :: 0 <= k < |s| && s[k] == c && s[k].order == m &&
            forall j :: k < j < |s| ==> s[j].order < m)
  }

  lemma ScanFactsStep(s: seq<GameScene>, m: int, c: GameScene, first: GameScene, x: GameScene)
    requires ScanFacts(s, m, c, first)
    ensures var m', c' := if x.order == m then m else if x.order > m then x.order else m,
                          if x.order == m then x else if x.order > m then x else c;
            ScanFacts(s + [x], m', c', first)
  {
    var t := s + [x];
    assert forall i :: 0 <= i < |s| ==> t[i] == s[i];
    if x.order == m || x.order > m {
      var m' := if x.order > m then x.order else m;
      assert t[|s|] == x && x.order == m';
    } else {
      if exists i :: 0 <= i < |t| && t[i].order == m {
        var i :| 0 <= i < |t| && t[i].order == m;
        assert i < |s|;
        assert exists i :: 0 <= i < |s| && s[i].order == m;
        var k :| 0 <= k < |s| && s[k] == c && s[k].order == m &&
          forall j :: k < j < |s| ==> s[j].order < m;
        assert t[k] == c && forall j :: k < j < |t| ==> t[j].order < m;
      }
    }
  }

  lemma {:induction false} ScanIsSound(s: seq<GameScene>, first: GameScene)
    ensures ScanFacts(s, Scan(s, first).0, Scan(s, first).1, first)
  {
    if s != [] {
      var p := s[..|s| - 1];
      ScanIsSound(p, first);
      ScanFactsStep(p, Scan(p, first).0, Scan(p, first).1, first, s[|s| - 1]);
      assert p + [s[|s| - 1]] == s;
    }
  }

  /** The descriptor `GetSceneToActivate` returns for a non-empty set. */
  function Chosen(s: seq<GameScene>): GameScene
    requires |s| > 0
  {
    Scan(s, s[0]).1
  }

  /** Some loaded scene has an order of at least 0, the case in which the
      scan's initial maximum of 0 does not matter. */
  predicate SomeNonNegative(s: seq<GameScene>)
  {
    exists i :: 0 <= i < |s| && s[i].order >= 0
  }

  /** When some scene has order >= 0, the chosen scene has the highest order,
      and every scene after it in iteration order has a lower one: among
      scenes of equal highest order, the last one in iteration order wins. */
  lemma ChosenIsLastOfHighest(s: seq<GameScene>)
    requires |s| > 0 && SomeNonNegative(s)
    ensures forall i :: 0 <= i < |s| ==> s[i].order <= Chosen(s).order
    ensures exists k :: 0 <= k < |s| && s[k] == Chosen(s) &&
              forall j :: k < j < |s| ==> s[j].order < Chosen(s).order
  {
    ScanIsSound(s, s[0]);
    var m := Scan(s, s[0]).0;
    var i :| 0 <= i < |s| && s[i].order >= 0;
    assert s[i].order == m || m > 0;
    var k :| 0 <= k < |s| && s[k] == Chosen(s) && s[k].order == m &&
      forall j :: k < j < |s| ==> s[j].order < m;
  }

  /** When every loaded scene has a negative order none of them reaches the
      initial maximum 0, and the first scene in iteration order is chosen,
      whatever the orders are. */
  lemma ChosenWhenAllNegative(s: seq<GameScene>)
    requires |s| > 0
    requires forall i :: 0 <= i < |s| ==> s[i].order < 0
    ensures Chosen(s) == s[0]
  {
    ScanIsSound(s, s[0]);
  }

  /** Whatever the orders, the chosen scene is one of the loaded scenes. */
  lemma ChosenIsLoaded(s: seq<GameScene>)
    requires |s| > 0
    ensures Chosen(s) in s
  {
    if SomeNonNegative(s) {
      ChosenIsLastOfHighest(s);
    } else {
      ChosenWhenAllNegative(s);
    }
  }

  // ---------------------------------------------------------------------------
  // Active-scene update

  /** The active scene as the loader knows it after `UpdateActiveScene`: left
      as it was when the set is empty (the loader makes no call), otherwise
      the chosen scene. `None` stands for an active scene that no descriptor
      names, such as the bootstrap scene. */
  function NextActive(s: seq<GameScene>, active: Option<GameScene>): Option<GameScene>
  {
    if |s| == 0 then active else Some(Chosen(s))
  }

  /** The engine calls issued by the loader. */
  datatype EngineCall =
    | LoadSceneAsync(scene: GameScene)
    | UnloadSceneAsync(scene: GameScene)
    | SetActiveScene(scene: GameScene)

  /** The calls `UpdateActiveScene` issues: none for an empty set, none when the
      chosen scene is already active, one `SetActiveScene` otherwise. */
  function ActivationCalls(s: seq<GameScene>, active: Option<GameScene>): seq<EngineCall>
  {
    if |s| == 0 || active == Some(Chosen(s)) then [] else [SetActiveScene(Chosen(s))]
  }

  /** After a change that leaves the set non-empty and some order >= 0, the
      active scene is a loaded scene of the highest order; a repeated update
      would set nothing. */
  lemma ActiveHasHighestOrder(s: seq<GameScene>, active: Option<GameScene>)
    requires |s| > 0 && SomeNonNegative(s)
    ensures NextActive(s, active).Some? && NextActive(s, active).value in s
    ensures forall i :: 0 <= i < |s| ==> s[i].order <= NextActive(s, active).value.order
    ensures ActivationCalls(s, NextActive(s, active)) == []
  {
    ChosenIsLastOfHighest(s);
    ChosenIsLoaded(s);
  }

  // ---------------------------------------------------------------------------
  // Sequences of Load and Unload calls

  datatype SceneCall = LoadCall(scene: GameScene, at: nat) | UnloadCall(scene: GameScene)

  /** The loaded set after one call; a redundant call changes nothing. */
  function Step(s: seq<GameScene>, call: SceneCall): seq<GameScene>
  {
    match call
    case LoadCall(x, at) => if x in s then s else Added(s, x, at)
    case UnloadCall(x) => Removed(s, x)
  }

  /** The loaded set after a whole sequence of calls, starting from `s`. */
  function Replay(s: seq<GameScene>, calls: seq<SceneCall>): seq<GameScene>
  {
    if calls == [] then s
    else Step(Replay(s, calls[..|calls| - 1]), calls[|calls| - 1])
  }

  /** Everything the loader holds: the set, the scene the loader last
      activated and the engine calls issued so far. */
  datatype LoaderState = LoaderState(loaded: seq<GameScene>, active: Option<GameScene>, engineCalls: seq<EngineCall>)

  /** The loader after one call. A redundant call (loading a loaded scene,
      unloading one that is not loaded) changes nothing and calls nothing;
      otherwise the set changes, the engine is asked to load or unload the
      scene, and the active scene is recomputed on the new set. */
  function Perform(st: LoaderState, call: SceneCall): (r: LoaderState)
    ensures r.loaded == Step(st.loaded, call)
    ensures (call.scene in st.loaded) == call.LoadCall? ==> r == st
    ensures (call.scene in st.loaded) != call.LoadCall? ==>
      && r.active == NextActive(r.loaded, st.active)
      && |r.engineCalls| > |st.engineCalls|
      && r.engineCalls[|st.engineCalls|]
         == (if call.LoadCall? then LoadSceneAsync(call.scene) else UnloadSceneAsync(call.scene))
  {
    if (call.scene in st.loaded) == call.LoadCall? then st
    else
      var loaded := Step(st.loaded, call);
      var issued := if call.LoadCall? then LoadSceneAsync(call.scene) else UnloadSceneAsync(call.scene);
      LoaderState(loaded, NextActive(loaded, st.active), st.engineCalls + [issued] + ActivationCalls(loaded, st.active))
  }

  /** The last call in `calls` that names `x`, if any. */
  function LastCallNaming(calls: seq<SceneCall>, x: GameScene): Option<SceneCall>
  {
    if calls == [] then None
    else if calls[|calls| - 1].scene == x then Some(calls[|calls| - 1])
    else LastCallNaming(calls[..|calls| - 1], x)
  }

  /** After any sequence of calls a scene is loaded exactly when the last call
      naming it was a `Load`; a scene no call names keeps its initial state. */
  lemma {:induction false} LastCallWins(s: seq<GameScene>, calls: seq<SceneCall>, x: GameScene)
    ensures x in Replay(s, calls) <==>
      match LastCallNaming(calls, x)
      case None => x in s
      case Some(call) => call.LoadCall?
  {
    if calls != [] {
      LastCallWins(s, calls[..|calls| - 1], x);
      var p := Replay(s, calls[..|calls| - 1]);
      assert x in Members(Step(p, calls[|calls| - 1])) <==> x in Step(p, calls[|calls| - 1]);
      assert x in Members(p) <==> x in p;
    }
  }

  lemma {:induction false} ReplayKeepsDistinct(s: seq<GameScene>, calls: seq<SceneCall>)
    requires Distinct(s)
    ensures Distinct(Replay(s, calls))
  {
    if calls != [] {
      ReplayKeepsDistinct(s, calls[..|calls| - 1]);
    }
  }

  /** Every load that adds a scene appends it: the iteration order an
      insertion-ordered set would have. */
  predicate AppendsOnly(s: seq<GameScene>, calls: seq<SceneCall>)
  {
    calls == [] ||
    (AppendsOnly(s, calls[..|calls| - 1]) &&
      match calls[|calls| - 1]
      case LoadCall(x, at) =>
        var p := Replay(s, calls[..|calls| - 1]);
        x in p || at >= |p|
      case UnloadCall(_) => true)
  }

  /** For each scene loaded after `calls` (starting from an empty set), the
      index of the call that added it. */
  function AddTimes(calls: seq<SceneCall>): map<GameScene, nat>
  {
    if calls == [] then map[]
    else
      var p := calls[..|calls| - 1];
      match calls[|calls| - 1]
      case LoadCall(x, _) =>
        if x in Replay([], p) then AddTimes(p) else AddTimes(p)[x := |p|]
      case UnloadCall(x) => AddTimes(p) - {x}
  }

  /** Scenes of `s` come in increasing order of the times in `t`. */
  ghost predicate SortedByTime(s: seq<GameScene>, t: map<GameScene, nat>)
  {
    && (forall i :: 0 <= i < |s| ==> s[i] in t)
    && (forall i, j :: 0 <= i < j < |s| ==> t[s[i]] < t[s[j]])
  }

  lemma SortedTail(s: seq<GameScene>, t: map<GameScene, nat>)
    requires SortedByTime(s, t) && s != []
    ensures SortedByTime(s[1..], t)
    ensures forall y :: y in s[1..] ==> t[s[0]] < t[y]
  {
    forall i, j | 0 <= i < j < |s[1..]| ensures t[s[1..][i]] < t[s[1..][j]] {
      assert s[1..][i] == s[i + 1] && s[1..][j] == s[j + 1];
    }
    forall y | y in s[1..] ensures t[s[0]] < t[y] {
      var j :| 0 <= j < |s[1..]| && s[1..][j] == y;
      assert s[j + 1] == y;
    }
  }

  lemma SortedCons(y: GameScene, r: seq<GameScene>, t: map<GameScene, nat>)
    requires SortedByTime(r, t) && y in t
    requires forall z :: z in r ==> t[y] < t[z]
    ensures SortedByTime([y] + r, t)
  {
    var u := [y] + r;
    forall i, j | 0 <= i < j < |u| ensures t[u[i]] < t[u[j]] {
      assert u[j] == r[j - 1] && u[j] in r;
      if i > 0 {
        assert u[i] == r[i - 1];
      }
    }
  }

  lemma {:induction false} RemovedKeepsSorted(s: seq<GameScene>, x: GameScene, t: map<GameScene, nat>)
    requires SortedByTime(s, t)
    ensures SortedByTime(Removed(s, x), t)
  {
    if s != [] {
      SortedTail(s, t);
      RemovedKeepsSorted(s[1..], x, t);
      if s[0] != x {
        var r := Removed(s[1..], x);
        forall z | z in r ensures t[s[0]] < t[z] {
          assert z in Members(r);
        }
        SortedCons(s[0], r, t);
      }
    }
  }

  lemma SortedWithout(s: seq<GameScene>, x: GameScene, t: map<GameScene, nat>)
    requires SortedByTime(s, t) && x !in s
    ensures SortedByTime(s, t - {x})
  {
    assert forall i :: 0 <= i < |s| ==> s[i] != x;
  }

  /** Appending a new scene with a later time than every other keeps the
      order sorted. */
  lemma SortedAppend(s: seq<GameScene>, t: map<GameScene, nat>, x: GameScene, n: nat)
    requires SortedByTime(s, t) && Members(s) == t.Keys && x !in t
    requires forall y :: y in t ==> t[y] < n
    ensures SortedByTime(s + [x], t[x := n])
  {
    var t' := t[x := n];
    var s' := s + [x];
    forall i | 0 <= i < |s'| ensures s'[i] in t' {
      if i < |s| {
        assert s'[i] == s[i] && s[i] in Members(s);
      }
    }
    forall i, j | 0 <= i < j < |s'| ensures t'[s'[i]] < t'[s'[j]] {
      assert s'[i] == s[i] && s[i] in Members(s) && s[i] != x;
      if j < |s| {
        assert s'[j] == s[j] && s[j] in Members(s) && s[j] != x;
      }
    }
  }

  /** Removing a scene keeps the order sorted, with its time dropped too. */
  lemma SortedRemove(s: seq<GameScene>, t: map<GameScene, nat>, x: GameScene)
    requires SortedByTime(s, t)
    ensures SortedByTime(Removed(s, x), t - {x})
  {
    RemovedKeepsSorted(s, x, t);
    assert x !in Members(Removed(s, x));
    SortedWithout(Removed(s, x), x, t);
  }

  /** With appending loads, the iteration order is the order in which the
      loaded scenes were added. */
  lemma {:induction false} AppendingKeepsLoadOrder(calls: seq<SceneCall>)
    requires AppendsOnly([], calls)
    ensures Members(Replay([], calls)) == AddTimes(calls).Keys
    ensures forall y :: y in AddTimes(calls) ==> AddTimes(calls)[y] < |calls|
    ensures SortedByTime(Replay([], calls), AddTimes(calls))
  {
    if calls != [] {
      var p := calls[..|calls| - 1];
      AppendingKeepsLoadOrder(p);
      var s := Replay([], p);
      var t := AddTimes(p);
      match calls[|calls| - 1]
      case LoadCall(x, at) =>
        if x !in s {
          assert Replay([], calls) == s + [x];
          assert x !in t by { assert x !in Members(s); }
          SortedAppend(s, t, x, |p|);
        }
      case UnloadCall(x) =>
        SortedRemove(s, t, x);
    }
  }

  /**
   * The rule of the order tooltip, "the highest order is activated, and on
   * equal order the last loaded", holds for a set that iterates in insertion
   * order, provided some loaded scene has order >= 0.
   */
  lemma LastLoadedWinsWhenAppending(calls: seq<SceneCall>)
    requires AppendsOnly([], calls)
    requires |Replay([], calls)| > 0 && SomeNonNegative(Replay([], calls))
    ensures var s := Replay([], calls);
      forall i :: 0 <= i < |s| ==> s[i].order <= Chosen(s).order
    ensures Members(Replay([], calls)) == AddTimes(calls).Keys
    ensures Chosen(Replay([], calls)) in Replay([], calls)
    ensures var s := Replay([], calls);
      forall y :: y in s && y != Chosen(s) && y.order == Chosen(s).order ==>
        AddTimes(calls)[y] < AddTimes(calls)[Chosen(s)]
  {
    var s := Replay([], calls);
    AppendingKeepsLoadOrder(calls);
    ReplayKeepsDistinct([], calls);
    ChosenIsLoaded(s);
    ChosenIsLastOfHighest(s);
    var k :| 0 <= k < |s| && s[k] == Chosen(s) &&
      forall j :: k < j < |s| ==> s[j].order < Chosen(s).order;
    forall y | y in s && y != Chosen(s) && y.order == Chosen(s).order
      ensures AddTimes(calls)[y] < AddTimes(calls)[Chosen(s)]
    {
      var i :| 0 <= i < |s| && s[i] == y;
      assert i != k;
      assert i < k;
    }
  }

  /**
   * Without insertion order the tooltip's tie rule fails. Three scenes of
   * order 0: load `a`, load `b`, unload `a`, then load `c` into the slot `a`
   * left free. `c` was loaded last, yet `b`, which iterates after it, wins.
   */
  lemma SlotReuseBreaksLastLoaded(a: GameScene, b: GameScene, c: GameScene)
    requires a != b && b != c && a != c
    requires a.order == 0 && b.order == 0 && c.order == 0
    ensures var calls := [LoadCall(a, 0), LoadCall(b, 1), UnloadCall(a), LoadCall(c, 0)];
      && Replay([], calls) == [c, b]
      && Chosen([c, b]) == b
      && AddTimes(calls) == map[b := 1, c := 3]
  {
    SlotReuseRun(a, b, c);
    SecondOfTwoZerosWins(c, b);
  }

  lemma SlotReuseRun(a: GameScene, b: GameScene, c: GameScene)
    requires a != b && b != c && a != c
    ensures var calls := [LoadCall(a, 0), LoadCall(b, 1), UnloadCall(a), LoadCall(c, 0)];
      Replay([], calls) == [c, b] && AddTimes(calls) == map[b := 1, c := 3]
  {
    var calls := [LoadCall(a, 0), LoadCall(b, 1), UnloadCall(a), LoadCall(c, 0)];
    assert calls[..3] == [LoadCall(a, 0), LoadCall(b, 1), UnloadCall(a)];
    SlotReuseFirstThree(a, b);
    assert Replay([], calls) == Added([b], c, 0);
    assert AddTimes(calls) == map[b := 1][c := 3];
  }

  lemma SecondOfTwoZerosWins(c: GameScene, b: GameScene)
    requires c.order == 0 && b.order == 0
    ensures Chosen([c, b]) == b
  {
    assert [c, b][..1] == [c];
    assert [c][..0] == [];
    assert Scan([c], c) == (0, c);
  }

  /** The first three calls of the slot-reuse run leave `b` alone, loaded by
      call 1. */
  lemma SlotReuseFirstThree(a: GameScene, b: GameScene)
    requires a != b
    ensures var three := [LoadCall(a, 0), LoadCall(b, 1), UnloadCall(a)];
      Replay([], three) == [b] && AddTimes(three) == map[b := 1]
  {
    var three := [LoadCall(a, 0), LoadCall(b, 1), UnloadCall(a)];
    var two := [LoadCall(a, 0), LoadCall(b, 1)];
    assert three[..2] == two;
    assert two[..1] == [LoadCall(a, 0)];
    assert [LoadCall(a, 0)][..0] == [];
    assert Replay([], [LoadCall(a, 0)]) == [a];
    assert AddTimes([LoadCall(a, 0)]) == map[a := 0];
    assert Replay([], two) == [a, b];
    assert AddTimes(two) == map[a := 0, b := 1];
    assert Replay([], three) == [b];
    assert map[a := 0, b := 1] - {a} == map[b := 1];
  }

  // ---------------------------------------------------------------------------
  // The loader

  class SceneLoader {
    /** `_loadedScenes`, in the hash set's iteration order. */
    var loaded: seq<GameScene>
    /** The active scene as the loader last set it (`SetActiveScene`); the
        engine's own choice after the active scene is unloaded is not
        tracked. */
    var active: Option<GameScene>
    /** Every engine call the loader issued, in order. */
    var engineCalls: seq<EngineCall>

    ghost predicate Valid()
      reads this
    {
      Distinct(loaded)
    }

    constructor ()
      ensures Valid() && loaded == [] && active == None && engineCalls == []
    {
      loaded, active, engineCalls := [], None, [];
    }

    function State(): LoaderState
      reads this
    {
      LoaderState(loaded, active, engineCalls)
    }

    /** A side-effect-free membership query. */
    function IsLoaded(scene: GameScene): (b: bool)
      reads this
      ensures b <==> scene in Members(loaded)
    {
      scene in loaded
    }

    /** Adds the scene, asks the engine to load it additively and then
        recomputes the active scene; a scene already loaded is left alone and
        no engine call is made. */
    method Load(scene: GameScene, at: nat)
      requires Valid()
      modifies this
      ensures Valid() && IsLoaded(scene)
      ensures State() == Perform(old(State()), LoadCall(scene, at))
      ensures Members(loaded) == Members(old(loaded)) + {scene}
      ensures old(IsLoaded(scene)) ==>
        active == old(active) && engineCalls == old(engineCalls)
      ensures !old(IsLoaded(scene)) ==>
        && loaded == Added(old(loaded), scene, at)
        && active == NextActive(loaded, old(active))
        && engineCalls == old(engineCalls) + [LoadSceneAsync(scene)] + ActivationCalls(loaded, old(active))
    {
      if scene in loaded {
        return;
      }
      loaded := Added(loaded, scene, at);
      engineCalls := engineCalls + [LoadSceneAsync(scene)];
      UpdateActiveScene();
    }

    /** Removes the scene, asks the engine to unload it and then recomputes the
        active scene, which stays as it was when no scene is left; a scene not
        loaded is left alone and no engine call is made. */
    method Unload(scene: GameScene)
      requires Valid()
      modifies this
      ensures Valid() && !IsLoaded(scene)
      ensures State() == Perform(old(State()), UnloadCall(scene))
      ensures Members(loaded) == Members(old(loaded)) - {scene}
      ensures !old(IsLoaded(scene)) ==>
        loaded == old(loaded) && active == old(active) && engineCalls == old(engineCalls)
      ensures old(IsLoaded(scene)) ==>
        && active == NextActive(loaded, old(active))
        && engineCalls == old(engineCalls) + [UnloadSceneAsync(scene)] + ActivationCalls(loaded, old(active))
      ensures old(IsLoaded(scene)) && loaded == [] ==>
        active == old(active) && engineCalls == old(engineCalls) + [UnloadSceneAsync(scene)]
    {
      if scene !in loaded {
        return;
      }
      loaded := Removed(loaded, scene);
      engineCalls := engineCalls + [UnloadSceneAsync(scene)];
      UpdateActiveScene();
    }

    method UpdateActiveScene()
      modifies this`active, this`engineCalls
      ensures active == NextActive(loaded, old(active))
      ensures engineCalls == old(engineCalls) + ActivationCalls(loaded, old(active))
      ensures |loaded| == 0 ==> active == old(active) && engineCalls == old(engineCalls)
    {
      if |loaded| == 0 {
        return;
      }
      var sceneToActivate := GetSceneToActivate();
      ActivateScene(sceneToActivate);
    }

    /** Asks the engine to activate the scene unless it is the scene the
        loader last activated. */
    method ActivateScene(sceneToActivate: GameScene)
      modifies this`active, this`engineCalls
      ensures active == Some(sceneToActivate)
      ensures old(active) == Some(sceneToActivate) ==> engineCalls == old(engineCalls)
      ensures old(active) != Some(sceneToActivate) ==>
        engineCalls == old(engineCalls) + [SetActiveScene(sceneToActivate)]
    {
      if active == Some(sceneToActivate) {
        return;
      }
      active := Some(sceneToActivate);
      engineCalls := engineCalls + [SetActiveScene(sceneToActivate)];
    }

    /** The priority scan over the loaded set in iteration order. */
    method GetSceneToActivate() returns (sceneToActivate: GameScene)
      requires |loaded| > 0
      ensures sceneToActivate == Chosen(loaded)
      ensures sceneToActivate in loaded
      ensures SomeNonNegative(loaded) ==>
        forall i :: 0 <= i < |loaded| ==> loaded[i].order <= sceneToActivate.order
      ensures (forall i :: 0 <= i < |loaded| ==> loaded[i].order < 0) ==>
        sceneToActivate == loaded[0]
    {
      var maxOrder := 0;
      sceneToActivate := loaded[0];
      var i := 0;
      while i < |loaded|
        invariant 0 <= i <= |loaded|
        invariant (maxOrder, sceneToActivate) == Scan(loaded[..i], loaded[0])
      {
        var scene := loaded[i];
        assert loaded[..i + 1][..i] == loaded[..i];
        if scene.order == maxOrder {
          sceneToActivate := scene;
        }
        if scene.order > maxOrder {
          maxOrder := scene.order;
          sceneToActivate := scene;
        }
        i := i + 1;
      }
      assert loaded[..i] == loaded;
      ChosenIsLoaded(loaded);
      if SomeNonNegative(loaded) {
        ChosenIsLastOfHighest(loaded);
      }
      if forall i :: 0 <= i < |loaded| ==> loaded[i].order < 0 {
        ChosenWhenAllNegative(loaded);
      }
    }
  }
}
