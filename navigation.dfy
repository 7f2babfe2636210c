/**
 * Navigation history (`crates/makepad-router-core/src/navigation.rs`): a stack
 * of routes, the index of the current one, and a reverse index from route id
 * to the positions holding it, rebuilt after every change.
 *
 * `History` is the abstract state (stack and current index) with one pure
 * transition per operation; the class `NavigationHistory` keeps the same
 * fields as the source and each of its methods is proved to perform the
 * corresponding transition.
 */
module Navigation {
  import opened Wrappers
  import opened Ids
  import opened Routes

  /** The stack and the current index, which is what `into_parts` exposes. */
  datatype History = History(stack: seq<Route>, current: nat)

  /** The index invariant: inside the stack, or 0 for an empty stack. */
  predicate WellFormed(h: History) {
    if |h.stack| == 0 then h.current == 0 else h.current < |h.stack|
  }

  /** The clamp at the end of `rebuild_index`. */
  function Clamp(stack: seq<Route>, index: nat): (r: nat)
    ensures WellFormed(History(stack, r))
    ensures |stack| > 0 && index < |stack| ==> r == index
  {
    if |stack| == 0 then 0 else if index < |stack| then index else |stack| - 1
  }

  /* --------------------------------------------------------------- queries */

  function CurrentOf(h: History): (r: Option<Route>)
    ensures r.Some? <==> h.current < |h.stack|
  {
    if h.current < |h.stack| then Some(h.stack[h.current]) else None
  }

  /** `can_go_back`. */
  predicate CanGoBack(h: History) {
    h.current > 0
  }

  /** `can_go_forward`: below `len - 1`, where the subtraction saturates at 0. */
  predicate CanGoForward(h: History) {
    h.current < (if |h.stack| == 0 then 0 else |h.stack| - 1)
  }

  /* ----------------------------------------------------------- transitions */

  /** `empty`. */
  const EmptyHistory := History([], 0)

  /** `new(route)`. */
  function Start(route: Route): (h: History)
    ensures WellFormed(h) && CurrentOf(h) == Some(route) && |h.stack| == 1
    ensures !CanGoBack(h) && !CanGoForward(h)
  {
    History([route], 0)
  }

  /** `push`: drop the forward entries, append the route, and make it current. */
  function AfterPush(h: History, route: Route): (r: History)
    requires WellFormed(h)
    ensures WellFormed(r)
  {
    var kept := if h.current + 1 <= |h.stack| then h.stack[..h.current + 1] else h.stack;
    History(kept + [route], |kept|)
  }

  /** `replace`: overwrite the current slot, or start a stack of one. */
  function AfterReplace(h: History, route: Route): (r: History)
    requires WellFormed(h)
    ensures WellFormed(r)
  {
    if |h.stack| > 0 then History(h.stack[h.current := route], h.current) else History([route], 0)
  }

  /** `back`: the new history and whether it moved. */
  function AfterBack(h: History): (r: (History, bool))
    requires WellFormed(h)
    ensures WellFormed(r.0)
  {
    if CanGoBack(h) then (h.(current := h.current - 1), true) else (h, false)
  }

  /** `forward`. */
  function AfterForward(h: History): (r: (History, bool))
    requires WellFormed(h)
    ensures WellFormed(r.0)
  {
    if CanGoForward(h) then (h.(current := h.current + 1), true) else (h, false)
  }

  /** `clear`: keep only the current route. */
  function AfterClear(h: History): (r: History)
    requires WellFormed(h)
    ensures WellFormed(r)
  {
    match CurrentOf(h)
    case Some(route) => History([route], 0)
    case None => EmptyHistory
  }

  /** `reset`. */
  function AfterReset(route: Route): (r: History)
    ensures WellFormed(r)
  {
    History([route], 0)
  }

  /** `into_parts`. */
  function Parts(h: History): (seq<Route>, nat) {
    (h.stack, h.current)
  }

  /** `from_parts`: the index is clamped into the stack; an empty stack gives the empty history. */
  function FromParts(stack: seq<Route>, index: nat): (r: History)
    ensures WellFormed(r)
  {
    if |stack| == 0 then EmptyHistory else History(stack, Clamp(stack, index))
  }

  /** `set_stack`: the last route of the new stack becomes current. */
  function AfterSetStack(stack: seq<Route>): (r: History)
    ensures WellFormed(r)
  {
    if |stack| == 0 then EmptyHistory else History(stack, |stack| - 1)
  }

  /** `pop`: remove the last route, whatever the current index, and make the new last one current. */
  function AfterPop(h: History): (r: (History, bool))
    requires WellFormed(h)
    ensures WellFormed(r.0)
  {
    if |h.stack| <= 1 then (h, false)
    else (History(h.stack[..|h.stack| - 1], |h.stack| - 2), true)
  }

  /** The last position of a route with the given id, looked up from the end. */
  function LastPosition(stack: seq<Route>, id: LiveId): (r: Option<nat>)
    ensures r.Some? ==> r.value < |stack| && stack[r.value].id == id
    ensures r.Some? ==> forall j :: r.value < j < |stack| ==> stack[j].id != id
    ensures r.None? ==> forall j :: 0 <= j < |stack| ==> stack[j].id != id
    decreases |stack|
  {
    if |stack| == 0 then None
    else if stack[|stack| - 1].id == id then Some(|stack| - 1)
    else LastPosition(stack[..|stack| - 1], id)
  }

  /** `pop_to`: nothing if the id is current or absent; otherwise cut the stack after its last occurrence. */
  function AfterPopTo(h: History, id: LiveId): (r: (History, bool))
    requires WellFormed(h)
    ensures WellFormed(r.0)
  {
    if CurrentOf(h).Some? && CurrentOf(h).value.id == id then (h, false)
    else match LastPosition(h.stack, id)
      case None => (h, false)
      case Some(pos) => (History(h.stack[..pos + 1], pos), true)
  }

  /** `pop_to_root`. */
  function AfterPopToRoot(h: History): (r: (History, bool))
    requires WellFormed(h)
    ensures WellFormed(r.0)
  {
    if |h.stack| <= 1 then (h, false) else (History(h.stack[..1], 0), true)
  }

  /* ----------------------------------------------------------------- index */

  /** The reverse index `rebuild_index` computes: each id maps to the positions holding it, in order. */
  function IndexOf(stack: seq<Route>): map<LiveId, seq<nat>>
    decreases |stack|
  {
    if |stack| == 0 then map[]
    else
      var m := IndexOf(stack[..|stack| - 1]);
      var id := stack[|stack| - 1].id;
      m[id := (if id in m then m[id] else []) + [|stack| - 1]]
  }

  /**
   * The index holds exactly the ids of the stack, and each id's list is the
   * ascending list of every position holding that id.
   */
  lemma {:induction false} IndexOfSpec(stack: seq<Route>, id: LiveId)
    ensures id in IndexOf(stack) <==> exists j :: 0 <= j < |stack| && stack[j].id == id
    ensures id in IndexOf(stack) ==> |IndexOf(stack)[id]| > 0
    ensures id in IndexOf(stack) ==> forall k :: 0 <= k < |IndexOf(stack)[id]| ==>
      IndexOf(stack)[id][k] < |stack| && stack[IndexOf(stack)[id][k]].id == id
    ensures id in IndexOf(stack) ==> forall k, l :: 0 <= k < l < |IndexOf(stack)[id]| ==>
      IndexOf(stack)[id][k] < IndexOf(stack)[id][l]
    ensures id in IndexOf(stack) ==> forall j :: 0 <= j < |stack| && stack[j].id == id ==> j in IndexOf(stack)[id]
    decreases |stack|
  {
    if |stack| > 0 {
      var init := stack[..|stack| - 1];
      IndexOfSpec(init, id);
      forall j | 0 <= j < |init| ensures init[j] == stack[j] {
      }
    }
  }

  /** The last entry of an id's list is its last position, which is what `pop_to` reads. */
  lemma {:induction false} IndexLast(stack: seq<Route>, id: LiveId)
    ensures id in IndexOf(stack) <==> LastPosition(stack, id).Some?
    ensures id in IndexOf(stack) ==>
      |IndexOf(stack)[id]| > 0 && IndexOf(stack)[id][|IndexOf(stack)[id]| - 1] == LastPosition(stack, id).value
    decreases |stack|
  {
    if |stack| > 0 {
      IndexLast(stack[..|stack| - 1], id);
    }
  }

  /* ------------------------------------------------------------ properties */

  /** `push` makes the route current at depth `current + 2`, keeps the entries up to the old current, and leaves nothing forward. */
  lemma PushSpec(h: History, route: Route)
    requires WellFormed(h) && |h.stack| > 0
    ensures |AfterPush(h, route).stack| == h.current + 2
    ensures CurrentOf(AfterPush(h, route)) == Some(route)
    ensures AfterPush(h, route).stack[..h.current + 1] == h.stack[..h.current + 1]
    ensures !CanGoForward(AfterPush(h, route)) && CanGoBack(AfterPush(h, route))
  {
  }

  /** `replace` changes only the current slot and keeps the depth; on an empty history it gives `[route]`. */
  lemma ReplaceSpec(h: History, route: Route)
    requires WellFormed(h)
    ensures CurrentOf(AfterReplace(h, route)) == Some(route)
    ensures |h.stack| > 0 ==> |AfterReplace(h, route).stack| == |h.stack| && AfterReplace(h, route).current == h.current
    ensures |h.stack| > 0 ==> forall j :: 0 <= j < |h.stack| && j != h.current ==> AfterReplace(h, route).stack[j] == h.stack[j]
    ensures |h.stack| == 0 ==> AfterReplace(h, route) == History([route], 0)
  {
  }

  /** `back` and `forward` move by exactly one when allowed and change nothing otherwise; each undoes the other. */
  lemma BackForwardSpec(h: History)
    requires WellFormed(h)
    ensures AfterBack(h).1 <==> CanGoBack(h)
    ensures AfterBack(h).1 ==> AfterBack(h).0.stack == h.stack && AfterBack(h).0.current == h.current - 1
    ensures !AfterBack(h).1 ==> AfterBack(h).0 == h
    ensures AfterForward(h).1 <==> CanGoForward(h)
    ensures AfterForward(h).1 ==> AfterForward(h).0.stack == h.stack && AfterForward(h).0.current == h.current + 1
    ensures !AfterForward(h).1 ==> AfterForward(h).0 == h
    ensures CanGoBack(h) ==> AfterForward(AfterBack(h).0) == (h, true)
    ensures CanGoForward(h) ==> AfterBack(AfterForward(h).0) == (h, true)
  {
  }

  /** `pop` fails at depth one or less; otherwise the last route goes and the new last is current. */
  lemma PopSpec(h: History)
    requires WellFormed(h)
    ensures AfterPop(h).1 <==> |h.stack| > 1
    ensures AfterPop(h).1 ==> AfterPop(h).0.stack == h.stack[..|h.stack| - 1] && CurrentOf(AfterPop(h).0) == Some(h.stack[|h.stack| - 2])
    ensures AfterPop(h).1 ==> !CanGoForward(AfterPop(h).0)
    ensures !AfterPop(h).1 ==> AfterPop(h).0 == h
  {
  }

  /**
   * `pop_to(id)` fails exactly when the id is current or absent; otherwise the
   * last occurrence of the id becomes current and the top of the stack, so a
   * second call fails.
   */
  lemma PopToSpec(h: History, id: LiveId)
    requires WellFormed(h)
    ensures !AfterPopTo(h, id).1 <==> (CurrentOf(h).Some? && CurrentOf(h).value.id == id) || forall j :: 0 <= j < |h.stack| ==> h.stack[j].id != id
    ensures !AfterPopTo(h, id).1 ==> AfterPopTo(h, id).0 == h
    ensures AfterPopTo(h, id).1 ==> var r := AfterPopTo(h, id).0;
      CurrentOf(r).Some? && CurrentOf(r).value.id == id && r.current == |r.stack| - 1 &&
      r.stack == h.stack[..|r.stack|] &&
      forall j :: |r.stack| <= j < |h.stack| ==> h.stack[j].id != id
    ensures AfterPopTo(h, id).1 ==> !AfterPopTo(AfterPopTo(h, id).0, id).1
  {
  }

  /** `pop_to_root` fails at depth one or less; otherwise only the first route remains. */
  lemma PopToRootSpec(h: History)
    requires WellFormed(h)
    ensures AfterPopToRoot(h).1 <==> |h.stack| > 1
    ensures AfterPopToRoot(h).1 ==> AfterPopToRoot(h).0 == History([h.stack[0]], 0)
    ensures !AfterPopToRoot(h).1 ==> AfterPopToRoot(h).0 == h
  {
  }

  /** `clear` keeps the current route alone, so nothing is left to go back or forward to; `reset` is a fresh history of the route. */
  lemma ClearResetSpec(h: History, route: Route)
    requires WellFormed(h)
    ensures CurrentOf(AfterClear(h)) == CurrentOf(h) && |AfterClear(h).stack| <= 1
    ensures !CanGoBack(AfterClear(h)) && !CanGoForward(AfterClear(h))
    ensures AfterReset(route) == Start(route) && CurrentOf(AfterReset(route)) == Some(route)
  {
  }

  /** `set_stack` empties the history for an empty stack and otherwise makes the last route current. */
  lemma SetStackSpec(stack: seq<Route>)
    ensures |stack| == 0 ==> AfterSetStack(stack) == EmptyHistory && CurrentOf(AfterSetStack(stack)).None?
    ensures |stack| > 0 ==> AfterSetStack(stack).stack == stack && CurrentOf(AfterSetStack(stack)) == Some(stack[|stack| - 1])
    ensures !CanGoForward(AfterSetStack(stack))
  {
  }

  /** `into_parts(from_parts(s, i)) == (s, min(i, len - 1))` for a non-empty stack. */
  lemma PartsRoundTrip(stack: seq<Route>, index: nat)
    requires |stack| > 0
    ensures Parts(FromParts(stack, index)) == (stack, if index < |stack| then index else |stack| - 1)
  {
  }

  /** A well-formed history survives `into_parts` then `from_parts` unchanged. */
  lemma FromIntoParts(h: History)
    requires WellFormed(h)
    ensures FromParts(Parts(h).0, Parts(h).1) == h
  {
  }

  /* ----------------------------------------------------------------- class */

  /** `NavigationHistory`, with its reverse index kept equal to `IndexOf(stack)`. */
  class NavigationHistory {
    var stack: seq<Route>
    var currentIndex: nat
    var index: map<LiveId, seq<nat>>

    function Model(): History
      reads this
    {
      History(stack, currentIndex)
    }

    predicate Valid()
      reads this
    {
      WellFormed(Model()) && index == IndexOf(stack)
    }

    /** `NavigationHistory::new`. */
    constructor (initial: Route)
      ensures Valid() && Model() == Start(initial)
    {
      stack := [initial];
      currentIndex := 0;
      index := map[];
      new;
      RebuildIndex();
    }

    /** `NavigationHistory::empty`. */
    constructor Empty()
      ensures Valid() && Model() == EmptyHistory
    {
      stack := [];
      currentIndex := 0;
      index := map[];
    }

    /** `NavigationHistory::from_parts`. */
    constructor FromStack(routes: seq<Route>, index0: nat)
      ensures Valid() && Model() == FromParts(routes, index0)
    {
      stack := routes;
      currentIndex := if |routes| == 0 then 0 else index0;
      index := map[];
      new;
      RebuildIndex();
    }

    /** Assigning `NavigationHistory::from_parts(routes, index0)` over this history, as `apply_state` does. */
    method Restore(routes: seq<Route>, index0: nat)
      modifies this
      ensures Valid() && Model() == FromParts(routes, index0)
    {
      stack := routes;
      currentIndex := if |routes| == 0 then 0 else index0;
      RebuildIndex();
    }

    function Current(): Option<Route>
      reads this
    {
      CurrentOf(Model())
    }

    function Depth(): nat
      reads this
    {
      |stack|
    }

    /** `into_parts`. */
    method IntoParts() returns (routes: seq<Route>, current: nat)
      requires Valid()
      ensures (routes, current) == Parts(Model())
    {
      routes, current := stack, currentIndex;
    }

    /** `rebuild_index`: refill the reverse index position by position, then clamp the current index. */
    method RebuildIndex()
      modifies this
      ensures Valid()
      ensures stack == old(stack) && currentIndex == Clamp(stack, old(currentIndex))
    {
      index := map[];
      var i := 0;
      while i < |stack|
        invariant stack == old(stack) && currentIndex == old(currentIndex)
        invariant i <= |stack|
        invariant index == IndexOf(stack[..i])
      {
        var id := stack[i].id;
        assert stack[..i + 1][..i] == stack[..i];
        index := index[id := (if id in index then index[id] else []) + [i]];
        i := i + 1;
      }
      assert stack[..i] == stack;
      currentIndex := Clamp(stack, currentIndex);
    }

    /** `push`. */
    method Push(route: Route)
      requires Valid()
      modifies this
      ensures Valid() && Model() == AfterPush(old(Model()), route)
    {
      if currentIndex + 1 <= |stack| {
        stack := stack[..currentIndex + 1];
      }
      stack := stack + [route];
      currentIndex := |stack| - 1;
      RebuildIndex();
    }

    /** `replace`. */
    method Replace(route: Route)
      requires Valid()
      modifies this
      ensures Valid() && Model() == AfterReplace(old(Model()), route)
    {
      if |stack| > 0 {
        stack := stack[currentIndex := route];
      } else {
        stack := [route];
        currentIndex := 0;
      }
      RebuildIndex();
    }

    /** `back`. */
    method Back() returns (moved: bool)
      requires Valid()
      modifies this
      ensures Valid() && (Model(), moved) == AfterBack(old(Model()))
    {
      if currentIndex > 0 {
        currentIndex := currentIndex - 1;
        moved := true;
      } else {
        moved := false;
      }
    }

    /** `forward`. */
    method Forward() returns (moved: bool)
      requires Valid()
      modifies this
      ensures Valid() && (Model(), moved) == AfterForward(old(Model()))
    {
      if currentIndex < (if |stack| == 0 then 0 else |stack| - 1) {
        currentIndex := currentIndex + 1;
        moved := true;
      } else {
        moved := false;
      }
    }

    /** `clear`. */
    method Clear()
      requires Valid()
      modifies this
      ensures Valid() && Model() == AfterClear(old(Model()))
    {
      if currentIndex < |stack| {
        stack := [stack[currentIndex]];
      } else {
        stack := [];
      }
      currentIndex := 0;
      RebuildIndex();
    }

    /** `reset`. */
    method Reset(route: Route)
      requires Valid()
      modifies this
      ensures Valid() && Model() == AfterReset(route)
    {
      stack := [route];
      currentIndex := 0;
      RebuildIndex();
    }

    /** `set_stack`. */
    method SetStack(routes: seq<Route>)
      requires Valid()
      modifies this
      ensures Valid() && Model() == AfterSetStack(routes)
    {
      if |routes| == 0 {
        stack := [];
        currentIndex := 0;
        RebuildIndex();
        return;
      }
      stack := routes;
      currentIndex := |stack| - 1;
      RebuildIndex();
    }

    /** `pop`. */
    method Pop() returns (popped: bool)
      requires Valid()
      modifies this
      ensures Valid() && (Model(), popped) == AfterPop(old(Model()))
    {
      if |stack| <= 1 {
        return false;
      }
      stack := stack[..|stack| - 1];
      currentIndex := |stack| - 1;
      RebuildIndex();
      popped := true;
    }

    /** `pop_to`: the target position is the last entry of the id's list in the reverse index. */
    method PopTo(id: LiveId) returns (popped: bool)
      requires Valid()
      modifies this
      ensures Valid() && (Model(), popped) == AfterPopTo(old(Model()), id)
    {
      if currentIndex < |stack| && stack[currentIndex].id == id {
        return false;
      }
      IndexLast(stack, id);
      if id !in index || |index[id]| == 0 {
        return false;
      }
      var pos := index[id][|index[id]| - 1];
      stack := stack[..pos + 1];
      currentIndex := pos;
      RebuildIndex();
      popped := true;
    }

    /** `pop_to_root`. */
    method PopToRoot() returns (popped: bool)
      requires Valid()
      modifies this
      ensures Valid() && (Model(), popped) == AfterPopToRoot(old(Model()))
    {
      if |stack| <= 1 {
        return false;
      }
      stack := stack[..1];
      currentIndex := 0;
      RebuildIndex();
      popped := true;
    }
  }
}
