/** The registry of cleanup actions and the signal handler that runs them, as interleaved atomic steps: a
    signal may arrive between any two steps of `at_fatal_signal` and of the handler itself.  The
    re-raised signal ends the process, so what a signal interrupts is never resumed. */
module FatalSignal {

  type Action = nat

  datatype Slot = Blank | Holds(action: Action)

  /** Where `at_fatal_signal (a)` stands; each case is about to do what it is named after. */
  datatype Registrar =
    | Idle
    | Compare(a: Action)                     // actions_count == actions_allocated?
    | Copy(a: Action, copy: nat, k: nat)     // new_actions[k] = old_actions[k]
    | Switch(a: Action, copy: nat)           // actions = new_actions
    | Resize(a: Action, former: nat)         // actions_allocated = new_actions_allocated
    | Release(a: Action, former: nat)        // free (old_actions)
    | Store(a: Action)                       // actions[actions_count].action = action
    | Increment(a: Action)                   // actions_count++

  /** Where an activation of the handler stands. */
  datatype Frame =
    | Load                                   // n = actions_count
    | Pop(n: nat)                            // actions_count = n - 1
    | Fetch(n: nat)                          // action = actions[n].action
    | Start(n: nat, action: Action)          // action ()

  const STATIC := 0                          // static_actions, which is never freed
  const STATIC_SIZE := 32

  /** `heap` holds the arrays that are live.  `registered` and `started` record the history: the actions
      counted in, and the position and action of those that the handlers have started. */
  datatype World = World(
    heap: map<nat, seq<Slot>>, actions: nat, count: nat, capacity: nat,
    registrar: Registrar, frames: seq<Frame>, ended: bool,
    registered: seq<Action>, started: seq<(nat, Action)>)

  function Initial(): World {
    World(map[STATIC := seq(STATIC_SIZE, _ => Blank)], STATIC, 0, STATIC_SIZE, Idle, [], false, [], [])
  }

  /** The array that `actions` points to. */
  predicate Live(w: World) {
    w.actions in w.heap
  }

  /** One step of `at_fatal_signal`; the allocator may hand out any block that is not in use. */
  ghost predicate Registers(w: World, w': World) {
    && w.frames == [] && !w.ended
    && match w.registrar
       case Idle => exists a :: w' == w.(registrar := Compare(a))
       case Compare(a) =>
         if w.count == w.capacity then
           exists id, block :: GrowsBy(w, w', a, id, block)
         else w' == w.(registrar := Store(a))
       case Copy(a, id, k) =>
         if k < w.capacity then
           && Live(w) && id in w.heap && k < |w.heap[w.actions]| && k < |w.heap[id]|
           && w' == w.(heap := w.heap[id := w.heap[id][k := w.heap[w.actions][k]]], registrar := Copy(a, id, k + 1))
         else w' == w.(registrar := Switch(a, id))
       case Switch(a, id) => w' == w.(actions := id, registrar := Resize(a, w.actions))
       case Resize(a, o) => w' == w.(capacity := 2 * w.capacity, registrar := Release(a, o))
       case Release(a, o) => w' == w.(heap := if o != STATIC then w.heap - {o} else w.heap, registrar := Store(a))
       case Store(a) =>
         && Live(w) && w.count < |w.heap[w.actions]|
         && w' == w.(heap := w.heap[w.actions := w.heap[w.actions][w.count := Holds(a)]], registrar := Increment(a))
       case Increment(a) => w' == w.(count := w.count + 1, registrar := Idle, registered := w.registered + [a])
  }

  /** The allocation of an array of twice the size. */
  ghost predicate GrowsBy(w: World, w': World, a: Action, id: nat, block: seq<Slot>) {
    && id !in w.heap && id != STATIC && |block| == 2 * w.capacity
    && w' == w.(heap := w.heap[id := block], registrar := Copy(a, id, 0))
  }

  /** A signal arrives: whatever is running is interrupted for good. */
  predicate Interrupts(w: World, w': World) {
    !w.ended && w' == w.(frames := w.frames + [Load])
  }

  /** One step of the innermost activation of the handler. */
  predicate Handles(w: World, w': World) {
    && w.frames != [] && !w.ended
    && var below := w.frames[..|w.frames| - 1];
    match w.frames[|w.frames| - 1]
    case Load =>
      if w.count == 0 then w' == w.(ended := true)
      else w' == w.(frames := below + [Pop(w.count)])
    case Pop(n) => n > 0 && w' == w.(count := n - 1, frames := below + [Fetch(n - 1)])
    case Fetch(n) => Fetches(w, n) && w' == w.(frames := below + [Start(n, w.heap[w.actions][n].action)])
    case Start(n, action) => w' == w.(frames := below + [Load], started := w.started + [(n, action)])
  }

  /** The access to slot `n`: the array has not been freed, and the slot has been written. */
  predicate Fetches(w: World, n: nat) {
    Live(w) && n < |w.heap[w.actions]| && w.heap[w.actions][n].Holds?
  }

  ghost predicate Next(w: World, w': World) {
    Registers(w, w') || Interrupts(w, w') || Handles(w, w')
  }

  /** The slots of the registered actions. */
  predicate Stored(w: World) {
    && Live(w) && |w.registered| <= |w.heap[w.actions]|
    && forall i | 0 <= i < |w.registered| :: w.heap[w.actions][i] == Holds(w.registered[i])
  }

  /** What holds of the registrar. */
  predicate RegistrarOk(w: World)
    requires Live(w)
  {
    var size := |w.heap[w.actions]|;
    && Stored(w)
    && (w.frames == [] ==> w.count == |w.registered|)
    && match w.registrar
       case Idle => size == w.capacity && w.count <= w.capacity
       case Compare(_) => size == w.capacity && w.count <= w.capacity
       case Copy(_, id, k) =>
         && size == w.capacity && id in w.heap && id != w.actions && id != STATIC && |w.heap[id]| == 2 * size
         && k <= size
         && (w.frames == [] ==> w.count == size)
         && w.heap[id][..k] == w.heap[w.actions][..k]
       case Switch(_, id) =>
         && size == w.capacity && id in w.heap && id != w.actions && id != STATIC && |w.heap[id]| == 2 * size
         && (w.frames == [] ==> w.count == size)
         && w.heap[id][..size] == w.heap[w.actions]
       case Resize(_, o) => size == 2 * w.capacity && (w.frames == [] ==> w.count == w.capacity) && o != w.actions
       case Release(_, o) => size == w.capacity && (w.frames == [] ==> w.count < w.capacity) && o != w.actions
       case Store(_) => size == w.capacity && (w.frames == [] ==> w.count < w.capacity)
       case Increment(a) =>
         && size == w.capacity
         && (w.frames == [] ==> w.count < w.capacity && w.heap[w.actions][w.count] == Holds(a))
  }

  /** The positions started so far, from the highest down, all of them above `low`. */
  predicate Descending(started: seq<(nat, Action)>, low: int) {
    && (forall i | 0 <= i < |started| :: low < started[i].0)
    && (forall i, j | 0 <= i < j < |started| :: started[j].0 < started[i].0)
  }

  /** What holds of the innermost activation of the handler; those below it are never resumed. */
  predicate HandlerOk(w: World) {
    && w.count <= |w.registered|
    && (forall i | 0 <= i < |w.started| ::
        w.started[i].0 < |w.registered| && w.started[i].1 == w.registered[w.started[i].0])
    && if w.frames == [] then w.started == []
       else match w.frames[|w.frames| - 1]
         case Load => Descending(w.started, w.count - 1)
         case Pop(n) => 0 < n == w.count && Descending(w.started, w.count - 1)
         case Fetch(n) => n == w.count < |w.registered| && Descending(w.started, n)
         case Start(n, action) => n == w.count < |w.registered| && action == w.registered[n] && Descending(w.started, n)
  }

  predicate Inv(w: World) {
    && Live(w) && w.capacity > 0 && RegistrarOk(w) && HandlerOk(w)
  }

  lemma InitialInv()
    ensures Inv(Initial())
  {
  }

  lemma RegistersKeeps(w: World, w': World)
    requires Inv(w) && Registers(w, w')
    ensures Inv(w')
  {
  }

  lemma InterruptsKeeps(w: World, w': World)
    requires Inv(w) && Interrupts(w, w')
    ensures Inv(w')
  {
  }

  /** The handler does not touch what the registrar has built. */
  lemma HandlesFrame(w: World, w': World)
    requires Inv(w) && Handles(w, w')
    ensures Live(w') && w'.capacity == w.capacity && RegistrarOk(w')
  {
    hide Descending;
    assert w'.frames != [];
  }

  lemma HandlesKeeps(w: World, w': World)
    requires Inv(w) && Handles(w, w')
    ensures Inv(w')
  {
    hide RegistrarOk;
    HandlesFrame(w, w');
    StoredSlots(w);
  }

  lemma StoredSlots(w: World)
    requires Inv(w)
    ensures |w.registered| <= |w.heap[w.actions]|
    ensures forall i | 0 <= i < |w.registered| :: w.heap[w.actions][i] == Holds(w.registered[i])
  {
  }

  /** The handler only reads slots of the live array that have been written. */
  lemma FetchSafe(w: World, n: nat)
    requires Inv(w) && w.frames != [] && w.frames[|w.frames| - 1] == Fetch(n)
    ensures Fetches(w, n) && w.heap[w.actions][n].action == w.registered[n]
  {
  }

  /** The accesses of the registrar are in range, whatever has been interrupted. */
  lemma RegistrarSafe(w: World)
    requires Inv(w) && w.frames == []
    ensures w.registrar.Store? ==> w.count < |w.heap[w.actions]|
    ensures w.registrar.Copy? && w.registrar.k < w.capacity ==>
      w.registrar.copy in w.heap && w.registrar.k < |w.heap[w.registrar.copy]| && w.registrar.k < |w.heap[w.actions]|
    ensures w.registrar.Release? ==> w.registrar.former != w.actions
  {
  }

  ghost predicate Run(ws: seq<World>) {
    ws != [] && ws[0] == Initial() && forall i | 0 < i < |ws| :: StepAt(ws, i)
  }

  ghost predicate StepAt(ws: seq<World>, i: int)
    requires 0 < i < |ws|
  {
    Next(ws[i - 1], ws[i])
  }

  lemma RunPrefix(ws: seq<World>, n: nat)
    requires Run(ws) && 0 < n <= |ws|
    ensures Run(ws[..n])
  {
    forall i | 0 < i < n
      ensures StepAt(ws[..n], i)
    {
      assert StepAt(ws, i);
    }
  }

  /** The invariant holds throughout every run, and so every access in it is safe. */
  lemma {:induction false} RunInv(ws: seq<World>)
    requires Run(ws)
    ensures Inv(ws[|ws| - 1])
    decreases |ws|
  {
    hide Inv, Registers, Handles, Interrupts;
    if |ws| == 1 {
      InitialInv();
    } else {
      var w, w' := ws[|ws| - 2], ws[|ws| - 1];
      RunPrefix(ws, |ws| - 1);
      RunInv(ws[..|ws| - 1]);
      assert StepAt(ws, |ws| - 1);
      if Registers(w, w') {
        RegistersKeeps(w, w');
      } else if Interrupts(w, w') {
        InterruptsKeeps(w, w');
      } else {
        HandlesKeeps(w, w');
      }
    }
  }

  /** At any time of any run, the actions started so far are registered ones, in reverse order of
      registration, none of them twice. */
  lemma StartedInReverse(ws: seq<World>)
    requires Run(ws)
    ensures var w := ws[|ws| - 1];
      && (forall i | 0 <= i < |w.started| ::
          w.started[i].0 < |w.registered| && w.started[i].1 == w.registered[w.started[i].0])
      && (forall i, j | 0 <= i < j < |w.started| :: w.started[j].0 < w.started[i].0)
  {
    RunInv(ws);
  }

  /** The first `|started|` actions from the top have been started, one after the other. */
  predicate Consecutive(w: World, low: int) {
    && |w.started| == |w.registered| - low
    && forall i | 0 <= i < |w.started| :: w.started[i].0 == |w.registered| - 1 - i
  }

  /** How far the only activation of the handler has come. */
  predicate Alone(w: World) {
    && |w.frames| <= 1
    && (w.ended ==> w.frames == [Load] && w.count == 0)
    && (w.frames != [] ==>
          match w.frames[0]
          case Load => Consecutive(w, w.count)
          case Pop(n) => Consecutive(w, w.count)
          case Fetch(n) => Consecutive(w, n + 1)
          case Start(n, _) => Consecutive(w, n + 1))
  }

  lemma AloneNext(w: World, w': World)
    requires Inv(w) && Alone(w) && Next(w, w') && |w'.frames| <= 1
    ensures Alone(w')
  {
  }

  lemma {:induction false} RunAlone(ws: seq<World>)
    requires Run(ws) && forall i | 0 <= i < |ws| :: |ws[i].frames| <= 1
    ensures Alone(ws[|ws| - 1])
    decreases |ws|
  {
    hide Inv, Next, Alone;
    if |ws| == 1 {
      InitialAlone();
    } else {
      RunPrefix(ws, |ws| - 1);
      RunInv(ws[..|ws| - 1]);
      RunAlone(ws[..|ws| - 1]);
      assert StepAt(ws, |ws| - 1);
      AloneNext(ws[|ws| - 2], ws[|ws| - 1]);
    }
  }

  lemma InitialAlone()
    ensures Alone(Initial())
  {
  }

  /** Without nested signals, every registered action has been started exactly once by the time the
      signal is re-raised. */
  lemma ExactlyOnce(ws: seq<World>)
    requires Run(ws) && forall i | 0 <= i < |ws| :: |ws[i].frames| <= 1
    requires ws[|ws| - 1].ended
    ensures var w := ws[|ws| - 1];
      && |w.started| == |w.registered|
      && forall i | 0 <= i < |w.started| ::
         w.started[i] == (|w.registered| - 1 - i, w.registered[|w.registered| - 1 - i])
  {
    RunInv(ws);
    RunAlone(ws);
  }

  /** The handler is never stuck. */
  lemma HandlerProceeds(w: World) returns (w': World)
    requires Inv(w) && w.frames != [] && !w.ended
    ensures Handles(w, w')
  {
    var below := w.frames[..|w.frames| - 1];
    match w.frames[|w.frames| - 1]
    case Load =>
      w' := if w.count == 0 then w.(ended := true) else w.(frames := below + [Pop(w.count)]);
    case Pop(n) => w' := w.(count := n - 1, frames := below + [Fetch(n - 1)]);
    case Fetch(n) => w' := w.(frames := below + [Start(n, w.heap[w.actions][n].action)]);
    case Start(n, action) => w' := w.(frames := below + [Load], started := w.started + [(n, action)]);
  }

  /** The actions counted in, and the one that a registration is about. */
  function Wanted(w: World): seq<Action> {
    match w.registrar
    case Idle => w.registered
    case Compare(a) => w.registered + [a]
    case Copy(a, _, _) => w.registered + [a]
    case Switch(a, _) => w.registered + [a]
    case Resize(a, _) => w.registered + [a]
    case Release(a, _) => w.registered + [a]
    case Store(a) => w.registered + [a]
    case Increment(a) => w.registered + [a]
  }

  /** No registration is lost or made up: an action once asked for is on its way to be counted in, behind those before
      it, and no step but the first of a registration asks for one. */
  lemma NothingDropped(w: World, w': World)
    requires Next(w, w')
    ensures Wanted(w') == Wanted(w) || (w.registrar.Idle? && exists a :: Wanted(w') == Wanted(w) + [a])
  {
    if Registers(w, w') && w.registrar.Idle? {
      var a :| w' == w.(registrar := Compare(a));
      assert Wanted(w') == Wanted(w) + [a];
    }
  }

  /** How many steps are left of a registration. */
  function StepsLeft(w: World): nat {
    match w.registrar
    case Idle => 0
    case Compare(_) => w.capacity + 8
    case Copy(_, _, k) => if k < w.capacity then w.capacity - k + 6 else 6
    case Switch(_, _) => 5
    case Resize(_, _) => 4
    case Release(_, _) => 3
    case Store(_) => 2
    case Increment(_) => 1
  }

  /** A registration that is not interrupted comes to its end, when the action has been counted in. */
  lemma RegistrationEnds(w: World, w': World)
    requires Inv(w) && Registers(w, w') && !w.registrar.Idle?
    ensures StepsLeft(w') < StepsLeft(w)
    ensures w'.registrar.Idle? ==> w'.registered == Wanted(w)
  {
  }

  lemma {:induction false} SomeBlock(s: set<nat>) returns (id: nat)
    ensures forall x | x in s :: x < id
    decreases |s|
  {
    if s == {} {
      id := 0;
    } else {
      var x :| x in s;
      id := SomeBlock(s - {x});
      if id <= x { id := x + 1; }
      assert forall y | y in s :: y == x || y in s - {x};
    }
  }

  /** The registration is never stuck. */
  lemma RegistrarProceeds(w: World) returns (w': World)
    requires Inv(w) && w.frames == [] && !w.ended && !w.registrar.Idle?
    ensures Registers(w, w')
  {
    match w.registrar {
      case Compare(a) =>
        if w.count == w.capacity {
          var id := SomeBlock(w.heap.Keys + {STATIC});
          var block := seq(2 * w.capacity, _ => Blank);
          w' := w.(heap := w.heap[id := block], registrar := Copy(a, id, 0));
          assert GrowsBy(w, w', a, id, block);
        } else {
          w' := w.(registrar := Store(a));
        }
      case Copy(a, id, k) =>
        w' := if k < w.capacity then
            w.(heap := w.heap[id := w.heap[id][k := w.heap[w.actions][k]]], registrar := Copy(a, id, k + 1))
          else w.(registrar := Switch(a, id));
      case Switch(a, id) => w' := w.(actions := id, registrar := Resize(a, w.actions));
      case Resize(a, o) => w' := w.(capacity := 2 * w.capacity, registrar := Release(a, o));
      case Release(a, o) =>
        w' := w.(heap := if o != STATIC then w.heap - {o} else w.heap, registrar := Store(a));
      case Store(a) =>
        w' := w.(heap := w.heap[w.actions := w.heap[w.actions][w.count := Holds(a)]], registrar := Increment(a));
      case Increment(a) =>
        w' := w.(count := w.count + 1, registrar := Idle, registered := w.registered + [a]);
    }
  }

  /** How many steps are left of the handler, if no further signal arrives. */
  function HandlerLeft(w: World): nat {
    if w.ended || w.frames == [] then 0
    else
      match w.frames[|w.frames| - 1]
      case Load => 4 * w.count + 1
      case Pop(n) => 4 * n
      case Fetch(n) => 4 * n + 3
      case Start(n, _) => 4 * n + 2
  }

  /** The handler comes to its end, and raises the signal again. */
  lemma HandlerEnds(w: World, w': World)
    requires Inv(w) && Handles(w, w')
    ensures HandlerLeft(w') < HandlerLeft(w) && (HandlerLeft(w') == 0 ==> w'.ended)
  {
  }
}
