/** The concurrency gates of one block, across limit changes, deletion and re-creation. */
module Gates {
  import opened Wrappers

  /**
    One gate.  `waiting` is the semaphore's queue and `queued` the counter the guard keeps.  The last
    three fields are its history: who came, who was granted a permit, and who gave up, in order.
  */
  datatype Gate = Gate(capacity: nat, available: nat, queued: int, waiting: seq<nat>, holders: set<nat>,
                       entered: seq<nat>, granted: seq<nat>, gaveUp: set<nat>)

  function NewGate(capacity: nat): Gate {
    Gate(capacity, capacity, 0, [], {}, [], [], {})
  }

  /** `acquire`: a permit at once if one is free, else a place at the end of the queue. */
  function Entered(gate: Gate, id: nat): Gate {
    var g := gate.(entered := gate.entered + [id]);
    if gate.available > 0
    then g.(available := gate.available - 1, holders := gate.holders + {id}, granted := gate.granted + [id])
    else g.(queued := gate.queued + 1, waiting := gate.waiting + [id])
  }

  function Without(ids: seq<nat>, id: nat): seq<nat> {
    if ids == [] then [] else if ids[0] == id then ids[1..] else [ids[0]] + Without(ids[1..], id)
  }

  /** A waiter's time is up: it leaves the queue, and its guard is dropped. */
  function GivenUp(gate: Gate, id: nat): Gate
    requires id in gate.waiting
  {
    gate.(queued := gate.queued - 1, waiting := Without(gate.waiting, id), gaveUp := gate.gaveUp + {id})
  }

  /** A permit comes back: the first waiter has it at once, or it is free. */
  function Released(gate: Gate, id: nat): Gate
    requires id in gate.holders
  {
    var g := gate.(holders := gate.holders - {id});
    if gate.waiting == [] then g.(available := gate.available + 1)
    else
      var next := gate.waiting[0];
      g.(holders := g.holders + {next}, queued := gate.queued - 1, waiting := gate.waiting[1..],
        granted := gate.granted + [next])
  }

  /** The gate as the running program has it. */
  class BlockGate {
    const capacity: nat
    var available: nat
    var queued: int
    var waiting: seq<nat>
    ghost var holders: set<nat>
    ghost var entered: seq<nat>
    ghost var granted: seq<nat>
    ghost var gaveUp: set<nat>

    ghost function Contents(): Gate
      reads this
    {
      Gate(capacity, available, queued, waiting, holders, entered, granted, gaveUp)
    }

    constructor (capacity: nat)
      ensures Contents() == NewGate(capacity)
    {
      this.capacity, available, queued, waiting := capacity, capacity, 0, [];
      holders, entered, granted, gaveUp := {}, [], [], {};
    }

    /** Requests at work upstream: the capacity less the free permits, and never below zero. */
    method InFlight() returns (n: nat)
      ensures Sound(Contents()) ==> n == |holders|
    {
      return if available <= capacity then capacity - available else 0;
    }

    /** Enters the queue under a guard, and leaves it again at once if a permit is free. */
    method Acquire(id: nat) returns (admitted: bool)
      modifies this
      ensures Contents() == Entered(old(Contents()), id)
      ensures admitted == (old(available) > 0)
    {
      queued := queued + 1;
      entered := entered + [id];
      admitted := available > 0;
      if admitted {
        available := available - 1;
        holders, granted := holders + {id}, granted + [id];
        queued := queued - 1;
      } else {
        waiting := waiting + [id];
      }
    }

    method GiveUp(id: nat)
      requires id in waiting
      modifies this
      ensures Contents() == GivenUp(old(Contents()), id)
    {
      var kept, rest := [], waiting;
      while rest[0] != id
        invariant id in rest && Without(waiting, id) == kept + Without(rest, id)
        decreases |rest|
      {
        kept, rest := kept + [rest[0]], rest[1..];
      }
      waiting := kept + rest[1..];
      queued := queued - 1;
      gaveUp := gaveUp + {id};
    }

    method Release(id: nat)
      requires id in holders
      modifies this
      ensures Contents() == Released(old(Contents()), id)
    {
      holders := holders - {id};
      if waiting == [] {
        available := available + 1;
      } else {
        var next := waiting[0];
        waiting := waiting[1..];
        holders, granted := holders + {next}, granted + [next];
        queued := queued - 1;
      }
    }
  }

  // ---------- one gate ----------

  predicate Distinct(ids: seq<nat>) {
    forall i, j :: 0 <= i < j < |ids| ==> ids[i] != ids[j]
  }

  /** Those of `ids` that did not give up, in order. */
  function Staying(ids: seq<nat>, gaveUp: set<nat>): seq<nat> {
    if ids == [] then []
    else Staying(ids[..|ids| - 1], gaveUp) + (if ids[|ids| - 1] in gaveUp then [] else [ids[|ids| - 1]])
  }

  /**
    What every gate keeps: permits held and free add up to the capacity, the counter is the number of
    waiters, nobody waits while a permit is free, and permits are granted strictly in order of arrival.
  */
  ghost predicate Sound(g: Gate) {
    && |g.holders| + g.available == g.capacity
    && g.queued == |g.waiting|
    && (g.waiting != [] ==> g.available == 0)
    && Distinct(g.entered)
    && g.granted + g.waiting == Staying(g.entered, g.gaveUp)
    && (forall id :: id in g.holders ==> id in g.granted)
    && (forall id :: id in g.gaveUp ==> id in g.entered)
  }

  lemma {:induction false} StayingMembers(ids: seq<nat>, gaveUp: set<nat>, id: nat)
    ensures id in Staying(ids, gaveUp) <==> id in ids && id !in gaveUp
  {
    if ids != [] {
      var init, last := ids[..|ids| - 1], ids[|ids| - 1];
      assert ids == init + [last];
      StayingMembers(init, gaveUp, id);
    }
  }

  lemma {:induction false} StayingDistinct(ids: seq<nat>, gaveUp: set<nat>)
    requires Distinct(ids)
    ensures Distinct(Staying(ids, gaveUp))
  {
    if ids != [] {
      var init, last := ids[..|ids| - 1], ids[|ids| - 1];
      StayingDistinct(init, gaveUp);
      StayingMembers(init, gaveUp, last);
    }
  }

  lemma {:induction false} StayingIgnoresStrangers(ids: seq<nat>, gaveUp: set<nat>, id: nat)
    requires id !in ids
    ensures Staying(ids, gaveUp + {id}) == Staying(ids, gaveUp)
  {
    if ids != [] {
      assert ids[|ids| - 1] in ids;
      StayingIgnoresStrangers(ids[..|ids| - 1], gaveUp, id);
    }
  }

  lemma {:induction false} WithoutSnoc(ids: seq<nat>, last: nat, id: nat)
    ensures Without(ids + [last], id) ==
      if id in ids then Without(ids, id) + [last] else if last == id then ids else ids + [last]
  {
    if ids == [] {
      assert ids + [last] == [last];
    } else {
      assert (ids + [last])[1..] == ids[1..] + [last];
      if ids[0] != id { WithoutSnoc(ids[1..], last, id); }
    }
  }

  lemma {:induction false} StayingWithout(ids: seq<nat>, gaveUp: set<nat>, id: nat)
    requires Distinct(ids) && id in ids && id !in gaveUp
    ensures Staying(ids, gaveUp + {id}) == Without(Staying(ids, gaveUp), id)
  {
    var init, last := ids[..|ids| - 1], ids[|ids| - 1];
    assert ids == init + [last];
    StayingMembers(init, gaveUp, id);
    if last == id {
      StayingIgnoresStrangers(init, gaveUp, id);
      WithoutSnoc(Staying(init, gaveUp), last, id);
    } else {
      StayingWithout(init, gaveUp, id);
      if last in gaveUp {
        assert Staying(init, gaveUp) + [] == Staying(init, gaveUp);
        assert Staying(init, gaveUp + {id}) + [] == Staying(init, gaveUp + {id});
      } else {
        WithoutSnoc(Staying(init, gaveUp), last, id);
      }
    }
  }

  lemma {:induction false} WithoutAfter(front: seq<nat>, ids: seq<nat>, id: nat)
    requires id !in front
    ensures Without(front + ids, id) == front + Without(ids, id)
  {
    if front == [] {
      assert front + ids == ids;
    } else {
      assert (front + ids)[1..] == front[1..] + ids;
      WithoutAfter(front[1..], ids, id);
    }
  }

  lemma {:induction false} WithoutLength(ids: seq<nat>, id: nat)
    requires id in ids
    ensures |Without(ids, id)| == |ids| - 1
  {
    if ids[0] != id { WithoutLength(ids[1..], id); }
  }

  lemma DistinctParts(front: seq<nat>, back: seq<nat>, id: nat)
    requires Distinct(front + back) && id in back
    ensures id !in front
  {
    var j :| 0 <= j < |back| && back[j] == id;
    forall i | 0 <= i < |front| ensures front[i] != id {
      assert (front + back)[i] != (front + back)[|front| + j];
    }
  }

  lemma EnteringKeepsSound(g: Gate, id: nat)
    requires Sound(g) && id !in g.entered
    ensures Sound(Entered(g, id))
  {
    var all := g.entered + [id];
    assert all[..|g.entered|] == g.entered;
    StayingMembers(g.entered, g.gaveUp, id);
    assert id !in g.granted + g.waiting;
    if g.available > 0 {
      assert id !in g.granted && g.waiting == [];
      assert g.granted + [id] + [] == g.granted + g.waiting + [id];
    } else {
      assert g.granted + (g.waiting + [id]) == g.granted + g.waiting + [id];
    }
  }

  lemma GivingUpKeepsSound(g: Gate, id: nat)
    requires Sound(g) && id in g.waiting
    ensures Sound(GivenUp(g, id))
  {
    assert id in g.granted + g.waiting;
    StayingMembers(g.entered, g.gaveUp, id);
    StayingDistinct(g.entered, g.gaveUp);
    DistinctParts(g.granted, g.waiting, id);
    StayingWithout(g.entered, g.gaveUp, id);
    WithoutAfter(g.granted, g.waiting, id);
    WithoutLength(g.waiting, id);
  }

  lemma ReleasingKeepsSound(g: Gate, id: nat)
    requires Sound(g) && id in g.holders
    ensures Sound(Released(g, id))
  {
    if g.waiting != [] {
      var next := g.waiting[0];
      StayingDistinct(g.entered, g.gaveUp);
      DistinctParts(g.granted, g.waiting, next);
      assert g.granted + [next] + g.waiting[1..] == g.granted + g.waiting;
    }
  }

  // ---------- the gates of a block ----------

  /** Every gate the block ever had, and the one the table holds now. */
  datatype Table = Table(gates: seq<Gate>, current: Option<nat>)

  predicate HasCurrent(t: Table) {
    t.current.Some? ==> t.current.value < |t.gates|
  }

  /** `gate`: the table's gate, or a new one if there is none or the limit has changed. */
  function Looked(t: Table, limit: nat): (u: Table)
    requires HasCurrent(t)
    ensures HasCurrent(u) && (limit > 0 ==> u.current.Some? && u.gates[u.current.value].capacity == limit)
  {
    if limit == 0 || (t.current.Some? && t.gates[t.current.value].capacity == limit) then t
    else Table(t.gates + [NewGate(limit)], Some(|t.gates|))
  }

  /** `invalidate_gate`. */
  function Invalidated(t: Table): Table {
    t.(current := None)
  }

  type Arcs = map<nat, nat>

  /**
    The gates, the requests that have looked a gate up and not entered it yet, by the gate they hold, and
    the number of the next request.
  */
  datatype State = State(table: Table, arcs: Arcs, next: nat)

  const START := State(Table([], None), map[], 0)

  /**
    A request looks its gate up under the table's lock and enters it later, when the table may have moved
    on.  `Look` is the panel's look-up, which holds no gate.  `g` names a gate and `id` a request; a step for
    one that is not there does nothing.
  */
  datatype Step =
    | LookUp(limit: nat)
    | Enter(id: nat)
    | Cancel(id: nat)
    | Look(limit: nat)
    | GiveUp(g: nat, id: nat)
    | Release(g: nat, id: nat)
    | Invalidate

  /** A sound gate whose requests are numbered below `next` and hold no look-up any more. */
  ghost predicate Fits(gate: Gate, arcs: Arcs, next: nat) {
    Sound(gate) && forall id :: id in gate.entered ==> id < next && id !in arcs
  }

  ghost predicate AllFit(gates: seq<Gate>, arcs: Arcs, next: nat) {
    forall g :: 0 <= g < |gates| ==> Fits(gates[g], arcs, next)
  }

  ghost predicate Valid(s: State) {
    && HasCurrent(s.table) && AllFit(s.table.gates, s.arcs, s.next)
    && (forall id :: id in s.arcs ==> id < s.next && s.arcs[id] < |s.table.gates|)
  }

  /** The step makes a request leave gate `g`. */
  predicate Departs(s: State, step: Step, g: nat) {
    g < |s.table.gates| &&
    ((step.GiveUp? && step.g == g && step.id in s.table.gates[g].waiting) ||
      (step.Release? && step.g == g && step.id in s.table.gates[g].holders))
  }

  /** The step makes a request enter gate `g`. */
  predicate Enters(s: State, step: Step, g: nat) {
    step.Enter? && step.id in s.arcs && s.arcs[step.id] == g
  }

  /** The step makes a request that holds gate `g` go away without entering. */
  predicate Drops(s: State, step: Step, g: nat) {
    step.Cancel? && step.id in s.arcs && s.arcs[step.id] == g
  }

  function WithGate(s: State, g: nat, gate: Gate): State
    requires g < |s.table.gates|
  {
    s.(table := s.table.(gates := s.table.gates[g := gate]))
  }

  function Apply(s: State, step: Step): State
    requires HasCurrent(s.table)
  {
    match step
    case LookUp(limit) =>
      if limit == 0 then s
      else
        var t := Looked(s.table, limit);
        State(t, s.arcs[s.next := t.current.value], s.next + 1)
    case Enter(id) =>
      if id in s.arcs && s.arcs[id] < |s.table.gates|
      then WithGate(s, s.arcs[id], Entered(s.table.gates[s.arcs[id]], id)).(arcs := s.arcs - {id}) else s
    case Cancel(id) => s.(arcs := s.arcs - {id})
    case Look(limit) => s.(table := Looked(s.table, limit))
    case GiveUp(g, id) =>
      if g < |s.table.gates| && id in s.table.gates[g].waiting then WithGate(s, g, GivenUp(s.table.gates[g], id)) else s
    case Release(g, id) =>
      if g < |s.table.gates| && id in s.table.gates[g].holders then WithGate(s, g, Released(s.table.gates[g], id))
      else s
    case Invalidate => s.(table := Invalidated(s.table))
  }

  function After(s: State, steps: seq<Step>): (t: State)
    requires HasCurrent(s.table)
    ensures HasCurrent(t.table)
    decreases |steps|
  {
    if steps == [] then s else After(Apply(s, steps[0]), steps[1..])
  }

  /** Fewer look-ups, or one more by the next request, leave the gates fitting. */
  lemma AllStillFit(gates: seq<Gate>, arcs: Arcs, next: nat, arcs': Arcs, next': nat)
    requires AllFit(gates, arcs, next) && next <= next' && forall id :: id in arcs' ==> id in arcs || id >= next
    ensures AllFit(gates, arcs', next')
  {
    forall g | 0 <= g < |gates| ensures Fits(gates[g], arcs', next') {
      assert Fits(gates[g], arcs, next);
    }
  }

  lemma LookedKeepsValid(s: State, limit: nat)
    requires Valid(s)
    ensures Valid(s.(table := Looked(s.table, limit)))
  {
    assert Fits(NewGate(limit), s.arcs, s.next);
  }

  lemma ReplacedKeepsValid(s: State, g: nat, gate: Gate)
    requires Valid(s) && g < |s.table.gates| && Sound(gate) && gate.entered == s.table.gates[g].entered
    ensures Valid(WithGate(s, g, gate))
  {
    assert Fits(s.table.gates[g], s.arcs, s.next);
  }

  lemma EntryKeepsValid(s: State, id: nat)
    requires Valid(s) && id in s.arcs
    ensures Valid(Apply(s, Enter(id)))
  {
    var g, arcs := s.arcs[id], s.arcs - {id};
    assert Fits(s.table.gates[g], s.arcs, s.next);
    EnteringKeepsSound(s.table.gates[g], id);
    AllStillFit(s.table.gates, s.arcs, s.next, arcs, s.next);
    assert Fits(Entered(s.table.gates[g], id), arcs, s.next);
  }

  lemma StepKeepsValid(s: State, step: Step)
    requires Valid(s)
    ensures Valid(Apply(s, step))
  {
    match step
    case LookUp(limit) =>
      if limit != 0 {
        LookedKeepsValid(s, limit);
      }
    case Enter(id) => if id in s.arcs { EntryKeepsValid(s, id); }
    case Cancel(id) => AllStillFit(s.table.gates, s.arcs, s.next, s.arcs - {id}, s.next);
    case Look(limit) => LookedKeepsValid(s, limit);
    case GiveUp(g, id) =>
      if g < |s.table.gates| && id in s.table.gates[g].waiting {
        GivingUpKeepsSound(s.table.gates[g], id);
        ReplacedKeepsValid(s, g, GivenUp(s.table.gates[g], id));
      }
    case Release(g, id) =>
      if g < |s.table.gates| && id in s.table.gates[g].holders {
        ReleasingKeepsSound(s.table.gates[g], id);
        ReplacedKeepsValid(s, g, Released(s.table.gates[g], id));
      }
    case Invalidate =>
  }

  /** Every gate is sound after any run, whatever happens between a look-up and its entry. */
  lemma {:induction false} EveryGateStaysSound(s: State, steps: seq<Step>)
    requires Valid(s)
    ensures Valid(After(s, steps))
    decreases |steps|
  {
    if steps != [] {
      StepKeepsValid(s, steps[0]);
      EveryGateStaysSound(Apply(s, steps[0]), steps[1..]);
    }
  }

  // ---------- the total in flight ----------

  function InFlight(gates: seq<Gate>): nat {
    if gates == [] then 0 else InFlight(gates[..|gates| - 1]) + |gates[|gates| - 1].holders|
  }

  predicate InUse(g: Gate) {
    g.holders != {} || g.waiting != []
  }

  /** The capacities of the gates that are in use, and of the current one. */
  function OpenCapacity(gates: seq<Gate>, current: Option<nat>): nat {
    if gates == [] then 0
    else
      var n := |gates| - 1;
      OpenCapacity(gates[..n], current) + if InUse(gates[n]) || current == Some(n) then gates[n].capacity else 0
  }

  lemma {:induction false} HeldWithinOpenCapacity(gates: seq<Gate>, current: Option<nat>)
    requires forall g :: 0 <= g < |gates| ==> |gates[g].holders| <= gates[g].capacity
    ensures InFlight(gates) <= OpenCapacity(gates, current)
  {
    if gates != [] {
      var n := |gates| - 1;
      HeldWithinOpenCapacity(gates[..n], current);
      assert gates[n].holders == {} ==> |gates[n].holders| == 0;
    }
  }

  lemma {:induction false} OnlyCurrentHolds(gates: seq<Gate>, current: Option<nat>)
    requires forall g :: 0 <= g < |gates| && current != Some(g) ==> gates[g].holders == {}
    ensures InFlight(gates) == if current.Some? && current.value < |gates| then |gates[current.value].holders| else 0
  {
    if gates != [] {
      var n := |gates| - 1;
      OnlyCurrentHolds(gates[..n], current);
      if current == Some(n) {
        assert forall g :: 0 <= g < n ==> gates[..n][g].holders == {};
      }
    }
  }

  /**
    After any run, late entries included, the requests in flight are at most the capacities of the gates
    still in use plus the current one's; and while every other gate is empty, at most the current capacity.
  */
  lemma {:induction false} InFlightIsBounded(steps: seq<Step>)
    ensures var t := After(START, steps).table;
      && InFlight(t.gates) <= OpenCapacity(t.gates, t.current)
      && ((forall g :: 0 <= g < |t.gates| && t.current != Some(g) ==> t.gates[g].holders == {}) ==>
            InFlight(t.gates) <= if t.current.Some? then t.gates[t.current.value].capacity else 0)
  {
    EveryGateStaysSound(START, steps);
    var t := After(START, steps).table;
    HeldWithinOpenCapacity(t.gates, t.current);
    if forall g :: 0 <= g < |t.gates| && t.current != Some(g) ==> t.gates[g].holders == {} {
      OnlyCurrentHolds(t.gates, t.current);
    }
  }

  // ---------- a limit that stays ----------

  /** Whoever looks a gate up asks for this limit, or for none, and the block is not deleted. */
  predicate Steady(steps: seq<Step>, limit: nat) {
    forall i :: 0 <= i < |steps| ==>
      steps[i] != Invalidate && (steps[i].LookUp? || steps[i].Look? ==> steps[i].limit == limit || steps[i].limit == 0)
  }

  /** The block has had one gate at most, and that one is the table's. */
  predicate OneGate(t: Table, limit: nat) {
    t == Table([], None) || (|t.gates| == 1 && t.current == Some(0) && t.gates[0].capacity == limit)
  }

  lemma StepKeepsOneGate(s: State, step: Step, limit: nat)
    requires OneGate(s.table, limit) && limit > 0 && Steady([step], limit)
    ensures OneGate(Apply(s, step).table, limit)
  {
    assert [step][0] == step;
  }

  lemma {:induction false} SteadyKeepsOneGate(s: State, steps: seq<Step>, limit: nat)
    requires OneGate(s.table, limit) && limit > 0 && Steady(steps, limit)
    ensures OneGate(After(s, steps).table, limit)
    decreases |steps|
  {
    if steps != [] {
      StepKeepsOneGate(s, steps[0], limit);
      SteadyKeepsOneGate(Apply(s, steps[0]), steps[1..], limit);
    }
  }

  /**
    THE LIMIT HOLDS.  While a block's limit does not change and the block is not deleted, all its requests
    share one gate, and never more than the limit are in flight.
  */
  lemma SteadyLimitHolds(steps: seq<Step>, limit: nat)
    requires limit > 0 && Steady(steps, limit)
    ensures var t := After(START, steps).table;
      |t.gates| <= 1 && InFlight(t.gates) <= limit
  {
    SteadyKeepsOneGate(START, steps, limit);
    EveryGateStaysSound(START, steps);
    var s := After(START, steps);
    if s.table.gates != [] {
      assert Fits(s.table.gates[0], s.arcs, s.next);
      assert s.table.gates[..0] == [] && InFlight([]) == 0;
    }
  }

  /** Once the block is deleted none of the gates it had is handed out again. */
  lemma DeletedGatesStayRetired(s: State, steps: seq<Step>, g: nat)
    requires Valid(s) && g < |s.table.gates|
    ensures After(Apply(s, Invalidate), steps).table.current != Some(g)
  {
    RetiredGateDrains(Apply(s, Invalidate), steps, g);
  }

  // ---------- retired gates drain ----------

  function Load(g: Gate): nat {
    |g.holders| + |g.waiting|
  }

  /** The requests that hold gate `g` from a look-up and have not entered it. */
  function Outstanding(arcs: Arcs, g: nat): set<nat> {
    set id | id in arcs && arcs[id] == g
  }

  /** How many steps of a run are departures from, entries into, or dropped look-ups of gate `g`. */
  datatype Traffic = Traffic(departures: nat, entries: nat, drops: nat)

  function TrafficOf(s: State, step: Step, g: nat): Traffic {
    Traffic(
      if Departs(s, step, g) then 1 else 0,
      if Enters(s, step, g) then 1 else 0,
      if Drops(s, step, g) then 1 else 0)
  }

  function TotalTraffic(s: State, steps: seq<Step>, g: nat): Traffic
    requires HasCurrent(s.table)
    decreases |steps|
  {
    if steps == [] then Traffic(0, 0, 0)
    else
      var first, rest := TrafficOf(s, steps[0], g), TotalTraffic(Apply(s, steps[0]), steps[1..], g);
      Traffic(first.departures + rest.departures, first.entries + rest.entries, first.drops + rest.drops)
  }

  lemma DepartureLightens(gate: Gate, id: nat)
    requires Sound(gate)
    ensures id in gate.waiting ==> Load(GivenUp(gate, id)) == Load(gate) - 1
    ensures id in gate.holders ==> Load(Released(gate, id)) == Load(gate) - 1
  {
    if id in gate.waiting { WithoutLength(gate.waiting, id); }
    if id in gate.holders { ReleasingKeepsSound(gate, id); }
  }

  lemma EntryLoads(gate: Gate, id: nat)
    requires Sound(gate) && id !in gate.entered
    ensures Load(Entered(gate, id)) == Load(gate) + 1
  {
    StayingMembers(gate.entered, gate.gaveUp, id);
    assert id !in gate.granted + gate.waiting;
    assert id in gate.granted ==> id in gate.granted + gate.waiting;
  }

  /** What a step makes of one gate. */
  function GateAfter(s: State, step: Step, g: nat): Gate
    requires g < |s.table.gates|
  {
    if Enters(s, step, g) then Entered(s.table.gates[g], step.id)
    else if !Departs(s, step, g) then s.table.gates[g]
    else if step.GiveUp? then GivenUp(s.table.gates[g], step.id)
    else Released(s.table.gates[g], step.id)
  }

  lemma RetiredStaysRetired(s: State, step: Step, g: nat)
    requires HasCurrent(s.table) && g < |s.table.gates| && s.table.current != Some(g)
    ensures var t := Apply(s, step).table;
      g < |t.gates| && t.current != Some(g) && t.gates[g] == GateAfter(s, step, g)
  {
  }

  lemma RetiredLoad(s: State, step: Step, g: nat)
    requires Valid(s) && g < |s.table.gates| && s.table.current != Some(g)
    ensures var t := Apply(s, step);
      && g < |t.table.gates| && t.table.current != Some(g)
      && Load(t.table.gates[g]) + TrafficOf(s, step, g).departures ==
        Load(s.table.gates[g]) + TrafficOf(s, step, g).entries
  {
    RetiredStaysRetired(s, step, g);
    assert Fits(s.table.gates[g], s.arcs, s.next);
    if Enters(s, step, g) {
      EntryLoads(s.table.gates[g], step.id);
    } else if Departs(s, step, g) {
      DepartureLightens(s.table.gates[g], step.id);
    }
  }

  lemma LessOneLookUp(arcs: Arcs, id: nat, g: nat)
    ensures |Outstanding(arcs - {id}, g)| + (if id in arcs && arcs[id] == g then 1 else 0) == |Outstanding(arcs, g)|
  {
    if id in arcs && arcs[id] == g {
      assert Outstanding(arcs, g) == Outstanding(arcs - {id}, g) + {id};
    } else {
      assert Outstanding(arcs, g) == Outstanding(arcs - {id}, g);
    }
  }

  lemma RetiredLookUps(s: State, step: Step, g: nat)
    requires Valid(s) && g < |s.table.gates| && s.table.current != Some(g)
    ensures |Outstanding(Apply(s, step).arcs, g)| + TrafficOf(s, step, g).entries + TrafficOf(s, step, g).drops ==
      |Outstanding(s.arcs, g)|
  {
    if step.Enter? || step.Cancel? {
      LessOneLookUp(s.arcs, step.id, g);
      assert step.id !in s.arcs ==> s.arcs - {step.id} == s.arcs;
    } else if step.LookUp? && step.limit > 0 {
      var arcs := s.arcs[s.next := Looked(s.table, step.limit).current.value];
      assert Outstanding(arcs, g) == Outstanding(s.arcs, g);
    }
  }

  /**
    A gate that was replaced or removed never comes back, and only those who looked it up before can still
    enter it: its load changes by entries and departures alone, and the look-ups outstanding when it was
    retired are used up by entries and drops.  So no more enter it than were outstanding, and it is empty
    for good once all of those and all its requests have gone.
  */
  lemma {:induction false} RetiredGateDrains(s: State, steps: seq<Step>, g: nat)
    requires Valid(s) && g < |s.table.gates| && s.table.current != Some(g)
    ensures var t, traffic := After(s, steps), TotalTraffic(s, steps, g);
      && g < |t.table.gates| && t.table.current != Some(g)
      && Load(t.table.gates[g]) + traffic.departures == Load(s.table.gates[g]) + traffic.entries
      && |Outstanding(t.arcs, g)| + traffic.entries + traffic.drops == |Outstanding(s.arcs, g)|
    decreases |steps|
  {
    if steps != [] {
      StepKeepsValid(s, steps[0]);
      RetiredLoad(s, steps[0], g);
      RetiredLookUps(s, steps[0], g);
      RetiredGateDrains(Apply(s, steps[0]), steps[1..], g);
    }
  }

  /** One entry by a request whose look-up is outstanding. */
  lemma OutstandingEnters(s: State, g: nat, id: nat)
    requires Valid(s) && id in Outstanding(s.arcs, g)
    ensures TotalTraffic(s, [Enter(id)], g).entries == 1
  {
    assert Enters(s, Enter(id), g);
    assert [Enter(id)][1..] == [];
    assert TotalTraffic(Apply(s, Enter(id)), [], g) == Traffic(0, 0, 0);
  }

  /** A gate that is not the table's takes nobody in, whatever happens, exactly if no look-up of it is outstanding. */
  lemma RetiredGateAdmitsNobodyExactly(s: State, g: nat)
    requires Valid(s) && g < |s.table.gates| && s.table.current != Some(g)
    ensures (forall steps :: TotalTraffic(s, steps, g).entries == 0) <==> Outstanding(s.arcs, g) == {}
  {
    if Outstanding(s.arcs, g) == {} {
      forall steps ensures TotalTraffic(s, steps, g).entries == 0 {
        RetiredGateDrains(s, steps, g);
      }
    } else {
      var id :| id in Outstanding(s.arcs, g);
      OutstandingEnters(s, g, id);
    }
  }

  /** The late entries are real: a gate replaced between a request's look-up and its entry takes that request in. */
  lemma RetiredGateCanFill(limit: nat, other: nat)
    requires limit > 0 && other > 0 && limit != other
    ensures var s := After(START, [LookUp(limit), Look(other)]);
      && s.table.current == Some(1) && Outstanding(s.arcs, 0) == {0}
      && Load(s.table.gates[0]) == 0 && Load(Apply(s, Enter(0)).table.gates[0]) == 1
  {
    var looked := State(Table([NewGate(limit)], Some(0)), map[0 := 0], 1);
    var s := State(Table([NewGate(limit), NewGate(other)], Some(1)), map[0 := 0], 1);
    FirstLookUp(limit, looked);
    ReplacedNext(limit, other, looked, s);
    TwoSteps(START, LookUp(limit), Look(other), looked, s);
    EntryLoads(NewGate(limit), 0);
  }

  lemma FirstLookUp(limit: nat, looked: State)
    requires limit > 0 && looked == State(Table([NewGate(limit)], Some(0)), map[0 := 0], 1)
    ensures Apply(START, LookUp(limit)) == looked
  {
  }

  lemma ReplacedNext(limit: nat, other: nat, looked: State, replaced: State)
    requires limit > 0 && other > 0 && limit != other
    requires looked == State(Table([NewGate(limit)], Some(0)), map[0 := 0], 1)
    requires replaced == State(Table([NewGate(limit), NewGate(other)], Some(1)), map[0 := 0], 1)
    ensures Apply(looked, Look(other)) == replaced
  {
  }

  lemma {:induction false} TwoSteps(s: State, first: Step, second: Step, t: State, u: State)
    requires HasCurrent(s.table) && t == Apply(s, first) && HasCurrent(t.table) && u == Apply(t, second)
    ensures After(s, [first, second]) == u
  {
    assert [first, second][1..] == [second] && [second][1..] == [];
    assert After(u, []) == u;
    assert After(t, [second]) == After(u, []);
  }
}
