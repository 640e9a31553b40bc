/** The map of running invocations: what a tracking owns, how input and cancellation
    find it, and what goes wrong once the map has been emptied under live trackings.

    A tracking's identity stands for its cancellation token, its input buffer and its
    overflow flag, which the map entry and the tracking share. */
module ActiveInvocations {
  import opened ByteStrings
  import Duplex

  type Tracking = nat

  datatype Entry = Entry(owner: Tracking, node: string)

  datatype Table = Table(
    entries: map<string, Entry>,
    buffers: map<Tracking, Duplex.Input>,
    cancelled: set<Tracking>,
    overflowed: set<Tracking>)

  const EMPTY_TABLE := Table(map[], map[], {}, {})

  function Closed(buffers: map<Tracking, Duplex.Input>, owners: set<Tracking>): map<Tracking, Duplex.Input> {
    map t | t in buffers :: if t in owners then Duplex.CloseStep(buffers[t]) else buffers[t]
  }

  /** Takes the id for a new tracking, unless it is taken. */
  function TrackStep(tab: Table, t: Tracking, id: string, node: string, duplex: bool): (Table, bool) {
    if id in tab.entries then (tab, false)
    else
      (tab.(entries := tab.entries[id := Entry(t, node)],
            buffers := if duplex then tab.buffers[t := Duplex.EMPTY_INPUT] else tab.buffers),
       true)
  }

  function UntrackStep(tab: Table, id: string): Table {
    if id in tab.entries then
      tab.(entries := tab.entries - {id}, buffers := Closed(tab.buffers, {tab.entries[id].owner}))
    else tab
  }

  /** A tracking goes away; it cancels its invocation unless it has been disarmed. */
  function DropStep(tab: Table, t: Tracking, id: string, armed: bool): Table {
    UntrackStep(if armed then tab.(cancelled := tab.cancelled + {t}) else tab, id)
  }

  function CancelStep(tab: Table, id: string): Table {
    if id in tab.entries then
      var owner := tab.entries[id].owner;
      tab.(cancelled := tab.cancelled + {owner}, buffers := Closed(tab.buffers, {owner}))
    else tab
  }

  function InputStep(tab: Table, id: string, node: string, seqNo: U64, payload: Bytes): (Table, Duplex.Disposition) {
    if id !in tab.entries || tab.entries[id].node != node then (tab, Duplex.Ignored)
    else
      var owner := tab.entries[id].owner;
      if owner !in tab.buffers then (tab, Duplex.Ignored)
      else
        var (buffer, disposition) := Duplex.PushStep(tab.buffers[owner], Duplex.PENDING_INPUT_BYTES, seqNo, payload);
        (tab.(buffers := tab.buffers[owner := buffer],
              overflowed := if disposition.Overflow? then tab.overflowed + {owner} else tab.overflowed),
         disposition)
  }

  /** What the run loop does with an input event. */
  function RouteInputStep(tab: Table, id: string, node: string, seqNo: U64, payload: Bytes): Table {
    var (after, disposition) := InputStep(tab, id, node, seqNo, payload);
    if disposition.Overflow? then CancelStep(after, id) else after
  }

  function Owners(entries: map<string, Entry>): set<Tracking> {
    set id | id in entries :: entries[id].owner
  }

  function CancelAllStep(tab: Table): Table {
    var owners := Owners(tab.entries);
    tab.(entries := map[], cancelled := tab.cancelled + owners, buffers := Closed(tab.buffers, owners))
  }

  class ActiveInvocations {
    var entries: map<string, Entry>
    var buffers: map<Tracking, Duplex.Input>
    var cancelled: set<Tracking>
    var overflowed: set<Tracking>

    ghost function View(): Table
      reads this
    {
      Table(entries, buffers, cancelled, overflowed)
    }

    constructor ()
      ensures View() == EMPTY_TABLE
    {
      entries, buffers, cancelled, overflowed := map[], map[], {}, {};
    }

    method Track(t: Tracking, id: string, node: string, duplex: bool) returns (tracked: bool)
      modifies this
      ensures (View(), tracked) == TrackStep(old(View()), t, id, node, duplex)
    {
      if id in entries { return false; }
      if duplex { buffers := buffers[t := Duplex.EMPTY_INPUT]; }
      entries := entries[id := Entry(t, node)];
      tracked := true;
    }

    method Untrack(id: string)
      modifies this`entries, this`buffers
      ensures View() == UntrackStep(old(View()), id)
    {
      if id in entries {
        var owner := entries[id].owner;
        entries := entries - {id};
        CloseInput(owner);
      }
    }

    method CloseInput(owner: Tracking)
      modifies this`buffers
      ensures buffers == Closed(old(buffers), {owner})
    {
      if owner in buffers {
        buffers := buffers[owner := Duplex.CloseStep(buffers[owner])];
      }
      assert buffers == Closed(old(buffers), {owner});
    }

    method Drop(t: Tracking, id: string, armed: bool)
      modifies this
      ensures View() == DropStep(old(View()), t, id, armed)
    {
      if armed { cancelled := cancelled + {t}; }
      Untrack(id);
    }

    method Cancel(id: string)
      modifies this`cancelled, this`buffers
      ensures View() == CancelStep(old(View()), id)
    {
      if id in entries {
        var owner := entries[id].owner;
        cancelled := cancelled + {owner};
        CloseInput(owner);
      }
    }

    method Input(id: string, node: string, seqNo: U64, payload: Bytes) returns (disposition: Duplex.Disposition)
      modifies this`buffers, this`overflowed
      ensures (View(), disposition) == InputStep(old(View()), id, node, seqNo, payload)
    {
      if id !in entries { return Duplex.Ignored; }
      if entries[id].node != node { return Duplex.Ignored; }
      var owner := entries[id].owner;
      if owner !in buffers { return Duplex.Ignored; }
      var (buffer, what) := Duplex.PushStep(buffers[owner], Duplex.PENDING_INPUT_BYTES, seqNo, payload);
      buffers := buffers[owner := buffer];
      if what.Overflow? { overflowed := overflowed + {owner}; }
      disposition := what;
    }

    method RouteInput(id: string, node: string, seqNo: U64, payload: Bytes)
      modifies this
      ensures View() == RouteInputStep(old(View()), id, node, seqNo, payload)
    {
      var disposition := Input(id, node, seqNo, payload);
      if disposition.Overflow? { Cancel(id); }
    }

    /** Empties the map first, then cancels and closes what was in it, one by one. */
    method CancelAll()
      modifies this`entries, this`cancelled, this`buffers
      ensures View() == CancelAllStep(old(View()))
    {
      var active := entries;
      entries := map[];
      ghost var done: set<string> := {};
      var left := active.Keys;
      assert Closed(buffers, {}) == buffers;
      while left != {}
        invariant entries == map[] && left !! done && left + done == active.Keys
        invariant cancelled == old(cancelled) + OwnersOf(active, done)
        invariant buffers == Closed(old(buffers), OwnersOf(active, done))
        decreases left
      {
        var id :| id in left;
        var owner := active[id].owner;
        OneMoreOwner(old(buffers), active, done, id);
        cancelled := cancelled + {owner};
        CloseInput(owner);
        left := left - {id};
        done := done + {id};
      }
      assert done == active.Keys;
      assert OwnersOf(active, done) == Owners(active);
    }
  }

  ghost function OwnersOf(entries: map<string, Entry>, ids: set<string>): set<Tracking> {
    set id | id in entries && id in ids :: entries[id].owner
  }

  lemma OneMoreOwner(buffers: map<Tracking, Duplex.Input>, entries: map<string, Entry>, ids: set<string>, id: string)
    requires id in entries
    ensures OwnersOf(entries, ids + {id}) == OwnersOf(entries, ids) + {entries[id].owner}
    ensures Closed(Closed(buffers, OwnersOf(entries, ids)), {entries[id].owner})
         == Closed(buffers, OwnersOf(entries, ids + {id}))
  {
  }

  // ---- any number of users over one map ----

  datatype World = World(table: Table, live: map<Tracking, string>, next: Tracking)

  datatype Action =
    | Track(id: string, node: string, duplex: bool)
    | Drop(t: Tracking, armed: bool)
    | Cancel(id: string)
    | Input(id: string, node: string, seqNo: U64, payload: Bytes)
    | CancelAll

  predicate Enabled(w: World, a: Action) {
    a.Drop? ==> a.t in w.live
  }

  function Step(w: World, a: Action): World
    requires Enabled(w, a)
  {
    match a
    case Track(id, node, duplex) =>
      var (table, tracked) := TrackStep(w.table, w.next, id, node, duplex);
      if tracked then World(table, w.live[w.next := id], w.next + 1) else w
    case Drop(t, armed) => w.(table := DropStep(w.table, t, w.live[t], armed), live := w.live - {t})
    case Cancel(id) => w.(table := CancelStep(w.table, id))
    case Input(id, node, seqNo, payload) => w.(table := RouteInputStep(w.table, id, node, seqNo, payload))
    case CancelAll => w.(table := CancelAllStep(w.table))
  }

  const INITIAL_WORLD := World(EMPTY_TABLE, map[], 0)

  /** A live tracking is the one its id leads to. */
  predicate Owns(w: World, t: Tracking)
    requires t in w.live
  {
    w.live[t] in w.table.entries && w.table.entries[w.live[t]].owner == t
  }

  ghost predicate WorldOk(w: World) {
    && (forall t :: t in w.live ==> t < w.next)
    && forall id :: id in w.table.entries ==>
         w.table.entries[id].owner in w.live && w.live[w.table.entries[id].owner] == id
  }

  /** The keys of the map are exactly the ids of the live trackings, one each. */
  ghost predicate Faithful(w: World) {
    WorldOk(w) && forall t :: t in w.live ==> Owns(w, t)
  }

  ghost predicate IsRun(w: World, actions: seq<Action>)
    decreases |actions|
  {
    actions == [] || (Enabled(w, actions[0]) && IsRun(Step(w, actions[0]), actions[1..]))
  }

  ghost predicate FaithfulThroughout(w: World, actions: seq<Action>)
    requires IsRun(w, actions)
    decreases |actions|
  {
    Faithful(w) && (actions != [] ==> FaithfulThroughout(Step(w, actions[0]), actions[1..]))
  }

  ghost predicate EmptiedOnlyWhenIdle(w: World, actions: seq<Action>)
    requires IsRun(w, actions)
    decreases |actions|
  {
    actions != [] ==>
      && (actions[0].CancelAll? ==> w.live == map[])
      && EmptiedOnlyWhenIdle(Step(w, actions[0]), actions[1..])
  }

  /** A duplicate id is turned away and changes nothing, so it cannot remove the
      original either. */
  lemma DuplicatesChangeNothing(w: World, id: string, node: string, duplex: bool)
    requires Faithful(w)
    ensures (exists t :: t in w.live && w.live[t] == id) ==> Step(w, Track(id, node, duplex)) == w
    ensures !(exists t :: t in w.live && w.live[t] == id) ==>
      var w' := Step(w, Track(id, node, duplex));
      && w'.live == w.live[w.next := id] && Owns(w', w.next) && w'.table.entries[id].node == node
      && w'.table.entries - {id} == w.table.entries
      && w'.table.buffers == (if duplex then w.table.buffers[w.next := Duplex.EMPTY_INPUT] else w.table.buffers)
      && w'.table.cancelled == w.table.cancelled && w'.table.overflowed == w.table.overflowed
  {
    if exists t :: t in w.live && w.live[t] == id {
      var t :| t in w.live && w.live[t] == id;
      assert Owns(w, t);
    }
  }

  /** While the map is faithful, a tracking that goes takes its own entry and buffer
      with it and touches no other. */
  lemma DropTakesOnlyItsOwn(w: World, t: Tracking, armed: bool, u: Tracking)
    requires Faithful(w) && t in w.live && u in w.live && u != t
    ensures var w' := Step(w, Drop(t, armed));
            && w.live[t] !in w'.table.entries && u in w'.live && Owns(w', u)
            && (t in w.table.buffers ==> t in w'.table.buffers && w'.table.buffers[t] == Duplex.CloseStep(w.table.buffers[t]))
            && (t in w'.table.cancelled <==> armed || t in w.table.cancelled)
            && (u in w.table.buffers ==> u in w'.table.buffers && w'.table.buffers[u] == w.table.buffers[u])
            && (u in w'.table.cancelled <==> u in w.table.cancelled)
  {
    assert Owns(w, t) && Owns(w, u);
  }

  /** Emptying the map cancels and closes every live invocation, and nobody else. */
  lemma CancelAllReachesEveryone(w: World, t: Tracking)
    requires Faithful(w)
    ensures var after := Step(w, CancelAll).table;
            && after.entries == map[] && after.overflowed == w.table.overflowed
            && (t in after.cancelled <==> t in w.live || t in w.table.cancelled)
            && (t in w.table.buffers <==> t in after.buffers)
            && (t in w.table.buffers ==>
                  after.buffers[t] == if t in w.live then Duplex.CloseStep(w.table.buffers[t]) else w.table.buffers[t])
  {
    if t in w.live { assert Owns(w, t); }
  }

  /** Input that names no live duplex invocation on its own node, and a cancellation that
      names no live one, go nowhere. */
  lemma StrayControlIsIgnored(w: World, id: string, node: string, seqNo: U64, payload: Bytes)
    requires Faithful(w)
    ensures (forall t :: t in w.live && w.live[t] == id ==> w.table.entries[id].node != node || t !in w.table.buffers) ==>
              Step(w, Input(id, node, seqNo, payload)) == w
    ensures (forall t :: t in w.live ==> w.live[t] != id) ==> Step(w, Cancel(id)) == w
  {
  }

  /** While the map is faithful, a cancellation reaches the invocation with that id and
      no other. */
  lemma CancelReachesItsOwn(w: World, t: Tracking, u: Tracking)
    requires Faithful(w) && t in w.live && u in w.live && u != t
    ensures var after := Step(w, Cancel(w.live[t])).table;
            && t in after.cancelled && (t in w.table.buffers ==> after.buffers[t] == Duplex.CloseStep(w.table.buffers[t]))
            && (u in after.cancelled <==> u in w.table.cancelled)
            && (u in w.table.buffers ==> u in after.buffers && after.buffers[u] == w.table.buffers[u])
  {
    assert Owns(w, t) && Owns(w, u);
  }

  /** Input that overflows a buffer flags, cancels and closes the invocation it was for;
      input that fits is taken; either way no other invocation notices. */
  lemma OverflowStopsItsOwn(w: World, t: Tracking, u: Tracking, seqNo: U64, payload: Bytes)
    requires Faithful(w) && t in w.live && u in w.live && u != t && t in w.table.buffers
    ensures var entry := w.table.entries[w.live[t]];
            var (pushed, disposition) := Duplex.PushStep(w.table.buffers[t], Duplex.PENDING_INPUT_BYTES, seqNo, payload);
            var after := Step(w, Input(w.live[t], entry.node, seqNo, payload)).table;
            && (disposition.Overflow? ==> t in after.overflowed && t in after.cancelled && after.buffers[t].closed)
            && (!disposition.Overflow? ==>
                  after.buffers[t] == pushed && after.overflowed == w.table.overflowed && after.cancelled == w.table.cancelled)
            && (u in after.cancelled <==> u in w.table.cancelled) && (u in after.overflowed <==> u in w.table.overflowed)
            && (u in w.table.buffers ==> u in after.buffers && after.buffers[u] == w.table.buffers[u])
  {
    assert Owns(w, t) && Owns(w, u);
  }

  lemma StepKeepsFaithful(w: World, a: Action)
    requires Faithful(w) && Enabled(w, a)
    ensures Faithful(Step(w, a)) <==> (a.CancelAll? ==> w.live == map[])
  {
    var w' := Step(w, a);
    match a
    case Track(id, _, _) =>
      forall t | t in w'.live ensures Owns(w', t) {
        if t in w.live { assert Owns(w, t); }
      }
    case Drop(t, _) =>
      assert Owns(w, t);
      forall u | u in w'.live ensures Owns(w', u) { assert Owns(w, u); }
    case CancelAll =>
      if w.live != map[] {
        var t :| t in w.live;
        assert !Owns(w', t);
      }
    case _ =>
      assert w'.table.entries == w.table.entries;
      forall u | u in w'.live ensures Owns(w', u) { assert Owns(w, u); }
  }

  /** The map names exactly the live trackings throughout a run precisely when it is
      only ever emptied while no tracking is alive. */
  lemma {:induction false} FaithfulExactlyWhen(w: World, actions: seq<Action>)
    requires Faithful(w) && IsRun(w, actions)
    ensures FaithfulThroughout(w, actions) <==> EmptiedOnlyWhenIdle(w, actions)
    decreases |actions|
  {
    if actions != [] {
      StepKeepsFaithful(w, actions[0]);
      if Faithful(Step(w, actions[0])) {
        FaithfulExactlyWhen(Step(w, actions[0]), actions[1..]);
      } else {
        assert !FaithfulThroughout(Step(w, actions[0]), actions[1..]);
      }
    }
  }

  /** Otherwise a tracking left over from before can take a newer one's entry with it:
      the newer invocation stays alive, but input no longer reaches it. */
  lemma LeftoverTakesAnothersEntry()
    ensures var actions := [Track("a", "n", true), CancelAll, Track("a", "n", true), Drop(0, true)];
            && IsRun(INITIAL_WORLD, actions)
            && var w := Step(Step(Step(Step(INITIAL_WORLD, actions[0]), actions[1]), actions[2]), actions[3]);
               && 1 in w.live && w.live[1] == "a" && "a" !in w.table.entries
               && 1 in w.table.buffers && w.table.buffers[1].closed && 1 !in w.table.cancelled
  {
    var actions := [Track("a", "n", true), CancelAll, Track("a", "n", true), Drop(0, true)];
    var w1 := Step(INITIAL_WORLD, actions[0]);
    var w2 := Step(w1, actions[1]);
    var w3 := Step(w2, actions[2]);
    assert 0 in w3.live && w3.live[0] == "a";
    var w4 := Step(w3, actions[3]);
    assert actions[1..] == [actions[1], actions[2], actions[3]];
    assert actions[2..] == [actions[2], actions[3]];
    assert IsRun(w4, []);
    assert IsRun(w3, [actions[3]]);
    assert IsRun(w2, [actions[2], actions[3]]) by { assert [actions[2], actions[3]][1..] == [actions[3]]; }
    assert IsRun(w1, actions[1..]) by { assert actions[1..][1..] == [actions[2], actions[3]]; }
  }
}
