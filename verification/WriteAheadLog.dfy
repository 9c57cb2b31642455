/**
  The write-ahead log (raiden/storage/wal.py), the two tables it uses (raiden/storage/sqlite.py) and the
  state manager (raiden/transfer/architecture.py), for an arbitrary transition function. A transition
  is a function, so replaying it is deterministic; serialisation is taken to be lossless.
 */
module WriteAheadLog {
  import opened Wrappers

  type Transition<!S, !C> = (Option<S>, C) -> S

  /** A snapshot row: the state after the state change with this identifier. */
  datatype Snapshot<S> = Snapshot(statechangeId: nat, state: Option<S>)

  datatype Identifier = Latest | At(id: nat)

  // ---------------------------------------------------------------- the tables as values

  function Fold<S, C>(t: Transition<S, C>, state: Option<S>, changes: seq<C>): Option<S>
    decreases |changes|
  {
    if changes == [] then state else Fold(t, Some(t(state, changes[0])), changes[1..])
  }

  /** Identifiers start at one and grow by one, so the row with identifier `i` is at index `i - 1`. */
  function Resolve<C>(changes: seq<C>, to: Identifier): nat {
    match to
    case Latest => |changes|
    case At(id) => id
  }

  /** The snapshot row written last among those not after `id`. */
  function ClosestSnapshot<S>(snapshots: seq<Snapshot<S>>, id: nat): Option<Snapshot<S>> {
    if snapshots == [] then None
    else
      var last := snapshots[|snapshots| - 1];
      if last.statechangeId <= id then Some(last) else ClosestSnapshot(snapshots[..|snapshots| - 1], id)
  }

  /** The rows whose identifier lies between the two, both included. */
  function Between<C>(changes: seq<C>, from: nat, to: nat): seq<C> {
    var start := if from == 0 then 0 else from - 1;
    var end := if to <= |changes| then to else |changes|;
    if start <= end then changes[start..end] else []
  }

  function Restored<S, C>(t: Transition<S, C>, changes: seq<C>, snapshots: seq<Snapshot<S>>, to: Identifier): Option<S> {
    var id := Resolve(changes, to);
    match ClosestSnapshot(snapshots, id)
    case None => Fold(t, None, Between(changes, 0, id))
    case Some(row) => Fold(t, row.state, Between(changes, row.statechangeId, id))
  }

  /** Row `i` is not after `id`, and every later row is. */
  ghost predicate LastFitting<S>(snapshots: seq<Snapshot<S>>, id: nat, i: nat) {
    && i < |snapshots| && snapshots[i].statechangeId <= id
    && forall j :: i < j < |snapshots| ==> snapshots[j].statechangeId > id
  }

  /** The closest snapshot is the last row that is not after `id`; there is none when every row is. */
  lemma {:induction false} ClosestIsLastFitting<S>(snapshots: seq<Snapshot<S>>, id: nat)
    ensures match ClosestSnapshot(snapshots, id)
            case None => forall i :: 0 <= i < |snapshots| ==> snapshots[i].statechangeId > id
            case Some(row) => exists i: nat :: LastFitting(snapshots, id, i) && snapshots[i] == row
  {
    if snapshots != [] {
      var n := |snapshots| - 1;
      if snapshots[n].statechangeId <= id {
        assert LastFitting(snapshots, id, n);
      } else {
        ClosestIsLastFitting(snapshots[..n], id);
        if ClosestSnapshot(snapshots, id).Some? {
          var i: nat :| LastFitting(snapshots[..n], id, i) && snapshots[..n][i] == ClosestSnapshot(snapshots, id).value;
          assert LastFitting(snapshots, id, i);
        }
      }
    }
  }

  /** The position in `Between` of the row with identifier `k`. */
  function PlaceOf(from: nat, k: nat): int {
    if from == 0 then k - 1 else k - from
  }

  /** `Between` holds the rows whose identifier lies between the two, all of them, in the order of the log. */
  lemma BetweenSelects<C>(changes: seq<C>, from: nat, to: nat, k: nat)
    requires 1 <= k <= |changes|
    ensures from <= k <= to <==> 0 <= PlaceOf(from, k) < |Between(changes, from, to)|
    ensures from <= k <= to ==> Between(changes, from, to)[PlaceOf(from, k)] == changes[k - 1]
    ensures |Between(changes, from, to)| <= |changes|
  {
  }

  lemma BetweenGrows<C>(changes: seq<C>, change: C, from: nat, to: nat)
    ensures Between(changes + [change], from, to)
         == Between(changes, from, to) + if from <= |changes| + 1 <= to then [change] else []
  {
  }

  // ---------------------------------------------------------------- the objects

  class Storage<S, C> {
    var changes: seq<C>
    var snapshots: seq<Snapshot<S>>

    constructor ()
      ensures changes == [] && snapshots == []
    {
      changes, snapshots := [], [];
    }

    method WriteStateChange(change: C) returns (id: nat)
      modifies this
      ensures changes == old(changes) + [change] && snapshots == old(snapshots)
      ensures id == |changes|
    {
      changes := changes + [change];
      id := |changes|;
    }

    method WriteStateSnapshot(statechangeId: nat, state: Option<S>)
      modifies this
      ensures snapshots == old(snapshots) + [Snapshot(statechangeId, state)] && changes == old(changes)
    {
      snapshots := snapshots + [Snapshot(statechangeId, state)];
    }

    /** The state of the last row that is not after the wanted change, and that row's identifier. */
    method GetSnapshotClosestToStateChange(to: Identifier) returns (from: nat, state: Option<S>)
      ensures match ClosestSnapshot(snapshots, Resolve(changes, to))
              case None => from == 0 && state == None
              case Some(row) => from == row.statechangeId && state == row.state
      ensures var bound := if to.At? then to.id else |changes|;
              if exists i :: 0 <= i < |snapshots| && snapshots[i].statechangeId <= bound
              then exists i: nat :: LastFitting(snapshots, bound, i)
                                    && from == snapshots[i].statechangeId && state == snapshots[i].state
              else from == 0 && state == None
    {
      ClosestIsLastFitting(snapshots, Resolve(changes, to));
      var id, i := Resolve(changes, to), |snapshots|;
      assert snapshots[..i] == snapshots;
      while i > 0 && snapshots[i - 1].statechangeId > id
        invariant 0 <= i <= |snapshots|
        invariant ClosestSnapshot(snapshots[..i], id) == ClosestSnapshot(snapshots, id)
        decreases i
      {
        i := i - 1;
        assert snapshots[..i + 1][..i] == snapshots[..i];
      }
      if i == 0 {
        return 0, None;
      }
      return snapshots[i - 1].statechangeId, snapshots[i - 1].state;
    }

    /** The rows between two identifiers, both included, in their order. */
    method GetStateChangesByIdentifier(from: nat, to: Identifier) returns (rows: seq<C>)
      ensures rows == Between(changes, from, Resolve(changes, to))
      ensures forall k :: 1 <= k <= |changes| ==>
        && (from <= k && (to.At? ==> k <= to.id) <==> 0 <= PlaceOf(from, k) < |rows|)
        && (from <= k && (to.At? ==> k <= to.id) ==> rows[PlaceOf(from, k)] == changes[k - 1])
    {
      var id, i := Resolve(changes, to), 0;
      rows := [];
      while i < |changes|
        invariant 0 <= i <= |changes|
        invariant rows == Between(changes[..i], from, id)
      {
        BetweenGrows(changes[..i], changes[i], from, id);
        assert changes[..i + 1] == changes[..i] + [changes[i]];
        if from <= i + 1 <= id {
          rows := rows + [changes[i]];
        }
        i := i + 1;
      }
      assert changes[..i] == changes;
      forall k | 1 <= k <= |changes|
        ensures from <= k <= id <==> 0 <= PlaceOf(from, k) < |rows|
        ensures from <= k <= id ==> rows[PlaceOf(from, k)] == changes[k - 1]
      {
        BetweenSelects(changes, from, id, k);
      }
    }
  }

  class StateManager<S, C> {
    const transition: Transition<S, C>
    var currentState: Option<S>

    constructor (transition: Transition<S, C>, currentState: Option<S>)
      ensures this.transition == transition && this.currentState == currentState
    {
      this.transition, this.currentState := transition, currentState;
    }

    method Dispatch(change: C)
      modifies this
      ensures currentState == Some(transition(old(currentState), change))
    {
      currentState := Some(transition(currentState, change));
    }
  }

  class Log<S, C> {
    const manager: StateManager<S, C>
    const storage: Storage<S, C>
    var stateChangeId: Option<nat>

    constructor (manager: StateManager<S, C>, storage: Storage<S, C>)
      ensures this.manager == manager && this.storage == storage && stateChangeId == None
    {
      this.manager, this.storage, this.stateChangeId := manager, storage, None;
    }

    ghost function View(): Wal<S, C>
      reads this, manager, storage
    {
      Wal(storage.changes, storage.snapshots, manager.currentState, stateChangeId)
    }

    method LogAndDispatch(change: C)
      modifies this, manager, storage
      ensures View() == Logged(manager.transition, old(View()), change)
    {
      var id := storage.WriteStateChange(change);
      stateChangeId := Some(id);
      manager.Dispatch(change);
    }

    method TakeSnapshot()
      modifies storage
      ensures View() == Snapshotted(old(View()))
    {
      if stateChangeId.Some? && stateChangeId.value != 0 {
        storage.WriteStateSnapshot(stateChangeId.value, manager.currentState);
      }
    }
  }

  /** Rebuilds the state from the closest snapshot by replaying the rows from there on. */
  method RestoreToStateChange<S, C>(transition: Transition<S, C>, storage: Storage<S, C>, to: Identifier)
    returns (wal: Log<S, C>)
    requires to.At? ==> to.id > 0
    ensures fresh(wal) && fresh(wal.manager) && wal.storage == storage && wal.manager.transition == transition
    ensures wal.manager.currentState == Restored(transition, storage.changes, storage.snapshots, to)
    ensures wal.stateChangeId == None
  {
    var from, state := storage.GetSnapshotClosestToStateChange(to);
    var rows := storage.GetStateChangesByIdentifier(from, to);
    var manager := new StateManager(transition, state);
    wal := new Log(manager, storage);
    var i := 0;
    while i < |rows|
      invariant 0 <= i <= |rows|
      invariant wal.manager == manager && wal.storage == storage && wal.stateChangeId == None
      invariant manager.transition == transition
      invariant Fold(transition, manager.currentState, rows[i..]) == Fold(transition, state, rows)
      modifies manager
    {
      manager.Dispatch(rows[i]);
      i := i + 1;
    }
  }

  // ---------------------------------------------------------------- runs

  datatype Wal<S, C> = Wal(
    changes: seq<C>, snapshots: seq<Snapshot<S>>, current: Option<S>, stateChangeId: Option<nat>)

  function Logged<S, C>(t: Transition<S, C>, wal: Wal<S, C>, change: C): Wal<S, C> {
    wal.(changes := wal.changes + [change], current := Some(t(wal.current, change)),
         stateChangeId := Some(|wal.changes| + 1))
  }

  function Snapshotted<S, C>(wal: Wal<S, C>): Wal<S, C> {
    if wal.stateChangeId.Some? && wal.stateChangeId.value != 0
    then wal.(snapshots := wal.snapshots + [Snapshot(wal.stateChangeId.value, wal.current)])
    else wal
  }

  function Restarted<S, C>(t: Transition<S, C>, wal: Wal<S, C>): Wal<S, C> {
    wal.(current := Restored(t, wal.changes, wal.snapshots, Latest), stateChangeId := None)
  }

  datatype WalAction<C> = DoLog(change: C) | DoSnapshot | DoRestart

  function WalStep<S, C>(t: Transition<S, C>, wal: Wal<S, C>, a: WalAction<C>): Wal<S, C> {
    match a
    case DoLog(change) => Logged(t, wal, change)
    case DoSnapshot => Snapshotted(wal)
    case DoRestart => Restarted(t, wal)
  }

  function WalRun<S, C>(t: Transition<S, C>, wal: Wal<S, C>, actions: seq<WalAction<C>>): Wal<S, C>
    decreases |actions|
  {
    if actions == [] then wal else WalRun(t, WalStep(t, wal, actions[0]), actions[1..])
  }

  function EmptyWal<S, C>(): Wal<S, C> {
    Wal([], [], None, None)
  }

  // ---------------------------------------------------------------- folding

  lemma {:induction false} FoldAppend<S, C>(t: Transition<S, C>, state: Option<S>, a: seq<C>, b: seq<C>)
    ensures Fold(t, state, a + b) == Fold(t, Fold(t, state, a), b)
    decreases |a|
  {
    if a == [] {
      assert a + b == b;
    } else {
      FoldAppend(t, Some(t(state, a[0])), a[1..], b);
      assert (a + b)[1..] == a[1..] + b;
    }
  }

  lemma {:induction false} FoldIsSome<S, C>(t: Transition<S, C>, state: Option<S>, changes: seq<C>)
    requires changes != [] || state.Some?
    ensures Fold(t, state, changes).Some?
    decreases |changes|
  {
    if changes != [] {
      FoldIsSome(t, Some(t(state, changes[0])), changes[1..]);
    }
  }

  lemma FoldSnoc<S, C>(t: Transition<S, C>, changes: seq<C>, change: C)
    ensures Fold(t, None, changes + [change]) == Some(t(Fold(t, None, changes), change))
  {
    FoldAppend(t, None, changes, [change]);
  }

  // ---------------------------------------------------------------- restarting, up to a relation

  /** `r` relates states that `t` treats alike, and a change applied twice counts as applied once. */
  ghost predicate TreatsAlike<S(!new), C(!new)>(t: Transition<S, C>, r: (S, S) -> bool) {
    && (forall a, b, c :: r(a, b) && r(b, c) ==> r(a, c))
    && (forall a, b, c :: r(a, b) ==> r(t(Some(a), c), t(Some(b), c)))
  }

  /** On the states a log leads to: they relate to themselves, and repeating the last change does no harm. */
  ghost predicate RepeatsHarmless<S(!new), C(!new)>(t: Transition<S, C>, r: (S, S) -> bool) {
    forall log: seq<C>, c ::
      var after := t(Fold(t, None, log), c);
      r(after, after) && r(t(Some(after), c), after)
  }

  ghost predicate Related<S>(r: (S, S) -> bool, a: Option<S>, b: Option<S>) {
    (a.None? && b.None?) || (a.Some? && b.Some? && r(a.value, b.value))
  }

  ghost predicate SnapshotsFit<S(!new), C>(t: Transition<S, C>, r: (S, S) -> bool, changes: seq<C>, snapshots: seq<Snapshot<S>>) {
    forall i :: 0 <= i < |snapshots| ==>
      && 0 < snapshots[i].statechangeId <= |changes|
      && Related(r, snapshots[i].state, Fold(t, None, changes[..snapshots[i].statechangeId]))
  }

  lemma {:induction false} RelatedFolds<S(!new), C(!new)>(t: Transition<S, C>, r: (S, S) -> bool, a: S, b: S, changes: seq<C>)
    requires TreatsAlike(t, r) && r(a, b)
    ensures Related(r, Fold(t, Some(a), changes), Fold(t, Some(b), changes))
    decreases |changes|
  {
    if changes != [] {
      RelatedFolds(t, r, t(Some(a), changes[0]), t(Some(b), changes[0]), changes[1..]);
    }
  }

  /**
    For any transition: the replay applies the snapshot's own change once more to the snapshot, and then
    continues with the rest of the log.
   */
  lemma ReplayRepeatsOneChange<S, C>(t: Transition<S, C>, changes: seq<C>, state: Option<S>, from: nat, id: nat)
    requires 0 < from <= id <= |changes|
    ensures Fold(t, state, Between(changes, from, id)) == Fold(t, Some(t(state, changes[from - 1])), changes[from..id])
  {
    assert Between(changes, from, id) == [changes[from - 1]] + changes[from..id];
  }

  /** Snapshots that hold exactly the state their log prefix leads to. */
  ghost predicate ExactSnapshots<S, C>(t: Transition<S, C>, changes: seq<C>, snapshots: seq<Snapshot<S>>) {
    forall i :: 0 <= i < |snapshots| ==>
      && 0 < snapshots[i].statechangeId <= |changes|
      && snapshots[i].state == Fold(t, None, changes[..snapshots[i].statechangeId])
  }

  /**
    For any transition, from exact snapshots: what is restored is the fold of the log prefix, with the one
    change that belongs to the chosen snapshot applied twice in a row.
   */
  lemma RestoredRepeatsOneChange<S(!new), C>(t: Transition<S, C>, changes: seq<C>, snapshots: seq<Snapshot<S>>, to: Identifier)
    requires ExactSnapshots(t, changes, snapshots)
    ensures var id := LastReached(changes, to);
      match ClosestSnapshot(snapshots, Resolve(changes, to))
      case None => Restored(t, changes, snapshots, to) == Fold(t, None, changes[..id])
      case Some(row) =>
        var k := row.statechangeId;
        && 0 < k <= id
        && Restored(t, changes, snapshots, to) == Fold(t, None, changes[..k] + [changes[k - 1]] + changes[k..id])
  {
    var id := LastReached(changes, to);
    ClosestIsLastFitting(snapshots, Resolve(changes, to));
    match ClosestSnapshot(snapshots, Resolve(changes, to)) {
      case None => assert Between(changes, 0, Resolve(changes, to)) == changes[..id];
      case Some(row) =>
        var k := row.statechangeId;
        var i: nat :| LastFitting(snapshots, Resolve(changes, to), i) && snapshots[i] == row;
        assert Between(changes, k, Resolve(changes, to)) == [changes[k - 1]] + changes[k..id];
        FoldAppend(t, None, changes[..k], [changes[k - 1]] + changes[k..id]);
        assert changes[..k] + ([changes[k - 1]] + changes[k..id]) == changes[..k] + [changes[k - 1]] + changes[k..id];
    }
  }

  /** If repeating a change does no harm, the repeat is not noticed. */
  lemma ReplayFitsLog<S(!new), C(!new)>(
    t: Transition<S, C>, r: (S, S) -> bool, changes: seq<C>, state: Option<S>, from: nat, id: nat)
    requires TreatsAlike(t, r) && RepeatsHarmless(t, r)
    requires 0 < from <= id <= |changes|
    requires Related(r, state, Fold(t, None, changes[..from]))
    ensures Related(r, Fold(t, state, Between(changes, from, id)), Fold(t, None, changes[..id]))
  {
    var before, c, rest := changes[..from - 1], changes[from - 1], changes[from..id];
    var exact := t(Fold(t, None, before), c);
    assert changes[..from] == before + [c];
    FoldSnoc(t, before, c);
    assert r(t(state, c), t(Some(exact), c)) && r(t(Some(exact), c), exact);
    ReplayRepeatsOneChange(t, changes, state, from, id);
    assert changes[..id] == changes[..from] + rest;
    FoldAppend(t, None, changes[..from], rest);
    RelatedFolds(t, r, t(state, c), exact, rest);
  }

  /** The last identifier a restore can reach. */
  function LastReached<C>(changes: seq<C>, to: Identifier): (id: nat)
    ensures id <= |changes|
  {
    match to
    case Latest => |changes|
    case At(id) => if id <= |changes| then id else |changes|
  }

  /** Restoring to any identifier leads to the state that the log up to there leads to. */
  lemma RestoredFitsLog<S(!new), C(!new)>(
    t: Transition<S, C>, r: (S, S) -> bool, changes: seq<C>, snapshots: seq<Snapshot<S>>, to: Identifier)
    requires TreatsAlike(t, r) && RepeatsHarmless(t, r) && SnapshotsFit(t, r, changes, snapshots)
    ensures Related(r, Restored(t, changes, snapshots, to), Fold(t, None, changes[..LastReached(changes, to)]))
  {
    var id := LastReached(changes, to);
    ClosestIsLastFitting(snapshots, Resolve(changes, to));
    match ClosestSnapshot(snapshots, Resolve(changes, to)) {
      case None =>
        assert Between(changes, 0, Resolve(changes, to)) == changes[..id];
        if id > 0 {
          var c := changes[id - 1];
          assert changes[..id] == changes[..id - 1] + [c];
          FoldSnoc(t, changes[..id - 1], c);
          assert r(t(Fold(t, None, changes[..id - 1]), c), t(Fold(t, None, changes[..id - 1]), c));
        }
      case Some(row) =>
        assert Between(changes, row.statechangeId, Resolve(changes, to)) == Between(changes, row.statechangeId, id);
        ReplayFitsLog(t, r, changes, row.state, row.statechangeId, id);
    }
  }

  /** Restoring to a logged change leads to what the log up to and including that change leads to. */
  lemma RestoredToChange<S(!new), C(!new)>(
    t: Transition<S, C>, r: (S, S) -> bool, changes: seq<C>, snapshots: seq<Snapshot<S>>, id: nat)
    requires TreatsAlike(t, r) && RepeatsHarmless(t, r) && SnapshotsFit(t, r, changes, snapshots)
    requires 0 < id <= |changes|
    ensures Related(r, Restored(t, changes, snapshots, At(id)), Fold(t, None, changes[..id]))
  {
    RestoredFitsLog(t, r, changes, snapshots, At(id));
  }

  ghost predicate WalInv<S(!new), C>(t: Transition<S, C>, r: (S, S) -> bool, wal: Wal<S, C>) {
    && SnapshotsFit(t, r, wal.changes, wal.snapshots)
    && Related(r, wal.current, Fold(t, None, wal.changes))
    && (wal.stateChangeId.Some? ==> wal.stateChangeId.value == |wal.changes| > 0)
  }

  lemma LoggingKeepsInv<S(!new), C(!new)>(t: Transition<S, C>, r: (S, S) -> bool, wal: Wal<S, C>, c: C)
    requires TreatsAlike(t, r) && RepeatsHarmless(t, r) && WalInv(t, r, wal)
    ensures WalInv(t, r, Logged(t, wal, c))
  {
    var wal' := Logged(t, wal, c);
    FoldSnoc(t, wal.changes, c);
    var after := t(Fold(t, None, wal.changes), c);
    assert r(after, after);
    forall i | 0 <= i < |wal'.snapshots|
      ensures wal'.changes[..wal'.snapshots[i].statechangeId] == wal.changes[..wal.snapshots[i].statechangeId]
    {
    }
  }

  lemma SnapshotKeepsInv<S(!new), C(!new)>(t: Transition<S, C>, r: (S, S) -> bool, wal: Wal<S, C>)
    requires WalInv(t, r, wal)
    ensures WalInv(t, r, Snapshotted(wal))
  {
    assert wal.changes[..|wal.changes|] == wal.changes;
  }

  lemma RestartKeepsInv<S(!new), C(!new)>(t: Transition<S, C>, r: (S, S) -> bool, wal: Wal<S, C>)
    requires TreatsAlike(t, r) && RepeatsHarmless(t, r) && WalInv(t, r, wal)
    ensures WalInv(t, r, Restarted(t, wal))
  {
    RestoredFitsLog(t, r, wal.changes, wal.snapshots, Latest);
    assert wal.changes[..|wal.changes|] == wal.changes;
  }

  /** However often a node logs, takes snapshots and restarts, its state is the fold of its whole log. */
  lemma {:induction false} EveryRunFitsLog<S(!new), C(!new)>(
    t: Transition<S, C>, r: (S, S) -> bool, wal: Wal<S, C>, actions: seq<WalAction<C>>)
    requires TreatsAlike(t, r) && RepeatsHarmless(t, r) && WalInv(t, r, wal)
    ensures WalInv(t, r, WalRun(t, wal, actions))
    decreases |actions|
  {
    if actions != [] {
      match actions[0] {
        case DoLog(c) => LoggingKeepsInv(t, r, wal, c);
        case DoSnapshot => SnapshotKeepsInv(t, r, wal);
        case DoRestart => RestartKeepsInv(t, r, wal);
      }
      EveryRunFitsLog(t, r, WalStep(t, wal, actions[0]), actions[1..]);
    }
  }

  // ---------------------------------------------------------------- restarting exactly

  /** Repeating the last change of a log changes nothing. */
  ghost predicate LastChangeIsIdempotent<S(!new), C(!new)>(t: Transition<S, C>) {
    forall log: seq<C>, c ::
      var after := t(Fold(t, None, log), c);
      t(Some(after), c) == after
  }

  ghost function Same<S>(): (S, S) -> bool {
    (a, b) => a == b
  }

  ghost predicate RestartIsExact<S(!new), C(!new)>(t: Transition<S, C>) {
    forall actions: seq<WalAction<C>> ::
      var wal := WalRun(t, EmptyWal(), actions);
      wal.current == Fold(t, None, wal.changes)
  }

  lemma {:induction false} WalRunAppend<S, C>(t: Transition<S, C>, wal: Wal<S, C>, a: seq<WalAction<C>>, b: seq<WalAction<C>>)
    ensures WalRun(t, wal, a + b) == WalRun(t, WalRun(t, wal, a), b)
    decreases |a|
  {
    if a == [] {
      assert a + b == b;
    } else {
      WalRunAppend(t, WalStep(t, wal, a[0]), a[1..], b);
      assert (a + b)[1..] == a[1..] + b;
    }
  }

  function LogAll<C>(log: seq<C>): seq<WalAction<C>> {
    if log == [] then [] else LogAll(log[..|log| - 1]) + [DoLog(log[|log| - 1])]
  }

  lemma {:induction false} LoggingAll<S, C>(t: Transition<S, C>, log: seq<C>)
    ensures WalRun(t, EmptyWal(), LogAll(log))
         == Wal(log, [], Fold(t, None, log), if log == [] then None else Some(|log|))
  {
    if log != [] {
      var front, last := log[..|log| - 1], log[|log| - 1];
      LoggingAll(t, front);
      WalRunAppend(t, EmptyWal(), LogAll(front), [DoLog(last)]);
      assert log == front + [last];
      FoldSnoc(t, front, last);
    }
  }

  /**
    Restarts are exact in every run, whichever snapshots were taken, if and only if repeating the last
    change of a log never changes the state: the idempotence that the architecture asks for.
   */
  lemma RestartIsExactIff<S(!new), C(!new)>(t: Transition<S, C>)
    ensures RestartIsExact(t) <==> LastChangeIsIdempotent(t)
  {
    if LastChangeIsIdempotent(t) {
      var r: (S, S) -> bool := Same();
      assert TreatsAlike(t, r);
      assert RepeatsHarmless(t, r);
      forall actions: seq<WalAction<C>>
        ensures var wal := WalRun(t, EmptyWal(), actions); wal.current == Fold(t, None, wal.changes)
      {
        EveryRunFitsLog(t, r, EmptyWal(), actions);
      }
    }
    if RestartIsExact(t) {
      forall log: seq<C>, c
        ensures var after := t(Fold(t, None, log), c); t(Some(after), c) == after
      {
        SnapshotThenRestart(t, log, c);
      }
    }
  }

  /** Restarting right after a snapshot applies the last change once more. */
  lemma RestartFromSnapshot<S, C>(t: Transition<S, C>, log: seq<C>, c: C, after: S)
    ensures var wal := Wal(log + [c], [], Some(after), Some(|log| + 1));
      Restarted(t, Snapshotted(wal)).current == Some(t(Some(after), c))
  {
    var full := log + [c];
    assert Between(full, |full|, |full|) == [c];
    assert [c][1..] == [];
    assert Fold(t, Some(after), [c]) == Some(t(Some(after), c));
  }

  lemma SnapshotAndRestart<S, C>(t: Transition<S, C>, wal: Wal<S, C>)
    ensures var tail: seq<WalAction<C>> := [DoSnapshot, DoRestart];
      WalRun(t, wal, tail) == Restarted(t, Snapshotted(wal))
  {
    var tail: seq<WalAction<C>> := [DoSnapshot, DoRestart];
    assert tail[1..] == [DoRestart] && tail[1..][1..] == [];
  }

  lemma SnapshotThenRestart<S(!new), C(!new)>(t: Transition<S, C>, log: seq<C>, c: C)
    requires RestartIsExact(t)
    ensures var after := t(Fold(t, None, log), c); t(Some(after), c) == after
  {
    var full, after := log + [c], t(Fold(t, None, log), c);
    var tail: seq<WalAction<C>> := [DoSnapshot, DoRestart];
    LoggingAll(t, full);
    FoldSnoc(t, log, c);
    var logged := WalRun(t, EmptyWal(), LogAll(full));
    WalRunAppend(t, EmptyWal(), LogAll(full), tail);
    SnapshotAndRestart(t, logged);
    RestartFromSnapshot(t, log, c, after);
    assert WalRun(t, EmptyWal(), LogAll(full) + tail).current == Some(t(Some(after), c));
  }

  /** A restarted log writes no snapshot before a change has been logged; from then on each one is a row. */
  lemma SnapshotsAfterLogging<S, C>(t: Transition<S, C>, wal: Wal<S, C>, c: C)
    ensures Snapshotted(Restarted(t, wal)) == Restarted(t, wal)
    ensures var logged := Logged(t, wal, c);
      && Snapshotted(logged).snapshots == wal.snapshots + [Snapshot(|wal.changes| + 1, Some(t(wal.current, c)))]
      && Snapshotted(logged).changes == wal.changes + [c] && Snapshotted(logged).current == Some(t(wal.current, c))
  {
  }

  /** A counter that adds its input is not idempotent, and a restart right after a snapshot adds twice. */
  lemma CounterIsRestoredWrong()
    ensures var t := (state: Option<int>, c: int) => (if state == None then 0 else state.value) + c;
      Restored(t, [1], [Snapshot(1, Some(1))], Latest) == Some(2) && Fold(t, None, [1]) == Some(1)
  {
    var t := (state: Option<int>, c: int) => (if state == None then 0 else state.value) + c;
    assert Between([1], 1, 1) == [1] && [1][1..] == [];
    assert Fold(t, Some(1), [1]) == Fold(t, Some(2), []);
  }
}
