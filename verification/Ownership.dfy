/** The resolver's ownership records: keyed by object id, discarded by weak-reference callbacks that may come late. */
module Ownership {
  import opened Wrappers

  /** The identity of an object, which is never used twice, and its id, which is free again once it is dead. */
  type Object = nat
  type Id = int

  /** The weak reference a resolution was registered with; its callback remembers the id it had then. */
  datatype Weak = Weak(target: Object, home: Id)

  datatype Record<S> = Record(reference: Weak, snapshot: S)

  /**
   * The live objects with their ids, all objects there have been, the snapshot each registered object was given,
   * the table, the callbacks still to run, and those between their check and their removal.
   */
  datatype State<S> = State(
    ids: map<Object, Id>,
    born: set<Object>,
    snapshots: map<Object, S>,
    records: map<Id, Record<S>>,
    due: set<Weak>,
    popping: set<Weak>)

  datatype Event<S> =
    | Resolve(subject: Object, id: Id, snapshot: S)
    | Create(subject: Object, id: Id)
    | Die(subject: Object)
    | Check(reference: Weak)
    | Pop(reference: Weak)
    | Forget(reference: Weak)

  function Start<S>(): State<S> {
    State(map[], {}, map[], map[], {}, {})
  }

  /** No live object has the id. */
  predicate Free<S>(s: State<S>, id: Id) {
    forall o :: o in s.ids ==> s.ids[o] != id
  }

  /** No callback is about to remove the record at the id. */
  predicate Quiet<S>(s: State<S>, id: Id) {
    forall w :: w in s.popping ==> w.home != id
  }

  predicate Holds<S>(s: State<S>, w: Weak) {
    w.home in s.records && s.records[w.home].reference == w
  }

  /** What the interpreter allows: ids of live objects differ, and a callback comes after its object is dead. */
  predicate Possible<S>(s: State<S>, e: Event<S>) {
    match e
    case Resolve(o, id, _) => o !in s.born && Free(s, id)
    case Create(o, id) => o !in s.born && Free(s, id)
    case Die(o) => o in s.ids
    case Check(w) => w in s.due
    case Pop(w) => w in s.popping
    case Forget(w) => w in s.due && !Holds(s, w)
  }

  function Next<S>(s: State<S>, e: Event<S>): State<S>
    requires Possible(s, e)
  {
    match e
    case Resolve(o, id, snapshot) =>
      s.(ids := s.ids[o := id], born := s.born + {o}, snapshots := s.snapshots[o := snapshot],
         records := s.records[id := Record(Weak(o, id), snapshot)])
    case Create(o, id) => s.(ids := s.ids[o := id], born := s.born + {o})
    case Die(o) =>
      s.(ids := s.ids - {o}, due := if o in s.snapshots then s.due + {Weak(o, s.ids[o])} else s.due)
    case Check(w) =>
      s.(due := s.due - {w}, popping := if Holds(s, w) then s.popping + {w} else s.popping)
    case Pop(w) => s.(records := s.records - {w.home}, popping := s.popping - {w})
    case Forget(w) => s.(due := s.due - {w})
  }

  datatype LookupError = NotOwned | Drifted

  /** The lookup of a live object. */
  function Lookup<S>(s: State<S>, o: Object): Result<S, LookupError>
    requires o in s.ids
  {
    var id := s.ids[o];
    if id !in s.records then Err(NotOwned)
    else if s.records[id].reference.target != o then Err(Drifted)
    else Ok(s.records[id].snapshot)
  }

  // ---------------------------------------------------------------- the invariant

  /** Every live resolution has its own record; every other record waits for its callback. */
  ghost predicate Inv<S>(s: State<S>) {
    && (forall o :: o in s.ids || o in s.snapshots ==> o in s.born)
    && (forall o, p :: o in s.ids && p in s.ids && s.ids[o] == s.ids[p] ==> o == p)
    && (forall o :: o in s.ids && o in s.snapshots ==>
          s.ids[o] in s.records && s.records[s.ids[o]] == Record(Weak(o, s.ids[o]), s.snapshots[o]))
    && (forall id :: id in s.records ==>
          var w := s.records[id].reference;
          w.home == id && w.target in s.snapshots && s.records[id].snapshot == s.snapshots[w.target]
          && (if w.target in s.ids then s.ids[w.target] == id else w in s.due || w in s.popping))
    && (forall w :: w in s.due || w in s.popping ==> w.target in s.born && w.target !in s.ids)
    && (forall w :: w in s.popping ==> Holds(s, w))
  }

  /** The step leaves alone the ids whose records are being removed. */
  predicate Undisturbed<S>(s: State<S>, e: Event<S>) {
    e.Resolve? ==> Quiet(s, e.id)
  }

  lemma InvStart<S>()
    ensures Inv(Start<S>())
  {
  }

  lemma InvResolve<S>(s: State<S>, e: Event<S>)
    requires Inv(s) && e.Resolve? && Possible(s, e) && Undisturbed(s, e)
    ensures Inv(Next(s, e))
  {
  }

  lemma InvDie<S>(s: State<S>, e: Event<S>)
    requires Inv(s) && e.Die? && Possible(s, e)
    ensures Inv(Next(s, e))
  {
  }

  lemma InvCheck<S>(s: State<S>, e: Event<S>)
    requires Inv(s) && (e.Check? || e.Forget? || e.Create?) && Possible(s, e)
    ensures Inv(Next(s, e))
  {
  }

  lemma InvPop<S>(s: State<S>, e: Event<S>)
    requires Inv(s) && e.Pop? && Possible(s, e)
    ensures Inv(Next(s, e))
  {
  }

  lemma InvNext<S>(s: State<S>, e: Event<S>)
    requires Inv(s) && Possible(s, e) && Undisturbed(s, e)
    ensures Inv(Next(s, e))
  {
    match e
    case Resolve(_, _, _) => InvResolve(s, e);
    case Die(_) => InvDie(s, e);
    case Pop(_) => InvPop(s, e);
    case _ => InvCheck(s, e);
  }

  // ---------------------------------------------------------------- runs

  /** Each event is possible where it happens, and no resolution takes an id in the middle of a removal. */
  ghost predicate Behaves<S>(s: State<S>, run: seq<Event<S>>)
    decreases |run|
  {
    run != [] ==> Possible(s, run[0]) && Undisturbed(s, run[0]) && Behaves(Next(s, run[0]), run[1..])
  }

  ghost function After<S>(s: State<S>, run: seq<Event<S>>): State<S>
    requires Behaves(s, run)
    decreases |run|
  {
    if run == [] then s else After(Next(s, run[0]), run[1..])
  }

  lemma {:induction false} InvAfter<S>(s: State<S>, run: seq<Event<S>>)
    requires Inv(s) && Behaves(s, run)
    ensures Inv(After(s, run))
    decreases |run|
  {
    if run != [] {
      InvNext(s, run[0]);
      InvAfter(Next(s, run[0]), run[1..]);
    }
  }

  /** After any run a live object finds its own snapshot if it was registered, and is refused otherwise. */
  lemma LookupFindsOwn<S>(run: seq<Event<S>>, o: Object)
    requires Behaves(Start<S>(), run) && o in After(Start<S>(), run).ids
    ensures var s := After(Start<S>(), run);
      if o in s.snapshots then Lookup(s, o) == Ok(s.snapshots[o]) else Lookup(s, o).Err?
  {
    InvStart<S>();
    InvAfter(Start<S>(), run);
  }

  /** Once no callback is outstanding the table holds exactly the live resolutions. */
  lemma NothingLeftOver<S>(run: seq<Event<S>>)
    requires Behaves(Start<S>(), run)
    requires After(Start<S>(), run).due == {} && After(Start<S>(), run).popping == {}
    ensures var s := After(Start<S>(), run);
      forall id :: id in s.records <==> exists o :: o in s.ids && o in s.snapshots && s.ids[o] == id
  {
    InvStart<S>();
    InvAfter(Start<S>(), run);
    var s := After(Start<S>(), run);
    forall id | id in s.records ensures exists o :: o in s.ids && o in s.snapshots && s.ids[o] == id {
      var o := s.records[id].reference.target;
      assert o in s.ids && o in s.snapshots && s.ids[o] == id;
    }
  }

  /** A callback, however late, removes no record but the one of its own dead object. */
  lemma CallbackRemovesOwn<S>(run: seq<Event<S>>, w: Weak, id: Id)
    requires Behaves(Start<S>(), run) && w in After(Start<S>(), run).popping
    ensures var s := After(Start<S>(), run);
      id in s.records && id !in Next(s, Pop(w)).records ==> s.records[id].reference == w && w.target !in s.ids
  {
    InvStart<S>();
    InvAfter(Start<S>(), run);
  }

  // ---------------------------------------------------------------- why removals must not be disturbed

  /** A run that ends between the check of a callback and its removal, with the id free for another object. */
  function InterruptedRun<S>(id: Id, snapshot: S): seq<Event<S>> {
    [Resolve(0, id, snapshot), Die(0), Check(Weak(0, id))]
  }

  lemma InterruptedReachable<S>(id: Id, snapshot: S)
    ensures Behaves(Start<S>(), InterruptedRun(id, snapshot))
    ensures var s := After(Start<S>(), InterruptedRun(id, snapshot));
      Inv(s) && Weak(0, id) in s.popping && Free(s, id) && 1 !in s.born
  {
    var run := InterruptedRun(id, snapshot);
    var s0, s1 := Start<S>(), Next(Start<S>(), run[0]);
    var s2 := Next(s1, run[1]);
    var s3 := Next(s2, run[2]);
    assert run[1..] == [run[1], run[2]] && [run[1], run[2]][1..] == [run[2]] && [run[2]][1..] == [];
    assert Behaves(s3, []) && After(s3, []) == s3;
    assert Behaves(s2, [run[2]]) && After(s2, [run[2]]) == s3;
    assert Behaves(s1, run[1..]) && After(s1, run[1..]) == s3;
    InvStart<S>();
    InvAfter(s0, run);
  }

  /**
   * The check and the removal are two operations on the table. A new resolution keeps its record through every
   * removal that is under way exactly when none of them is of its own id.
   */
  lemma UndisturbedIff<S>(s: State<S>, e: Event<S>)
    requires Inv(s) && e.Resolve? && Possible(s, e)
    ensures Undisturbed(s, e)
       <==> forall w :: w in s.popping ==> Lookup(Next(Next(s, e), Pop(w)), e.subject) == Ok(e.snapshot)
  {
    if w :| w in s.popping && w.home == e.id {
      assert Lookup(Next(Next(s, e), Pop(w)), e.subject) == Err(NotOwned);
    }
  }

  /** So a resolution can be lost in a run: it takes the id of the interrupted removal. */
  lemma DisturbedRemovalLosesRecord<S>(id: Id, snapshot: S, other: S)
    ensures Behaves(Start<S>(), InterruptedRun(id, snapshot))
    ensures var s := After(Start<S>(), InterruptedRun(id, snapshot));
      var resolve := Resolve(1, id, other);
      && Possible(s, resolve) && Possible(Next(s, resolve), Pop(Weak(0, id)))
      && var lost := Next(Next(s, resolve), Pop(Weak(0, id)));
         1 in lost.ids && 1 in lost.snapshots && Lookup(lost, 1) == Err(NotOwned)
  {
    InterruptedReachable(id, snapshot);
  }

  // ---------------------------------------------------------------- the table

  /** The dictionary itself; the ghost state is what the interpreter knows about the objects. */
  class OwnershipTable<S(!new)> {
    var records: map<Id, Record<S>>
    ghost var world: State<S>

    ghost predicate Valid()
      reads this
    {
      world.records == records && Inv(world)
    }

    constructor ()
      ensures Valid() && world == Start()
    {
      records := map[];
      world := Start();
    }

    /** The last step of resolving a plan: the new resolution is recorded under its id. */
    method Register(o: Object, id: Id, snapshot: S)
      requires Valid() && Possible(world, Resolve(o, id, snapshot)) && Quiet(world, id)
      modifies this
      ensures Valid() && world == Next(old(world), Resolve(o, id, snapshot))
    {
      InvNext(world, Resolve(o, id, snapshot));
      var reference := Weak(o, id);
      records := records[id := Record(reference, snapshot)];
      world := Next(world, Resolve(o, id, snapshot));
    }

    /** A live object is looked up by its id. */
    method Find(o: Object, id: Id) returns (r: Result<S, LookupError>)
      requires Valid() && o in world.ids && world.ids[o] == id
      ensures r.Ok? <==> o in world.snapshots
      ensures r.Ok? ==> r.value == world.snapshots[o]
    {
      if id !in records { return Err(NotOwned); }
      var record := records[id];
      if record.reference.target != o { return Err(Drifted); }
      r := Ok(record.snapshot);
    }

    /** The callback of a dead resolution's reference, run without interruption. */
    method DiscardIdentityRecord(w: Weak)
      requires Valid() && w in world.due
      modifies this
      ensures Valid()
      ensures var checked := Next(old(world), Check(w));
        world == if w in checked.popping then Next(checked, Pop(w)) else checked
      ensures forall id :: id in old(records) && id !in records ==> old(records)[id].reference == w
    {
      InvNext(world, Check(w));
      world := Next(world, Check(w));
      if w.home in records && records[w.home].reference == w {
        InvNext(world, Pop(w));
        records := records - {w.home};
        world := Next(world, Pop(w));
      }
    }
  }
}
