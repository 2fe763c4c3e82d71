/**
 GEM objects, the handles that files hold on them and their global names. The state machine
 takes one step for each section of code that runs under a lock, so that its runs are the
 interleavings of any number of threads. References and closes that are in flight, held only
 by the local variables of some thread, are counted in multisets.
 */
module Gem {

  import opened Options

  /** An object that has not been freed; name 0 means that it has no name. */
  datatype Obj = Obj(refs: nat, handles: nat, name: nat, size: nat)

  /** A file and a handle in it. */
  type Key = (nat, nat)

  /**
   held counts the references in the hands of threads; closing the handles whose table entry is
   gone (or was never made) but which still count in the object. A dying file is being closed:
   visited are those of its entries that the closing thread has dealt with. opening are the held
   references of threads that open an object by name and have got their handle; reading are the
   threads that have given that reference up and have still to read the size of the object.
   */
  datatype State = State(objs: map<nat, Obj>, table: map<Key, nat>, names: map<nat, nat>,
                         dying: set<nat>, visited: set<Key>, held: multiset<nat>, closing: multiset<nat>,
                         opening: multiset<nat>, reading: multiset<nat>)

  /** The table entries that stand for a handle. */
  ghost function Live(s: State): map<Key, nat> {
    map k | k in s.table && k !in s.visited :: s.table[k]
  }

  ghost function KeysOf(m: map<Key, nat>, o: nat): set<Key> {
    set k | k in m && m[k] == o
  }

  /** The number of entries for an object. */
  ghost function Entries(m: map<Key, nat>, o: nat): nat {
    |KeysOf(m, o)|
  }

  lemma EntriesAdd(m: map<Key, nat>, k: Key, o: nat, x: nat)
    requires k !in m
    ensures Entries(m[k := o], x) == Entries(m, x) + if x == o then 1 else 0
  {
    if x == o {
      assert KeysOf(m[k := o], x) == KeysOf(m, x) + {k};
    } else {
      assert KeysOf(m[k := o], x) == KeysOf(m, x);
    }
  }

  lemma EntriesRemove(m: map<Key, nat>, k: Key, x: nat)
    requires k in m
    ensures Entries(m - {k}, x) == Entries(m, x) - if x == m[k] then 1 else 0
  {
    var less := m - {k};
    assert less[k := m[k]] == m;
    EntriesAdd(less, k, m[k], x);
  }

  lemma EntriesPositive(m: map<Key, nat>, k: Key)
    requires k in m
    ensures Entries(m, m[k]) > 0
  {
    assert k in KeysOf(m, m[k]);
  }

  // ----- the sections -----

  datatype Step =
    | New(o: nat, size: nat)
    | Lookup(key: Key)
    | Get(o: nat)
    | Put(o: nat)
    | Create(file: nat, o: nat, handle: Option<nat>)
    | Delete(key: Key)
    | Unhandle(o: nat)
    | Flink(o: nat, newName: Option<nat>)
    | OpenName(name: nat, file: nat, handle: Option<nat>)
    | OpenFailed(o: nat)
    | OpenDone(o: nat)
    | ReadSize(o: nat)
    | ReleaseBegin(file: nat)
    | ReleaseOne(key: Key)
    | ReleaseEnd(file: nat)

  /** A handle the allocator may give out: positive and not in use; None is a failed allocation. */
  predicate FreeHandle(s: State, f: nat, h: Option<nat>) {
    h.Some? ==> h.value >= 1 && (f, h.value) !in s.table
  }

  predicate FreeName(s: State, n: Option<nat>) {
    n.Some? ==> n.value >= 1 && n.value !in s.names
  }

  ghost predicate CanStep(s: State, step: Step) {
    match step
    case New(o, _) => o !in s.objs
    case Lookup(key) => key.0 !in s.dying
    case Get(o) => o in s.held
    case Put(o) => s.held[o] > s.opening[o]
    case Create(f, o, h) => o in s.held && f !in s.dying && FreeHandle(s, f, h)
    case Delete(key) => key.0 !in s.dying
    case Unhandle(o) => o in s.closing
    case Flink(o, n) => o in s.held && FreeName(s, n)
    case OpenName(_, f, h) => f !in s.dying && FreeHandle(s, f, h)
    case OpenFailed(o) => o in s.opening
    case OpenDone(o) => o in s.opening
    case ReadSize(o) => o in s.reading
    case ReleaseBegin(f) => true
    case ReleaseOne(key) => key.0 in s.dying && key in s.table && key !in s.visited
    case ReleaseEnd(f) => f in s.dying && forall k :: k in s.table && k.0 == f ==> k in s.visited
  }

  /** drm_gem_object_reference by a thread. */
  function Grab(s: State, o: nat): State
    requires o in s.objs
  {
    s.(objs := s.objs[o := s.objs[o].(refs := s.objs[o].refs + 1)], held := s.held + multiset{o})
  }

  /** drm_gem_object_unreference: the last reference frees the object. */
  function Drop(s: State, o: nat): State
    requires o in s.objs && s.objs[o].refs > 0
  {
    var obj := s.objs[o];
    s.(objs := if obj.refs == 1 then s.objs - {o} else s.objs[o := obj.(refs := obj.refs - 1)],
       held := s.held - multiset{o})
  }

  /** The locked part of drm_gem_handle_create_tail; a handle that could not be allocated is counted all the same. */
  function AddHandle(s: State, f: nat, o: nat, h: Option<nat>): State
    requires o in s.objs
  {
    var obj := s.objs[o];
    var s1 := s.(objs := s.objs[o := obj.(refs := obj.refs + 1, handles := obj.handles + 1)]);
    if h.Some? then s1.(table := s.table[(f, h.value) := o]) else s1.(closing := s.closing + multiset{o})
  }

  /** The locked part of drm_gem_handle_delete. */
  function TakeEntry(s: State, key: Key): State
    requires key in s.table
  {
    s.(table := s.table - {key}, closing := s.closing + multiset{s.table[key]})
  }

  /** drm_gem_object_handle_unreference_unlocked up to its last call, which drops the reference now held. */
  function DropHandle(s: State, o: nat): State
    requires o in s.objs
  {
    var obj := s.objs[o];
    if obj.handles == 0 then s
    else
      var last := obj.handles == 1;
      s.(objs := s.objs[o := obj.(handles := obj.handles - 1, name := if last then 0 else obj.name)],
         names := if last && obj.name != 0 then s.names - {obj.name} else s.names,
         closing := s.closing - multiset{o}, held := s.held + multiset{o})
  }

  /** The locked part of drm_gem_flink_ioctl. */
  function NameObject(s: State, o: nat, n: Option<nat>): State
    requires o in s.objs
  {
    if s.objs[o].handles == 0 || s.objs[o].name != 0 || n == None then s
    else s.(objs := s.objs[o := s.objs[o].(name := n.value)], names := s.names[n.value := o])
  }

  /** The locked part of drm_gem_open_ioctl: the object of the name with one more reference, and a handle for it. */
  function Open(s: State, o: nat, f: nat, h: Option<nat>): State
    requires o in s.objs
  {
    var s1 := AddHandle(Grab(s, o), f, o, h);
    if h.Some? then s1.(opening := s.opening + multiset{o}) else s1
  }

  /** One step; None if it touches an object that has been freed or drops a count below zero. */
  function Next(s: State, step: Step): Option<State> {
    match step
    case New(o, size) => Some(s.(objs := s.objs[o := Obj(1, 0, 0, size)], held := s.held + multiset{o}))
    case Lookup(key) => if key in s.table then Grabbed(s, s.table[key]) else Some(s)
    case Get(o) => Grabbed(s, o)
    case Put(o) => if Usable(s, o) then Some(Drop(s, o)) else None
    case Create(f, o, h) => if Usable(s, o) then Some(AddHandle(s, f, o, h)) else None
    case Delete(key) =>
      if key !in s.table then Some(s) else if Usable(s, s.table[key]) then Some(TakeEntry(s, key)) else None
    case Unhandle(o) => if Usable(s, o) && s.objs[o].handles > 0 then Some(DropHandle(s, o)) else None
    case Flink(o, n) => if Usable(s, o) then Some(NameObject(s, o, n)) else None
    case OpenName(n, f, h) =>
      if n !in s.names then Some(s)
      else if Usable(s, s.names[n]) then Some(Open(s, s.names[n], f, h)) else None
    case OpenFailed(o) => Some(s.(opening := s.opening - multiset{o}))
    case OpenDone(o) =>
      if Usable(s, o) then Some(Drop(s, o).(opening := s.opening - multiset{o}, reading := s.reading + multiset{o}))
      else None
    case ReadSize(o) => if Usable(s, o) then Some(s.(reading := s.reading - multiset{o})) else None
    case ReleaseBegin(f) => Some(s.(dying := s.dying + {f}))
    case ReleaseOne(key) => if key in s.table && Usable(s, s.table[key]) then Some(Visit(s, key)) else None
    case ReleaseEnd(f) => Some(Forget(s, f))
  }

  predicate Usable(s: State, o: nat) {
    o in s.objs && s.objs[o].refs > 0
  }

  function Grabbed(s: State, o: nat): Option<State> {
    if Usable(s, o) then Some(Grab(s, o)) else None
  }

  /** One call of drm_gem_object_release_handle, up to its handle unreference. */
  function Visit(s: State, key: Key): State
    requires key in s.table
  {
    s.(visited := s.visited + {key}, closing := s.closing + multiset{s.table[key]})
  }

  /** idr_destroy at the end of drm_gem_release. */
  function Forget(s: State, f: nat): State {
    s.(table := map k | k in s.table && k.0 != f :: s.table[k], visited := set k | k in s.visited && k.0 != f)
  }

  // ----- the invariant -----

  /** Every handle and every reference is accounted for by an entry or a thread. */
  ghost predicate Counted(s: State, o: nat)
    requires o in s.objs
  {
    var obj := s.objs[o];
    obj.handles == Entries(Live(s), o) + s.closing[o] && obj.refs == obj.handles + s.held[o] && obj.refs > 0
  }

  ghost predicate AllCounted(s: State) {
    forall o :: o in s.objs ==> Counted(s, o)
  }

  /** What an entry refers to has not been freed. */
  ghost predicate EntriesKnown(s: State) {
    forall k :: k in Live(s) ==> Live(s)[k] in s.objs
  }

  /** Nor has what a thread refers to. */
  ghost predicate ThreadsKnown(s: State) {
    (forall o :: o in s.held ==> o in s.objs) && (forall o :: o in s.closing ==> o in s.objs)
  }

  /** Names and named objects correspond one to one, and a named object has a handle. */
  ghost predicate NameOf(s: State, n: nat)
    requires n in s.names
  {
    n != 0 && s.names[n] in s.objs && s.objs[s.names[n]].name == n
  }

  ghost predicate Named(s: State, o: nat)
    requires o in s.objs
  {
    var obj := s.objs[o];
    obj.name != 0 ==> obj.handles > 0 && obj.name in s.names && s.names[obj.name] == o
  }

  ghost predicate NamesOk(s: State) {
    (forall n :: n in s.names ==> NameOf(s, n)) && (forall o :: o in s.objs ==> Named(s, o))
  }

  ghost predicate VisitedDying(s: State) {
    forall k :: k in s.visited ==> k.0 in s.dying
  }

  ghost predicate Inv(s: State) {
    AllCounted(s) && EntriesKnown(s) && ThreadsKnown(s) && NamesOk(s) && VisitedDying(s)
  }

  /** A handle that can be looked up leads to an object that is there. */
  lemma LookupFinds(s: State, key: Key)
    requires Inv(s) && key in s.table && key !in s.visited
    ensures key in Live(s) && Live(s)[key] == s.table[key] && Usable(s, s.table[key]) &&
            s.objs[s.table[key]].handles > 0
  {
    assert key in Live(s) && Live(s)[key] == s.table[key];
    EntriesPositive(Live(s), key);
    assert Counted(s, s.table[key]);
  }

  lemma NameFinds(s: State, n: nat)
    requires Inv(s) && n in s.names
    ensures Usable(s, s.names[n]) && s.objs[s.names[n]].handles > 0
  {
    assert NameOf(s, n) && Named(s, s.names[n]) && Counted(s, s.names[n]);
  }

  lemma HeldIsLive(s: State, o: nat)
    requires Inv(s) && o in s.held
    ensures Usable(s, o) && Counted(s, o)
  {
    assert Counted(s, o);
  }

  /** The warning about a handle count of zero never triggers. */
  lemma ClosingIsLive(s: State, o: nat)
    requires Inv(s) && o in s.closing
    ensures Usable(s, o) && Counted(s, o) && s.objs[o].handles > 0
  {
    assert Counted(s, o);
  }

  /** Openers still hold their references. */
  ghost predicate Openers(s: State) {
    s.opening <= s.held
  }

  /** No step that a thread can take touches a freed object, except for the read of a size after an open. */
  lemma NoFault(s: State, step: Step)
    requires Inv(s) && Openers(s) && CanStep(s, step) && !step.ReadSize?
    ensures Next(s, step).Some?
  {
    hide AllCounted, EntriesKnown, NamesOk, Counted, Live;
    match step
    case Lookup(key) => if key in s.table { LookupFinds(s, key); }
    case Get(o) => HeldIsLive(s, o);
    case Put(o) => HeldIsLive(s, o);
    case Create(_, o, _) => HeldIsLive(s, o);
    case Delete(key) => if key in s.table { LookupFinds(s, key); }
    case Unhandle(o) => ClosingIsLive(s, o);
    case Flink(o, _) => HeldIsLive(s, o);
    case OpenName(n, _, _) => if n in s.names { NameFinds(s, n); }
    case OpenDone(o) => HeldIsLive(s, o);
    case ReleaseOne(key) => LookupFinds(s, key);
    case _ =>
  }

  /** That read finds an object exactly while a handle, a close in flight or a thread's reference keeps one there. */
  lemma ReadFaultsIff(s: State, o: nat)
    requires Inv(s) && CanStep(s, ReadSize(o))
    ensures Next(s, ReadSize(o)) == None <==> Entries(Live(s), o) == 0 && s.closing[o] == 0 && s.held[o] == 0
  {
    if o in s.objs { assert Counted(s, o); } else { NoEntries(s, o); }
  }

  // ----- each section keeps it -----

  /** The counts of one object moved, everything else stayed. */
  ghost predicate OnlyObj(s: State, t: State, o: nat) {
    o in s.objs && o in t.objs && t.objs == s.objs[o := t.objs[o]] && t.visited == s.visited && t.dying == s.dying
  }

  lemma OnlyObjNames(s: State, t: State, o: nat)
    requires NamesOk(s) && OnlyObj(s, t, o) && t.names == s.names
    requires t.objs[o].name == s.objs[o].name && (t.objs[o].handles > 0 || t.objs[o].name == 0)
    ensures NamesOk(t)
  {
    forall n | n in t.names ensures NameOf(t, n) { assert NameOf(s, n); }
    forall x | x in t.objs ensures Named(t, x) { assert Named(s, x); }
  }

  lemma GrabKeeps(s: State, o: nat)
    requires Inv(s) && o in s.objs
    ensures Inv(Grab(s, o))
  {
    hide NamesOk, Entries, Named;
    var t := Grab(s, o);
    assert Live(t) == Live(s);
    forall x | x in t.objs ensures Counted(t, x) { assert Counted(s, x); }
    NamedMeans(s, o);
    OnlyObjNames(s, t, o);
  }

  lemma NamedMeans(s: State, o: nat)
    requires NamesOk(s) && o in s.objs
    ensures s.objs[o].name != 0 ==> s.objs[o].handles > 0 && s.objs[o].name in s.names && s.names[s.objs[o].name] == o
  {
    assert Named(s, o);
  }

  lemma NoEntries(s: State, o: nat)
    requires EntriesKnown(s) && ThreadsKnown(s) && o !in s.objs
    ensures Entries(Live(s), o) == 0 && s.held[o] == 0 && s.closing[o] == 0
  {
    assert KeysOf(Live(s), o) == {};
  }

  lemma NewKeeps(s: State, o: nat, size: nat)
    requires Inv(s) && o !in s.objs
    ensures Inv(Next(s, New(o, size)).value)
  {
    hide Entries, NamesOk;
    var t := Next(s, New(o, size)).value;
    assert Live(t) == Live(s);
    NoEntries(s, o);
    forall x | x in t.objs ensures Counted(t, x) {
      if x != o { assert Counted(s, x); }
    }
    NewNames(s, o, size);
  }

  lemma NewNames(s: State, o: nat, size: nat)
    requires NamesOk(s) && o !in s.objs
    ensures NamesOk(Next(s, New(o, size)).value)
  {
    hide Live, Entries;
    var t := Next(s, New(o, size)).value;
    forall x | x in t.objs ensures Named(t, x) { if x != o { assert Named(s, x); } }
    forall n | n in t.names ensures NameOf(t, n) { assert NameOf(s, n); }
  }

  lemma AddHandleKeeps(s: State, f: nat, o: nat, h: Option<nat>)
    requires Inv(s) && o in s.objs && f !in s.dying && FreeHandle(s, f, h)
    ensures Inv(AddHandle(s, f, o, h))
  {
    hide NamesOk, Entries, Named;
    var t := AddHandle(s, f, o, h);
    AddHandleLive(s, f, o, h);
    hide Live;
    forall x | x in t.objs ensures Counted(t, x) {
      assert Counted(s, x);
      if h.Some? { EntriesAdd(Live(s), (f, h.value), o, x); }
    }
    OnlyObjNames(s, t, o);
  }

  lemma AddHandleLive(s: State, f: nat, o: nat, h: Option<nat>)
    requires o in s.objs && f !in s.dying && FreeHandle(s, f, h) && VisitedDying(s)
    ensures Live(AddHandle(s, f, o, h)) == if h.Some? then Live(s)[(f, h.value) := o] else Live(s)
    ensures h.Some? ==> (f, h.value) !in Live(s)
  {
    if h.Some? { assert (f, h.value) !in s.visited; }
  }

  /** Moving one handle from the table to a closing thread. */
  lemma CloseEntryKeeps(s: State, t: State, key: Key)
    requires Inv(s) && key in Live(s) && Live(t) == Live(s) - {key} && t.closing == s.closing + multiset{Live(s)[key]}
    requires t.objs == s.objs && t.names == s.names && t.held == s.held && VisitedDying(t)
    ensures Inv(t)
  {
    hide Live, Entries;
    forall x | x in t.objs ensures Counted(t, x) && Named(t, x) {
      assert Counted(s, x) && Named(s, x);
      EntriesRemove(Live(s), key, x);
    }
    forall n | n in t.names ensures NameOf(t, n) { assert NameOf(s, n); }
  }

  /** An object is freed only when no handle, no name and no thread leads to it any more. */
  lemma FreedUnreachable(s: State, o: nat)
    requires Inv(s) && o in s.held
    ensures Usable(s, o)
    ensures o !in Drop(s, o).objs ==>
              Entries(Live(s), o) == 0 && s.held[o] == 1 && s.closing[o] == 0 && s.objs[o].name == 0
    ensures o !in Drop(s, o).objs ==> forall n :: n in s.names ==> s.names[n] != o
  {
    HeldIsLive(s, o);
    assert Named(s, o);
    if o !in Drop(s, o).objs {
      forall n | n in s.names ensures s.names[n] != o { assert NameOf(s, n); }
    }
  }

  lemma DropKeeps(s: State, o: nat)
    requires Inv(s) && o in s.held
    ensures Usable(s, o) && Inv(Drop(s, o))
  {
    hide NamesOk, Entries, Named, EntriesKnown;
    HeldIsLive(s, o);
    FreedUnreachable(s, o);
    var t := Drop(s, o);
    assert Live(t) == Live(s);
    forall x | x in t.objs ensures Counted(t, x) { assert Counted(s, x); }
    assert ThreadsKnown(t);
    DropNames(s, o);
    DropEntries(s, o);
  }

  lemma DropNames(s: State, o: nat)
    requires Inv(s) && o in s.held && Usable(s, o)
    ensures NamesOk(Drop(s, o))
  {
    hide Entries, Counted, Live;
    var t := Drop(s, o);
    FreedUnreachable(s, o);
    forall n | n in t.names ensures NameOf(t, n) { assert NameOf(s, n); }
    forall x | x in t.objs ensures Named(t, x) { assert Named(s, x); }
  }

  lemma DropEntries(s: State, o: nat)
    requires Inv(s) && o in s.held && Usable(s, o)
    ensures EntriesKnown(Drop(s, o))
  {
    hide NamesOk, Entries, Counted;
    var t := Drop(s, o);
    assert Live(t) == Live(s);
    FreedUnreachable(s, o);
    forall k | k in Live(t) ensures Live(t)[k] in t.objs { EntriesPositive(Live(s), k); }
  }

  lemma DropHandleKeeps(s: State, o: nat)
    requires Inv(s) && o in s.closing
    ensures Usable(s, o) && Inv(DropHandle(s, o))
  {
    hide NamesOk, Entries, Named;
    ClosingIsLive(s, o);
    var t := DropHandle(s, o);
    assert Live(t) == Live(s);
    forall x | x in t.objs ensures Counted(t, x) { assert Counted(s, x); }
    DropHandleNames(s, o);
  }

  lemma DropHandleNames(s: State, o: nat)
    requires NamesOk(s) && o in s.objs && s.objs[o].handles > 0
    ensures NamesOk(DropHandle(s, o))
  {
    var t := DropHandle(s, o);
    assert Named(s, o);
    forall n | n in t.names ensures NameOf(t, n) { assert NameOf(s, n); }
    forall x | x in t.objs ensures Named(t, x) {
      assert Named(s, x);
      if x != o && s.objs[x].name != 0 { assert s.objs[x].name != s.objs[o].name; }
    }
  }

  lemma NameKeeps(s: State, o: nat, n: Option<nat>)
    requires Inv(s) && o in s.objs && FreeName(s, n)
    ensures Inv(NameObject(s, o, n))
  {
    hide NamesOk, Entries, Named;
    var t := NameObject(s, o, n);
    assert Live(t) == Live(s);
    forall x | x in t.objs ensures Counted(t, x) { assert Counted(s, x); }
    NameNames(s, o, n);
  }

  lemma NameNames(s: State, o: nat, n: Option<nat>)
    requires NamesOk(s) && o in s.objs && FreeName(s, n)
    ensures NamesOk(NameObject(s, o, n))
  {
    var t := NameObject(s, o, n);
    forall m | m in t.names ensures NameOf(t, m) { if m in s.names { assert NameOf(s, m); } }
    forall x | x in t.objs ensures Named(t, x) { assert Named(s, x); }
  }

  lemma SameLiveKeeps(s: State, t: State)
    requires Inv(s) && Live(t) == Live(s) && VisitedDying(t)
    requires t.objs == s.objs && t.names == s.names && t.held == s.held && t.closing == s.closing
    ensures Inv(t)
  {
    hide Live, Entries;
    forall x | x in t.objs ensures Counted(t, x) && Named(t, x) { assert Counted(s, x) && Named(s, x); }
    forall n | n in t.names ensures NameOf(t, n) { assert NameOf(s, n); }
  }

  lemma TakeEntryKeeps(s: State, key: Key)
    requires Inv(s) && key in s.table && key.0 !in s.dying
    ensures Inv(TakeEntry(s, key))
  {
    hide AllCounted, EntriesKnown, ThreadsKnown, NamesOk;
    LookupFinds(s, key);
    var t := TakeEntry(s, key);
    assert Live(t) == Live(s) - {key};
    CloseEntryKeeps(s, t, key);
  }

  lemma VisitKeeps(s: State, key: Key)
    requires Inv(s) && key in s.table && key !in s.visited && key.0 in s.dying
    ensures Inv(Visit(s, key))
  {
    hide AllCounted, EntriesKnown, ThreadsKnown, NamesOk;
    LookupFinds(s, key);
    var t := Visit(s, key);
    assert Live(t) == Live(s) - {key};
    CloseEntryKeeps(s, t, key);
  }

  lemma ForgetKeeps(s: State, f: nat)
    requires Inv(s) && CanStep(s, ReleaseEnd(f))
    ensures Inv(Forget(s, f))
  {
    hide AllCounted, EntriesKnown, ThreadsKnown, NamesOk;
    assert Live(Forget(s, f)) == Live(s);
    SameLiveKeeps(s, Forget(s, f));
  }

  lemma OpenKeeps(s: State, o: nat, f: nat, h: Option<nat>)
    requires Inv(s) && o in s.objs && f !in s.dying && FreeHandle(s, f, h)
    ensures Inv(Open(s, o, f, h))
  {
    hide AllCounted, EntriesKnown, ThreadsKnown, NamesOk, AddHandle;
    GrabKeeps(s, o);
    AddHandleKeeps(Grab(s, o), f, o, h);
    assert VisitedDying(AddHandle(Grab(s, o), f, o, h));
    SameLiveKeeps(AddHandle(Grab(s, o), f, o, h), Open(s, o, f, h));
  }

  lemma StepKeepsInv(s: State, step: Step)
    requires Inv(s) && Openers(s) && CanStep(s, step) && Next(s, step).Some?
    ensures Inv(Next(s, step).value)
  {
    hide AllCounted, EntriesKnown, ThreadsKnown, NamesOk;
    hide Drop, AddHandle, TakeEntry, DropHandle, NameObject, Visit, Forget, Open;
    match step {
      case New(o, size) => NewKeeps(s, o, size);
      case Lookup(key) => if key in s.table { GrabKeeps(s, s.table[key]); }
      case Get(o) => GrabKeeps(s, o);
      case Put(o) => DropKeeps(s, o);
      case Create(f, o, h) => AddHandleKeeps(s, f, o, h);
      case Delete(key) => if key in s.table { TakeEntryKeeps(s, key); }
      case Unhandle(o) => DropHandleKeeps(s, o);
      case Flink(o, n) => NameKeeps(s, o, n);
      case OpenName(n, f, h) => if n in s.names { OpenKeeps(s, s.names[n], f, h); }
      case OpenFailed(o) => SameLiveKeeps(s, Next(s, step).value);
      case OpenDone(o) => DropKeeps(s, o); SameLiveKeeps(Drop(s, o), Next(s, step).value);
      case ReadSize(o) => SameLiveKeeps(s, Next(s, step).value);
      case ReleaseBegin(f) => SameLiveKeeps(s, s.(dying := s.dying + {f}));
      case ReleaseOne(key) => VisitKeeps(s, key);
      case ReleaseEnd(f) => ForgetKeeps(s, f);
    }
  }

  lemma StepKeepsOpeners(s: State, step: Step)
    requires Inv(s) && Openers(s) && CanStep(s, step) && Next(s, step).Some?
    ensures Openers(Next(s, step).value)
  {
    hide Inv, Openers;
    var t := Next(s, step).value;
    match step {
      case Put(o) => PutOpeners(s, t, o);
      case OpenName(n, f, h) => if n in s.names { MoreHeld(s, t, s.names[n]); }
      case OpenFailed(o) => FewerOpeners(s, t, o);
      case OpenDone(o) => BothLess(s, t, o);
      case _ => OtherStepOpeners(s, step);
    }
  }

  /** Steps that have nothing to do with opening by name take no reference away. */
  lemma OtherStepOpeners(s: State, step: Step)
    requires Openers(s) && Next(s, step).Some?
    requires !step.Put? && !step.OpenName? && !step.OpenFailed? && !step.OpenDone?
    ensures Openers(Next(s, step).value)
  {
    hide Openers;
    var t := Next(s, step).value;
    if step.New? || step.Get? || step.Unhandle? {
      MoreHeld(s, t, step.o);
    } else if step.Lookup? && step.key in s.table {
      MoreHeld(s, t, s.table[step.key]);
    } else {
      MoreHeld(s, t, 0);
    }
  }

  lemma PutOpeners(s: State, t: State, o: nat)
    requires Openers(s) && s.held[o] > s.opening[o] && t.opening == s.opening && t.held == s.held - multiset{o}
    ensures Openers(t)
  {
  }

  lemma FewerOpeners(s: State, t: State, o: nat)
    requires Openers(s) && t.opening == s.opening - multiset{o} && t.held == s.held
    ensures Openers(t)
  {
  }

  lemma BothLess(s: State, t: State, o: nat)
    requires Openers(s) && o in s.opening && t.opening == s.opening - multiset{o} && t.held == s.held - multiset{o}
    ensures Openers(t)
  {
  }

  lemma MoreHeld(s: State, t: State, o: nat)
    requires Openers(s) && (t.held == s.held || t.held == s.held + multiset{o})
    requires t.opening == s.opening || (t.opening == s.opening + multiset{o} && t.held == s.held + multiset{o})
    ensures Openers(t)
  {
  }

  // ----- whole runs -----

  const Start := State(map[], map[], map[], {}, {}, multiset{}, multiset{}, multiset{}, multiset{})

  ghost predicate Run(ss: seq<State>, steps: seq<Step>) {
    |ss| == |steps| + 1 && ss[0] == Start &&
    forall i :: 0 <= i < |steps| ==> CanStep(ss[i], steps[i]) && Next(ss[i], steps[i]) == Some(ss[i + 1])
  }

  lemma StartHolds()
    ensures Inv(Start) && Openers(Start)
  {
  }

  lemma {:induction false} RunKeepsInv(ss: seq<State>, steps: seq<Step>, i: nat)
    requires Run(ss, steps) && i < |ss|
    ensures Inv(ss[i]) && Openers(ss[i])
  {
    hide Inv, Openers, Next, CanStep;
    if i == 0 {
      StartHolds();
    } else {
      RunKeepsInv(ss, steps, i - 1);
      assert Next(ss[i - 1], steps[i - 1]) == Some(ss[i]);
      StepKeepsInv(ss[i - 1], steps[i - 1]);
      StepKeepsOpeners(ss[i - 1], steps[i - 1]);
    }
  }

  /**
   Whatever a thread of any run does next, it does not touch a freed object, with one exception: a
   thread that reads the size of an object it has opened does if and only if no table entry, no close
   in flight and no thread's reference to that object is left.
   */
  lemma FaultsOnlyOnLateRead(ss: seq<State>, steps: seq<Step>, i: nat, step: Step)
    requires Run(ss, steps) && i < |ss| && CanStep(ss[i], step)
    ensures Next(ss[i], step) == None <==>
              step.ReadSize? && Entries(Live(ss[i]), step.o) == 0 && ss[i].closing[step.o] == 0 &&
              ss[i].held[step.o] == 0
  {
    hide Inv, Openers, Next, CanStep;
    RunKeepsInv(ss, steps, i);
    if step.ReadSize? { ReadFaultsIff(ss[i], step.o); } else { NoFault(ss[i], step); }
  }

  /** Objects keep their sizes; handles and names that stay lead where they led. */
  ghost predicate SameIdentities(s: State, t: State) {
    (forall o :: o in s.objs && o in t.objs ==> t.objs[o].size == s.objs[o].size) &&
    (forall k :: k in s.table && k in t.table ==> t.table[k] == s.table[k]) &&
    (forall n :: n in s.names && n in t.names ==> t.names[n] == s.names[n])
  }

  lemma PartsKeepIdentities(s: State, o: nat, f: nat, h: Option<nat>, n: Option<nat>)
    requires Usable(s, o) && FreeHandle(s, f, h) && FreeName(s, n)
    ensures SameIdentities(s, Grab(s, o)) && SameIdentities(s, Drop(s, o)) && SameIdentities(s, AddHandle(s, f, o, h))
    ensures SameIdentities(s, DropHandle(s, o)) && SameIdentities(s, NameObject(s, o, n))
  {
  }

  lemma OpenKeepsIdentities(s: State, o: nat, f: nat, h: Option<nat>)
    requires Usable(s, o) && FreeHandle(s, f, h)
    ensures SameIdentities(s, Open(s, o, f, h))
    ensures h.Some? ==> (f, h.value) in Open(s, o, f, h).table && Open(s, o, f, h).table[(f, h.value)] == o
  {
  }

  lemma FilesKeepIdentities(s: State, key: Key)
    requires key in s.table
    ensures SameIdentities(s, TakeEntry(s, key)) && SameIdentities(s, Visit(s, key))
  {
  }

  lemma ForgetKeepsIdentities(s: State, f: nat)
    ensures SameIdentities(s, Forget(s, f))
  {
  }

  /**
   What identities mean, step by step: an object keeps the size it was made with, a handle and a name lead to one
   object as long as they exist, and a new handle leads to the object it was asked for.
   */
  lemma StepKeepsIdentities(s: State, step: Step)
    requires CanStep(s, step) && Next(s, step).Some?
    ensures SameIdentities(s, Next(s, step).value)
    ensures step.New? ==> step.o in Next(s, step).value.objs && Next(s, step).value.objs[step.o].size == step.size
    ensures step.Create? && step.handle.Some? ==>
              var t, key := Next(s, step).value, (step.file, step.handle.value);
              key in t.table && t.table[key] == step.o
    ensures step.OpenName? && step.name in s.names && step.handle.Some? ==>
              var t, key := Next(s, step).value, (step.file, step.handle.value);
              key in t.table && t.table[key] == s.names[step.name]
  {
    hide Grab, Drop, DropHandle, NameObject, Open, Forget, TakeEntry, Visit;
    match step
    case New(o, size) =>
    case Lookup(key) => if key in s.table { PartsKeepIdentities(s, s.table[key], 0, None, None); }
    case Get(o) => PartsKeepIdentities(s, o, 0, None, None);
    case Put(o) => PartsKeepIdentities(s, o, 0, None, None);
    case Create(f, o, h) => PartsKeepIdentities(s, o, f, h, None);
    case Delete(key) => if key in s.table { FilesKeepIdentities(s, key); }
    case Unhandle(o) => PartsKeepIdentities(s, o, 0, None, None);
    case Flink(o, n) => PartsKeepIdentities(s, o, 0, None, n);
    case OpenName(n, f, h) => if n in s.names { OpenKeepsIdentities(s, s.names[n], f, h); }
    case OpenFailed(o) =>
    case OpenDone(o) => PartsKeepIdentities(s, o, 0, None, None);
    case ReadSize(o) =>
    case ReleaseBegin(f) =>
    case ReleaseOne(key) => FilesKeepIdentities(s, key);
    case ReleaseEnd(f) => ForgetKeepsIdentities(s, f);
  }

  // ----- a late read -----

  /** A run goes on with any step that can be taken. */
  lemma Go(ss: seq<State>, steps: seq<Step>, step: Step) returns (ss1: seq<State>, steps1: seq<Step>)
    requires Run(ss, steps) && CanStep(ss[|steps|], step) && Next(ss[|steps|], step).Some?
    ensures Run(ss1, steps1) && |ss1| == |steps1| + 1 && ss1[|steps1|] == Next(ss[|steps|], step).value
  {
    hide Next, CanStep;
    ss1, steps1 := ss + [Next(ss[|steps|], step).value], steps + [step];
  }

  /** Object 1 is the only one; the given entries are all for it. */
  ghost predicate Sole(s: State, refs: nat, handles: nat, name: nat, keys: set<Key>) {
    1 in s.objs && s.objs[1] == Obj(refs, handles, name, 4096) && s.table.Keys == keys &&
    (forall k :: k in keys ==> s.table[k] == 1) && (5 in s.names <==> name == 5) && (name == 5 ==> s.names[5] == 1) &&
    s.dying == {} && s.visited == {}
  }

  ghost predicate Threads(s: State, held: nat, closing: nat, opening: nat, reading: nat) {
    s.held[1] == held && s.closing[1] == closing && s.opening[1] == opening && s.reading[1] == reading
  }

  lemma StartRun()
    ensures Run([Start], [])
  {
  }

  lemma MakeHandle() returns (ss: seq<State>, steps: seq<Step>)
    ensures Run(ss, steps) && |ss| == |steps| + 1
    ensures Sole(ss[|steps|], 2, 1, 0, {(1, 1)}) && Threads(ss[|steps|], 1, 0, 0, 0)
  {
    hide Run;
    StartRun();
    ss, steps := Go([Start], [], New(1, 4096));
    assert Sole(ss[|steps|], 1, 0, 0, {}) && Threads(ss[|steps|], 1, 0, 0, 0);
    ss, steps := Go(ss, steps, Create(1, 1, Some(1)));
  }

  /** An object with handle 1 in file 1 and the name 5, and no thread busy with it. */
  lemma MakeNamed() returns (ss: seq<State>, steps: seq<Step>)
    ensures Run(ss, steps) && |ss| == |steps| + 1
    ensures Sole(ss[|steps|], 1, 1, 5, {(1, 1)}) && Threads(ss[|steps|], 0, 0, 0, 0)
  {
    hide Run;
    ss, steps := MakeHandle();
    ss, steps := Go(ss, steps, Flink(1, Some(5)));
    assert Sole(ss[|steps|], 2, 1, 5, {(1, 1)}) && Threads(ss[|steps|], 1, 0, 0, 0);
    ss, steps := Go(ss, steps, Put(1));
  }

  lemma CloseStart(ss: seq<State>, steps: seq<Step>, refs: nat, handles: nat, name: nat, keys: set<Key>, key: Key,
      reading: nat) returns (ss1: seq<State>, steps1: seq<Step>)
    requires Run(ss, steps) && |ss| == |steps| + 1 && key in keys && handles > 0
    requires Sole(ss[|steps|], refs, handles, name, keys) && Threads(ss[|steps|], 0, 0, 0, reading) && refs >= 1
    ensures Run(ss1, steps1) && |ss1| == |steps1| + 1 && Threads(ss1[|steps1|], 1, 0, 0, reading)
    ensures Sole(ss1[|steps1|], refs, handles - 1, if handles == 1 then 0 else name, keys - {key})
  {
    hide Run;
    ss1, steps1 := Go(ss, steps, Delete(key));
    assert Sole(ss1[|steps1|], refs, handles, name, keys - {key}) && Threads(ss1[|steps1|], 0, 1, 0, reading);
    ss1, steps1 := Go(ss1, steps1, Unhandle(1));
  }

  /** A thread closes one of several handles; the reference of the handle is the last to go. */
  lemma CloseOne(ss: seq<State>, steps: seq<Step>, refs: nat, handles: nat, name: nat, keys: set<Key>, key: Key,
      reading: nat) returns (ss1: seq<State>, steps1: seq<Step>)
    requires Run(ss, steps) && |ss| == |steps| + 1 && key in keys && handles > 0
    requires Sole(ss[|steps|], refs, handles, name, keys) && Threads(ss[|steps|], 0, 0, 0, reading) && refs >= 1
    ensures Run(ss1, steps1) && |ss1| == |steps1| + 1 && Threads(ss1[|steps1|], 0, 0, 0, reading)
    ensures refs > 1 ==> Sole(ss1[|steps1|], refs - 1, handles - 1, if handles == 1 then 0 else name, keys - {key})
    ensures refs == 1 ==> 1 !in ss1[|steps1|].objs
  {
    hide Run;
    ss1, steps1 := CloseStart(ss, steps, refs, handles, name, keys, key, reading);
    ss1, steps1 := Go(ss1, steps1, Put(1));
  }

  /** It is opened by its name in file 2, and the opener has still to read its size. */
  lemma OpenNamed() returns (ss: seq<State>, steps: seq<Step>)
    ensures Run(ss, steps) && |ss| == |steps| + 1
    ensures Sole(ss[|steps|], 2, 2, 5, {(1, 1), (2, 1)}) && Threads(ss[|steps|], 0, 0, 0, 1)
  {
    hide Run;
    ss, steps := MakeNamed();
    ss, steps := Go(ss, steps, OpenName(5, 2, Some(1)));
    assert Sole(ss[|steps|], 3, 2, 5, {(1, 1), (2, 1)}) && Threads(ss[|steps|], 1, 0, 1, 0);
    ss, steps := Go(ss, steps, OpenDone(1));
  }

  /**
   Object 1 is opened by its name; before the opener reads the size, both its handles are closed. The
   object is gone, and unless a new object has taken its place the read finds none.
   */
  lemma LateRead() returns (ss: seq<State>, steps: seq<Step>)
    ensures Run(ss, steps) && |ss| == |steps| + 1
    ensures CanStep(ss[|steps|], ReadSize(1)) && Next(ss[|steps|], ReadSize(1)) == None
  {
    hide Run, Sole;
    ss, steps := OpenNamed();
    ss, steps := CloseOne(ss, steps, 2, 2, 5, {(1, 1), (2, 1)}, (1, 1), 1);
    assert {(1, 1), (2, 1)} - {(1, 1)} == {(2, 1)};
    ss, steps := CloseOne(ss, steps, 1, 1, 5, {(2, 1)}, (2, 1), 1);
    ReadOfNothing(ss[|steps|]);
  }

  lemma ReadOfNothing(s: State)
    requires 1 !in s.objs && Threads(s, 0, 0, 0, 1)
    ensures CanStep(s, ReadSize(1)) && Next(s, ReadSize(1)) == None
  {
  }

  /** In every reachable state the counts are exact, so whatever a handle or a name leads to is there. */
  lemma NothingReachableIsFreed(ss: seq<State>, steps: seq<Step>, i: nat)
    requires Run(ss, steps) && i < |ss|
    ensures var s := ss[i];
            (forall k :: k in s.table && k !in s.visited ==> s.table[k] in s.objs && s.objs[s.table[k]].handles > 0) &&
            (forall n :: n in s.names ==> s.names[n] in s.objs && s.objs[s.names[n]].handles > 0) &&
            (forall o :: o in s.objs ==> s.objs[o].refs >= s.objs[o].handles == Entries(Live(s), o) + s.closing[o])
  {
    hide Live, Entries, Next, CanStep;
    RunKeepsInv(ss, steps, i);
    var s := ss[i];
    forall k | k in s.table && k !in s.visited ensures s.table[k] in s.objs && s.objs[s.table[k]].handles > 0 {
      LookupFinds(s, k);
    }
    forall n | n in s.names ensures s.names[n] in s.objs && s.objs[s.names[n]].handles > 0 { NameFinds(s, n); }
    forall o | o in s.objs ensures s.objs[o].refs >= s.objs[o].handles == Entries(Live(s), o) + s.closing[o] {
      assert Counted(s, o);
    }
  }

  /** No object has two names and no name two objects, and both directions agree. */
  lemma NamesAreUnique(ss: seq<State>, steps: seq<Step>, i: nat, o: nat, n: nat)
    requires Run(ss, steps) && i < |ss| && n != 0
    ensures n in ss[i].names && ss[i].names[n] == o <==> o in ss[i].objs && ss[i].objs[o].name == n
  {
    hide Live, Entries, Next, CanStep;
    RunKeepsInv(ss, steps, i);
    if n in ss[i].names { assert NameOf(ss[i], n); }
    if o in ss[i].objs { assert Named(ss[i], o); }
  }

  /** Closing the last handle takes the name with it, and only that name. */
  lemma LastHandleTakesName(s: State, o: nat, n: nat)
    requires Inv(s) && o in s.closing && Entries(Live(s), o) == 0 && s.closing[o] == 1
    ensures Next(s, Unhandle(o)).Some?
    ensures n in Next(s, Unhandle(o)).value.names <==> n in s.names && s.names[n] != o
  {
    ClosingIsLive(s, o);
    assert Named(s, o);
    if n in s.names { assert NameOf(s, n); }
  }

  // ----- whole calls without interference -----

  /** All of drm_gem_object_handle_unreference_unlocked. */
  ghost function Close(s: State, o: nat): State
    requires Usable(s, o)
  {
    Drop(DropHandle(s, o), o)
  }

  lemma CloseKeeps(s: State, o: nat)
    requires Inv(s) && o in s.closing
    ensures Usable(s, o) && s.objs[o].handles > 0 && Usable(DropHandle(s, o), o) && Inv(Close(s, o))
    ensures var t := Close(s, o); t.held == s.held && t.closing == s.closing - multiset{o} && t.table == s.table &&
                                  t.dying == s.dying && t.visited == s.visited
  {
    hide Inv;
    ClosingIsLive(s, o);
    DropHandleKeeps(s, o);
    DropKeeps(DropHandle(s, o), o);
    assert s.held + multiset{o} - multiset{o} == s.held;
  }

  /** A handle in flight: counted in the object, in no table. */
  ghost function InFlight(s: State, o: nat): State
    requires o in s.objs
  {
    var obj := s.objs[o];
    s.(objs := s.objs[o := obj.(refs := obj.refs + 1, handles := obj.handles + 1)], closing := s.closing + multiset{o})
  }

  /** Allocating a handle and deleting it at once leaves it in flight, and so does a failed allocation. */
  lemma CreateThenTake(s: State, f: nat, o: nat, h: Option<nat>)
    requires o in s.objs && FreeHandle(s, f, h)
    ensures h.Some? ==> TakeEntry(AddHandle(s, f, o, h), (f, h.value)) == InFlight(s, o)
    ensures h == None ==> AddHandle(s, f, o, h) == InFlight(s, o)
  {
    if h.Some? { assert s.table[(f, h.value) := o] - {(f, h.value)} == s.table; }
  }

  /** Closing a handle that was only just counted changes nothing: a failed create undoes itself. */
  lemma CloseUndoes(s: State, o: nat)
    requires Usable(s, o) && (s.objs[o].name != 0 ==> s.objs[o].handles > 0)
    ensures Close(InFlight(s, o), o) == s
  {
    var obj := s.objs[o];
    UnhandleUndoes(s, o);
    hide InFlight, DropHandle;
    assert s.objs[o := obj.(refs := obj.refs + 1)][o := obj] == s.objs;
    assert s.held + multiset{o} - multiset{o} == s.held;
  }

  lemma UnhandleUndoes(s: State, o: nat)
    requires Usable(s, o) && (s.objs[o].name != 0 ==> s.objs[o].handles > 0)
    ensures DropHandle(InFlight(s, o), o) ==
            s.(objs := s.objs[o := s.objs[o].(refs := s.objs[o].refs + 1)], held := s.held + multiset{o})
  {
    var obj := s.objs[o];
    assert s.closing + multiset{o} - multiset{o} == s.closing;
    assert s.objs[o := obj.(refs := obj.refs + 1, handles := obj.handles + 1)][o := obj.(refs := obj.refs + 1)]
        == s.objs[o := obj.(refs := obj.refs + 1)];
  }

  lemma HeldNamed(s: State, o: nat)
    requires Inv(s) && o in s.held
    ensures Usable(s, o) && (s.objs[o].name != 0 ==> s.objs[o].handles > 0)
  {
    HeldIsLive(s, o);
    assert Named(s, o);
  }

  /** The device's GEM tables. held and closing are the counts the proofs keep about the calls in progress. */
  class Tables {
    var objs: map<nat, Obj>
    var table: map<Key, nat>
    var names: map<nat, nat>
    ghost var dying: set<nat>
    ghost var visited: set<Key>
    ghost var held: multiset<nat>
    ghost var closing: multiset<nat>
    ghost var opening: multiset<nat>
    ghost var reading: multiset<nat>

    ghost function Value(): State
      reads this
    {
      State(objs, table, names, dying, visited, held, closing, opening, reading)
    }

    constructor ()
      ensures Value() == Start && Inv(Value())
    {
      objs, table, names := map[], map[], map[];
      dying, visited, held, closing := {}, {}, multiset{}, multiset{};
      opening, reading := multiset{}, multiset{};
      new;
      StartHolds();
    }

    method Reference(o: nat)
      requires o in objs
      modifies `objs, `held
      ensures Value() == Grab(old(Value()), o)
    {
      objs := objs[o := objs[o].(refs := objs[o].refs + 1)];
      held := held + multiset{o};
    }

    /** kref_put: frees on the last reference. */
    method Unreference(o: nat)
      requires Usable(Value(), o)
      modifies `objs, `held
      ensures Value() == Drop(old(Value()), o)
    {
      var obj := objs[o];
      if obj.refs == 1 { objs := objs - {o}; } else { objs := objs[o := obj.(refs := obj.refs - 1)]; }
      held := held - multiset{o};
    }

    /** drm_gem_object_handle_free. */
    method HandleFree(o: nat)
      requires o in objs
      modifies `objs, `names
      ensures objs == old(objs)[o := old(objs)[o].(name := 0)]
      ensures names == if old(objs)[o].name != 0 then old(names) - {old(objs)[o].name} else old(names)
    {
      if objs[o].name != 0 {
        names := names - {objs[o].name};
        objs := objs[o := objs[o].(name := 0)];
      }
      assert objs == old(objs)[o := old(objs)[o].(name := 0)];
    }

    /** The locked part of drm_gem_object_handle_unreference_unlocked. */
    method HandleDrop(o: nat)
      requires o in objs && objs[o].handles > 0
      modifies `objs, `names, `closing, `held
      ensures Value() == DropHandle(old(Value()), o)
    {
      hide DropHandle;
      ghost var s := Value();
      var obj := objs[o];
      objs := objs[o := obj.(handles := obj.handles - 1)];
      if objs[o].handles == 0 {
        HandleFree(o);
        Overwrite(s.objs, o, obj.(handles := 0), obj.(handles := 0, name := 0));
        assert objs == s.objs[o := obj.(handles := 0, name := 0)];
      }
      closing, held := closing - multiset{o}, held + multiset{o};
      DropHandleIs(s, o);
    }

    /** drm_gem_object_handle_unreference_unlocked. */
    method HandleUnreference(o: nat)
      requires Inv(Value()) && o in closing
      modifies this
      ensures Usable(old(Value()), o) && Value() == Close(old(Value()), o) && Inv(Value())
      ensures held == old(held) && closing == old(closing) - multiset{o}
      ensures table == old(table) && dying == old(dying) && visited == old(visited)
    {
      hide Inv, DropHandle, Drop;
      CloseKeeps(Value(), o);
      if objs[o].handles == 0 { return; }
      HandleDrop(o);
      Unreference(o);
    }

    /** drm_gem_handle_delete: false stands for the error about an unknown handle. */
    method HandleDelete(f: nat, h: nat) returns (ok: bool)
      requires Inv(Value()) && f !in dying
      modifies this
      ensures ok <==> (f, h) in old(table)
      ensures !ok ==> Value() == old(Value())
      ensures ok ==> var s1 := TakeEntry(old(Value()), (f, h)); var o := old(table)[(f, h)];
                     Usable(s1, o) && Value() == Close(s1, o)
      ensures Inv(Value()) && held == old(held) && closing == old(closing)
      ensures table == old(table) - {(f, h)} && dying == old(dying) && visited == old(visited)
    {
      hide Inv, Close;
      if (f, h) !in table {
        assert table - {(f, h)} == table;
        return false;
      }
      ghost var s := Value();
      var o := table[(f, h)];
      TakeEntryKeeps(s, (f, h));
      table := table - {(f, h)};
      closing := closing + multiset{o};
      assert closing - multiset{o} == s.closing;
      HandleUnreference(o);
      return true;
    }

    /**
     drm_gem_handle_create_tail. id is the outcome of the handle allocation; allowed and accepted are
     those of the two calls that may still fail. If any of the three fails, nothing has changed.
     */
    method HandleCreateTail(f: nat, o: nat, id: Option<nat>, allowed: bool, accepted: bool)
      returns (handle: Option<nat>)
      requires Inv(Value()) && o in held && f !in dying && FreeHandle(Value(), f, id)
      modifies this
      ensures o in old(objs)
      ensures handle == if allowed && accepted then id else None
      ensures handle.Some? ==> Value() == AddHandle(old(Value()), f, o, id)
      ensures handle == None ==> Value() == old(Value())
      ensures Inv(Value())
    {
      hide Inv, Close, InFlight;
      ghost var s := Value();
      HeldNamed(s, o);
      AddHandleKeeps(s, f, o, id);
      CreateThenTake(s, f, o, id);
      CloseUndoes(s, o);
      objs := objs[o := objs[o].(refs := objs[o].refs + 1, handles := objs[o].handles + 1)];
      if id.Some? { table := table[(f, id.value) := o]; } else { closing := closing + multiset{o}; }
      assert Value() == AddHandle(s, f, o, id);
      if id == None {
        HandleUnreference(o);
        return None;
      }
      if !allowed || !accepted {
        var deleted := HandleDelete(f, id.value);
        return None;
      }
      return id;
    }

    /** drm_gem_object_lookup. */
    method ObjectLookup(f: nat, h: nat) returns (r: Option<nat>)
      requires Inv(Value()) && f !in dying
      modifies `objs, `held
      ensures r == if (f, h) in table then Some(table[(f, h)]) else None
      ensures r.Some? ==> r.value in old(objs) && Value() == Grab(old(Value()), r.value) && r.value in held
      ensures r == None ==> Value() == old(Value())
      ensures Inv(Value())
    {
      hide NamesOk, EntriesKnown, AllCounted;
      if (f, h) !in table { return None; }
      LookupFinds(Value(), (f, h));
      GrabKeeps(Value(), table[(f, h)]);
      Reference(table[(f, h)]);
      return Some(table[(f, h)]);
    }

    /** The locked part of drm_gem_flink_ioctl. */
    method NameIt(o: nat, id: Option<nat>) returns (r: Option<nat>)
      requires Inv(Value()) && o in objs && objs[o].handles > 0 && FreeName(Value(), id)
      modifies `objs, `names
      ensures Value() == NameObject(old(Value()), o, id) && Inv(Value())
      ensures r == if old(objs)[o].name != 0 then Some(old(objs)[o].name) else id
      ensures r.Some? ==> r.value in names && names[r.value] == o
      ensures o in objs && objs[o].refs == old(objs)[o].refs
    {
      hide Inv;
      ghost var s := Value();
      NameKeeps(s, o, id);
      if objs[o].name == 0 {
        if id == None { return None; }
        names := names[id.value := o];
        objs := objs[o := objs[o].(name := id.value)];
      }
      assert Value() == NameObject(s, o, id);
      NamedIs(Value(), o);
      return Some(objs[o].name);
    }

    /** drm_gem_flink_ioctl: one name per object, however often it is asked for; None stands for an error. */
    method FlinkIoctl(f: nat, h: nat, id: Option<nat>) returns (r: Option<nat>)
      requires Inv(Value()) && f !in dying && FreeName(Value(), id)
      modifies this
      ensures Inv(Value()) && held == old(held) && closing == old(closing) && table == old(table)
      ensures (f, h) in table ==> table[(f, h)] in old(objs)
      ensures r == if (f, h) !in table then None
                   else if old(objs)[table[(f, h)]].name != 0 then Some(old(objs)[table[(f, h)]].name) else id
      ensures r.Some? ==> r.value in names && names[r.value] == table[(f, h)]
      ensures r == None ==> names == old(names)
    {
      hide Inv;
      ghost var s := Value();
      var found := ObjectLookup(f, h);
      if found == None { return None; }
      var o := found.value;
      HandleKnown(s, f, h);
      assert FreeName(Value(), id);
      r := NameIt(o, id);
      DropKeeps(Value(), o);
      PutBack(s.held, o);
      hide NameObject, FreeName;
      Unreference(o);
    }

    /**
     drm_gem_open_ioctl when nobody interferes: the new handle is for the object of that name, and the
     size read after the reference is dropped is that object's.
     */
    method OpenIoctl(name: nat, f: nat, id: Option<nat>, allowed: bool, accepted: bool)
      returns (handle: Option<nat>, size: nat)
      requires Inv(Value()) && f !in dying && FreeHandle(Value(), f, id)
      modifies this
      ensures Inv(Value()) && held == old(held) && closing == old(closing) && names == old(names)
      ensures handle == if name in old(names) && allowed && accepted then id else None
      ensures handle.Some? ==> table == old(table)[(f, handle.value) := old(names)[name]] &&
                               old(names)[name] in old(objs) && size == old(objs)[old(names)[name]].size
      ensures handle == None ==> Value() == old(Value())
    {
      hide Inv;
      size := 0;
      if name !in names { return None, 0; }
      ghost var s := Value();
      var o := names[name];
      NameFinds(s, name);
      GrabKeeps(s, o);
      Reference(o);
      assert FreeHandle(Value(), f, id);
      handle := HandleCreateTail(f, o, id, allowed, accepted);
      DropKeeps(Value(), o);
      assert s.held + multiset{o} - multiset{o} == s.held;
      if handle == None { GrabDrop(s, o); }
      Unreference(o);
      if handle.Some? {
        HandleKnown(Value(), f, handle.value);
        size := objs[o].size;
      }
    }

    /** drm_gem_release: every handle of the file is given up, and nobody else's. */
    method Release(f: nat)
      requires Inv(Value()) && f !in dying
      modifies this
      ensures Inv(Value()) && held == old(held) && closing == old(closing)
      ensures table == map k | k in old(table) && k.0 != f :: old(table)[k]
    {
      hide AllCounted, EntriesKnown, ThreadsKnown, NamesOk;
      ghost var s := Value();
      BeginKeeps(s, f);
      dying := dying + {f};
      ReleaseAll(f);
      ghost var last := Value();
      assert CanStep(last, ReleaseEnd(f));
      ForgetKeeps(last, f);
      table := map k | k in table && k.0 != f :: table[k];
      visited := set k | k in visited && k.0 != f;
      assert Value() == Forget(last, f);
    }

    /** The walk over the entries of a file nobody else can use any more. */
    method ReleaseAll(f: nat)
      requires Inv(Value()) && f in dying && (forall k :: k in visited ==> k.0 != f)
      modifies this
      ensures Inv(Value()) && held == old(held) && closing == old(closing) && table == old(table) && dying == old(dying)
      ensures forall k :: k in table && k.0 == f ==> k in visited
    {
      hide Inv, Close;
      ghost var s := Value();
      var todo := set k | k in table && k.0 == f;
      while todo != {}
        invariant Inv(Value()) && table == s.table && held == s.held && closing == s.closing && dying == s.dying
        invariant forall k :: k in todo ==> k in table && k.0 == f && k !in visited
        invariant forall k :: k in table && k.0 == f ==> k in todo || k in visited
        decreases todo
      {
        var k :| k in todo;
        VisitKeeps(Value(), k);
        visited := visited + {k};
        closing := closing + multiset{table[k]};
        todo := todo - {k};
        assert closing - multiset{table[k]} == s.closing;
        HandleUnreference(table[k]);
      }
    }
  }

  lemma BeginKeeps(s: State, f: nat)
    requires Inv(s) && f !in s.dying
    ensures Inv(s.(dying := s.dying + {f})) && forall k :: k in s.visited ==> k.0 != f
  {
    hide AllCounted, EntriesKnown, ThreadsKnown, NamesOk;
    SameLiveKeeps(s, s.(dying := s.dying + {f}));
  }

  lemma NamedIs(s: State, o: nat)
    requires Inv(s) && o in s.objs && s.objs[o].name != 0
    ensures s.objs[o].name in s.names && s.names[s.objs[o].name] == o
  {
    assert Named(s, o);
  }

  lemma PutBack(held: multiset<nat>, o: nat)
    ensures held + multiset{o} - multiset{o} == held
  {
  }

  lemma HandleKnown(s: State, f: nat, h: nat)
    requires Inv(s) && (f, h) in s.table && f !in s.dying
    ensures s.table[(f, h)] in s.objs && s.objs[s.table[(f, h)]].handles > 0
  {
    LookupFinds(s, (f, h));
  }

  lemma DropHandleIs(s: State, o: nat)
    requires o in s.objs && s.objs[o].handles > 0
    ensures var obj := s.objs[o]; var r := DropHandle(s, o);
            r.table == s.table && r.dying == s.dying && r.visited == s.visited &&
            r.closing == s.closing - multiset{o} && r.held == s.held + multiset{o} &&
            r.opening == s.opening && r.reading == s.reading &&
            (obj.handles > 1 ==> r.objs == s.objs[o := obj.(handles := obj.handles - 1)] && r.names == s.names) &&
            (obj.handles == 1 ==> r.objs == s.objs[o := obj.(handles := 0, name := 0)] &&
                                  r.names == if obj.name != 0 then s.names - {obj.name} else s.names)
  {
  }

  lemma Overwrite(m: map<nat, Obj>, o: nat, x: Obj, y: Obj)
    ensures m[o := x][o := y] == m[o := y]
  {
  }

  lemma GrabDrop(s: State, o: nat)
    requires Usable(s, o)
    ensures Drop(Grab(s, o), o) == s
  {
    assert s.held + multiset{o} - multiset{o} == s.held;
    assert Grab(s, o).objs[o := s.objs[o]] == s.objs;
  }
}
