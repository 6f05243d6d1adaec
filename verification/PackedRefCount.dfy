/** Intrusive reference counting: one 64-bit word holds the count in its upper 16 bits and
    the deleter in the other 48. Smart pointers are copied, moved, assigned, adopted and
    dropped by any number of threads; every access to a word is one step, and so is the call
    of a deleter. */
module PackedRefCount {
  import opened Options

  const ONE := 0x1_0000_0000_0000          // 2^48
  const WORD := 0x1_0000_0000_0000_0000
  const COUNTS := 0x1_0000                 // 2^16

  // ---------------------------------------------------------------- the word

  function Packed(count: nat, deleter: nat): nat { count % COUNTS * ONE + deleter % ONE }

  function CountOf(word: nat): nat { word / ONE }

  function DeleterOf(word: nat): nat { word % ONE }

  lemma Unpacked(count: nat, deleter: nat)
    ensures CountOf(Packed(count, deleter)) == count % COUNTS
    ensures DeleterOf(Packed(count, deleter)) == deleter % ONE
    ensures Packed(count, deleter) < WORD
  {}

  lemma Whole(deleter: nat)
    requires deleter < ONE
    ensures deleter % ONE == deleter
  {}

  /** fetch_add of 2^48 counts up around a ring of 2^16, and leaves the deleter alone. */
  lemma CountUp(count: nat, deleter: nat)
    ensures (Packed(count, deleter) + ONE) % WORD == Packed(count + 1, deleter)
  {
    var c, d := count % COUNTS, deleter % ONE;
    assert (count + 1) % COUNTS == if c + 1 == COUNTS then 0 else c + 1;
  }

  lemma CountDown(count: nat, deleter: nat)
    requires count > 0
    ensures (Packed(count, deleter) + WORD - ONE) % WORD == Packed(count - 1, deleter)
  {
    var c, d := count % COUNTS, deleter % ONE;
    assert (count - 1) % COUNTS == if c == 0 then COUNTS - 1 else c - 1;
  }

  // ---------------------------------------------------------------- the protocol

  /** `deleter` is what the object was made with, `deletions` lists the deleters called on it,
      and `dying` is the handle whose drop is about to call it; no step reads these. */
  datatype Object = Object(word: nat, deleter: nat, deletions: seq<nat>, dying: Option<nat>)

  /** What an operation does with its handle after dropping what it held. */
  datatype Then = Clear | CopyFrom(src: nat) | MoveFrom(src: nat)

  datatype Pc = Steady | Deleting(deleter: nat, next: Then) | Dropped(next: Then)

  /** A smart pointer, or a raw pointer that a count has been taken for. */
  datatype Handle = Handle(ptr: Option<nat>, pc: Pc)

  datatype State = State(objects: seq<Object>, handles: seq<Handle>)

  datatype Action =
    | New(h: nat, deleter: nat)       // allocate, set the deleter, take the first count
    | Copy(h: nat, src: nat)          // copy construction, or IncRef for a raw pointer
    | Move(h: nat, src: nat)          // move construction, or adoption of a raw pointer
    | Swap(h: nat, src: nat)
    | Drop(h: nat, next: Then)        // fetch_sub by the destructor, `reset` or an assignment
    | Delete(h: nat)
    | Finish(h: nat)

  predicate Borrows(pc: Pc, src: nat) {
    match pc
    case Steady => false
    case Deleting(_, next) => !next.Clear? && next.src == src
    case Dropped(next) => !next.Clear? && next.src == src
  }

  /** No running assignment reads the handle, and it is not in the middle of one. */
  predicate Usable(s: State, h: nat) {
    && h < |s.handles| && s.handles[h].pc.Steady?
    && forall g | 0 <= g < |s.handles| :: !Borrows(s.handles[g].pc, h)
  }

  predicate Holds(s: State, h: nat) {
    h < |s.handles| && s.handles[h].pc.Steady? && (s.handles[h].ptr.Some? ==> s.handles[h].ptr.value < |s.objects|)
  }

  predicate Enabled(s: State, a: Action) {
    match a
    case New(h, _) => Usable(s, h) && s.handles[h].ptr.None?
    case Copy(h, src) => Usable(s, h) && s.handles[h].ptr.None? && Holds(s, src)
    case Move(h, src) => Usable(s, h) && s.handles[h].ptr.None? && Usable(s, src)
    case Swap(h, src) => Usable(s, h) && Usable(s, src)
    case Drop(h, next) =>
      && Usable(s, h) && Holds(s, h)
      && (next.Clear? || (Holds(s, next.src) && s.handles[h].ptr != s.handles[next.src].ptr))
      && (next.MoveFrom? ==> Usable(s, next.src))
    case Delete(h) =>
      h < |s.handles| && s.handles[h].pc.Deleting? && s.handles[h].ptr.Some? && s.handles[h].ptr.value < |s.objects|
    case Finish(h) =>
      h < |s.handles| && s.handles[h].pc.Dropped? &&
      (s.handles[h].pc.next.Clear? || Holds(s, s.handles[h].pc.next.src))
  }

  function IncRef(s: State, o: Option<nat>): State {
    if o.Some? && o.value < |s.objects| then
      s.(objects := s.objects[o.value := s.objects[o.value].(word := (s.objects[o.value].word + ONE) % WORD)])
    else s
  }

  function SetHandle(s: State, h: nat, ptr: Option<nat>, pc: Pc): State
    requires h < |s.handles|
  {
    s.(handles := s.handles[h := Handle(ptr, pc)])
  }

  function Apply(s: State, a: Action): State
    requires Enabled(s, a)
  {
    match a
    case New(h, deleter) =>
      SetHandle(s.(objects := s.objects + [Object(Packed(1, deleter), deleter % ONE, [], None)]), h,
          Some(|s.objects|), Steady)
    case Copy(h, src) => SetHandle(IncRef(s, s.handles[src].ptr), h, s.handles[src].ptr, Steady)
    case Move(h, src) => SetHandle(SetHandle(s, h, s.handles[src].ptr, Steady), src, None, Steady)
    case Swap(h, src) =>
      SetHandle(SetHandle(s, h, s.handles[src].ptr, Steady), src, s.handles[h].ptr, Steady)
    case Drop(h, next) =>
      var ptr := s.handles[h].ptr;
      if ptr.None? then SetHandle(s, h, None, Dropped(next))
      else
        var obj := s.objects[ptr.value];
        var last := CountOf(obj.word) == 1;
        SetHandle(s.(objects := s.objects[ptr.value := obj.(word := (obj.word + WORD - ONE) % WORD,
                                                            dying := if last then Some(h) else obj.dying)]),
                  h, ptr, if last then Deleting(DeleterOf(obj.word), next) else Dropped(next))
    case Delete(h) =>
      var o, pc := s.handles[h].ptr.value, s.handles[h].pc;
      SetHandle(s.(objects := s.objects[o := s.objects[o].(deletions := s.objects[o].deletions + [pc.deleter],
          dying := None)]),
                h, Some(o), Dropped(pc.next))
    case Finish(h) =>
      match s.handles[h].pc.next
      case Clear => SetHandle(s, h, None, Steady)
      case CopyFrom(src) => SetHandle(IncRef(s, s.handles[src].ptr), h, s.handles[src].ptr, Steady)
      case MoveFrom(src) => SetHandle(SetHandle(s, h, s.handles[src].ptr, Steady), src, None, Steady)
  }

  // ---------------------------------------------------------------- owners

  predicate Owns(h: Handle, o: nat) { h.pc.Steady? && h.ptr == Some(o) }

  /** How many handles own the object. */
  function Owners(handles: seq<Handle>, o: nat): nat {
    if handles == [] then 0 else (if Owns(handles[|handles| - 1], o) then 1 else 0) + Owners(handles[..|handles| - 1],
        o)
  }

  lemma {:induction false} OwnersUpdate(handles: seq<Handle>, h: nat, to: Handle, o: nat)
    requires h < |handles|
    ensures Owners(handles[h := to], o) ==
              Owners(handles, o) - (if Owns(handles[h], o) then 1 else 0) + (if Owns(to, o) then 1 else 0)
    ensures Owns(handles[h], o) ==> Owners(handles, o) > 0
  {
    var n := |handles| - 1;
    if h < n {
      assert handles[h := to][..n] == handles[..n][h := to];
      OwnersUpdate(handles[..n], h, to, o);
    } else {
      assert handles[h := to][..n] == handles[..n];
    }
  }

  /** A step adds a count only where fewer than 2^16 handles own the object. */
  predicate Legal(s: State, a: Action) {
    && (a.Copy? && a.src < |s.handles| && s.handles[a.src].ptr.Some? ==>
          Owners(s.handles, s.handles[a.src].ptr.value) < COUNTS)
    && (a.Finish? && a.h < |s.handles| && s.handles[a.h].pc.Dropped? && s.handles[a.h].pc.next.CopyFrom? &&
        s.handles[a.h].pc.next.src < |s.handles| && s.handles[s.handles[a.h].pc.next.src].ptr.Some? ==>
          Owners(s.handles, s.handles[s.handles[a.h].pc.next.src].ptr.value) < COUNTS)
  }

  // ---------------------------------------------------------------- invariant

  /** The word counts the owners and keeps the deleter. While there are owners nobody deletes
      the object; without owners it has been deleted once, or one drop is about to do it. */
  predicate ObjectOk(s: State, o: nat, obj: Object) {
    var n := Owners(s.handles, o);
    && n <= COUNTS
    && obj.deleter < ONE && obj.word == Packed(n, obj.deleter)
    && (n > 0 ==> obj.deletions == [] && obj.dying.None?)
    && (n == 0 ==> if obj.dying.Some? then obj.deletions == [] else obj.deletions == [obj.deleter])
    && (obj.dying.Some? ==> obj.dying.value < |s.handles| &&
                            s.handles[obj.dying.value].pc.Deleting? && s.handles[obj.dying.value].ptr == Some(o))
  }

  predicate HandleOk(s: State, h: nat, x: Handle) {
    && (x.ptr.Some? ==> x.ptr.value < |s.objects|)
    && (x.pc.Deleting? ==>
          x.ptr.Some? && s.objects[x.ptr.value].dying == Some(h) && x.pc.deleter == s.objects[x.ptr.value].deleter)
    && (!x.pc.Steady? && !x.pc.next.Clear? ==> x.pc.next.src < |s.handles| && s.handles[x.pc.next.src].pc.Steady?)
  }

  ghost predicate Inv(s: State) {
    && (forall o | 0 <= o < |s.objects| :: ObjectOk(s, o, s.objects[o]))
    && (forall h | 0 <= h < |s.handles| :: HandleOk(s, h, s.handles[h]))
    && (forall o | o >= |s.objects| :: Owners(s.handles, o) == 0)
  }

  ghost predicate Init(s: State) {
    s.objects == [] && forall h | 0 <= h < |s.handles| :: s.handles[h] == Handle(None, Steady)
  }

  ghost predicate Leads(s: State, acts: seq<Action>, s': State)
    decreases |acts|
  {
    if acts == [] then s == s'
    else Enabled(s, acts[0]) && Legal(s, acts[0]) && Leads(Apply(s, acts[0]), acts[1..], s')
  }

  lemma InitInv(s: State)
    requires Init(s)
    ensures Inv(s)
  {
    forall o: nat ensures Owners(s.handles, o) == 0 { NoOwners(s.handles, o); }
  }

  lemma {:induction false} NoOwners(handles: seq<Handle>, o: nat)
    requires forall h | 0 <= h < |handles| :: !Owns(handles[h], o)
    ensures Owners(handles, o) == 0
  {
    if handles != [] { NoOwners(handles[..|handles| - 1], o); }
  }

  /** The handle that a step takes a new count from. */
  function Source(s: State, a: Action): Option<nat>
    requires Enabled(s, a)
  {
    if a.Copy? then s.handles[a.src].ptr
    else if a.Finish? && s.handles[a.h].pc.next.CopyFrom? then s.handles[s.handles[a.h].pc.next.src].ptr
    else None
  }

  /** Owners come and go with counts. */
  lemma OwnersNext(s: State, a: Action, o: nat)
    requires Enabled(s, a)
    ensures var n, n' := Owners(s.handles, o), Owners(Apply(s, a).handles, o);
            && (Source(s, a) == Some(o) ==> n' == n + 1 && n > 0)
            && (a.Drop? && s.handles[a.h].ptr == Some(o) ==> n' == n - 1)
            && (a.New? ==> n' == n + if o == |s.objects| then 1 else 0)
            && (Source(s, a) != Some(o) && !(a.Drop? && s.handles[a.h].ptr == Some(o)) && !a.New? ==> n' == n)
  {
    hide Owners, Packed, CountOf, DeleterOf;
    var to := Apply(s, a).handles[a.h];
    OwnersUpdate(s.handles, a.h, to, o);
    match a
    case Copy(h, src) => OwnersUpdate(s.handles, src, s.handles[src], o);
    case Move(h, src) =>
      OwnersUpdate(s.handles, h, s.handles[src].(pc := Steady), o);
      OwnersUpdate(s.handles[h := s.handles[src].(pc := Steady)], src, Handle(None, Steady), o);
    case Swap(h, src) =>
      OwnersUpdate(s.handles, h, s.handles[src].(pc := Steady), o);
      OwnersUpdate(s.handles[h := s.handles[src].(pc := Steady)], src, s.handles[h].(pc := Steady), o);
    case Finish(h) =>
      var next := s.handles[h].pc.next;
      if !next.Clear? {
        var moved := s.handles[next.src].(pc := Steady);
        OwnersUpdate(s.handles, next.src, s.handles[next.src], o);
        OwnersUpdate(s.handles, h, moved, o);
        OwnersUpdate(s.handles[h := moved], next.src, Handle(None, Steady), o);
      }
    case _ =>
  }

  /** The words: what the counter arithmetic makes of one step. */
  lemma WordsNext(s: State, a: Action, o: nat)
    requires Inv(s) && Enabled(s, a) && o < |s.objects|
    ensures Apply(s, a).objects[o].word == Packed(Owners(Apply(s, a).handles, o), s.objects[o].deleter)
    ensures a.Drop? && s.handles[a.h].ptr == Some(o) ==>
              && Owners(s.handles, o) > 0
              && (CountOf(s.objects[o].word) == 1 <==> Owners(s.handles, o) == 1)
              && DeleterOf(s.objects[o].word) == s.objects[o].deleter
  {
    hide Packed, Owners, CountOf, DeleterOf, Inv;
    ObjectKnown(s, o);
    var n, d := Owners(s.handles, o), s.objects[o].deleter;
    OwnersNext(s, a, o);
    WordIs(n, d);
    CountUp(n, d);
    if n > 0 { CountDown(n, d); }
    if a.Drop? { OwnersUpdate(s.handles, a.h, s.handles[a.h], o); }
  }

  lemma WordIs(n: nat, deleter: nat)
    requires n <= COUNTS && deleter < ONE
    ensures DeleterOf(Packed(n, deleter)) == deleter
    ensures CountOf(Packed(n, deleter)) == 1 <==> n == 1
  {
    Unpacked(n, deleter);
  }

  lemma ObjectKnown(s: State, o: nat)
    requires Inv(s) && o < |s.objects|
    ensures ObjectOk(s, o, s.objects[o])
  {}

  lemma HandleKnown(s: State, h: nat)
    requires Inv(s) && h < |s.handles|
    ensures HandleOk(s, h, s.handles[h])
  {}

  lemma ObjectsNext(s: State, a: Action, o: nat)
    requires Inv(s) && Enabled(s, a) && Legal(s, a) && o < |Apply(s, a).objects|
    ensures ObjectOk(Apply(s, a), o, Apply(s, a).objects[o])
  {
    hide Packed, Owners, CountOf, DeleterOf, Inv;
    OwnersNext(s, a, o);
    if o < |s.objects| {
      ObjectKnown(s, o);
      WordsNext(s, a, o);
      HandleKnown(s, a.h);
    } else {
      NewObject(s, a);
    }
  }

  lemma NewObject(s: State, a: Action)
    requires Inv(s) && Enabled(s, a) && a.New?
    ensures Owners(s.handles, |s.objects|) == 0
    ensures Packed(1, a.deleter) == Packed(1, a.deleter % ONE)
  {}

  lemma HandlesAfterDrop(s: State, a: Action, h: nat)
    requires Inv(s) && Enabled(s, a) && a.Drop? && h < |s.handles|
    ensures HandleOk(Apply(s, a), h, Apply(s, a).handles[h])
  {
    hide Packed, Owners, CountOf, DeleterOf, Inv;
    HandleKnown(s, h);
    HandleKnown(s, a.h);
    assert !Borrows(s.handles[h].pc, a.h);
    if s.handles[a.h].ptr.Some? {
      var o := s.handles[a.h].ptr.value;
      ObjectKnown(s, o);
      WordsNext(s, a, o);
    }
  }

  lemma HandlesAfterEnd(s: State, a: Action, h: nat)
    requires Inv(s) && Enabled(s, a) && (a.Delete? || a.Finish?) && h < |s.handles|
    ensures HandleOk(Apply(s, a), h, Apply(s, a).handles[h])
  {
    hide Packed, Owners, CountOf, DeleterOf, Inv;
    HandleKnown(s, h);
    HandleKnown(s, a.h);
  }

  lemma HandlesNext(s: State, a: Action, h: nat)
    requires Inv(s) && Enabled(s, a) && Legal(s, a) && h < |s.handles|
    ensures HandleOk(Apply(s, a), h, Apply(s, a).handles[h])
  {
    hide Packed, Owners, CountOf, DeleterOf, Inv, Legal;
    if a.Drop? {
      HandlesAfterDrop(s, a, h);
    } else if a.Delete? || a.Finish? {
      HandlesAfterEnd(s, a, h);
    } else {
      HandleKnown(s, h);
      HandleKnown(s, a.h);
      assert Usable(s, a.h) ==> !Borrows(s.handles[h].pc, a.h);
      if a.Move? || a.Swap? {
        HandleKnown(s, a.src);
        assert !Borrows(s.handles[h].pc, a.src);
      }
    }
  }

  lemma NextInv(s: State, a: Action)
    requires Inv(s) && Enabled(s, a) && Legal(s, a)
    ensures Inv(Apply(s, a))
  {
    var s' := Apply(s, a);
    forall o | 0 <= o < |s'.objects| ensures ObjectOk(s', o, s'.objects[o]) { ObjectsNext(s, a, o); }
    forall h | 0 <= h < |s'.handles| ensures HandleOk(s', h, s'.handles[h]) { HandlesNext(s, a, h); }
    forall o | o >= |s'.objects| ensures Owners(s'.handles, o) == 0 {
      OwnersNext(s, a, o);
      SourceIsObject(s, a);
    }
    hide ObjectOk, HandleOk, Owners;
  }

  lemma SourceIsObject(s: State, a: Action)
    requires Inv(s) && Enabled(s, a)
    ensures Source(s, a).Some? ==> Source(s, a).value < |s.objects| <= |Apply(s, a).objects|
    ensures a.New? ==> |Apply(s, a).objects| == |s.objects| + 1
  {}

  lemma {:induction false} RunInv(s: State, acts: seq<Action>, s': State)
    requires Inv(s) && Leads(s, acts, s')
    ensures Inv(s')
    decreases |acts|
  {
    hide Inv, Legal;
    if acts != [] {
      NextInv(s, acts[0]);
      RunInv(Apply(s, acts[0]), acts[1..], s');
    }
  }

  // ---------------------------------------------------------------- over whole runs

  /** On every run the count is the number of owning handles (modulo 2^16), the deleter bits
      never change, and the object is deleted at most once, by its own deleter, and not while
      it is owned; nothing is deleted unless the last owner is gone. */
  lemma CountIsOwners(s: State, acts: seq<Action>, s': State, o: nat)
    requires Init(s) && Leads(s, acts, s') && o < |s'.objects|
    ensures CountOf(s'.objects[o].word) == Owners(s'.handles, o) % COUNTS
    ensures DeleterOf(s'.objects[o].word) == s'.objects[o].deleter
    ensures s'.objects[o].deletions == [] || s'.objects[o].deletions == [s'.objects[o].deleter]
    ensures Owners(s'.handles, o) > 0 ==> s'.objects[o].deletions == []
    ensures s'.objects[o].deletions == [] && Owners(s'.handles, o) == 0 ==>
              exists h | 0 <= h < |s'.handles| :: s'.handles[h].pc.Deleting? && s'.handles[h].ptr == Some(o)
  {
    hide Inv, Owners, Leads, Init, Packed, CountOf, DeleterOf;
    InitInv(s);
    RunInv(s, acts, s');
    ObjectKnown(s', o);
    Unpacked(Owners(s'.handles, o), s'.objects[o].deleter);
    Whole(s'.objects[o].deleter);
  }

  /** At rest an object has been deleted, once, exactly if nobody owns it. */
  lemma DeletedAtRest(s: State, acts: seq<Action>, s': State, o: nat)
    requires Init(s) && Leads(s, acts, s') && o < |s'.objects|
    requires forall h | 0 <= h < |s'.handles| :: s'.handles[h].pc.Steady?
    ensures |s'.objects[o].deletions| == if Owners(s'.handles, o) == 0 then 1 else 0
  {
    CountIsOwners(s, acts, s', o);
  }

  /** The word of an object a step counts on. */
  function Counted(s: State, a: Action): Option<nat>
    requires Enabled(s, a)
  {
    if a.Drop? then s.handles[a.h].ptr else Source(s, a)
  }

  /** No step touches the word of a deleted object, and the deleter that is called is the
      object's own. */
  lemma NoUseAfterDelete(s: State, acts: seq<Action>, s': State, a: Action)
    requires Init(s) && Leads(s, acts, s') && Enabled(s', a)
    ensures Counted(s', a).Some? ==>
              Counted(s', a).value < |s'.objects| && s'.objects[Counted(s', a).value].deletions == []
    ensures a.Delete? ==>
              var obj := s'.objects[s'.handles[a.h].ptr.value];
              obj.deletions == [] && s'.handles[a.h].pc.deleter == obj.deleter
  {
    InitInv(s);
    RunInv(s, acts, s');
    HandleKnown(s', a.h);
    SourceIsObject(s', a);
    if Counted(s', a).Some? {
      var o := Counted(s', a).value;
      OwnersNext(s', a, o);
      ObjectKnown(s', o);
      if a.Drop? { OwnersUpdate(s'.handles, a.h, s'.handles[a.h], o); }
    }
    if a.Delete? {
      var o := s'.handles[a.h].ptr.value;
      ObjectKnown(s', o);
    }
  }

  /** The guards of the model only say where a handle stands: what was begun can go on. */
  lemma NothingBlocks(s: State, acts: seq<Action>, s': State, h: nat)
    requires Init(s) && Leads(s, acts, s') && h < |s'.handles|
    ensures s'.handles[h].pc.Deleting? ==> Enabled(s', Delete(h))
    ensures s'.handles[h].pc.Dropped? ==> Enabled(s', Finish(h))
    ensures s'.handles[h].pc.Steady? ==> Holds(s', h)
  {
    InitInv(s);
    RunInv(s, acts, s');
    HandleKnown(s', h);
    if !s'.handles[h].pc.Steady? && !s'.handles[h].pc.next.Clear? { HandleKnown(s', s'.handles[h].pc.next.src); }
    hide Inv, Leads;
  }

  // ---------------------------------------------------------------- a source inside what is dropped

  /** Handle g lies inside an object that has been deleted; `home` says which handle lies where. */
  predicate InDeleted(s: State, home: nat -> Option<nat>, g: nat) {
    home(g).Some? && home(g).value < |s.objects| && s.objects[home(g).value].deletions != []
  }

  /** What an assignment has done, undisturbed, when it comes to read its source. */
  function BeforeReading(s: State, h: nat, next: Then): State
    requires Enabled(s, Drop(h, next)) && Inv(s)
  {
    var s1 := Apply(s, Drop(h, next));
    if s1.handles[h].pc.Deleting? then Apply(s1, Delete(h)) else s1
  }

  /** An assignment drops what the target held before it reads the source. On every run, the
      source it then reads lies in a deleted object if and only if it lies in the object dropped
      and the target was that object's last owner. */
  lemma SourceDeletedIff(s0: State, acts: seq<Action>, s: State, home: nat -> Option<nat>, h: nat, next: Then)
    requires Init(s0) && Leads(s0, acts, s) && Enabled(s, Drop(h, next)) && !next.Clear?
    requires !InDeleted(s, home, next.src)
    ensures Inv(s)
    ensures InDeleted(BeforeReading(s, h, next), home, next.src) <==>
              var o := s.handles[h].ptr; o.Some? && home(next.src) == o && Owners(s.handles, o.value) == 1
  {
    InitInv(s0);
    RunInv(s0, acts, s);
    hide Inv, Init, Leads, Packed, CountOf, DeleterOf, Owners;
    if s.handles[h].ptr.Some? {
      var o := s.handles[h].ptr.value;
      ObjectKnown(s, o);
      WordsNext(s, Drop(h, next), o);
    }
  }

  /** What each step makes of the handles: a copy shares, a move passes on, a swap exchanges, and
      nobody else's handle changes. */
  lemma HandlesHold(s: State, a: Action, g: nat)
    requires Enabled(s, a) && g < |s.handles|
    ensures |Apply(s, a).handles| == |s.handles|
    ensures var was, is_ := s.handles[g], Apply(s, a).handles[g];
            && (a.New? && g == a.h ==> is_ == Handle(Some(|s.objects|), Steady))
            && (a.Copy? && g == a.h ==> is_ == Handle(s.handles[a.src].ptr, Steady))
            && (a.Copy? && g == a.src && g != a.h ==> is_ == was)
            && (a.Move? && g == a.h && g != a.src ==> is_ == Handle(s.handles[a.src].ptr, Steady))
            && (a.Move? && g == a.src ==> is_ == Handle(None, Steady))
            && (a.Swap? && g == a.h ==> is_ == Handle(s.handles[a.src].ptr, Steady))
            && (a.Swap? && g == a.src ==> is_ == Handle(s.handles[a.h].ptr, Steady))
            && (g != a.h && !((a.Move? || a.Swap?) && g == a.src) && !a.Finish? ==> is_ == was)
  {
    hide Packed, CountOf, DeleterOf;
  }

  /** An undisturbed assignment leaves the target with what the source had; the source keeps it, or
      after a move has nothing. */
  lemma AssignmentTakes(s: State, h: nat, next: Then)
    requires Inv(s) && Enabled(s, Drop(h, next)) && !next.Clear? && next.src != h
    ensures Enabled(BeforeReading(s, h, next), Finish(h))
    ensures var s' := Apply(BeforeReading(s, h, next), Finish(h));
            && h < |s'.handles| && s'.handles[h] == Handle(s.handles[next.src].ptr, Steady)
            && next.src < |s'.handles|
            && s'.handles[next.src] == (if next.CopyFrom? then s.handles[next.src] else Handle(None, Steady))
  {
    hide Inv, Packed, CountOf, DeleterOf, Owners;
    HandleKnown(s, h);
    HandleKnown(s, next.src);
  }

  /** And dropping to nothing leaves nothing. */
  lemma ClearingEmpties(s: State, h: nat)
    requires Inv(s) && Enabled(s, Drop(h, Clear))
    ensures Enabled(BeforeReading(s, h, Clear), Finish(h))
    ensures var s' := Apply(BeforeReading(s, h, Clear), Finish(h));
            h < |s'.handles| && s'.handles[h] == Handle(None, Steady)
  {
    hide Inv, Packed, CountOf, DeleterOf, Owners;
    HandleKnown(s, h);
  }

  const INNER: nat -> Option<nat> := h => if h == 1 then Some(0) else None

  function Bare(): State { State([], [Handle(None, Steady), Handle(None, Steady)]) }

  function TwoObjects(first: nat, second: nat): State {
    State([Object(Packed(1, first), first % ONE, [], None), Object(Packed(1, second), second % ONE, [], None)],
          [Handle(Some(0), Steady), Handle(Some(1), Steady)])
  }

  lemma TwoNew(first: nat, second: nat)
    ensures Init(Bare()) && Leads(Bare(), [New(0, first), New(1, second)], TwoObjects(first, second))
  {
    hide Packed;
    var s0, s2 := Bare(), TwoObjects(first, second);
    var s1 := Apply(s0, New(0, first));
    assert s1 == State([Object(Packed(1, first), first % ONE, [], None)], [Handle(Some(0), Steady), Handle(None,
        Steady)]);
    assert Apply(s1, New(1, second)).handles == s2.handles;
    LeadsFirst(s1, New(1, second), [], s2);
    LeadsFirst(s0, New(0, first), [New(1, second)], s2);
    assert [New(1, second)] + [] == [New(1, second)];
    assert [New(0, first)] + [New(1, second)] == [New(0, first), New(1, second)];
  }

  /** From the start: handle 0 takes an object, and handle 1, which lies in it, another one;
      assigning handle 1 to handle 0 deletes the first object and then reads handle 1. */
  lemma InnerSourceIsDeleted(first: nat, second: nat)
      returns (acts: seq<Action>, s2: State, more: seq<Action>, s: State)
    ensures Init(Bare()) && Leads(Bare(), acts, s2) && Leads(s2, more, s)
    ensures Enabled(s, Finish(0)) && s.handles[0].pc == Dropped(CopyFrom(1)) && InDeleted(s, INNER, 1)
  {
    TwoNew(first, second);
    acts, s2 := [New(0, first), New(1, second)], TwoObjects(first, second);
    hide Packed, CountOf, DeleterOf, Leads;
    Unpacked(1, first);
    var s3 := Apply(s2, Drop(0, CopyFrom(1)));
    s := Apply(s3, Delete(0));
    NoSteps(s);
    LeadsFirst(s3, Delete(0), [], s);
    LeadsFirst(s2, Drop(0, CopyFrom(1)), [Delete(0)], s);
    assert [Delete(0)] + [] == [Delete(0)];
    more := [Drop(0, CopyFrom(1))] + [Delete(0)];
  }

  lemma NoSteps(s: State)
    ensures Leads(s, [], s)
  {}

  lemma LeadsFirst(s: State, a: Action, acts: seq<Action>, s': State)
    requires Enabled(s, a) && Legal(s, a) && Leads(Apply(s, a), acts, s')
    ensures Leads(s, [a] + acts, s')
  {
    hide Enabled, Apply, Legal;
    assert ([a] + acts)[1..] == acts;
  }

  // ---------------------------------------------------------------- the bound is tight

  /** A drop by one of n owners calls the deleter exactly if n is 1 more than a multiple of
      2^16. Up to 2^16 owners that is the last owner; from 2^16 + 1 owners on it is not. */
  lemma DropDeletesIff(s: State, h: nat, next: Then, o: nat)
    requires Enabled(s, Drop(h, next)) && s.handles[h].ptr == Some(o)
    requires s.objects[o].word == Packed(Owners(s.handles, o), s.objects[o].deleter)
    ensures Owners(s.handles, o) > 0
    ensures Apply(s, Drop(h, next)).handles[h].pc.Deleting? <==> Owners(s.handles, o) % COUNTS == 1
    ensures Apply(s, Drop(h, next)).objects[o].word ==
              Packed(Owners(Apply(s, Drop(h, next)).handles, o), s.objects[o].deleter)
    ensures Owners(s.handles, o) <= COUNTS ==>
              (Apply(s, Drop(h, next)).handles[h].pc.Deleting? <==> Owners(Apply(s, Drop(h, next)).handles, o) == 0)
    ensures Owners(s.handles, o) == COUNTS + 1 ==>
              Apply(s, Drop(h, next)).handles[h].pc.Deleting? && Owners(Apply(s, Drop(h, next)).handles, o) == COUNTS
  {
    var n, d := Owners(s.handles, o), s.objects[o].deleter;
    OwnersUpdate(s.handles, h, s.handles[h], o);
    OwnersNext(s, Drop(h, next), o);
    Unpacked(n, d);
    CountDown(n, d);
    hide Packed, CountOf, DeleterOf, Owners;
  }

  /** Runs without the limit on owners. */
  ghost predicate Plays(s: State, acts: seq<Action>, s': State)
    decreases |acts|
  {
    if acts == [] then s == s'
    else Enabled(s, acts[0]) && Plays(Apply(s, acts[0]), acts[1..], s')
  }

  function CrowdHandles(n: nat, all: nat): seq<Handle> {
    seq(all, i => if i < n then Handle(Some(0), Steady) else Handle(None, Steady))
  }

  /** One object with n owners among `all` handles. */
  function Crowd(n: nat, all: nat, deleter: nat): State {
    State([Object(Packed(n, deleter), deleter % ONE, [], None)], CrowdHandles(n, all))
  }

  lemma {:induction false} CrowdOwners(n: nat, all: nat)
    requires n <= all
    ensures Owners(CrowdHandles(n, all), 0) == n
    decreases all
  {
    if all > 0 {
      assert CrowdHandles(n, all)[..all - 1] == CrowdHandles(if n < all then n else all - 1, all - 1);
      CrowdOwners(if n < all then n else all - 1, all - 1);
    }
  }

  lemma CrowdGrows(n: nat, all: nat, deleter: nat)
    requires 0 < n < all
    ensures Enabled(Crowd(n, all, deleter), Copy(n, 0))
    ensures Apply(Crowd(n, all, deleter), Copy(n, 0)) == Crowd(n + 1, all, deleter)
  {
    CountUp(n, deleter);
    assert forall g | 0 <= g < all :: !Borrows(CrowdHandles(n, all)[g].pc, n);
    assert Apply(Crowd(n, all, deleter), Copy(n, 0)).handles == CrowdHandles(n + 1, all);
    hide Packed;
  }

  lemma PlaysOn(s: State, acts: seq<Action>, s1: State, a: Action)
    requires Plays(s, acts, s1) && Enabled(s1, a)
    ensures Plays(s, acts + [a], Apply(s1, a))
    decreases |acts|
  {
    hide Apply, Enabled;
    if acts == [] {
      assert acts + [a] == [a] && [a][1..] == [];
    } else {
      PlaysOn(Apply(s, acts[0]), acts[1..], s1, a);
      assert (acts + [a])[1..] == acts[1..] + [a];
    }
  }

  lemma {:induction false} CrowdRun(n: nat, all: nat, deleter: nat) returns (acts: seq<Action>)
    requires 0 < n <= all
    ensures Plays(State([], CrowdHandles(0, all)), acts, Crowd(n, all, deleter))
    decreases n
  {
    var s := State([], CrowdHandles(0, all));
    if n == 1 {
      FirstOwner(all, deleter);
      assert Plays(s, [], s);
      PlaysOn(s, [], s, New(0, deleter));
      acts := [] + [New(0, deleter)];
    } else {
      acts := CrowdRun(n - 1, all, deleter);
      CrowdGrows(n - 1, all, deleter);
      PlaysOn(s, acts, Crowd(n - 1, all, deleter), Copy(n - 1, 0));
      acts := acts + [Copy(n - 1, 0)];
    }
  }

  lemma FirstOwner(all: nat, deleter: nat)
    requires all > 0
    ensures var s := State([], CrowdHandles(0, all));
            Init(s) && Enabled(s, New(0, deleter)) && Apply(s, New(0, deleter)) == Crowd(1, all, deleter)
  {
    var s := State([], CrowdHandles(0, all));
    assert forall g | 0 <= g < all :: !Borrows(s.handles[g].pc, 0);
    assert Apply(s, New(0, deleter)).handles == CrowdHandles(1, all);
    hide Packed;
  }

  /** From the start, copying one handle 2^16 times: the first drop deletes the object under
      the other 2^16 owners. */
  lemma CrowdIsDeletedEarly(deleter: nat) returns (acts: seq<Action>, s: State)
    ensures Init(State([], CrowdHandles(0, COUNTS + 1))) && Plays(State([], CrowdHandles(0, COUNTS + 1)), acts, s)
    ensures Enabled(s, Drop(0, Clear)) && Owners(s.handles, 0) == COUNTS + 1
    ensures Apply(s, Drop(0, Clear)).handles[0].pc.Deleting? && Owners(Apply(s, Drop(0, Clear)).handles, 0) == COUNTS
  {
    var all: nat := COUNTS + 1;
    FirstOwner(all, deleter);
    acts := CrowdRun(all, all, deleter);
    s := Crowd(all, all, deleter);
    CrowdOwners(all, all);
    assert forall g | 0 <= g < all :: !Borrows(s.handles[g].pc, 0);
    assert s.objects[0].word == Packed(all, deleter % ONE) by { assert deleter % ONE % ONE == deleter % ONE; }
    DropDeletesIff(s, 0, Clear, 0);
    hide Packed, Owners, CrowdHandles;
  }
}
