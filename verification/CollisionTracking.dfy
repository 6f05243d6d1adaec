/** Collision tracking: for every ordered pair of colliders a map remembers whether they
    touched at the last visit, and from that and the present the callbacks follow. What key
    the map uses decides for which pairs that works. */
module CollisionTracking {
  import opened Options

  const IDS := 0x1_0000_0000   // 2^32

  datatype Kind = Enter | Stay | Exit

  /** Both colliders of the pair get the callback. */
  datatype Event = Event(kind: Kind, left: nat, right: nat)

  /** One pair of the loops: do the colliders overlap now, is one of the objects dead? */
  datatype Visit = Visit(left: nat, right: nat, now: bool, dead: bool)

  // ---------------------------------------------------------------- keys

  /** Both ids side by side in 64 bits, as the expression says. */
  function PackedKey(left: nat, right: nat): nat { left * IDS + right }

  /** The union as it is initialised: the expression goes to its first member, the pair of
      32-bit fields, and there to the first field, which keeps the low half; the other field
      is 0. Read back as one 64-bit number this is the right id alone. */
  function WrittenKey(left: nat, right: nat): nat { PackedKey(left, right) % IDS + 0 * IDS }

  lemma KeysDiffer(l: nat, r: nat, l': nat, r': nat)
    requires l < IDS && r < IDS && l' < IDS && r' < IDS
    ensures PackedKey(l, r) == PackedKey(l', r') <==> l == l' && r == r'
    ensures WrittenKey(l, r) == r
  {}

  predicate SamePair(v: Visit, w: Visit) { v.left == w.left && v.right == w.right }

  predicate SameKey(key: (nat, nat) -> nat, v: Visit, w: Visit) { key(v.left, v.right) == key(w.left, w.right) }

  /** No two pairs of the visits share a key. */
  ghost predicate Unshared(key: (nat, nat) -> nat, visits: seq<Visit>) {
    forall i, j | 0 <= i < |visits| && 0 <= j < |visits| && SameKey(key, visits[i], visits[j]) ::
      SamePair(visits[i], visits[j])
  }

  ghost predicate Ids(visits: seq<Visit>) {
    forall i | 0 <= i < |visits| :: visits[i].left < IDS && visits[i].right < IDS
  }

  // ---------------------------------------------------------------- what the callbacks say

  /** The pair's last callback was not an Exit. */
  predicate Inside(log: seq<Event>, l: nat, r: nat) {
    if log == [] then false
    else
      var e := log[|log| - 1];
      if e.left == l && e.right == r then !e.kind.Exit? else Inside(log[..|log| - 1], l, r)
  }

  /** The pair's callbacks are blocks of one Enter, any number of Stays, and one Exit; the
      last block may be unfinished. */
  predicate Blocks(log: seq<Event>, l: nat, r: nat) {
    log == [] ||
    (var e := log[|log| - 1];
     && Blocks(log[..|log| - 1], l, r)
     && (e.left == l && e.right == r ==> (e.kind.Enter? <==> !Inside(log[..|log| - 1], l, r))))
  }

  ghost predicate AllBlocks(log: seq<Event>) { forall l: nat, r: nat :: Blocks(log, l, r) }

  lemma LogGrows(log: seq<Event>, e: Event, l: nat, r: nat)
    ensures e.left != l || e.right != r ==>
              (Blocks(log + [e], l, r) <==> Blocks(log, l, r)) && Inside(log + [e], l, r) == Inside(log, l, r)
    ensures e.left == l && e.right == r ==>
              Inside(log + [e], l, r) == !e.kind.Exit? &&
              (Blocks(log + [e], l, r) <==> Blocks(log, l, r) && (e.kind.Enter? <==> !Inside(log, l, r)))
  {
    assert (log + [e])[..|log|] == log;
  }

  /** What counting up at Enter and down at Exit makes of a collider's counter. */
  function Count(log: seq<Event>, id: nat): int {
    if log == [] then 0
    else
      var e := log[|log| - 1];
      Count(log[..|log| - 1], id) +
        if (e.left != id && e.right != id) || e.kind.Stay? then 0 else if e.kind.Enter? then 1 else -1
  }

  /** The pairs whose block is open. */
  function Touching(log: seq<Event>): set<(nat, nat)> {
    if log == [] then {}
    else
      var e := log[|log| - 1];
      var before := Touching(log[..|log| - 1]);
      if e.kind.Exit? then before - {(e.left, e.right)} else before + {(e.left, e.right)}
  }

  function Mentioning(pairs: set<(nat, nat)>, id: nat): set<(nat, nat)> {
    set p | p in pairs && (p.0 == id || p.1 == id)
  }

  lemma {:induction false} TouchingIsInside(log: seq<Event>, l: nat, r: nat)
    ensures (l, r) in Touching(log) <==> Inside(log, l, r)
  {
    if log != [] { TouchingIsInside(log[..|log| - 1], l, r); }
  }

  lemma MentioningGrows(pairs: set<(nat, nat)>, p: (nat, nat), id: nat)
    requires p !in pairs
    ensures |Mentioning(pairs + {p}, id)| == |Mentioning(pairs, id)| + if p.0 == id || p.1 == id then 1 else 0
  {
    if p.0 == id || p.1 == id {
      assert Mentioning(pairs + {p}, id) == Mentioning(pairs, id) + {p};
    } else {
      assert Mentioning(pairs + {p}, id) == Mentioning(pairs, id);
    }
  }

  /** Callbacks in blocks keep every counter at the number of touching pairs. */
  lemma {:induction false} CountIsTouching(log: seq<Event>, id: nat)
    requires AllBlocks(log)
    ensures Count(log, id) == |Mentioning(Touching(log), id)|
  {
    if log != [] {
      var first, e := log[..|log| - 1], log[|log| - 1];
      var before, p := Touching(first), (e.left, e.right);
      forall l: nat, r: nat ensures Blocks(first, l, r) { assert Blocks(log, l, r); }
      CountIsTouching(first, id);
      TouchingIsInside(first, e.left, e.right);
      assert Blocks(log, e.left, e.right);
      if e.kind.Enter? {
        MentioningGrows(before, p, id);
      } else if e.kind.Exit? {
        MentioningGrows(before - {p}, p, id);
        assert before - {p} + {p} == before;
      } else {
        assert before + {p} == before;
      }
    }
  }

  // ---------------------------------------------------------------- visits

  /** The callback of a visit, and the entry it leaves. */
  function Verdict(was: bool, now: bool, dead: bool): (Option<Kind>, Option<bool>) {
    if now then
      if was then (if dead then (Some(Exit), None) else (Some(Stay), Some(true)))
      else (if dead then (None, None) else (Some(Enter), Some(true)))
    else (if was then Some(Exit) else None, if dead then None else Some(false))
  }

  /** The map of entries, and the callbacks so far. */
  datatype Track = Track(prev: map<nat, bool>, log: seq<Event>)

  predicate Was(prev: map<nat, bool>, k: nat) { k in prev && prev[k] }

  function Entry(prev: map<nat, bool>, k: nat): Option<bool> {
    if k in prev then Some(prev[k]) else None
  }

  function Updated(prev: map<nat, bool>, k: nat, entry: Option<bool>): map<nat, bool> {
    if entry.Some? then prev[k := entry.value] else prev - {k}
  }

  function Logged(log: seq<Event>, kind: Option<Kind>, l: nat, r: nat): seq<Event> {
    if kind.Some? then log + [Event(kind.value, l, r)] else log
  }

  function After(key: (nat, nat) -> nat, t: Track, v: Visit): Track {
    var k := key(v.left, v.right);
    var (kind, entry) := Verdict(Was(t.prev, k), v.now, v.dead);
    Track(Updated(t.prev, k, entry), Logged(t.log, kind, v.left, v.right))
  }

  function Play(key: (nat, nat) -> nat, visits: seq<Visit>): Track {
    if visits == [] then Track(map[], [])
    else After(key, Play(key, visits[..|visits| - 1]), visits[|visits| - 1])
  }

  /** The pair of visit i, at the end of the visits: inside a block exactly if its entry is true. */
  ghost predicate Tracked(key: (nat, nat) -> nat, t: Track, l: nat, r: nat) {
    Blocks(t.log, l, r) && (Inside(t.log, l, r) <==> Was(t.prev, key(l, r)))
  }

  /** A pair that was never visited got no callback. */
  lemma {:induction false} Unvisited(key: (nat, nat) -> nat, visits: seq<Visit>, l: nat, r: nat)
    requires forall i | 0 <= i < |visits| :: visits[i].left != l || visits[i].right != r
    ensures Blocks(Play(key, visits).log, l, r) && !Inside(Play(key, visits).log, l, r)
  {
    if visits != [] {
      var n := |visits| - 1;
      Unvisited(key, visits[..n], l, r);
      var t, v := Play(key, visits[..n]), visits[n];
      var (kind, _) := Verdict(Was(t.prev, key(v.left, v.right)), v.now, v.dead);
      if kind.Some? { LogGrows(t.log, Event(kind.value, v.left, v.right), l, r); }
    }
  }

  /** A key that was never used has no entry. */
  lemma {:induction false} Unused(key: (nat, nat) -> nat, visits: seq<Visit>, k: nat)
    requires forall i | 0 <= i < |visits| :: key(visits[i].left, visits[i].right) != k
    ensures k !in Play(key, visits).prev
  {
    if visits != [] { Unused(key, visits[..|visits| - 1], k); }
  }

  /** One visit keeps a pair's callbacks in blocks if no other pair has used its key. */
  lemma VisitTracks(key: (nat, nat) -> nat, t: Track, v: Visit, l: nat, r: nat)
    requires Tracked(key, t, l, r)
    requires key(v.left, v.right) == key(l, r) ==> v.left == l && v.right == r
    ensures Tracked(key, After(key, t, v), l, r)
  {
    hide Blocks, Inside;
    var (kind, _) := Verdict(Was(t.prev, key(v.left, v.right)), v.now, v.dead);
    if kind.Some? { LogGrows(t.log, Event(kind.value, v.left, v.right), l, r); }
  }

  lemma {:induction false} PairTracked(key: (nat, nat) -> nat, visits: seq<Visit>, l: nat, r: nat)
    requires forall i | 0 <= i < |visits| && key(visits[i].left, visits[i].right) == key(l, r) ::
               visits[i].left == l && visits[i].right == r
    ensures Tracked(key, Play(key, visits), l, r)
  {
    if visits != [] {
      var n := |visits| - 1;
      PairTracked(key, visits[..n], l, r);
      VisitTracks(key, Play(key, visits[..n]), visits[n], l, r);
    }
  }

  // ---------------------------------------------------------------- when it works

  /** Any visits whose pairs do not share keys: the callbacks of every ordered pair are
      blocks, the true entries are the visited pairs inside a block, and every counter is
      the number of touching pairs that mention its collider. */
  lemma UnsharedWorks(key: (nat, nat) -> nat, visits: seq<Visit>)
    requires Unshared(key, visits)
    ensures var t := Play(key, visits);
            && AllBlocks(t.log)
            && (forall i | 0 <= i < |visits| :: Tracked(key, t, visits[i].left, visits[i].right))
            && forall id :: Count(t.log, id) == |Mentioning(Touching(t.log), id)|
  {
    var t := Play(key, visits);
    forall i | 0 <= i < |visits| ensures Tracked(key, t, visits[i].left, visits[i].right) {
      forall j | 0 <= j < |visits| && key(visits[j].left, visits[j].right) == key(visits[i].left, visits[i].right)
        ensures visits[j].left == visits[i].left && visits[j].right == visits[i].right
      {
        assert SameKey(key, visits[j], visits[i]);
        assert SamePair(visits[j], visits[i]);
      }
      PairTracked(key, visits, visits[i].left, visits[i].right);
    }
    forall l: nat, r: nat ensures Blocks(t.log, l, r) {
      if i :| 0 <= i < |visits| && visits[i].left == l && visits[i].right == r {
        assert Tracked(key, t, visits[i].left, visits[i].right);
      } else {
        Unvisited(key, visits, l, r);
      }
    }
    forall id: nat ensures Count(t.log, id) == |Mentioning(Touching(t.log), id)| { CountIsTouching(t.log, id); }
  }

  /** The pairs of the schedule, nobody dead, exactly the pairs of `touch` overlapping. */
  function Scheduled(pairs: seq<(nat, nat)>, touch: set<(nat, nat)>): (visits: seq<Visit>)
    ensures |visits| == |pairs|
  {
    seq(|pairs|, i requires 0 <= i < |pairs| => Visit(pairs[i].0, pairs[i].1, pairs[i] in touch, false))
  }

  ghost predicate Share(key: (nat, nat) -> nat, pairs: seq<(nat, nat)>) {
    exists i, j | 0 <= i < |pairs| && 0 <= j < |pairs| ::
      key(pairs[i].0, pairs[i].1) == key(pairs[j].0, pairs[j].1) && pairs[i] != pairs[j]
  }

  /** As long as no two visited pairs share a key, a visit makes exactly this callback: a pair that
      touched at its last visit gets one Stay if it touches again and both are alive, and else one
      Exit; one that did not gets one Enter if it touches now and both are alive, and else none. */
  lemma VisitCalls(key: (nat, nat) -> nat, visits: seq<Visit>, v: Visit)
    requires Unshared(key, visits + [v])
    ensures var log, log' := Play(key, visits).log, Play(key, visits + [v]).log;
            var inside, goes := Inside(log, v.left, v.right), v.now && !v.dead;
            log' == log +
              if inside && goes then [Event(Stay, v.left, v.right)]
              else if inside then [Event(Exit, v.left, v.right)]
              else if goes then [Event(Enter, v.left, v.right)]
              else []
  {
    var all, n := visits + [v], |visits|;
    assert all[..n] == visits && all[n] == v;
    forall i | 0 <= i < n && key(visits[i].left, visits[i].right) == key(v.left, v.right)
      ensures visits[i].left == v.left && visits[i].right == v.right
    {
      assert all[i] == visits[i] && SameKey(key, all[i], all[n]);
      assert SamePair(all[i], all[n]);
    }
    PairTracked(key, visits, v.left, v.right);
    hide Inside, Blocks;
  }

  /** A pair is inside, after such visits, exactly if at its last visit it touched and both were alive. */
  lemma InsideIsTouched(key: (nat, nat) -> nat, visits: seq<Visit>, v: Visit)
    requires Unshared(key, visits + [v])
    ensures Inside(Play(key, visits + [v]).log, v.left, v.right) <==> v.now && !v.dead
  {
    var log, log' := Play(key, visits).log, Play(key, visits + [v]).log;
    VisitCalls(key, visits, v);
    var inside, goes := Inside(log, v.left, v.right), v.now && !v.dead;
    if inside || goes {
      LogGrows(log, Event(if !inside then Enter else if goes then Stay else Exit, v.left, v.right), v.left, v.right);
    } else {
      assert log + [] == log;
    }
    hide Inside, Play;
  }

  /** The pairs of the visits, in order. */
  function PairsOf(visits: seq<Visit>): (pairs: seq<(nat, nat)>)
    ensures |pairs| == |visits|
  {
    seq(|visits|, i requires 0 <= i < |visits| => (visits[i].left, visits[i].right))
  }

  /** For every order in which pairs are visited, over any number of updates: the callbacks
      come in blocks, whatever overlaps and whoever is dead at each visit, if and only if no two
      of the pairs share a key. */
  lemma BlocksIffUnshared(key: (nat, nat) -> nat, pairs: seq<(nat, nat)>)
    ensures (forall visits: seq<Visit> | PairsOf(visits) == pairs :: AllBlocks(Play(key, visits).log)) <==>
            !Share(key, pairs)
  {
    if Share(key, pairs) {
      var p := BrokenPair(key, pairs);
      assert PairsOf(Scheduled(pairs, {p})) == pairs;
    } else {
      forall visits: seq<Visit> | PairsOf(visits) == pairs ensures AllBlocks(Play(key, visits).log) {
        forall i, j | 0 <= i < |visits| && 0 <= j < |visits| && SameKey(key, visits[i], visits[j])
          ensures SamePair(visits[i], visits[j])
        {
          assert pairs[i] == (visits[i].left, visits[i].right) && pairs[j] == (visits[j].left, visits[j].right);
          assert key(pairs[i].0, pairs[i].1) == key(pairs[j].0, pairs[j].1);
        }
        UnsharedWorks(key, visits);
      }
    }
  }

  /** A pair that alone overlaps and breaks the callbacks of another one. */
  lemma BrokenPair(key: (nat, nat) -> nat, pairs: seq<(nat, nat)>) returns (p: (nat, nat))
    requires Share(key, pairs)
    ensures !AllBlocks(Play(key, Scheduled(pairs, {p})).log)
  {
    var a, b := FirstClash(key, pairs);
    p := pairs[a];
    var q, k := pairs[b], key(p.0, p.1);
    var before := Scheduled(pairs[..b], {p});
    forall i | 0 <= i < b && key(pairs[..b][i].0, pairs[..b][i].1) == k ensures pairs[..b][i] == p {
      assert pairs[..b][a] == p;
    }
    TouchStays(key, pairs[..b], p);
    Unvisited(key, before, q.0, q.1);
    var visits := Scheduled(pairs, {p});
    assert visits[..b] == before && visits[..b + 1][..b] == before;
    var t := Play(key, before);
    LogGrows(t.log, Event(Exit, q.0, q.1), q.0, q.1);
    assert Play(key, visits[..b + 1]) == After(key, t, visits[b]);
    BrokenStays(key, visits, b + 1, q.0, q.1);
  }

  /** The first place where a pair comes upon a key used by another one. */
  lemma {:induction false} FirstClash(key: (nat, nat) -> nat, pairs: seq<(nat, nat)>) returns (a: nat, b: nat)
    requires Share(key, pairs)
    ensures a < b < |pairs| && !Share(key, pairs[..b])
    ensures key(pairs[a].0, pairs[a].1) == key(pairs[b].0, pairs[b].1) && pairs[a] != pairs[b]
  {
    var n := |pairs| - 1;
    if Share(key, pairs[..n]) {
      a, b := FirstClash(key, pairs[..n]);
      assert pairs[..n][..b] == pairs[..b];
    } else {
      var i, j :| 0 <= i < |pairs| && 0 <= j < |pairs| &&
        key(pairs[i].0, pairs[i].1) == key(pairs[j].0, pairs[j].1) && pairs[i] != pairs[j];
      a, b := if i < j then i else j, n;
      assert forall m | 0 <= m < n :: pairs[..n][m] == pairs[m];
    }
  }

  lemma {:induction false} TouchStays(key: (nat, nat) -> nat, pairs: seq<(nat, nat)>, p: (nat, nat))
    requires forall i | 0 <= i < |pairs| && key(pairs[i].0, pairs[i].1) == key(p.0, p.1) :: pairs[i] == p
    ensures p in pairs ==> Was(Play(key, Scheduled(pairs, {p})).prev, key(p.0, p.1))
  {
    if pairs != [] {
      var n := |pairs| - 1;
      TouchStays(key, pairs[..n], p);
      assert Scheduled(pairs, {p})[..n] == Scheduled(pairs[..n], {p});
      assert pairs[n] != p ==> (p in pairs ==> p in pairs[..n]);
    }
  }

  /** Callbacks that are not blocks never become blocks again. */
  lemma {:induction false} BrokenStays(key: (nat, nat) -> nat, visits: seq<Visit>, m: nat, l: nat, r: nat)
    requires m <= |visits| && !Blocks(Play(key, visits[..m]).log, l, r)
    ensures !Blocks(Play(key, visits).log, l, r)
    decreases |visits|
  {
    if m == |visits| {
      assert visits[..m] == visits;
    } else {
      var n := |visits| - 1;
      assert visits[..n][..m] == visits[..m];
      BrokenStays(key, visits[..n], m, l, r);
      var t, v := Play(key, visits[..n]), visits[n];
      var (kind, _) := Verdict(Was(t.prev, key(v.left, v.right)), v.now, v.dead);
      if kind.Some? { LogGrows(t.log, Event(kind.value, v.left, v.right), l, r); }
    }
  }

  // ---------------------------------------------------------------- the two keys

  /** With both ids in the key no two pairs ever share one. */
  lemma PackedWorks(visits: seq<Visit>)
    requires Ids(visits)
    ensures Unshared(PackedKey, visits)
  {
    forall i, j | 0 <= i < |visits| && 0 <= j < |visits| && SameKey(PackedKey, visits[i], visits[j])
      ensures SamePair(visits[i], visits[j])
    {
      KeysDiffer(visits[i].left, visits[i].right, visits[j].left, visits[j].right);
    }
  }

  /** No right collider is paired with two left ones. */
  ghost predicate OneLeftEach(pairs: seq<(nat, nat)>) {
    forall i, j | 0 <= i < |pairs| && 0 <= j < |pairs| && pairs[i].1 == pairs[j].1 :: pairs[i].0 == pairs[j].0
  }

  /** The code as written: for every order of visits the callbacks come in blocks, whatever
      overlaps and whoever is dead at each visit, if and only if each right collider is paired
      with at most one left one. */
  lemma WrittenWorksIff(pairs: seq<(nat, nat)>)
    requires forall i | 0 <= i < |pairs| :: pairs[i].0 < IDS && pairs[i].1 < IDS
    ensures (forall visits: seq<Visit> | PairsOf(visits) == pairs :: AllBlocks(Play(WrittenKey, visits).log)) <==>
            OneLeftEach(pairs)
  {
    forall i | 0 <= i < |pairs| ensures WrittenKey(pairs[i].0, pairs[i].1) == pairs[i].1 {
      KeysDiffer(pairs[i].0, pairs[i].1, pairs[i].0, pairs[i].1);
    }
    hide WrittenKey;
    BlocksIffUnshared(WrittenKey, pairs);
  }

  /** Two left colliders on one right one: the second pair leaves a block it never entered,
      and its left collider counts -1. */
  lemma WrittenConfuses()
    ensures var log := Play(WrittenKey, [Visit(1, 9, true, false), Visit(2, 9, false, false)]).log;
            && log == [Event(Enter, 1, 9), Event(Exit, 2, 9)]
            && !Blocks(log, 2, 9) && Count(log, 2) == -1 && Inside(log, 1, 9) && Count(log, 9) == 0
  {
    var v, w := Visit(1, 9, true, false), Visit(2, 9, false, false);
    assert [v, w][..1] == [v] && [v][..0] == [];
    assert Play(WrittenKey, [v]) == Track(map[9 := true], [Event(Enter, 1, 9)]);
    var log := [Event(Enter, 1, 9), Event(Exit, 2, 9)];
    assert Play(WrittenKey, [v, w]).log == log;
    assert log[..1] == [Event(Enter, 1, 9)] && log[..1][..0] == [];
  }

  // ---------------------------------------------------------------- the manager

  class CCollider {
    const id: nat
    var colCnt: int

    constructor (id: nat)
      ensures this.id == id && colCnt == 0
    {
      this.id, colCnt := id, 0;
    }

    method OnCollisionEnter()
      modifies this
      ensures colCnt == old(colCnt) + 1
    {
      colCnt := colCnt + 1;
    }

    method OnCollisionExit()
      modifies this
      ensures colCnt == old(colCnt) - 1
    {
      colCnt := colCnt - 1;
    }
  }

  /** A game object; `name` tells objects apart. */
  datatype Object = Object(name: nat, collider: Option<CCollider>, dead: bool)

  /** A set of colliders with ids of their own, which the counters are about. */
  ghost predicate OwnIds(known: set<CCollider>) {
    && (forall c | c in known :: c.id < IDS)
    && (forall c, d | c in known && d in known && c.id == d.id :: c == d)
  }

  /** The object has no collider, or a known one. */
  ghost predicate Fits(known: set<CCollider>, o: Object) {
    o.collider.Some? ==> o.collider.value in known
  }

  predicate Pairs(l: Object, r: Object) {
    l.collider.Some? && r.collider.Some? && l.name != r.name
  }

  function VisitOf(l: Object, r: Object, touches: (nat, nat) -> bool): Visit
    requires Pairs(l, r)
  {
    var i, j := l.collider.value.id, r.collider.value.id;
    Visit(i, j, touches(i, j), l.dead || r.dead)
  }

  /** The visits of one row of the loops, and of all rows: the pairs of different objects
      with colliders, in order. */
  function RowVisits(l: Object, right: seq<Object>, touches: (nat, nat) -> bool): seq<Visit> {
    if right == [] then []
    else
      var r := right[|right| - 1];
      RowVisits(l, right[..|right| - 1], touches) + if Pairs(l, r) then [VisitOf(l, r, touches)] else []
  }

  function GroupVisits(left: seq<Object>, right: seq<Object>, touches: (nat, nat) -> bool): seq<Visit> {
    if left == [] then []
    else GroupVisits(left[..|left| - 1], right, touches) + RowVisits(left[|left| - 1], right, touches)
  }

  class CCollisionMgr {
    const key: (nat, nat) -> nat
    var mapColPrev: map<nat, bool>
    ghost var visits: seq<Visit>
    ghost var known: set<CCollider>

    /** The map is what the visits so far leave, whatever the key; every counter has counted
        the callbacks. */
    ghost predicate Valid()
      reads this, known
    {
      && OwnIds(known) && Ids(visits)
      && mapColPrev == Play(key, visits).prev
      && Counted(known, Play(key, visits).log)
    }

    constructor (key: (nat, nat) -> nat, known: set<CCollider>)
      requires OwnIds(known) && forall c | c in known :: c.colCnt == 0
      ensures Valid() && visits == [] && this.known == known && this.key == key
    {
      this.key, mapColPrev, visits, this.known := key, map[], [], known;
    }

    /** As long as no two visited pairs have shared a key: every ordered pair's callbacks are
        blocks, and every counter is the number of touching pairs that mention its collider. */
    lemma InBlocks()
      requires Valid() && Unshared(key, visits)
      ensures AllBlocks(Play(key, visits).log)
      ensures forall c | c in known :: c.colCnt == |Mentioning(Touching(Play(key, visits).log), c.id)|
    {
      UnsharedWorks(key, visits);
      hide Play, Mentioning, Touching, AllBlocks;
    }

    method Meet(left: CCollider, right: CCollider, ghost log: seq<Event>)
      requires left in known && right in known && left != right && OwnIds(known) && Counted(known, log)
      modifies left, right
      ensures Counted(known, log + [Event(Enter, left.id, right.id)])
    {
      left.OnCollisionEnter();
      right.OnCollisionEnter();
      CountGrows(log, Event(Enter, left.id, right.id));
      hide Count;
    }

    method Leave(left: CCollider, right: CCollider, ghost log: seq<Event>)
      requires left in known && right in known && left != right && OwnIds(known) && Counted(known, log)
      modifies left, right
      ensures Counted(known, log + [Event(Exit, left.id, right.id)])
    {
      left.OnCollisionExit();
      right.OnCollisionExit();
      CountGrows(log, Event(Exit, left.id, right.id));
      hide Count;
    }

    /** One pair of the two loops; `now` is what the overlap test answers. */
    method VisitPair(left: Object, right: Object, now: bool)
      requires Valid() && Fits(known, left) && Fits(known, right) && Pairs(left, right)
      requires left.collider.value != right.collider.value
      modifies this`mapColPrev, this`visits, left.collider.value, right.collider.value
      ensures Valid()
      ensures visits == old(visits) + [Visit(left.collider.value.id, right.collider.value.id, now, left.dead ||
              right.dead)]
    {
      hide Play, After, Counted, OwnIds, Ids;
      var l, r := left.collider.value, right.collider.value;
      KnownId(known, l);
      KnownId(known, r);
      ghost var t, v := Play(key, visits), Visit(l.id, r.id, now, left.dead || right.dead);
      PlayOn(key, visits, v);
      IdsMore(visits, v);
      if now {
        Overlap(l, r, left.dead || right.dead, t);
      } else {
        NoOverlap(l, r, left.dead || right.dead, t);
      }
      visits := visits + [v];
    }

    /** The two colliders overlap. */
    method Overlap(l: CCollider, r: CCollider, dead: bool, ghost t: Track)
      requires OwnIds(known) && l in known && r in known && l != r && t.prev == mapColPrev && Counted(known, t.log)
      modifies this`mapColPrev, l, r
      ensures var t' := After(key, t, Visit(l.id, r.id, true, dead));
              mapColPrev == t'.prev && Counted(known, t'.log)
    {
      var id := key(l.id, r.id);
      hide Counted, OwnIds;
      if Was(mapColPrev, id) {
        if dead {
          Leave(l, r, t.log);
          mapColPrev := mapColPrev - {id};
        } else {
          StayCounts(known, t.log, l.id, r.id);
          assert mapColPrev == mapColPrev[id := true];
        }
      } else {
        if !dead {
          Meet(l, r, t.log);
          mapColPrev := mapColPrev[id := true];
        } else {
          mapColPrev := mapColPrev - {id};
        }
      }
    }

    /** They do not. */
    method NoOverlap(l: CCollider, r: CCollider, dead: bool, ghost t: Track)
      requires OwnIds(known) && l in known && r in known && l != r && t.prev == mapColPrev && Counted(known, t.log)
      modifies this`mapColPrev, l, r
      ensures var t' := After(key, t, Visit(l.id, r.id, false, dead));
              mapColPrev == t'.prev && Counted(known, t'.log)
    {
      var id := key(l.id, r.id);
      hide Counted, OwnIds;
      if Was(mapColPrev, id) {
        Leave(l, r, t.log);
      }
      mapColPrev := mapColPrev[id := false];
      if dead {
        mapColPrev := mapColPrev - {id};
        assert mapColPrev == t.prev - {id};
      }
    }

    /** The two loops over the groups visit every pair of them, in order. */
    method CollisionUpdateGroup(left: seq<Object>, right: seq<Object>, touches: (nat, nat) -> bool)
      requires Valid() && Groups(known, left, right)
      modifies this`mapColPrev, this`visits, known
      ensures Valid()
      ensures visits == old(visits) + GroupVisits(left, right, touches)
    {
      hide Groups, RowVisits, GroupVisits, Counted, OwnIds, Play;
      NoVisits(right, touches);
      for i := 0 to |left|
        invariant Valid() && visits == old(visits) + GroupVisits(left[..i], right, touches)
      {
        UpdateRow(left, right, i, touches);
        NextRow(left, right, i, touches);
      }
      assert left[..|left|] == left;
    }

    /** The inner loop. */
    method UpdateRow(left: seq<Object>, right: seq<Object>, i: nat, touches: (nat, nat) -> bool)
      requires Valid() && Groups(known, left, right) && i < |left|
      modifies this`mapColPrev, this`visits, known
      ensures Valid() && visits == old(visits) + RowVisits(left[i], right, touches)
    {
      hide Groups, RowVisits, GroupVisits, Counted, OwnIds, Play;
      NoRowVisits(left[i], touches);
      for j := 0 to |right|
        invariant Valid() && visits == old(visits) + RowVisits(left[i], right[..j], touches)
      {
        GroupsKnown(known, left, right, i, j);
        NextInRow(left[i], right, j, touches);
        if Pairs(left[i], right[j]) {
          VisitPair(left[i], right[j], touches(left[i].collider.value.id, right[j].collider.value.id));
        }
      }
      assert right[..|right|] == right;
    }
  }

  lemma NoVisits(right: seq<Object>, touches: (nat, nat) -> bool)
    ensures GroupVisits([], right, touches) == []
  {}

  lemma NoRowVisits(l: Object, touches: (nat, nat) -> bool)
    ensures RowVisits(l, [], touches) == []
  {}

  lemma NextRow(left: seq<Object>, right: seq<Object>, i: nat, touches: (nat, nat) -> bool)
    requires i < |left|
    ensures GroupVisits(left[..i + 1], right, touches) ==
              GroupVisits(left[..i], right, touches) + RowVisits(left[i], right, touches)
  {
    assert left[..i + 1][..i] == left[..i];
  }

  lemma NextInRow(l: Object, right: seq<Object>, j: nat, touches: (nat, nat) -> bool)
    requires j < |right|
    ensures RowVisits(l, right[..j + 1], touches) ==
              RowVisits(l, right[..j], touches) + if Pairs(l, right[j]) then [VisitOf(l, right[j], touches)] else []
  {
    assert right[..j + 1][..j] == right[..j];
  }

  /** A collider belongs to one object. */
  ghost predicate OwnColliders(objects: seq<Object>) {
    forall i, j | 0 <= i < |objects| && 0 <= j < |objects| && objects[i].collider.Some? &&
      objects[i].collider == objects[j].collider :: objects[i] == objects[j]
  }

  /** The groups of one call: known colliders, one for each object. */
  ghost predicate Groups(known: set<CCollider>, left: seq<Object>, right: seq<Object>) {
    OwnColliders(left + right) && forall i | 0 <= i < |left + right| :: Fits(known, (left + right)[i])
  }

  lemma GroupsKnown(known: set<CCollider>, left: seq<Object>, right: seq<Object>, i: nat, j: nat)
    requires Groups(known, left, right) && i < |left| && j < |right|
    ensures Fits(known, left[i]) && Fits(known, right[j])
    ensures Pairs(left[i], right[j]) ==> left[i].collider.value != right[j].collider.value
  {
    assert (left + right)[i] == left[i] && (left + right)[|left| + j] == right[j];
  }

  lemma KnownId(known: set<CCollider>, c: CCollider)
    requires OwnIds(known) && c in known
    ensures c.id < IDS
  {}

  lemma IdsMore(visits: seq<Visit>, v: Visit)
    requires Ids(visits) && v.left < IDS && v.right < IDS
    ensures Ids(visits + [v])
  {}

  lemma PlayOn(key: (nat, nat) -> nat, visits: seq<Visit>, v: Visit)
    ensures Play(key, visits + [v]) == After(key, Play(key, visits), v)
  {
    assert (visits + [v])[..|visits|] == visits;
  }

  ghost predicate Counted(known: set<CCollider>, log: seq<Event>)
    reads known
  {
    forall c | c in known :: c.colCnt == Count(log, c.id)
  }

  lemma CountGrows(log: seq<Event>, e: Event)
    ensures forall id :: Count(log + [e], id) == Count(log, id) +
              if e.kind.Stay? || (e.left != id && e.right != id) then 0 else if e.kind.Enter? then 1 else -1
  {
    assert (log + [e])[..|log|] == log;
  }

  lemma StayCounts(known: set<CCollider>, log: seq<Event>, l: nat, r: nat)
    requires Counted(known, log)
    ensures Counted(known, log + [Event(Stay, l, r)])
  {
    CountGrows(log, Event(Stay, l, r));
  }

  // ---------------------------------------------------------------- what one update settles

  lemma {:induction false} RowComesFrom(l: Object, right: seq<Object>, touches: (nat, nat) -> bool, k: nat)
      returns (b: nat)
    requires k < |RowVisits(l, right, touches)|
    ensures b < |right| && Pairs(l, right[b]) && RowVisits(l, right, touches)[k] == VisitOf(l, right[b], touches)
  {
    var n := |right| - 1;
    if k < |RowVisits(l, right[..n], touches)| {
      b := RowComesFrom(l, right[..n], touches, k);
    } else {
      b := n;
    }
  }

  lemma {:induction false} ComesFrom(left: seq<Object>, right: seq<Object>, touches: (nat, nat) -> bool, k: nat)
      returns (a: nat, b: nat)
    requires k < |GroupVisits(left, right, touches)|
    ensures a < |left| && b < |right| && Pairs(left[a], right[b])
    ensures GroupVisits(left, right, touches)[k] == VisitOf(left[a], right[b], touches)
  {
    var n := |left| - 1;
    var before := |GroupVisits(left[..n], right, touches)|;
    if k < before {
      a, b := ComesFrom(left[..n], right, touches, k);
    } else {
      a := n;
      b := RowComesFrom(left[n], right, touches, k - before);
    }
  }

  lemma {:induction false} IsInRow(l: Object, right: seq<Object>, touches: (nat, nat) -> bool, b: nat) returns (k: nat)
    requires b < |right| && Pairs(l, right[b])
    ensures k < |RowVisits(l, right, touches)| && RowVisits(l, right, touches)[k] == VisitOf(l, right[b], touches)
  {
    var n := |right| - 1;
    if b < n {
      k := IsInRow(l, right[..n], touches, b);
    } else {
      k := |RowVisits(l, right[..n], touches)|;
    }
  }

  /** Every pair of different objects with colliders is visited. */
  lemma {:induction false} IsVisited(left: seq<Object>, right: seq<Object>, touches: (nat, nat) -> bool, a: nat, b: nat)
      returns (k: nat)
    requires a < |left| && b < |right| && Pairs(left[a], right[b])
    ensures k < |GroupVisits(left, right, touches)|
    ensures GroupVisits(left, right, touches)[k] == VisitOf(left[a], right[b], touches)
  {
    var n := |left| - 1;
    if a < n {
      k := IsVisited(left[..n], right, touches, a, b);
    } else {
      var j := IsInRow(left[n], right, touches, b);
      k := |GroupVisits(left[..n], right, touches)| + j;
    }
  }

  /** The last visits of a key leave its entry. */
  lemma {:induction false} LastVisitDecides(key: (nat, nat) -> nat, before: seq<Visit>, visits: seq<Visit>, k: nat)
    requires k < |visits|
    requires forall j | 0 <= j < |visits| && SameKey(key, visits[j], visits[k]) :: visits[j] == visits[k]
    ensures Entry(Play(key, before + visits).prev, key(visits[k].left, visits[k].right)) ==
              if visits[k].dead then None else Some(visits[k].now)
  {
    var n := |visits| - 1;
    assert (before + visits)[..|before| + n] == before + visits[..n];
    if !SameKey(key, visits[n], visits[k]) {
      LastVisitDecides(key, before, visits[..n], k);
    }
  }

  /** After an update whose pairs do not share keys every visited pair's entry says whether
      it touches, and no visited pair with a dead member keeps an entry. */
  lemma UpdateSettles(key: (nat, nat) -> nat, known: set<CCollider>, before: seq<Visit>, left: seq<Object>,
                      right: seq<Object>, touches: (nat, nat) -> bool, a: nat, b: nat)
    requires OwnIds(known) && Groups(known, left, right) && Unshared(key, GroupVisits(left, right, touches))
    requires a < |left| && b < |right| && Pairs(left[a], right[b])
    ensures var v := VisitOf(left[a], right[b], touches);
            Entry(Play(key, before + GroupVisits(left, right, touches)).prev, key(v.left, v.right)) ==
              if left[a].dead || right[b].dead then None else Some(touches(v.left, v.right))
  {
    var visits := GroupVisits(left, right, touches);
    var k := IsVisited(left, right, touches, a, b);
    forall j | 0 <= j < |visits| && SameKey(key, visits[j], visits[k]) ensures visits[j] == visits[k] {
      assert SamePair(visits[j], visits[k]);
      var c, d := ComesFrom(left, right, touches, j);
      SameObjects(known, left, right, a, b, c, d);
    }
    LastVisitDecides(key, before, visits, k);
  }

  lemma SameObjects(known: set<CCollider>, left: seq<Object>, right: seq<Object>, a: nat, b: nat, c: nat, d: nat)
    requires OwnIds(known) && Groups(known, left, right) && a < |left| && c < |left| && b < |right| && d < |right|
    requires Pairs(left[a], right[b]) && Pairs(left[c], right[d])
    requires left[a].collider.value.id == left[c].collider.value.id
    requires right[b].collider.value.id == right[d].collider.value.id
    ensures left[a] == left[c] && right[b] == right[d]
  {
    var all := left + right;
    assert all[a] == left[a] && all[c] == left[c] && all[|left| + b] == right[b] && all[|left| + d] == right[d];
  }
}
