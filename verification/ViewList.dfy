/** View lists: on every move of an entity its view list is brought up to date with the
    entities near it, and everybody concerned is told. A session's client keeps a mirror of
    its view list from the packets it is sent. */
module ViewList {
  import opened Options

  type Entity = nat
  type Bits = bv8

  const NPC_EMPTY: Bits := 1
  const USER_EMPTY: Bits := 2
  const NONE: Bits := 7

  datatype Packet = In(e: Entity) | Out(e: Entity) | Move(e: Entity)

  /** What a client shows after its packets. */
  function Mirror(shown: set<Entity>, packets: seq<Packet>): set<Entity> {
    if packets == [] then shown
    else
      Shows(Mirror(shown, packets[..|packets| - 1]), packets[|packets| - 1])
  }

  function Shows(shown: set<Entity>, p: Packet): set<Entity> {
    match p
    case In(e) => shown + {e}
    case Out(e) => shown - {e}
    case Move(_) => shown
  }

  lemma {:induction false} MirrorResumes(shown: set<Entity>, first: seq<Packet>, more: seq<Packet>)
    ensures Mirror(shown, first + more) == Mirror(Mirror(shown, first), more)
    decreases |more|
  {
    if more == [] {
      assert first + more == first;
    } else {
      var n := |more| - 1;
      MirrorResumes(shown, first, more[..n]);
      assert (first + more)[..|first| + n] == first + more[..n];
    }
  }

  /** What a session e other than the mover is told, going by the view lists before and after. */
  function Notice(mover: Entity, sessions: set<Entity>, before: set<Entity>, after: set<Entity>,
      e: Entity): seq<Packet> {
    if e !in sessions then []
    else if e in after then (if e in before then [Move(mover)] else [In(mover)])
    else if e in before then [Out(mover)]
    else []
  }

  /** The owner has been told once of every entity of `met` that is new, and once of every
      one of `left`. */
  ghost predicate TellsOnce(told: seq<Packet>, before: set<Entity>, met: set<Entity>, left: set<Entity>) {
    && (forall e :: multiset(told)[In(e)] == if e in met && e !in before then 1 else 0)
    && (forall e :: multiset(told)[Out(e)] == if e in left then 1 else 0)
  }

  lemma Telling(told: seq<Packet>, before: set<Entity>, met: set<Entity>, left: set<Entity>, p: Packet, e: Entity)
    requires TellsOnce(told, before, met, left)
    ensures Mirror(before, told + [p]) == Shows(Mirror(before, told), p)
    ensures p == In(e) && e !in met && e !in before ==> TellsOnce(told + [p], before, met + {e}, left)
    ensures p == Out(e) && e !in left ==> TellsOnce(told + [p], before, met, left + {e})
    ensures p.Move? && e in before ==> TellsOnce(told + [p], before, met + {e}, left)
  {
    assert (told + [p])[..|told|] == told;
    assert multiset(told + [p]) == multiset(told) + multiset{p};
  }

  function QueueOf(queued: map<Entity, seq<Packet>>, e: Entity): seq<Packet> {
    if e in queued then queued[e] else []
  }

  /** The packets queued to each session, and the sessions asked to send. */
  class Network {
    const sessions: set<Entity>
    var queued: map<Entity, seq<Packet>>
    var flushed: seq<Entity>

    constructor (sessions: set<Entity>)
      ensures this.sessions == sessions && forall e :: Queue(e) == []
    {
      this.sessions, queued, flushed := sessions, map[], [];
    }

    function Queue(e: Entity): seq<Packet>
      reads this
    { QueueOf(queued, e) }

    method SendOnlyEnqueue(e: Entity, p: Packet)
      modifies this`queued
      ensures queued == old(queued)[e := QueueOf(old(queued), e) + [p]]
    {
      queued := queued[e := Queue(e) + [p]];
    }
  }

  datatype Sector = Sector(entities: seq<Entity>, sessions: seq<Entity>)

  /** The entities a mover looks at: for a session all of the sectors, for an NPC the sessions. */
  function Candidates(sectors: seq<Sector>, isSession: bool): seq<Entity> {
    if sectors == [] then []
    else (if isSession then sectors[0].entities else sectors[0].sessions) + Candidates(sectors[1..], isSession)
  }

  function Near(candidates: seq<Entity>, near: Entity -> bool): set<Entity> {
    set e | e in candidates && near(e)
  }

  /** The candidates are the entities of all sectors for a session, and the sessions for an NPC. */
  lemma {:induction false} CandidatesAreListed(sectors: seq<Sector>, isSession: bool, e: Entity)
    ensures e in Candidates(sectors, isSession) <==>
              exists i | 0 <= i < |sectors| :: e in if isSession then sectors[i].entities else sectors[i].sessions
  {
    if sectors != [] {
      CandidatesAreListed(sectors[1..], isSession, e);
      if e in Candidates(sectors[1..], isSession) {
        var i :| 0 <= i < |sectors[1..]| &&
            e in if isSession then sectors[1..][i].entities else sectors[1..][i].sessions;
        assert sectors[i + 1] == sectors[1..][i];
      }
      if i :| 1 <= i < |sectors| && e in if isSession then sectors[i].entities else sectors[i].sessions {
        assert sectors[1..][i - 1] == sectors[i];
      }
    }
  }

  /** The set a thread reuses from call to call without clearing it. */
  class ThreadLocal {
    var newViewList: set<Entity>
  }

  // ---------------------------------------------------------------- one call, as it goes

  /** A call: the mover, the view lists before and after it, and the queues before it. */
  datatype Talk = Talk(owner: Entity, sessions: set<Entity>, before: set<Entity>, after: set<Entity>,
      start: map<Entity, seq<Packet>>)

  /** How far it has come; `said` is what the owner has been told. */
  datatype Progress = Progress(view: set<Entity>, queued: map<Entity, seq<Packet>>, sendList: seq<Entity>,
      said: seq<Packet>)

  /** The view list when the entities of `met` have been met and those of `left` have left. */
  ghost predicate Views(talk: Talk, view: set<Entity>, met: set<Entity>, left: set<Entity>) {
    forall e :: e in view <==> (e in talk.before || e in met) && e !in left
  }

  /** What the others have been told, and nobody else. */
  ghost predicate OthersTold(talk: Talk, queued: map<Entity, seq<Packet>>, met: set<Entity>, left: set<Entity>) {
    forall e | e != talk.owner ::
      QueueOf(queued, e) == QueueOf(talk.start, e) +
        if e in met || e in left then Notice(talk.owner, talk.sessions, talk.before, talk.after, e) else []
  }

  ghost predicate OwnerTold(talk: Talk, p: Progress, met: set<Entity>, left: set<Entity>) {
    && QueueOf(p.queued, talk.owner) == QueueOf(talk.start, talk.owner) + p.said
    && (if talk.owner in talk.sessions then
          Mirror(talk.before, p.said) == p.view && TellsOnce(p.said, talk.before, met, left)
        else p.said == [])
  }

  /** Each session of the two sets once. */
  ghost predicate Lists(talk: Talk, sendList: seq<Entity>, met: set<Entity>, left: set<Entity>) {
    forall e :: multiset(sendList)[e] == if (e in met || e in left) && e in talk.sessions then 1 else 0
  }

  ghost predicate Along(talk: Talk, p: Progress, met: set<Entity>, left: set<Entity>) {
    Views(talk, p.view, met, left) && OthersTold(talk, p.queued, met, left) && OwnerTold(talk, p, met, left) &&
    Lists(talk, p.sendList, met, left)
  }

  /** One entity e has been told, and the owner about it. */
  ghost predicate Tells(talk: Talk, queued: map<Entity, seq<Packet>>, queued': map<Entity, seq<Packet>>, e: Entity,
      told: Option<Packet>) {
    && QueueOf(queued', e) == QueueOf(queued, e) + Notice(talk.owner, talk.sessions, talk.before, talk.after, e)
    && QueueOf(queued', talk.owner) == QueueOf(queued, talk.owner) + (if told.Some? then [told.value] else [])
    && forall d | d != e && d != talk.owner :: QueueOf(queued', d) == QueueOf(queued, d)
  }

  function Next(talk: Talk, p: Progress, view: set<Entity>, queued: map<Entity, seq<Packet>>, e: Entity,
      told: Option<Packet>): Progress {
    Progress(view, queued, p.sendList + (if e in talk.sessions then [e] else []),
             p.said + (if told.Some? then [told.value] else []))
  }

  lemma ListStep(talk: Talk, sendList: seq<Entity>, e: Entity, met: set<Entity>, left: set<Entity>, met': set<Entity>,
      left': set<Entity>)
    requires Lists(talk, sendList, met, left) && e !in met && e !in left && (e in met' || e in left')
    requires forall d | d != e :: (d in met' || d in left' <==> d in met || d in left)
    ensures Lists(talk, sendList + (if e in talk.sessions then [e] else []), met', left')
  {
    var more := if e in talk.sessions then [e] else [];
    assert multiset(sendList + more) == multiset(sendList) + multiset(more);
  }

  lemma OwnerStep(talk: Talk, p: Progress, p': Progress, e: Entity, told: Option<Packet>,
                  met: set<Entity>, left: set<Entity>, met': set<Entity>, left': set<Entity>)
    requires OwnerTold(talk, p, met, left) && Tells(talk, p.queued, p'.queued, e, told)
    requires told.Some? <==> talk.owner in talk.sessions
    requires p' == Next(talk, p, p'.view, p'.queued, e, told)
    requires told.Some? ==>
               p'.view == Shows(p.view, told.value) && TellsOnce(p.said + [told.value], talk.before, met', left')
    requires told.Some? ==> Mirror(talk.before, p.said + [told.value]) == Shows(Mirror(talk.before, p.said), told.value)
    ensures OwnerTold(talk, p', met', left')
  {
    hide TellsOnce, Mirror, Notice, QueueOf;
    var more := if told.Some? then [told.value] else [];
    assert QueueOf(talk.start, talk.owner) + p.said + more == QueueOf(talk.start, talk.owner) + (p.said + more);
  }

  lemma MeetStep(talk: Talk, p: Progress, queued: map<Entity, seq<Packet>>, e: Entity, told: Option<Packet>,
      met: set<Entity>)
    requires Along(talk, p, met, {}) && e != talk.owner && e in talk.after && e !in met
    requires Tells(talk, p.queued, queued, e, told)
    requires told == if talk.owner !in talk.sessions then None
             else if e in talk.before then Some(Move(talk.owner)) else Some(In(e))
    ensures Along(talk, Next(talk, p, p.view + {e}, queued, e, told), met + {e}, {})
  {
    var p' := Next(talk, p, p.view + {e}, queued, e, told);
    MeetViews(talk, p.view, e, met);
    hide OthersTold, OwnerTold, Lists, Views, TellsOnce, Mirror, Tells;
    ListStep(talk, p.sendList, e, met, {}, met + {e}, {});
    OthersStep(talk, p.queued, queued, e, told, met, {}, met + {e}, {});
    if told.Some? {
      OwnerKnown(talk, p, met, {});
      Telling(p.said, talk.before, met, {}, told.value, e);
    }
    OwnerStep(talk, p, p', e, told, met, {}, met + {e}, {});
  }

  lemma MeetViews(talk: Talk, view: set<Entity>, e: Entity, met: set<Entity>)
    requires Views(talk, view, met, {})
    ensures Views(talk, view + {e}, met + {e}, {})
    ensures e in talk.before ==> view + {e} == view
  {}

  lemma PartViews(talk: Talk, view: set<Entity>, e: Entity, left: set<Entity>)
    requires Views(talk, view, talk.after, left)
    ensures Views(talk, view - {e}, talk.after, left + {e})
  {}

  lemma OwnerKnown(talk: Talk, p: Progress, met: set<Entity>, left: set<Entity>)
    requires OwnerTold(talk, p, met, left) && talk.owner in talk.sessions
    ensures TellsOnce(p.said, talk.before, met, left)
  {}

  lemma PartStep(talk: Talk, p: Progress, queued: map<Entity, seq<Packet>>, e: Entity, told: Option<Packet>,
      left: set<Entity>)
    requires Along(talk, p, talk.after, left) && e != talk.owner && e !in talk.after && e !in left && e in talk.before
    requires Tells(talk, p.queued, queued, e, told)
    requires told == if talk.owner !in talk.sessions then None else Some(Out(e))
    ensures Along(talk, Next(talk, p, p.view - {e}, queued, e, told), talk.after, left + {e})
  {
    var p' := Next(talk, p, p.view - {e}, queued, e, told);
    PartViews(talk, p.view, e, left);
    hide OthersTold, OwnerTold, Lists, Views, TellsOnce, Mirror, Tells;
    ListStep(talk, p.sendList, e, talk.after, left, talk.after, left + {e});
    OthersStep(talk, p.queued, queued, e, told, talk.after, left, talk.after, left + {e});
    if told.Some? {
      OwnerKnown(talk, p, talk.after, left);
      Telling(p.said, talk.before, talk.after, left, told.value, e);
    }
    OwnerStep(talk, p, p', e, told, talk.after, left, talk.after, left + {e});
  }

  lemma OthersStep(talk: Talk, queued: map<Entity, seq<Packet>>, queued': map<Entity, seq<Packet>>, e: Entity,
      told: Option<Packet>,
                   met: set<Entity>, left: set<Entity>, met': set<Entity>, left': set<Entity>)
    requires OthersTold(talk, queued, met, left) && Tells(talk, queued, queued', e, told)
    requires e !in met && e !in left && (e in met' || e in left')
    requires forall d | d != e :: (d in met' || d in left' <==> d in met || d in left)
    ensures OthersTold(talk, queued', met', left')
  {}

  /** What a move of the owner must bring about, whatever the thread's set held before:
      the view list is the near entities but for the owner; every other entity has been
      told as `Notice` says, once, and asked to send as often; the owner's packets bring
      a mirror from the old view list to the new one, each change told once. */
  ghost predicate Moved(talk: Talk, view: Option<set<Entity>>, queued: map<Entity, seq<Packet>>, flushed: seq<Entity>,
                        flushed': seq<Entity>, said: seq<Packet>)
  {
    && view == Some(talk.after)
    && OthersTold(talk, queued, talk.after, talk.before - talk.after)
    && QueueOf(queued, talk.owner) == QueueOf(talk.start, talk.owner) + said
    && (if talk.owner in talk.sessions then
          Mirror(talk.before, said) == talk.after && TellsOnce(said, talk.before, talk.after, talk.before - talk.after)
        else said == [])
    && forall e | e != talk.owner ::
         multiset(flushed')[e] ==
           multiset(flushed)[e] + |Notice(talk.owner, talk.sessions, talk.before, talk.after, e)|
  }

  class MoveBroadcaster {
    const owner: Entity
    const net: Network
    var viewList: Option<set<Entity>>
    ghost var told: seq<Packet>

    /** The packets queued to the owner so far, if it is a session, fold to the view list. */
    ghost predicate Valid()
      reads this
    {
      viewList.Some? ==> owner !in viewList.value && (owner in net.sessions ==> Mirror({}, told) == viewList.value)
    }

    constructor (owner: Entity, net: Network)
      ensures Valid() && this.owner == owner && this.net == net && viewList == Some({}) && told == []
    {
      this.owner, this.net, viewList, told := owner, net, Some({}), [];
    }

    /** Near candidates are added to whatever the thread's set holds. */
    method Collect(candidates: seq<Entity>, near: Entity -> bool, local: ThreadLocal)
        returns (copies: set<Entity>, state: Bits)
      modifies local
      ensures copies == Near(candidates, near)
      ensures local.newViewList == old(local.newViewList) + copies
      ensures state & 2 != 0 <==> exists e :: e in copies && e in net.sessions
      ensures state & 1 != 0 <==> exists e :: e in copies && e !in net.sessions
      ensures state & 3 == state
    {
      copies, state := {}, 0;
      for i := 0 to |candidates|
        invariant copies == Near(candidates[..i], near)
        invariant local.newViewList == old(local.newViewList) + copies
        invariant state & 2 != 0 <==> exists e :: e in copies && e in net.sessions
        invariant state & 1 != 0 <==> exists e :: e in copies && e !in net.sessions
        invariant state & 3 == state
      {
        var e := candidates[i];
        assert candidates[..i + 1] == candidates[..i] + [e];
        if near(e) {
          copies := copies + {e};
          local.newViewList := local.newViewList + {e};
          state := state | (if e in net.sessions then 2 else 1);
        }
      }
      assert candidates[..|candidates|] == candidates;
    }

    /** Tells one near entity and, if it is a session, the owner about each other. */
    method Meet(e: Entity, ghost talk: Talk) returns (told: Option<Packet>)
      requires talk.owner == owner && talk.sessions == net.sessions
      requires viewList.Some? && e != owner && e in talk.after && (e in viewList.value <==> e in talk.before)
      modifies this`viewList, net`queued
      ensures viewList.Some? && viewList.value == old(viewList).value + {e}
      ensures told == if owner !in net.sessions then None else if e in talk.before then Some(Move(owner))
              else Some(In(e))
      ensures Tells(talk, old(net.queued), net.queued, e, told)
    {
      told := None;
      if e !in viewList.value {
        if e in net.sessions {
          net.SendOnlyEnqueue(e, In(owner));
        }
        if owner in net.sessions {
          net.SendOnlyEnqueue(owner, In(e));
          told := Some(In(e));
        }
        viewList := Some(viewList.value + {e});
      } else {
        if owner in net.sessions {
          net.SendOnlyEnqueue(owner, Move(owner));
          told := Some(Move(owner));
        }
        if e in net.sessions {
          net.SendOnlyEnqueue(e, Move(owner));
        }
      }
    }

    /** Tells one entity that is no longer near, and the owner, and forgets it. */
    method Part(e: Entity, ghost talk: Talk) returns (told: Option<Packet>)
      requires talk.owner == owner && talk.sessions == net.sessions
      requires viewList.Some? && e != owner && e !in talk.after && e in talk.before
      modifies this`viewList, net`queued
      ensures viewList.Some? && viewList.value == old(viewList).value - {e}
      ensures told == if owner !in net.sessions then None else Some(Out(e))
      ensures Tells(talk, old(net.queued), net.queued, e, told)
    {
      told := None;
      if e in net.sessions {
        net.SendOnlyEnqueue(e, Out(owner));
      }
      if owner in net.sessions {
        net.SendOnlyEnqueue(owner, Out(e));
        told := Some(Out(e));
      }
      viewList := Some(viewList.value - {e});
    }

    /** First loop: the thread's set is cut down to the near entities, and these are met. */
    method Arrive(copies: set<Entity>, local: ThreadLocal, ghost talk: Talk)
        returns (sendList: seq<Entity>, ghost p: Progress)
      requires viewList == Some(talk.before) && owner !in talk.before && owner !in local.newViewList
      requires talk == Talk(owner, net.sessions, talk.before, copies - {owner}, net.queued)
      requires copies - {owner} <= local.newViewList
      modifies this`viewList, local, net`queued
      ensures local.newViewList == copies - {owner}
      ensures p == Progress(p.view, net.queued, sendList, p.said) && viewList == Some(p.view)
      ensures Along(talk, p, copies - {owner}, {})
    {
      sendList, p := [], Progress(talk.before, net.queued, [], []);
      ghost var met: set<Entity> := {};
      var todo := local.newViewList;
      NothingSaid(talk);
      hide Along, Tells, Next;
      while todo != {}
        invariant p == Progress(p.view, net.queued, sendList, p.said) && viewList == Some(p.view)
        invariant Along(talk, p, met, {}) && owner !in todo
        invariant forall e | e in met :: e in talk.after && e !in todo && e in local.newViewList
        invariant forall e | e in todo :: e in local.newViewList
        invariant forall e | e in local.newViewList || e in talk.after :: e in met || e in todo
        decreases |todo|
      {
        var e :| e in todo;
        todo := todo - {e};
        if e in copies {
          InView(talk, p, met, {}, e);
          var told := Meet(e, talk);
          MeetStep(talk, p, net.queued, e, told, met);
          NextIs(talk, p, viewList.value, net.queued, e, told);
          p := Next(talk, p, viewList.value, net.queued, e, told);
          sendList := sendList + (if e in net.sessions then [e] else []);
          met := met + {e};
        } else {
          local.newViewList := local.newViewList - {e};
        }
      }
      assert met == talk.after && local.newViewList == talk.after;
    }

    /** Second loop: what is in the view list but no longer near is parted from. */
    method Depart(sendList: seq<Entity>, local: ThreadLocal, ghost talk: Talk, ghost p: Progress)
        returns (sendList': seq<Entity>, ghost p': Progress)
      requires talk.owner == owner && talk.sessions == net.sessions && local.newViewList == talk.after
      requires owner !in talk.before && owner !in talk.after
      requires p == Progress(p.view, net.queued, sendList, p.said) && viewList == Some(p.view)
      requires Along(talk, p, talk.after, {})
      modifies this`viewList, net`queued
      ensures p' == Progress(p'.view, net.queued, sendList', p'.said) && viewList == Some(talk.after) &&
              p'.view == talk.after
      ensures Along(talk, p', talk.after, talk.before - talk.after)
    {
      sendList', p' := sendList, p;
      ghost var left: set<Entity> := {};
      var todo := viewList.value;
      assert forall e | e in todo :: e in talk.before || e in talk.after;
      assert forall e | e in talk.before :: e in todo;
      hide Along, Tells, Next;
      while todo != {}
        invariant p' == Progress(p'.view, net.queued, sendList', p'.said) && viewList == Some(p'.view)
        invariant Along(talk, p', talk.after, left)
        invariant forall e | e in todo :: e in talk.before || e in talk.after
        invariant forall e | e in left :: e in talk.before && e !in talk.after
        invariant forall e | e in talk.before && e !in talk.after :: e in todo || e in left
        invariant left !! todo
        decreases |todo|
      {
        var e :| e in todo;
        todo := todo - {e};
        if e !in local.newViewList {
          var told := Part(e, talk);
          PartStep(talk, p', net.queued, e, told, left);
          NextIs(talk, p', viewList.value, net.queued, e, told);
          p' := Next(talk, p', viewList.value, net.queued, e, told);
          sendList' := sendList' + (if e in net.sessions then [e] else []);
          left := left + {e};
        }
      }
      assert left == talk.before - talk.after;
      ViewIsAfter(talk, p');
    }

    method TrySend(sendList: seq<Entity>)
      modifies net`flushed
      ensures net.flushed == old(net.flushed) + (if owner in net.sessions then [owner] else []) + sendList
    {
      if owner in net.sessions {
        net.flushed := net.flushed + [owner];
      }
      net.flushed := net.flushed + sendList;
    }

    method BroadcastMove(active: bool, sectors: seq<Sector>, near: Entity -> bool, local: ThreadLocal)
        returns (state: Bits, ghost said: seq<Packet>)
      requires Valid()
      modifies this, local, net`queued, net`flushed
      ensures Valid()
      ensures !active || old(viewList).None? ==>
                state == NONE && viewList == old(viewList) && net.queued == old(net.queued) && told == old(told)
      ensures active && old(viewList).Some? ==>
                var seen := Near(Candidates(sectors, owner in net.sessions), near);
                var talk := Talk(owner, net.sessions, old(viewList).value, seen - {owner}, old(net.queued));
                && Moved(talk, viewList, net.queued, old(net.flushed), net.flushed, said)
                && told == old(told) + said
                && (state & USER_EMPTY != 0 <==> forall e | e in seen :: e !in net.sessions)
                && (state & NPC_EMPTY != 0 <==> forall e | e in seen :: e in net.sessions)
      ensures active && old(viewList).Some? ==>
                && viewList.Some? && Sees(owner, net.sessions, sectors, near, viewList.value, state)
                && OthersHear(owner, net.sessions, old(viewList).value, viewList.value, old(net.queued), net.queued)
    {
      said := [];
      if !active || viewList.None? {
        return NONE, [];
      }
      var candidates := Candidates(sectors, owner in net.sessions);
      ghost var before, queued, flushed := viewList.value, net.queued, net.flushed;
      var copies, bits := Collect(candidates, near, local);
      ghost var talk := Talk(owner, net.sessions, before, copies - {owner}, queued);
      local.newViewList := local.newViewList - {owner};
      var sendList, p := Arrive(copies, local, talk);
      sendList, p := Depart(sendList, local, talk, p);
      TrySend(sendList);
      Finished(talk, p, flushed, net.flushed);
      said := p.said;
      MirrorResumes({}, told, said);
      told := told + said;
      MovedTells(talk, viewList, net.queued, flushed, net.flushed, said);
      hide Moved, Near, Candidates, Mirror, Sees, OthersHear;
      state := 3 ^ bits;
      SeenIs(owner, net.sessions, sectors, near, state);
    }
  }

  /** Who is in the new view list, and what the answer says of all that is near. */
  ghost predicate Sees(owner: Entity, sessions: set<Entity>, sectors: seq<Sector>, near: Entity -> bool,
      view: set<Entity>, state: Bits) {
    && (owner in sessions ==>
          && (forall e :: e in view <==>
                e != owner && near(e) && exists i | 0 <= i < |sectors| :: e in sectors[i].entities)
          && (state & 2 != 0 <==>
                forall i, e | 0 <= i < |sectors| && e in sectors[i].entities && near(e) :: e !in sessions)
          && (state & 1 != 0 <==>
                forall i, e | 0 <= i < |sectors| && e in sectors[i].entities && near(e) :: e in sessions))
    && (owner !in sessions ==>
          && (forall e :: e in view <==>
                e != owner && near(e) && exists i | 0 <= i < |sectors| :: e in sectors[i].sessions)
          && (state & 2 != 0 <==>
                forall i, e | 0 <= i < |sectors| && e in sectors[i].sessions && near(e) :: e !in sessions)
          && (state & 1 != 0 <==>
                forall i, e | 0 <= i < |sectors| && e in sectors[i].sessions && near(e) :: e in sessions))
  }

  /** What each other entity is sent: a session gets one packet if it is or was in view. */
  ghost predicate OthersHear(owner: Entity, sessions: set<Entity>, before: set<Entity>, after: set<Entity>,
      queued: map<Entity, seq<Packet>>, queued': map<Entity, seq<Packet>>) {
    forall e | e != owner ::
      QueueOf(queued', e) == QueueOf(queued, e) +
        if e !in sessions then []
        else if e in after then (if e in before then [Move(owner)] else [In(owner)])
        else if e in before then [Out(owner)]
        else []
  }

  lemma SeenIs(owner: Entity, sessions: set<Entity>, sectors: seq<Sector>, near: Entity -> bool, state: Bits)
    requires var seen := Near(Candidates(sectors, owner in sessions), near);
             && (state & 2 != 0 <==> forall e | e in seen :: e !in sessions)
             && (state & 1 != 0 <==> forall e | e in seen :: e in sessions)
    ensures Sees(owner, sessions, sectors, near, Near(Candidates(sectors, owner in sessions), near) - {owner}, state)
  {
    hide Candidates;
    forall e ensures e in Candidates(sectors, owner in sessions) <==>
        exists i | 0 <= i < |sectors| :: e in if owner in sessions then sectors[i].entities else sectors[i].sessions
    {
      CandidatesAreListed(sectors, owner in sessions, e);
    }
  }

  lemma MovedTells(talk: Talk, view: Option<set<Entity>>, queued: map<Entity, seq<Packet>>, flushed: seq<Entity>,
      flushed': seq<Entity>, said: seq<Packet>)
    requires Moved(talk, view, queued, flushed, flushed', said)
    ensures view == Some(talk.after)
    ensures OthersHear(talk.owner, talk.sessions, talk.before, talk.after, talk.start, queued)
  {}

  lemma FlushedOnce(talk: Talk, sendList: seq<Entity>, flushed: seq<Entity>, flushed': seq<Entity>, e: Entity)
    requires Lists(talk, sendList, talk.after, talk.before - talk.after) && e != talk.owner
    requires flushed' == flushed + (if talk.owner in talk.sessions then [talk.owner] else []) + sendList
    ensures multiset(flushed')[e] ==
              multiset(flushed)[e] + |Notice(talk.owner, talk.sessions, talk.before, talk.after, e)|
  {
    var mine := if talk.owner in talk.sessions then [talk.owner] else [];
    assert multiset(flushed') == multiset(flushed) + multiset(mine) + multiset(sendList);
  }

  lemma Finished(talk: Talk, p: Progress, flushed: seq<Entity>, flushed': seq<Entity>)
    requires Along(talk, p, talk.after, talk.before - talk.after)
    requires flushed' == flushed + (if talk.owner in talk.sessions then [talk.owner] else []) + p.sendList
    ensures Moved(talk, Some(p.view), p.queued, flushed, flushed', p.said)
  {
    ViewIsAfter(talk, p);
    hide OthersTold, Mirror, TellsOnce, Notice, Lists, Views;
    forall e | e != talk.owner
      ensures multiset(flushed')[e] ==
                multiset(flushed)[e] + |Notice(talk.owner, talk.sessions, talk.before, talk.after, e)|
    {
      FlushedOnce(talk, p.sendList, flushed, flushed', e);
    }
  }

  lemma NothingSaid(talk: Talk)
    ensures Along(talk, Progress(talk.before, talk.start, [], []), {}, {})
  {}

  lemma NextIs(talk: Talk, p: Progress, view: set<Entity>, queued: map<Entity, seq<Packet>>, e: Entity,
      told: Option<Packet>)
    ensures Next(talk, p, view, queued, e, told).view == view && Next(talk, p, view, queued, e, told).queued == queued
    ensures Next(talk, p, view, queued, e, told).sendList == p.sendList + (if e in talk.sessions then [e] else [])
  {}

  lemma InView(talk: Talk, p: Progress, met: set<Entity>, left: set<Entity>, e: Entity)
    requires Along(talk, p, met, left) && e !in met && e !in left
    ensures e in p.view <==> e in talk.before
  {}

  lemma ViewIsAfter(talk: Talk, p: Progress)
    requires Along(talk, p, talk.after, talk.before - talk.after)
    ensures p.view == talk.after
  {}
}
