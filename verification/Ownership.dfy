// Who holds a packet. The step machine below takes the statements of the proxy that create, hand
// over, reference or release packets, in the order the code has them, and keeps the reference
// counts as pktq.c does. Packets are named by the order of their allocation.

module Ownership {
  import opened Packets

  type Id = nat

  datatype Pipe = Pipe(rd: seq<Id>, rcv: seq<Id>, snd: seq<Id>)

  // `refs[p]` is the reference count of packet p. `hand` is the packet in rf_session::filter with
  // its lists `pre` and `post` and the events it fired, each with the packet as its source.
  // `expired` is the delayed packet in timeout_cb; `emitted` tells whether emit has run.
  datatype State = State(refs: multiset<Id>, freed: set<Id>, next: Id, c2s: Pipe, s2c: Pipe,
                         hand: seq<Id>, pre: seq<Id>, post: seq<Id>, events: seq<Id>,
                         dq: seq<Id>, expired: seq<Id>, emitted: bool, destroyed: bool)

  const NONE := Pipe([], [], [])
  const START := State(multiset{}, {}, 0, NONE, NONE, [], [], [], [], [], [], false, false)

  function Count(ps: seq<Id>, p: Id): nat {
    multiset(ps)[p]
  }

  function CountIn(q: Pipe, p: Id): nat {
    Count(q.rd, p) + Count(q.rcv, p) + Count(q.snd, p)
  }

  // How many places hold the packet.
  function Owners(s: State, p: Id): nat {
    CountIn(s.c2s, p) + CountIn(s.s2c, p) + Count(s.hand, p) + Count(s.pre, p) + Count(s.post, p)
    + Count(s.events, p) + Count(s.dq, p) + Count(s.expired, p)
  }

  function PipeOf(s: State, dir: Side): Pipe {
    if dir == SRV_TO_CLI then s.s2c else s.c2s
  }

  function WithPipe(s: State, dir: Side, p: Pipe): State {
    if dir == SRV_TO_CLI then s.(s2c := p) else s.(c2s := p)
  }

  // pkt_new, as far as the count goes.
  function Allocate(s: State): State {
    s.(refs := s.refs + multiset{s.next}, next := s.next + 1)
  }

  // pkt_ref
  function Ref(s: State, p: Id): State {
    s.(refs := s.refs + multiset{p})
  }

  // pkt_unref: the last reference frees the packet.
  function Unref(s: State, p: Id): State {
    s.(refs := s.refs - multiset{p}, freed := if s.refs[p] == 1 then s.freed + {p} else s.freed)
  }

  function UnrefAll(s: State, ps: seq<Id>): State
    decreases |ps|
  {
    if ps == [] then s else UnrefAll(Unref(s, ps[0]), ps[1..])
  }

  datatype Step =
    | ReadNew(dir: Side)                                // recv: pkt_new into rd
    | ReadDone(dir: Side)                               // recv: pqh_push of rd
    | PopIn(dir: Side)                                  // filter: the next packet to hand
    | Fire                                              // a filter fires an event about the packet in hand
    | EndEvent                                          // the event loop deletes the first event
    | MakePre | MakePost                                // a filter makes a packet to inject
    | PullPre(dir: Side, acts: seq<Action>, room: nat)  // inject of pre
    | DelayPre                                          // dq.pull of pre
    | PushHand(dir: Side)                               // push_out of the packet in hand
    | DropHand                                          // or its pkt_unref
    | PullPost(dir: Side, acts: seq<Action>, room: nat) // inject of post
    | DelayPost                                         // dq.pull of post
    | Discard(dir: Side)                                // send: the head of the queue is out
    | Expire(i: nat)                                    // timeout_cb takes a delayed packet
    | Emit(dir: Side)                                   // emit: pkt_ref, push_out
    | EndExpired                                        // timeout_cb deletes the delayed_pkt
    | Destroy                                           // ~rf_session and its members

  // No filter round and no timer callback is under way.
  predicate Quiet(s: State) {
    s.hand == [] && s.pre == [] && s.post == [] && s.events == [] && s.expired == []
  }

  predicate Enabled(s: State, e: Step) {
    !s.destroyed &&
    match e
    case ReadNew(d) => PipeOf(s, d).rd == [] && Quiet(s)
    case ReadDone(d) => PipeOf(s, d).rd != [] && Quiet(s)
    case PopIn(d) => PipeOf(s, d).rcv != [] && Quiet(s)
    case Fire => s.hand != []
    case EndEvent => s.events != []
    case MakePre => s.hand != []
    case MakePost => s.hand != []
    case PullPre(d, acts, room) => s.hand != [] && s.events == [] && |acts| == |s.pre|
    case DelayPre => s.hand != [] && s.events == []
    case PushHand(d) => s.hand != [] && s.events == [] && s.pre == []
    case DropHand => s.hand != [] && s.events == [] && s.pre == []
    case PullPost(d, acts, room) => s.hand == [] && s.events == [] && |acts| == |s.post|
    case DelayPost => s.hand == [] && s.events == []
    case Discard(d) => PipeOf(s, d).snd != []
    case Expire(i) => i < |s.dq| && Quiet(s)
    case Emit(d) => s.expired != [] && !s.emitted
    case EndExpired => s.expired != [] && s.emitted
    case Destroy => Quiet(s)
  }

  function Apply(s: State, e: Step): State
    requires Enabled(s, e)
  {
    match e
    case ReadNew(d) => WithPipe(Allocate(s), d, PipeOf(s, d).(rd := [s.next]))
    case ReadDone(d) => var p := PipeOf(s, d); WithPipe(s, d, p.(rd := [], rcv := p.rcv + p.rd))
    case PopIn(d) => var p := PipeOf(s, d); WithPipe(s, d, p.(rcv := p.rcv[1..])).(hand := [p.rcv[0]])
    case Fire => Ref(s, s.hand[0]).(events := s.events + [s.hand[0]])
    case EndEvent => Unref(s, s.events[0]).(events := s.events[1..])
    case MakePre => Allocate(s).(pre := s.pre + [s.next])
    case MakePost => Allocate(s).(post := s.post + [s.next])
    case PullPre(d, acts, room) =>
      var v, p := Pull(s.pre, acts, room), PipeOf(s, d);
      UnrefAll(WithPipe(s, d, p.(snd := p.snd + v.moved)).(pre := v.kept), v.freed)
    case DelayPre => s.(dq := s.dq + s.pre, pre := [])
    case PushHand(d) => var p := PipeOf(s, d); WithPipe(s, d, p.(snd := p.snd + s.hand)).(hand := [])
    case DropHand => UnrefAll(s.(hand := []), s.hand)
    case PullPost(d, acts, room) =>
      var v, p := Pull(s.post, acts, room), PipeOf(s, d);
      UnrefAll(WithPipe(s, d, p.(snd := p.snd + v.moved)).(post := v.kept), v.freed)
    case DelayPost => s.(dq := s.dq + s.post, post := [])
    case Discard(d) => var p := PipeOf(s, d); Unref(WithPipe(s, d, p.(snd := p.snd[1..])), p.snd[0])
    case Expire(i) => s.(dq := s.dq[..i] + s.dq[i + 1..], expired := [s.dq[i]], emitted := false)
    case Emit(d) =>
      var p := PipeOf(s, d);
      WithPipe(Ref(s, s.expired[0]), d, p.(snd := p.snd + [s.expired[0]])).(emitted := true)
    case EndExpired => UnrefAll(s.(expired := []), s.expired)
    case Destroy =>
      var all := s.dq + s.c2s.snd + s.c2s.rcv + s.s2c.snd + s.s2c.rcv;
      UnrefAll(s.(dq := [], c2s := Pipe(s.c2s.rd, [], []), s2c := Pipe(s.s2c.rd, [], []), destroyed := true), all)
  }

  // ---- the counts are the owners ---------------------------------------------------

  // `dying` references to the packet have lost their owner and are about to be given back. A packet
  // is freed exactly when nothing holds it any more.
  ghost predicate Balanced(s: State, p: Id, dying: nat) {
    && s.refs[p] == Owners(s, p) + dying
    && (p in s.freed <==> p < s.next && s.refs[p] == 0)
    && (s.refs[p] > 0 ==> p < s.next)
  }

  // The references beyond the first: event sources, and a delayed packet just emitted.
  function Extra(s: State, p: Id): nat {
    Count(s.events, p) + if s.emitted then Count(s.expired, p) else 0
  }

  ghost predicate Inv(s: State, p: Id) {
    Balanced(s, p, 0) && s.refs[p] <= Extra(s, p) + 1
  }

  lemma CountAppend(a: seq<Id>, b: seq<Id>, p: Id)
    ensures Count(a + b, p) == Count(a, p) + Count(b, p)
  {
  }

  lemma CountHead(ps: seq<Id>, p: Id)
    requires ps != []
    ensures Count(ps, p) == Count(ps[1..], p) + Count([ps[0]], p)
  {
    assert ps == [ps[0]] + ps[1..];
  }

  lemma CountWithout(ps: seq<Id>, i: nat, p: Id)
    requires i < |ps|
    ensures Count(ps, p) == Count(ps[..i] + ps[i + 1..], p) + Count([ps[i]], p)
  {
    assert ps == ps[..i] + [ps[i]] + ps[i + 1..];
  }

  lemma {:induction false} UnrefAllBalanced(s: State, ps: seq<Id>, p: Id, dying: nat)
    requires Balanced(s, p, dying + Count(ps, p))
    ensures var t := UnrefAll(s, ps);
      Balanced(t, p, dying) && t.refs[p] == s.refs[p] - Count(ps, p) && t == s.(refs := t.refs, freed := t.freed)
    decreases |ps|
  {
    hide Count;
    CountNone(p);
    if ps != [] {
      CountHead(ps, p);
      CountOne(ps[0], p);
      UnrefAllBalanced(Unref(s, ps[0]), ps[1..], p, dying);
    }
  }

  lemma CountNone(p: Id)
    ensures Count([], p) == 0
  {
  }

  lemma CountOne(q: Id, p: Id)
    ensures Count([q], p) == if p == q then 1 else 0
  {
  }

  lemma PullCounts(src: seq<Id>, acts: seq<Action>, room: nat, p: Id)
    requires |acts| == |src|
    ensures var v := Pull(src, acts, room);
      Count(src, p) == Count(v.moved, p) + Count(v.freed, p) + Count(v.kept, p)
  {
    PullConserves(src, acts, room);
  }

  lemma PullPreKeepsInv(s: State, e: Step, p: Id)
    requires Inv(s, p) && e.PullPre? && Enabled(s, e)
    ensures Inv(Apply(s, e), p)
  {
    hide Count, Pull;
    var v, q := Pull(s.pre, e.acts, e.room), PipeOf(s, e.dir);
    PullCounts(s.pre, e.acts, e.room, p);
    CountAppend(q.snd, v.moved, p);
    UnrefAllBalanced(WithPipe(s, e.dir, q.(snd := q.snd + v.moved)).(pre := v.kept), v.freed, p, 0);
  }

  lemma PullPostKeepsInv(s: State, e: Step, p: Id)
    requires Inv(s, p) && e.PullPost? && Enabled(s, e)
    ensures Inv(Apply(s, e), p)
  {
    hide Count, Pull;
    var v, q := Pull(s.post, e.acts, e.room), PipeOf(s, e.dir);
    PullCounts(s.post, e.acts, e.room, p);
    CountAppend(q.snd, v.moved, p);
    UnrefAllBalanced(WithPipe(s, e.dir, q.(snd := q.snd + v.moved)).(post := v.kept), v.freed, p, 0);
  }

  lemma ReadNewKeepsInv(s: State, e: Step, p: Id)
    requires Inv(s, p) && e.ReadNew? && Enabled(s, e)
    ensures Inv(Apply(s, e), p)
  {
    hide Count;
    CountNone(p);
    CountOne(s.next, p);
  }

  lemma ReadDoneKeepsInv(s: State, e: Step, p: Id)
    requires Inv(s, p) && e.ReadDone? && Enabled(s, e)
    ensures Inv(Apply(s, e), p)
  {
    hide Count;
    var q := PipeOf(s, e.dir);
    CountNone(p);
    CountAppend(q.rcv, q.rd, p);
  }

  lemma PopKeepsInv(s: State, e: Step, p: Id)
    requires Inv(s, p) && Enabled(s, e) && e.PopIn?
    ensures Inv(Apply(s, e), p)
  {
    hide Count;
    CountNone(p);
    CountHead(PipeOf(s, e.dir).rcv, p);
  }

  lemma MakeKeepsInv(s: State, e: Step, p: Id)
    requires Inv(s, p) && Enabled(s, e) && (e.MakePre? || e.MakePost?)
    ensures Inv(Apply(s, e), p)
  {
    hide Count, CountIn;
    CountOne(s.next, p);
    CountAppend(s.pre, [s.next], p);
    CountAppend(s.post, [s.next], p);
  }

  lemma EventKeepsInv(s: State, e: Step, p: Id)
    requires Inv(s, p) && Enabled(s, e) && (e.Fire? || e.EndEvent?)
    ensures Inv(Apply(s, e), p)
  {
    hide Count, CountIn;
    if e.Fire? {
      CountOne(s.hand[0], p);
      CountHead(s.hand, p);
      CountAppend(s.events, [s.hand[0]], p);
    } else {
      CountHead(s.events, p);
      CountOne(s.events[0], p);
    }
  }

  lemma RouteKeepsInv(s: State, e: Step, p: Id)
    requires Inv(s, p) && Enabled(s, e) && (e.DelayPre? || e.DelayPost? || e.PushHand? || e.DropHand?)
    ensures Inv(Apply(s, e), p)
  {
    hide Count;
    CountNone(p);
    match e
    case DelayPre => CountAppend(s.dq, s.pre, p);
    case DelayPost => CountAppend(s.dq, s.post, p);
    case PushHand(d) => CountAppend(PipeOf(s, d).snd, s.hand, p);
    case DropHand => UnrefAllBalanced(s.(hand := []), s.hand, p, 0);
    case _ =>
  }

  lemma DiscardKeepsInv(s: State, e: Step, p: Id)
    requires Inv(s, p) && e.Discard? && Enabled(s, e)
    ensures Inv(Apply(s, e), p)
  {
    hide Count;
    var q := PipeOf(s, e.dir);
    CountHead(q.snd, p);
    CountOne(q.snd[0], p);
  }

  lemma EmitKeepsInv(s: State, e: Step, p: Id)
    requires Inv(s, p) && e.Emit? && Enabled(s, e)
    ensures Inv(Apply(s, e), p)
  {
    hide Count;
    var q := PipeOf(s, e.dir);
    CountOne(s.expired[0], p);
    CountHead(s.expired, p);
    CountAppend(q.snd, [s.expired[0]], p);
  }

  lemma ExpireKeepsInv(s: State, e: Step, p: Id)
    requires Inv(s, p) && Enabled(s, e) && (e.Expire? || e.EndExpired?)
    ensures Inv(Apply(s, e), p)
  {
    hide Count, CountIn;
    CountNone(p);
    match e
    case Expire(i) => CountWithout(s.dq, i, p);
    case EndExpired => UnrefAllBalanced(s.(expired := []), s.expired, p, 0);
    case _ =>
  }

  lemma DestroyKeepsInv(s: State, p: Id)
    requires Inv(s, p) && Enabled(s, Destroy)
    ensures var t := Apply(s, Destroy);
      Inv(t, p) && Owners(t, p) == Count(s.c2s.rd, p) + Count(s.s2c.rd, p)
  {
    hide Count;
    CountNone(p);
    var t := s.(dq := [], c2s := Pipe(s.c2s.rd, [], []), s2c := Pipe(s.s2c.rd, [], []), destroyed := true);
    CountAppend(s.dq, s.c2s.snd, p);
    CountAppend(s.dq + s.c2s.snd, s.c2s.rcv, p);
    CountAppend(s.dq + s.c2s.snd + s.c2s.rcv, s.s2c.snd, p);
    CountAppend(s.dq + s.c2s.snd + s.c2s.rcv + s.s2c.snd, s.s2c.rcv, p);
    UnrefAllBalanced(t, s.dq + s.c2s.snd + s.c2s.rcv + s.s2c.snd + s.s2c.rcv, p, 0);
  }

  lemma StepKeepsInv(s: State, e: Step, p: Id)
    requires Inv(s, p) && Enabled(s, e)
    ensures Inv(Apply(s, e), p)
  {
    hide Inv, Owners, Extra;
    match e
    case ReadNew(_) => ReadNewKeepsInv(s, e, p);
    case ReadDone(_) => ReadDoneKeepsInv(s, e, p);
    case PopIn(_) => PopKeepsInv(s, e, p);
    case PullPre(_, _, _) => PullPreKeepsInv(s, e, p);
    case PullPost(_, _, _) => PullPostKeepsInv(s, e, p);
    case Fire => EventKeepsInv(s, e, p);
    case EndEvent => EventKeepsInv(s, e, p);
    case MakePre => MakeKeepsInv(s, e, p);
    case MakePost => MakeKeepsInv(s, e, p);
    case Discard(_) => DiscardKeepsInv(s, e, p);
    case Expire(_) => ExpireKeepsInv(s, e, p);
    case Emit(_) => EmitKeepsInv(s, e, p);
    case EndExpired => ExpireKeepsInv(s, e, p);
    case Destroy => DestroyKeepsInv(s, p);
    case _ => RouteKeepsInv(s, e, p);
  }

  // ---- every run ---------------------------------------------------------------------

  ghost predicate Legal(s: State, es: seq<Step>)
    decreases |es|
  {
    es != [] ==> Enabled(s, es[0]) && Legal(Apply(s, es[0]), es[1..])
  }

  function Run(s: State, es: seq<Step>): State
    requires Legal(s, es)
    decreases |es|
  {
    if es == [] then s else Run(Apply(s, es[0]), es[1..])
  }

  lemma {:induction false} RunKeepsInv(s: State, es: seq<Step>, p: Id)
    requires Inv(s, p) && Legal(s, es)
    ensures Inv(Run(s, es), p)
    decreases |es|
  {
    hide Inv, Apply, Enabled;
    if es != [] {
      StepKeepsInv(s, es[0], p);
      RunKeepsInv(Apply(s, es[0]), es[1..], p);
    }
  }

  lemma StartBalanced(p: Id)
    ensures Inv(START, p)
  {
  }

  // On every run the count of each packet is the number of places that hold it; a packet has been
  // freed exactly when none does; and between callbacks each live packet has a count of one.
  lemma CountsAreOwners(es: seq<Step>, p: Id)
    requires Legal(START, es)
    ensures var s := Run(START, es);
      && s.refs[p] == Owners(s, p)
      && (p in s.freed <==> p < s.next && Owners(s, p) == 0)
      && (Quiet(s) && p in s.refs ==> s.refs[p] == 1)
  {
    hide Owners, Legal, Run;
    StartBalanced(p);
    RunKeepsInv(START, es, p);
    CountNone(p);
  }

  // When a session is destroyed, everything is freed except the packets it was in the middle of
  // reading: ~recvq does not release them.
  lemma DestroyLeavesUnread(es: seq<Step>, p: Id)
    requires Legal(START, es) && Enabled(Run(START, es), Destroy)
    ensures var s := Run(START, es);
      var t := Apply(s, Destroy);
      p < t.next ==> (p !in t.freed <==> p in s.c2s.rd || p in s.s2c.rd)
  {
    hide Owners, Legal, Run, Apply;
    StartBalanced(p);
    RunKeepsInv(START, es, p);
    DestroyKeepsInv(Run(START, es), p);
  }
}
