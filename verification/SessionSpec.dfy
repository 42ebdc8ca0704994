// One proxied connection as a step machine on values: two pipes, the queue of delayed packets and
// the callbacks of main.cpp. Filters are an arbitrary function.

module SessionSpec {
  import opened Packets
  import opened Framing
  import S = SendSpec
  import R = RecvQueue

  // What the filter chain makes of a packet: the packet with its flags and bytes as the filters
  // left them, and the packets injected before and after it.
  datatype Outcome = Outcome(pkt: Packet, pre: seq<Packet>, post: seq<Packet>)

  // The n-th packet of a direction goes through the chain. Since each n occurs once in a run, this
  // covers filters that keep state or act at random.
  type Filter = (Side, nat, Packet) -> Outcome

  // proxy_pipe. `input` are all bytes read, `passed` counts the packets filtered, and `clean` says
  // that each pull into the send queue so far found the window covering the queue.
  datatype Pipe = Pipe(eof: bool, broken: bool, reading: bool, writing: bool, finSent: bool,
                       rcvq: seq<Packet>, partial: seq<byte>, snd: S.Send,
                       input: seq<byte>, passed: nat, clean: bool)

  datatype Delayed = Delayed(pkt: Packet, active: bool)

  // `made` are the packets that came out of the filters, `freed` those of them that were dropped.
  datatype Session = Session(c2s: Pipe, s2c: Pipe, dq: seq<Delayed>, hasNew: bool, closed: bool,
                             made: multiset<Packet>, freed: multiset<Packet>)

  const FRESH_PIPE := Pipe(false, false, true, false, false, [], [], S.EMPTY, [], 0, true)
  const FRESH := Session(FRESH_PIPE, FRESH_PIPE, [], false, false, multiset{}, multiset{})

  // rf_session picks the pipe of a direction; every direction but SRV_TO_CLI means c2s.
  function PipeOf(s: Session, dir: Dir): Pipe {
    if dir == SRV_TO_CLI then s.s2c else s.c2s
  }

  function WithPipe(s: Session, dir: Dir, p: Pipe): Session {
    if dir == SRV_TO_CLI then s.(s2c := p) else s.(c2s := p)
  }

  // proxy_pipe::handle_read_event
  function HandleRead(p: Pipe, dir: Side, answers: seq<R.ReadResult>): Pipe {
    var bytes := R.ReadBytes(answers);
    var q := p.(rcvq := p.rcvq + Frames(p.partial + bytes, dir), partial := Rest(p.partial + bytes),
                input := p.input + bytes);
    if R.MoreLater(answers) then q else q.(eof := true, reading := false)
  }

  // proxy_pipe::handle_write_event
  function HandleWrite(p: Pipe, w: seq<S.WriteResult>): Pipe {
    var r := S.SendAll(p.snd, w);
    var q := p.(snd := r.s, broken := p.broken || r.result == -1, writing := r.result > 0);
    if r.result <= 0 && p.eof && p.rcvq == [] then q.(finSent := true) else q
  }

  // proxy_pipe::inject: the pipe after it, and what is left of the list.
  function InjectInto(p: Pipe, src: seq<Packet>, dir: Dir): (Pipe, Pulled<Packet>) {
    var v := S.PulledBy(p.snd, src, dir);
    (p.(snd := S.Inject(p.snd, src, dir), clean := p.clean && S.Covered(p.snd, src, dir)), v)
  }

  function Waiting(src: seq<Packet>): (r: seq<Delayed>)
    ensures |r| == |src| && forall i :: 0 <= i < |src| ==> r[i] == Delayed(src[i], false)
  {
    seq(|src|, i requires 0 <= i < |src| => Delayed(src[i], false))
  }

  // delayed_queue::pull
  function Delay(s: Session, src: seq<Packet>): Session {
    s.(dq := s.dq + Waiting(src), hasNew := s.hasNew || src != [])
  }

  // An injected list goes to the server-to-client pipe, then to the other, then to the delayed
  // queue.
  function Route(s: Session, src: seq<Packet>): Session {
    var (p, a) := InjectInto(s.s2c, src, SRV_TO_CLI);
    var (q, b) := InjectInto(s.c2s, a.kept, CLI_TO_SRV);
    Delay(s.(s2c := p, c2s := q, freed := s.freed + multiset(a.freed) + multiset(b.freed)), b.kept)
  }

  // The packet itself: on to the send queue of its pipe, or dropped.
  function Forward(s: Session, dir: Side, pkt: Packet): Session {
    if pkt.drop then
      s.(freed := s.freed + multiset{pkt})
    else
      var p := PipeOf(s, dir);
      WithPipe(s, dir, p.(snd := S.Enqueue(p.snd, pkt)))
  }

  // The next packet is taken from the receive queue, and the chain makes `out` of it.
  function Processed(s: Session, dir: Side, out: Outcome): Session
    requires PipeOf(s, dir).rcvq != []
  {
    var p := PipeOf(s, dir);
    WithPipe(s, dir, p.(rcvq := p.rcvq[1..], passed := p.passed + 1)).(
      made := s.made + multiset{out.pkt} + multiset(out.pre) + multiset(out.post))
  }

  // One round of rf_session::filter.
  function FilterOne(s: Session, dir: Side, f: Filter): Session
    requires PipeOf(s, dir).rcvq != []
  {
    var p := PipeOf(s, dir);
    var out := f(dir, p.passed, p.rcvq[0]);
    Route(Forward(Route(Processed(s, dir, out), out.pre), dir, out.pkt), out.post)
  }

  lemma RouteKeepsReads(s: Session, src: seq<Packet>, dir: Dir)
    ensures PipeOf(Route(s, src), dir).rcvq == PipeOf(s, dir).rcvq
  {
  }

  lemma FilterOneShrinks(s: Session, dir: Side, f: Filter)
    requires PipeOf(s, dir).rcvq != []
    ensures PipeOf(FilterOne(s, dir, f), dir).rcvq == PipeOf(s, dir).rcvq[1..]
  {
    hide Route;
    var p := PipeOf(s, dir);
    var out := f(dir, p.passed, p.rcvq[0]);
    var s2 := Processed(s, dir, out);
    RouteKeepsReads(s2, out.pre, dir);
    RouteKeepsReads(Forward(Route(s2, out.pre), dir, out.pkt), out.post, dir);
  }

  function FilterAll(s: Session, dir: Side, f: Filter): Session
    decreases |PipeOf(s, dir).rcvq|
  {
    if PipeOf(s, dir).rcvq == [] then s
    else
      FilterOneShrinks(s, dir, f);
      FilterAll(FilterOne(s, dir, f), dir, f)
  }

  function Started(dq: seq<Delayed>): (r: seq<Delayed>)
    ensures |r| == |dq| && forall i :: 0 <= i < |dq| ==> r[i] == Delayed(dq[i].pkt, true)
  {
    seq(|dq|, i requires 0 <= i < |dq| => Delayed(dq[i].pkt, true))
  }

  // delayed_queue::start
  function StartTimers(s: Session): Session {
    if s.hasNew then s.(dq := Started(s.dq), hasNew := false) else s
  }

  // proxy_pipe::done and rf_session::done
  predicate PipeDone(p: Pipe) {
    p.broken || (p.eof && p.rcvq == [] && p.snd.pq == [])
  }

  predicate Done(s: Session) {
    PipeDone(s.c2s) && PipeDone(s.s2c)
  }

  function OnReadable(s: Session, dir: Side, f: Filter, answers: seq<R.ReadResult>,
                      w: seq<S.WriteResult>, v: seq<S.WriteResult>): Session {
    var other: Side := 1 - dir;
    var s1 := WithPipe(s, dir, HandleRead(PipeOf(s, dir), dir, answers));
    var s2 := StartTimers(FilterAll(s1, dir, f));
    var s3 := WithPipe(s2, dir, HandleWrite(PipeOf(s2, dir), w));
    WithPipe(s3, other, HandleWrite(PipeOf(s3, other), v))
  }

  // An event of the loop: a descriptor of the pipe `dir` is ready, with what the kernel answers to
  // the reads and to each of the up to three sends; or the timer of the i-th delayed packet expires.
  datatype Event =
    | Io(dir: Side, readable: bool, writable: bool, answers: seq<R.ReadResult>,
         w: seq<S.WriteResult>, v: seq<S.WriteResult>, u: seq<S.WriteResult>)
    | Timer(i: nat, w: seq<S.WriteResult>)

  // cli_io_cb for the client-to-server pipe, srv_io_cb for the other.
  function IoCallback(s: Session, e: Event, f: Filter): Session
    requires e.Io?
  {
    var s1 := if e.readable then OnReadable(s, e.dir, f, e.answers, e.w, e.v) else s;
    var s2 := if e.writable then WithPipe(s1, e.dir, HandleWrite(PipeOf(s1, e.dir), e.u)) else s1;
    s2.(closed := Done(s2))
  }

  // timeout_cb and rf_delayed_queue::emit
  function TimerCallback(s: Session, i: nat, w: seq<S.WriteResult>): Session
    requires i < |s.dq|
  {
    var pkt := s.dq[i].pkt;
    var p := PipeOf(s, pkt.dir);
    WithPipe(s.(dq := s.dq[..i] + s.dq[i + 1..]), pkt.dir,
             HandleWrite(p.(snd := S.Enqueue(p.snd, pkt)), w))
  }

  // A closed session is deleted; a timer that is not running does not expire.
  function Step(s: Session, e: Event, f: Filter): Session {
    if s.closed then s
    else if e.Io? then IoCallback(s, e, f)
    else if e.i < |s.dq| && s.dq[e.i].active then TimerCallback(s, e.i, e.w)
    else s
  }

  function Run(s: Session, es: seq<Event>, f: Filter): Session
    decreases |es|
  {
    if es == [] then s else Run(Step(s, es[0], f), es[1..], f)
  }

  // What recv asks of the bytes it gets: every packet header carries at least its own length.
  predicate ReadsWell(s: Session, e: Event) {
    !s.closed && e.Io? && e.readable ==> WellFormed(PipeOf(s, e.dir).input + R.ReadBytes(e.answers))
  }

  predicate RunsWell(s: Session, es: seq<Event>, f: Filter)
    decreases |es|
  {
    es != [] ==> ReadsWell(s, es[0]) && RunsWell(Step(s, es[0], f), es[1..], f)
  }
}
