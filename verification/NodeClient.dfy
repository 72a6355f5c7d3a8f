/** The multiplexed node connection: requests carry ids chosen here, responses
    are paired with waiting callers by id, and notifications share the stream
    without taking part in the pairing. */
module NodeClient {
  import opened Types

  /** What one inbound message carries. */
  datatype Body = BlockAdded(block: Option<nat>) | ChainChanged(change: nat) | Response(content: nat)

  /** How a caller's wait ended. */
  datatype Answer = FromNode(id: nat, body: Option<Body>) | Unreachable

  /** Why `serve` returned. */
  datatype Status = Serving | Reconnect | Shutdown

  /** Callers are numbered in the order their commands are taken. */
  datatype Conn = Conn(
    pending: map<nat, nat>, nextId: nat, taken: nat, answers: map<nat, Answer>, forwarded: seq<Body>, status: Status)

  const FRESH: Conn := Conn(map[], 1, 0, map[], [], Serving)

  /** One turn of the serve loop. `sent` and `room` say whether the outgoing stream and the
      notification channel accepted what they were given. */
  datatype Event = Command(sent: bool) | Inbound(id: nat, body: Option<Body>, room: bool) | StreamEnded | CommandsClosed

  // --- the transition system ---

  /** Every waiting caller is told the connection is lost. */
  function FailAll(c: Conn): Conn {
    c.(answers := c.answers + (map id | id in c.pending :: c.pending[id] := Unreachable), pending := map[])
  }

  predicate IsNotification(body: Option<Body>) {
    body.Some? && !body.value.Response?
  }

  /** Notifications go to the indexer's channel, if it has room; a block notification without
      a block is ignored. */
  function Forward(c: Conn, body: Body, room: bool): Conn {
    if !room || (body.BlockAdded? && body.block.None?) then c else c.(forwarded := c.forwarded + [body])
  }

  function Route(c: Conn, id: nat, body: Option<Body>, room: bool): Conn {
    if IsNotification(body) then Forward(c, body.value, room)
    else if id in c.pending
    then c.(answers := c.answers[c.pending[id] := FromNode(id, body)], pending := c.pending - {id})
    else c
  }

  function Take(c: Conn, sent: bool): Conn {
    var c1 := c.(nextId := c.nextId + 1, taken := c.taken + 1);
    if sent then c1.(pending := c.pending[c.nextId := c.taken])
    else FailAll(c1.(answers := c.answers[c.taken := Unreachable])).(status := Reconnect)
  }

  function Step(c: Conn, e: Event): Conn {
    if c.status != Serving then c
    else
      match e
      case Command(sent) => Take(c, sent)
      case Inbound(id, body, room) => Route(c, id, body, room)
      case StreamEnded => FailAll(c).(status := Reconnect)
      case CommandsClosed => c.(status := Shutdown)
  }

  function Run(es: seq<Event>): Conn {
    if es == [] then FRESH else Step(Run(es[..|es| - 1]), es[|es| - 1])
  }

  // --- correlation ---

  /** Caller `t` waits under its own id `t + 1`, and only there; it is waiting or answered,
      never both; an answer from the node carries the caller's own id. */
  ghost predicate Correlated(c: Conn) {
    && c.nextId == c.taken + 1
    && (forall id :: id in c.pending ==> 0 < id <= c.taken && c.pending[id] == id - 1)
    && (forall t :: t in c.answers ==> t < c.taken)
    && (forall t: nat :: t < c.taken ==> (t in c.answers <==> t + 1 !in c.pending))
    && (forall t :: t in c.answers && c.answers[t].FromNode? ==> c.answers[t].id == t + 1)
    && (c.status == Reconnect ==> c.pending == map[])
  }

  lemma FailAllAnswers(c: Conn, t: nat)
    requires forall id :: id in c.pending ==> 0 < id <= c.taken && c.pending[id] == id - 1
    ensures t in FailAll(c).answers <==> t in c.answers || t + 1 in c.pending
    ensures t + 1 in c.pending ==> FailAll(c).answers[t] == Unreachable
    ensures t in c.answers && t + 1 !in c.pending ==> FailAll(c).answers[t] == c.answers[t]
  {
    if t + 1 in c.pending {
      assert c.pending[t + 1] == t;
    }
  }

  lemma FailAllCorrelates(c: Conn)
    requires Correlated(c)
    ensures Correlated(FailAll(c).(status := Reconnect))
  {
    var c' := FailAll(c).(status := Reconnect);
    assert c'.pending == map[] && c'.nextId == c.nextId && c'.taken == c.taken;
    hide FailAll;
    forall t: nat ensures t in c'.answers <==> t in c.answers || t + 1 in c.pending { FailAllAnswers(c, t); }
    forall t | t in c'.answers && c'.answers[t].FromNode? ensures c'.answers[t].id == t + 1 { FailAllAnswers(c, t); }
  }

  lemma RouteCorrelates(c: Conn, id: nat, body: Option<Body>, room: bool)
    requires Correlated(c)
    ensures Correlated(Route(c, id, body, room))
  {
  }

  lemma TakeCorrelates(c: Conn, sent: bool)
    requires Correlated(c) && c.status == Serving
    ensures Correlated(Take(c, sent))
  {
    hide FailAll;
    if !sent {
      FailAllCorrelates(c.(nextId := c.nextId + 1, taken := c.taken + 1, answers := c.answers[c.taken := Unreachable]));
    }
  }

  lemma StepCorrelates(c: Conn, e: Event)
    requires Correlated(c)
    ensures Correlated(Step(c, e))
  {
    hide FailAll, Route, Take;
    if c.status == Serving {
      match e
      case Command(sent) => TakeCorrelates(c, sent);
      case Inbound(id, body, room) => RouteCorrelates(c, id, body, room);
      case StreamEnded => FailAllCorrelates(c);
      case CommandsClosed =>
    }
  }

  /** Over every run: each command taken is in exactly one of pending and answered. */
  lemma {:induction false} RunCorrelates(es: seq<Event>)
    ensures Correlated(Run(es))
    decreases |es|
  {
    hide Step;
    if es != [] {
      RunCorrelates(es[..|es| - 1]);
      StepCorrelates(Run(es[..|es| - 1]), es[|es| - 1]);
    }
  }

  /** No caller is left hanging when `serve` returns for a reconnect. */
  lemma ReconnectLeavesNobody(es: seq<Event>, t: nat)
    requires Run(es).status == Reconnect && t < Run(es).taken
    ensures Run(es).pending == map[] && t in Run(es).answers
  {
    RunCorrelates(es);
    hide Run;
  }

  /** An answer, once given, never changes: later messages, repeated ids and the final
      failure sweep all leave it alone. */
  lemma AnswersAreFinal(c: Conn, e: Event, t: nat)
    requires Correlated(c) && t in c.answers
    ensures t in Step(c, e).answers && Step(c, e).answers[t] == c.answers[t]
  {
    if c.status == Serving {
      match e
      case Command(sent) =>
        if !sent {
          var c1 := c.(nextId := c.nextId + 1, taken := c.taken + 1, answers := c.answers[c.taken := Unreachable]);
          FailAllAnswers(c1, t);
        }
      case Inbound(id, body, room) =>
      case StreamEnded => FailAllAnswers(c, t);
      case CommandsClosed =>
    }
    hide FailAll;
  }

  lemma {:induction false} AnswersStayFinal(es: seq<Event>, k: nat, t: nat)
    requires k <= |es| && t in Run(es[..k]).answers
    ensures t in Run(es).answers && Run(es).answers[t] == Run(es[..k]).answers[t]
    decreases |es|
  {
    hide Step;
    if k == |es| {
      assert es[..k] == es;
    } else {
      var pre := es[..|es| - 1];
      assert pre[..k] == es[..k];
      AnswersStayFinal(pre, k, t);
      RunCorrelates(pre);
      AnswersAreFinal(Run(pre), es[|es| - 1], t);
    }
  }

  // --- which message answered ---

  /** Until the connection is lost, every answer came from the node. */
  ghost predicate AllFromNode(c: Conn) {
    c.status != Reconnect ==> forall t :: t in c.answers ==> c.answers[t].FromNode?
  }

  lemma StepFromNode(c: Conn, e: Event)
    requires AllFromNode(c)
    ensures AllFromNode(Step(c, e))
  {
    hide FailAll;
  }

  lemma {:induction false} RunFromNode(es: seq<Event>)
    ensures AllFromNode(Run(es))
    decreases |es|
  {
    hide Step;
    if es != [] {
      hide AllFromNode;
      RunFromNode(es[..|es| - 1]);
      StepFromNode(Run(es[..|es| - 1]), es[|es| - 1]);
    }
  }

  /** Message `q` is a response carrying caller `t`'s id, met while serving and after `t`'s
      command was taken. */
  ghost predicate RepliesTo(es: seq<Event>, q: nat, t: nat) {
    && q < |es| && es[q].Inbound? && es[q].id == t + 1 && !IsNotification(es[q].body)
    && Run(es[..q]).status == Serving && t < Run(es[..q]).taken
  }

  ghost predicate FirstReply(es: seq<Event>, q: nat, t: nat) {
    RepliesTo(es, q, t) && forall r: nat :: r < q ==> !RepliesTo(es, r, t)
  }

  /** Caller `t` was answered by the node with `body`. */
  predicate AnsweredWith(c: Conn, t: nat, body: Option<Body>) {
    t in c.answers && c.answers[t] == FromNode(t + 1, body)
  }

  lemma RepliesPrefix(es: seq<Event>, q: nat, t: nat)
    requires es != [] && q < |es| - 1
    ensures RepliesTo(es, q, t) <==> RepliesTo(es[..|es| - 1], q, t)
  {
    hide Run;
    assert es[..|es| - 1][..q] == es[..q];
  }

  lemma FirstPrefix(es: seq<Event>, q: nat, t: nat)
    requires es != [] && q < |es| - 1
    ensures FirstReply(es, q, t) <==> FirstReply(es[..|es| - 1], q, t)
  {
    hide RepliesTo;
    var pre := es[..|es| - 1];
    RepliesPrefix(es, q, t);
    forall r: nat ensures r < q ==> (RepliesTo(es, r, t) <==> RepliesTo(pre, r, t)) {
      if r < q { RepliesPrefix(es, r, t); }
    }
    if FirstReply(es, q, t) {
      forall r: nat | r < q ensures !RepliesTo(pre, r, t) {
        assert !RepliesTo(es, r, t);
      }
    }
    if FirstReply(pre, q, t) {
      forall r: nat | r < q ensures !RepliesTo(es, r, t) {
        assert !RepliesTo(pre, r, t);
      }
    }
  }

  /** A step that is not a response to `t` gives `t` no answer from the node. */
  lemma OtherStep(c: Conn, e: Event, t: nat)
    requires Correlated(c) && t !in c.answers
    requires !(e.Inbound? && e.id == t + 1 && !IsNotification(e.body) && c.status == Serving && t < c.taken)
    ensures t in Step(c, e).answers ==> Step(c, e).answers[t] == Unreachable
  {
    if c.status == Serving {
      match e
      case Command(sent) =>
        if !sent {
          FailAllAnswers(c.(nextId := c.nextId + 1, taken := c.taken + 1,
            answers := c.answers[c.taken := Unreachable]), t);
        }
      case Inbound(id, body, room) =>
      case StreamEnded => FailAllAnswers(c, t);
      case CommandsClosed =>
    }
    hide FailAll;
  }

  /** A response with `t`'s id answers `t`, who is still waiting. */
  lemma ReplyStep(c: Conn, e: Event, t: nat)
    requires Correlated(c) && AllFromNode(c) && (t in c.answers ==> !c.answers[t].FromNode?)
    requires e.Inbound? && e.id == t + 1 && !IsNotification(e.body) && c.status == Serving && t < c.taken
    ensures AnsweredWith(Step(c, e), t, e.body)
  {
    assert t !in c.answers && t + 1 in c.pending;
    hide FailAll;
  }

  lemma {:induction false} LeastReply(es: seq<Event>, q: nat, t: nat) returns (p: nat)
    requires RepliesTo(es, q, t)
    ensures p <= q && FirstReply(es, p, t)
    decreases q
  {
    hide RepliesTo;
    if r: nat :| r < q && RepliesTo(es, r, t) {
      p := LeastReply(es, r, t);
    } else {
      p := q;
    }
  }

  lemma FirstIsUnique(es: seq<Event>, p: nat, q: nat, t: nat)
    requires FirstReply(es, p, t) && FirstReply(es, q, t)
    ensures p == q
  {
    hide RepliesTo;
  }

  /** `t` has an answer from the node exactly if some message replied, and it is the first one's. */
  lemma {:induction false} ReplyAnswers(es: seq<Event>, t: nat)
    ensures forall q: nat :: FirstReply(es, q, t) ==> AnsweredWith(Run(es), t, es[q].body)
    ensures (forall q: nat :: !RepliesTo(es, q, t)) ==> t in Run(es).answers ==> Run(es).answers[t] == Unreachable
    decreases |es|
  {
    if es != [] {
      ReplyAnswersStep(es, t);
    }
  }

  lemma {:induction false} ReplyAnswersStep(es: seq<Event>, t: nat)
    requires es != []
    ensures forall q: nat :: FirstReply(es, q, t) ==> AnsweredWith(Run(es), t, es[q].body)
    ensures (forall q: nat :: !RepliesTo(es, q, t)) ==> t in Run(es).answers ==> Run(es).answers[t] == Unreachable
    decreases |es|, 0
  {
    var k := |es| - 1;
    var pre, e := es[..k], es[k];
    var c := Run(pre);
    assert Run(es) == Step(c, e);
    assert RepliesTo(es, k, t) <==>
      e.Inbound? && e.id == t + 1 && !IsNotification(e.body) && c.status == Serving && t < c.taken;
    hide Run, Step, RepliesTo, Correlated, AllFromNode;
    ReplyAnswers(pre, t);
    RunCorrelates(pre);
    RunFromNode(pre);
    if q: nat :| RepliesTo(pre, q, t) {
      var p := LeastReply(pre, q, t);
      WithinRun(pre, p, t);
      FirstPrefix(es, p, t);
      AnswersAreFinal(c, e, t);
      RepliesPrefix(es, p, t);
      forall q: nat | FirstReply(es, q, t) ensures AnsweredWith(Run(es), t, es[q].body) {
        FirstIsUnique(es, p, q, t);
      }
    } else {
      forall q: nat | q < k ensures !RepliesTo(es, q, t) {
        RepliesPrefix(es, q, t);
      }
      if RepliesTo(es, k, t) {
        ReplyStep(c, e, t);
        forall q: nat | FirstReply(es, q, t) ensures q == k {
          WithinRun(es, q, t);
        }
      } else {
        forall q: nat ensures !RepliesTo(es, q, t) {
          if RepliesTo(es, q, t) { WithinRun(es, q, t); }
        }
        if t in c.answers {
          AnswersAreFinal(c, e, t);
        } else {
          OtherStep(c, e, t);
        }
      }
    }
  }

  lemma WithinRun(es: seq<Event>, q: nat, t: nat)
    ensures RepliesTo(es, q, t) ==> q < |es|
  {
    hide Run;
  }

  /** Over every run: caller `t` is answered with a message's body if and only if that message is
      the first response with `t`'s own id after `t`'s command; everybody else who is answered
      was told the node is unreachable. */
  lemma AnswerIsFirstReply(es: seq<Event>, t: nat, body: Option<Body>)
    ensures AnsweredWith(Run(es), t, body) <==> exists q: nat :: FirstReply(es, q, t) && es[q].body == body
    ensures t in Run(es).answers && (forall q: nat :: !RepliesTo(es, q, t)) ==> Run(es).answers[t] == Unreachable
  {
    hide Run, RepliesTo;
    ReplyAnswers(es, t);
    if AnsweredWith(Run(es), t, body) {
      var q: nat :| RepliesTo(es, q, t);
      var p := LeastReply(es, q, t);
      assert FirstReply(es, p, t);
    }
  }

  // --- notifications ---

  predicate IsNotice(e: Event) {
    e.Inbound? && IsNotification(e.body)
  }

  /** The run without its notifications. */
  function Quiet(es: seq<Event>): seq<Event> {
    if es == [] then []
    else Quiet(es[..|es| - 1]) + if IsNotice(es[|es| - 1]) then [] else [es[|es| - 1]]
  }

  /** Everything but what was forwarded. */
  function Calls(c: Conn): Conn {
    c.(forwarded := [])
  }

  lemma StepCalls(c: Conn, c': Conn, e: Event)
    requires Calls(c) == Calls(c')
    ensures IsNotice(e) ==> Calls(Step(c, e)) == Calls(c')
    ensures Calls(Step(c, e)) == Calls(Step(c', e))
  {
  }

  /** Deleting every notification from a run, whatever ids they carry, changes no answer, no
      waiting caller and not when the connection ended. */
  lemma {:induction false} NotificationsTakeNobody(es: seq<Event>)
    ensures Calls(Run(es)) == Calls(Run(Quiet(es)))
    decreases |es|
  {
    hide Step, Calls;
    if es != [] {
      var pre, e := es[..|es| - 1], es[|es| - 1];
      NotificationsTakeNobody(pre);
      StepCalls(Run(pre), Run(Quiet(pre)), e);
      if IsNotice(e) {
        assert Quiet(es) == Quiet(pre);
      } else {
        assert Quiet(es)[..|Quiet(es)| - 1] == Quiet(pre);
      }
    }
  }

  // --- when serving ends, and what reaches the indexer ---

  /** The events after which `serve` returns. */
  predicate Stops(e: Event) {
    e.StreamEnded? || e.CommandsClosed? || (e.Command? && !e.sent)
  }

  /** The first `n` events leave the connection serving. */
  predicate ServedFor(es: seq<Event>, n: nat)
    requires n <= |es|
  {
    forall r :: 0 <= r < n ==> !Stops(es[r])
  }

  /** What `serve` returns on: a closed command queue is a shutdown, anything else a reconnect. */
  function EndOf(e: Event): Status {
    if e.CommandsClosed? then Shutdown else Reconnect
  }

  /** A notification the indexer's channel has room for; a block notification must carry a block. */
  predicate Deliverable(e: Event) {
    && e.Inbound? && e.room && e.body.Some?
    && (e.body.value.ChainChanged? || (e.body.value.BlockAdded? && e.body.value.block.Some?))
  }

  /** The bodies of the deliverable notifications met while serving, in order. */
  function Delivered(es: seq<Event>): seq<Body> {
    if es == [] then []
    else
      var k := |es| - 1;
      Delivered(es[..k]) + if ServedFor(es, k) && Deliverable(es[k]) then [es[k].body.value] else []
  }

  /** The commands taken while serving, the one that could not be sent included. */
  function Commands(es: seq<Event>): nat {
    if es == [] then 0
    else
      var k := |es| - 1;
      Commands(es[..k]) + if ServedFor(es, k) && es[k].Command? then 1 else 0
  }

  lemma StepEnds(c: Conn, e: Event)
    requires c.status == Serving
    ensures Step(c, e).status == if Stops(e) then EndOf(e) else Serving
    ensures Step(c, e).forwarded == c.forwarded + if Deliverable(e) then [e.body.value] else []
    ensures Step(c, e).taken == c.taken + if e.Command? then 1 else 0
  {
    assert c.forwarded + [] == c.forwarded;
  }

  lemma ServedPrefix(es: seq<Event>, n: nat)
    requires es != [] && n < |es|
    ensures ServedFor(es, n) <==> ServedFor(es[..|es| - 1], n)
  {
    var pre := es[..|es| - 1];
    assert forall r :: 0 <= r < n ==> pre[r] == es[r];
  }

  /** Over every run: the connection serves until the first event that ends it, which decides
      between reconnect and shutdown; until then every command is taken, and exactly the
      deliverable notifications reach the indexer, in order. */
  lemma {:induction false} RunDelivers(es: seq<Event>)
    ensures Run(es).status == Serving <==> ServedFor(es, |es|)
    ensures forall q :: 0 <= q < |es| && ServedFor(es, q) && Stops(es[q]) ==> Run(es).status == EndOf(es[q])
    ensures Run(es).forwarded == Delivered(es) && Run(es).taken == Commands(es)
    decreases |es|
  {
    if es != [] {
      var k := |es| - 1;
      var pre, e := es[..k], es[k];
      RunDelivers(pre);
      ServedPrefix(es, k);
      hide Step;
      if Run(pre).status == Serving {
        StepEnds(Run(pre), e);
      } else {
        Stopped(Run(pre), e);
      }
      forall q | 0 <= q < |es| && ServedFor(es, q) && Stops(es[q]) ensures Run(es).status == EndOf(es[q]) {
        ServedPrefix(es, q);
      }
    }
  }

  // --- the connection object ---

  class Connection {
    var pending: map<nat, nat>
    var nextId: nat
    var taken: nat
    var answers: map<nat, Answer>
    var forwarded: seq<Body>
    var status: Status

    ghost function View(): Conn
      reads this
    {
      Conn(pending, nextId, taken, answers, forwarded, status)
    }

    constructor ()
      ensures View() == FRESH
    {
      pending, nextId, taken, answers, forwarded, status := map[], 1, 0, map[], [], Serving;
    }

    /** `fail_all`: drain the map in whatever order it yields its entries. */
    method DrainPending()
      modifies this
      ensures View() == FailAll(old(View()))
    {
      hide DrainedTo, FailAll;
      ghost var start, was := pending, answers;
      ghost var done: set<nat> := {};
      Undrained(was, start);
      while pending != map[]
        invariant done <= start.Keys && pending == start - done
        invariant answers == was + DrainedTo(start, done)
        invariant nextId == old(nextId) && taken == old(taken) && forwarded == old(forwarded) && status == old(status)
        decreases |pending|
      {
        SomeKey(pending);
        var id :| id in pending;
        DrainOneReply(was, start, done, id);
        DrainOne(start, done, id);
        answers := answers[pending[id] := Unreachable];
        pending := pending - {id};
        done := done + {id};
      }
      DrainedAll(old(View()), done);
    }

    /** A caller's command: number it, send it, remember who waits. */
    method TakeCommand(sent: bool)
      requires Correlated(View()) && status == Serving
      modifies this
      ensures View() == Step(old(View()), Command(sent))
    {
      var id, caller := nextId, taken;
      nextId, taken := nextId + 1, taken + 1;
      if !sent {
        answers := answers[caller := Unreachable];
        DrainPending();
        status := Reconnect;
        return;
      }
      pending := pending[id := caller];
    }

    /** `route`. */
    method RouteMessage(id: nat, body: Option<Body>, room: bool)
      requires status == Serving
      modifies this
      ensures View() == Step(old(View()), Inbound(id, body, room))
    {
      if body.Some? && !body.value.Response? {
        if room && !(body.value.BlockAdded? && body.value.block.None?) {
          forwarded := forwarded + [body.value];
        }
      } else if id in pending {
        answers := answers[pending[id] := FromNode(id, body)];
        pending := pending - {id};
      }
    }

    /** `serve`: loop over what the stream and the command queue deliver. */
    method Serve(es: seq<Event>)
      requires View() == FRESH
      modifies this
      ensures View() == Run(es)
      ensures forwarded == Delivered(es) && taken == Commands(es)
    {
      RunDelivers(es);
      hide Step, Delivered, Commands;
      for i := 0 to |es|
        invariant View() == Run(es[..i])
      {
        assert es[..i + 1][..i] == es[..i];
        RunCorrelates(es[..i]);
        if status == Serving {
          HandleEvent(es[i]);
        } else {
          Stopped(View(), es[i]);
        }
      }
      assert es[..|es|] == es;
    }

    method HandleEvent(e: Event)
      requires Correlated(View()) && status == Serving
      modifies this
      ensures View() == Step(old(View()), e)
    {
      match e
      case Command(sent) => TakeCommand(sent);
      case Inbound(id, body, room) => RouteMessage(id, body, room);
      case StreamEnded => DrainPending(); status := Reconnect;
      case CommandsClosed => status := Shutdown;
    }
  }

  lemma Stopped(c: Conn, e: Event)
    requires c.status != Serving
    ensures Step(c, e) == c
  {
  }

  /** The replies sent once the entries `done` have been drained. */
  ghost function DrainedTo(start: map<nat, nat>, done: set<nat>): map<nat, Answer>
    requires done <= start.Keys
  {
    map id | id in done :: start[id] := Unreachable
  }

  lemma SomeKey(m: map<nat, nat>)
    requires m != map[]
    ensures exists id :: id in m
  {
    assert m.Keys != {};
  }

  lemma Undrained(was: map<nat, Answer>, start: map<nat, nat>)
    ensures was + DrainedTo(start, {}) == was && start - {} == start
  {
  }

  lemma DrainOneReply(was: map<nat, Answer>, start: map<nat, nat>, done: set<nat>, id: nat)
    requires done <= start.Keys && id in start
    ensures was + DrainedTo(start, done + {id}) == (was + DrainedTo(start, done))[start[id] := Unreachable]
  {
    assert DrainedTo(start, done + {id}) == DrainedTo(start, done)[start[id] := Unreachable];
    MergeUpdate(was, DrainedTo(start, done), start[id]);
  }

  lemma MergeUpdate(was: map<nat, Answer>, m: map<nat, Answer>, t: nat)
    ensures was + m[t := Unreachable] == (was + m)[t := Unreachable]
  {
  }

  lemma DrainOne(start: map<nat, nat>, done: set<nat>, id: nat)
    requires id in start - done
    ensures start - done - {id} == start - (done + {id})
    ensures |start - done - {id}| < |start - done|
  {
    assert (start - done).Keys == (start - done - {id}).Keys + {id};
  }

  lemma DrainedAll(c: Conn, done: set<nat>)
    requires done <= c.pending.Keys && c.pending - done == map[]
    ensures FailAll(c) == c.(answers := c.answers + DrainedTo(c.pending, done), pending := map[])
  {
    forall id | id in c.pending ensures id in done {
      assert id in c.pending - done <==> id !in done;
    }
    assert done == c.pending.Keys;
    assert DrainedTo(c.pending, done) == map id | id in c.pending :: c.pending[id] := Unreachable;
  }
}
