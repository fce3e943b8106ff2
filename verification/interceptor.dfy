/** `run_ctl_interceptor` and the tasks it spawns, as a state machine over
    socket events. Each inbound message is handled up to the point where its
    task would wait for the upstream reply; the reply is a later event. */
module Interceptor {
  import opened Results
  import opened Json
  import opened Exceptions
  import opened Codec
  import opened Router

  /** What `split_message` made of a multipart message: `ValueError`, or the
      identity frames and the payload. */
  datatype Split = Unsplittable | Split(ident: seq<Frame>, payload: Frame)

  /** A multipart send: upstream on the dealer socket, to a client on the
      CTL socket, or an error reply by `send_error` carrying `code`. */
  datatype Send = Upstream(frames: seq<Frame>) | Client(frames: seq<Frame>) | ClientError(code: ECode, frames: seq<Frame>)

  /** The counters and the requests forwarded but not yet answered, keyed by
      task number. */
  datatype State = State(counters: Counters, pending: map<nat, Pending>, nextTask: nat)

  /** A message received on the CTL socket, with what its handling draws on
      (the `split_message` result, the `uuid4` string, the pong the upstream
      answers a ping with); or the upstream reply to pending task `task`. */
  datatype Event =
    | Inbound(parts: seq<Frame>, split: Split, freshId: Uuid, pong: seq<Frame>)
    | Reply(task: nat, parts: seq<Frame>, uptime: Float)

  datatype Stepped = Stepped(state: State, sent: seq<Send>)

  /** Every pending task was numbered before `nextTask`. */
  predicate Valid(s: State) {
    forall t :: t in s.pending ==> t < s.nextTask
  }

  /** An inbound message that is a request rather than a ping. */
  predicate IsRequest(e: Event) {
    e.Inbound? && e.split.Split? && |e.split.payload| > 0
  }

  predicate IsUnsplittable(e: Event) {
    e.Inbound? && e.split.Unsplittable?
  }

  /** The error reply `send_error` sends for `e` to the client that sent the
      request. */
  function ErrorSend(env: Env, ident: seq<Frame>, msgId: string, e: Exception): Send {
    ClientError(ECodeOf(e), ErrorFrames(env, ident, msgId, e))
  }

  /** A request received from `ident`: handled, then answered, dropped or
      forwarded under the next task number. */
  function StepRequest(env: Env, s: State, ident: seq<Frame>, payload: Frame, freshId: Uuid): (r: Stepped)
    requires Valid(s)
    ensures Valid(r.state)
    ensures var h := HandleRequest(env, ident, payload, freshId, s.counters);
            && r.state.counters == h.counters
            && (h.outcome.Crashed? ==> r.sent == [] && r.state.pending == s.pending && r.state.nextTask == s.nextTask)
            && (h.outcome.Rejected? ==>
                  && r.sent == [ErrorSend(env, ident, h.outcome.msgId, h.outcome.error)]
                  && r.state.pending == s.pending && r.state.nextTask == s.nextTask)
            && (h.outcome.Forwarded? ==>
                  && r.sent == [Upstream(h.outcome.frames)]
                  && s.nextTask !in s.pending
                  && r.state.pending == s.pending[s.nextTask := h.outcome.task]
                  && r.state.nextTask == s.nextTask + 1)
    ensures && r.state.counters.handled == s.counters.handled + 1
            && |r.sent| <= 1
            && r.state.counters.invalid == s.counters.invalid + (if |r.sent| == 1 && r.sent[0].ClientError? then 1 else 0)
            && r.state.counters.idsAdded <= s.counters.idsAdded + 1
    ensures forall i :: 0 <= i < |r.sent| && r.sent[i].ClientError? ==> r.sent[i].code in {ARGS, GENERIC}
  {
    var h := HandleRequest(env, ident, payload, freshId, s.counters);
    match h.outcome
    case Crashed(_) => Stepped(s.(counters := h.counters), [])
    case Rejected(id, msgId, err) => Stepped(s.(counters := h.counters), [ErrorSend(env, id, msgId, err)])
    case Forwarded(task, frames) => Stepped(State(h.counters, s.pending[s.nextTask := task], s.nextTask + 1), [Upstream(frames)])
  }

  /** The upstream reply to pending task `task`: relayed or answered with an
      error, and the task is no longer pending. */
  function StepReply(env: Env, s: State, task: nat, parts: seq<Frame>, uptime: Float): (r: Stepped)
    requires Valid(s) && task in s.pending
    ensures Valid(r.state)
    ensures r.state.pending == s.pending - {task} && r.state.nextTask == s.nextTask
    ensures var p := s.pending[task];
            var h := HandleReply(env, p, parts, uptime, s.counters);
            && r.state.counters == h.counters
            && (h.outcome.Relayed? ==> r.sent == [Client(h.outcome.frames)])
            && (h.outcome.ReplyFailed? ==> r.sent == [ErrorSend(env, p.ident, p.msgId, h.outcome.error)])
    ensures && |r.sent| == 1 && !r.sent[0].Upstream?
            && r.state.counters.handled == s.counters.handled
            && r.state.counters.idsAdded == s.counters.idsAdded
            && r.state.counters.invalid == s.counters.invalid + (if r.sent[0].ClientError? then 1 else 0)
    ensures forall i :: 0 <= i < |r.sent| && r.sent[i].ClientError? ==> r.sent[i].code in {ARGS, GENERIC}
  {
    var p := s.pending[task];
    var h := HandleReply(env, p, parts, uptime, s.counters);
    var s1 := State(h.counters, s.pending - {task}, s.nextTask);
    match h.outcome
    case Relayed(frames) => Stepped(s1, [Client(frames)])
    case ReplyFailed(err) => Stepped(s1, [ErrorSend(env, p.ident, p.msgId, err)])
  }

  /** One event. */
  function Step(env: Env, s: State, e: Event): (r: Stepped)
    requires Valid(s)
    ensures Valid(r.state)
    // an unsplittable message is counted as invalid and dropped
    ensures IsUnsplittable(e) ==> r == Stepped(s.(counters := s.counters.(invalid := s.counters.invalid + 1)), [])
    // a ping goes upstream verbatim and the pong back, counting nothing
    ensures e.Inbound? && e.split.Split? && |e.split.payload| == 0 ==>
              r == Stepped(s, [Upstream(e.parts), Client(e.pong)])
    // a request is counted as handled and causes at most one send
    ensures IsRequest(e) ==>
              && r.state.counters.handled == s.counters.handled + 1
              && |r.sent| <= 1
              && r.state.counters.invalid == s.counters.invalid + (if |r.sent| == 1 && r.sent[0].ClientError? then 1 else 0)
              && r.state.counters.idsAdded <= s.counters.idsAdded + 1
    // a forwarded request becomes pending under a new task number
    ensures IsRequest(e) && |r.sent| == 1 && r.sent[0].Upstream? ==>
              && s.nextTask !in s.pending && s.nextTask in r.state.pending
              && r.state.pending == s.pending[s.nextTask := r.state.pending[s.nextTask]]
              && r.state.nextTask == s.nextTask + 1
    ensures IsRequest(e) && !(|r.sent| == 1 && r.sent[0].Upstream?) ==>
              r.state.pending == s.pending && r.state.nextTask == s.nextTask
    // a request sends what its handling decided: nothing after a crash, the
    // error reply to the sender under its msg_id, or the tagged request upstream
    ensures IsRequest(e) ==>
              var h := HandleRequest(env, e.split.ident, e.split.payload, e.freshId, s.counters);
              && r.state.counters == h.counters
              && (h.outcome.Crashed? ==> r.sent == [])
              && (h.outcome.Rejected? ==> r.sent == [ErrorSend(env, e.split.ident, h.outcome.msgId, h.outcome.error)])
              && (h.outcome.Forwarded? ==> r.sent == [Upstream(h.outcome.frames)] && r.state.pending[s.nextTask] == h.outcome.task)
    // a reply nobody waits for changes nothing
    ensures e.Reply? && e.task !in s.pending ==> r == Stepped(s, [])
    // a reply answers its task once, with exactly one send to the client
    ensures e.Reply? && e.task in s.pending ==>
              && r.state.pending == s.pending - {e.task}
              && r.state.nextTask == s.nextTask
              && |r.sent| == 1 && !r.sent[0].Upstream?
              && r.state.counters.handled == s.counters.handled
              && r.state.counters.idsAdded == s.counters.idsAdded
              && r.state.counters.invalid == s.counters.invalid + (if r.sent[0].ClientError? then 1 else 0)
    // a reply is relayed as the upstream framed it (its identity frames
    // included), or answered by an error reply to the request's sender under
    // its msg_id
    ensures e.Reply? && e.task in s.pending ==>
              var p := s.pending[e.task];
              var h := HandleReply(env, p, e.parts, e.uptime, s.counters);
              && r.state.counters == h.counters
              && (h.outcome.Relayed? ==> r.sent == [Client(h.outcome.frames)])
              && (h.outcome.ReplyFailed? ==> r.sent == [ErrorSend(env, p.ident, p.msgId, h.outcome.error)])
    // no error reply ever carries the decoding or codec code
    ensures forall i :: 0 <= i < |r.sent| && r.sent[i].ClientError? ==> r.sent[i].code in {ARGS, GENERIC}
  {
    match e
    case Inbound(parts, split, freshId, pong) =>
      (match split
      case Unsplittable => Stepped(s.(counters := s.counters.(invalid := s.counters.invalid + 1)), [])
      case Split(ident, payload) =>
        if |payload| == 0 then Stepped(s, [Upstream(parts), Client(pong)])
        else StepRequest(env, s, ident, payload, freshId))
    case Reply(task, parts, uptime) =>
      if task !in s.pending then Stepped(s, [])
      else StepReply(env, s, task, parts, uptime)
  }

  /** The state after `events` from `s`, and everything sent on the way. */
  function Run(env: Env, s: State, events: seq<Event>): (r: Stepped)
    requires Valid(s)
    ensures Valid(r.state)
    decreases |events|
  {
    if events == [] then Stepped(s, [])
    else
      var prev := Run(env, s, events[..|events| - 1]);
      var last := Step(env, prev.state, events[|events| - 1]);
      Stepped(last.state, prev.sent + last.sent)
  }

  function RequestsIn(events: seq<Event>): nat {
    if events == [] then 0 else RequestsIn(events[..|events| - 1]) + (if IsRequest(events[|events| - 1]) then 1 else 0)
  }

  function UnsplittableIn(events: seq<Event>): nat {
    if events == [] then 0 else UnsplittableIn(events[..|events| - 1]) + (if IsUnsplittable(events[|events| - 1]) then 1 else 0)
  }

  function ErrorsIn(sent: seq<Send>): nat {
    if sent == [] then 0 else ErrorsIn(sent[..|sent| - 1]) + (if sent[|sent| - 1].ClientError? then 1 else 0)
  }

  lemma {:induction false} ErrorsInAppend(a: seq<Send>, b: seq<Send>)
    ensures ErrorsIn(a + b) == ErrorsIn(a) + ErrorsIn(b)
    decreases |b|
  {
    if b == [] {
      assert a + b == a;
    } else {
      assert (a + b)[..|a + b| - 1] == a + b[..|b| - 1];
      ErrorsInAppend(a, b[..|b| - 1]);
    }
  }

  /** One step's share of the counters: a handled request per request, an
      invalid message per unsplittable message or error reply, at most one
      id per request. */
  lemma StepCounters(env: Env, s: State, e: Event)
    requires Valid(s)
    ensures var r := Step(env, s, e);
            && r.state.counters.handled == s.counters.handled + (if IsRequest(e) then 1 else 0)
            && r.state.counters.invalid == s.counters.invalid + (if IsUnsplittable(e) then 1 else 0) + ErrorsIn(r.sent)
            && r.state.counters.idsAdded - s.counters.idsAdded <= r.state.counters.handled - s.counters.handled
  {
    var r := Step(env, s, e);
    if |r.sent| == 1 {
      assert r.sent[..0] == [];
      assert ErrorsIn(r.sent) == ErrorsIn([]) + (if r.sent[0].ClientError? then 1 else 0);
    } else if |r.sent| == 2 {
      assert r.sent[..1][..0] == [];
      assert ErrorsIn(r.sent[..1]) == ErrorsIn([]) + (if r.sent[0].ClientError? then 1 else 0);
      assert ErrorsIn(r.sent) == ErrorsIn(r.sent[..1]) + 0;
    }
  }

  /** Over any run: every request is counted as handled; every invalid
      message is an unsplittable one or an error reply sent; no more ids are
      made up than requests handled; and no error reply carries the decoding
      or codec code. */
  lemma {:induction false} RunCounters(env: Env, s: State, events: seq<Event>)
    requires Valid(s)
    ensures var r := Run(env, s, events);
            && r.state.counters.handled == s.counters.handled + RequestsIn(events)
            && r.state.counters.invalid == s.counters.invalid + UnsplittableIn(events) + ErrorsIn(r.sent)
            && r.state.counters.idsAdded - s.counters.idsAdded <= r.state.counters.handled - s.counters.handled
            && forall i :: 0 <= i < |r.sent| && r.sent[i].ClientError? ==> r.sent[i].code in {ARGS, GENERIC}
    decreases |events|
  {
    if events != [] {
      var prev := Run(env, s, events[..|events| - 1]);
      RunCounters(env, s, events[..|events| - 1]);
      var last := Step(env, prev.state, events[|events| - 1]);
      StepCounters(env, prev.state, events[|events| - 1]);
      ErrorsInAppend(prev.sent, last.sent);
      var all := prev.sent + last.sent;
      forall i | 0 <= i < |all| && all[i].ClientError?
        ensures all[i].code in {ARGS, GENERIC}
      {
        if i >= |prev.sent| {
          assert all[i] == last.sent[i - |prev.sent|];
        }
      }
    }
  }
}
