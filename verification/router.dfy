/** One request's journey through `handle_msg_1` and `handle_msg_2`: decoding,
    `msg_id` tagging, the command check and sanitizing before it is forwarded;
    relaying and, for `get_status`, augmenting the reply afterwards; and the
    error reply of `send_error`. */
module Router {
  import opened Results
  import opened Json
  import opened Exceptions
  import opened Codec
  import opened Validator
  import opened Sanitizers

  const MODULE_NAME := "frontend"

  /** The collaborators whose code is not part of this model: the JSON
      library, Python's `str()` of floats, lists and dicts, and zmapi's
      `error.gen_error`, which returns a dict. */
  datatype Env = Env(ser: Serializer, repr: Json -> string, genError: (ECode, string) -> map<string, Json>)

  /** `g.num_messages_handled`, `g.num_msg_ids_added`, `g.num_invalid_messages`. */
  datatype Counters = Counters(handled: nat, idsAdded: nat, invalid: nat)

  /** The empty frame between a client's identity and the payload. */
  const DELIMITER: Frame := []

  /** `str(uuid.uuid4())`: 32 hex digits in five dash-separated groups, so
      never empty. */
  type Uuid = s: string | |s| == 36 witness "00000000-0000-0000-0000-000000000000"

  /** A request with its `msg_id` in place; `added` when the frontend made
      the id up. */
  datatype Tagged = Tagged(msg: map<string, Json>, msgId: string, added: bool)

  /** The `msg_id` step of `handle_msg_1`: a missing id is replaced by a fresh
      one, a present one by its string form. Anything but a dict raises
      `TypeError` here (the `in` test or the item assignment). */
  function AssignMsgId(repr: Json -> string, v: Json, freshId: Uuid): (r: Result<Tagged, Exception>)
    ensures r.Success? <==> v.JObject?
    ensures !v.JObject? ==> r == Failure(Unexpected("TypeError"))
    ensures r.Success? ==> r.value.msg == v.fields["msg_id" := JStr(r.value.msgId)]
    ensures r.Success? ==> (r.value.added <==> "msg_id" !in v.fields)
    ensures r.Success? && r.value.added ==> r.value.msgId == freshId && |r.value.msgId| == 36
    ensures r.Success? && !r.value.added ==> r.value.msgId == PyStr(v.fields["msg_id"], repr)
  {
    match v
    case JObject(m) =>
      if "msg_id" !in m then Success(Tagged(m["msg_id" := JStr(freshId)], freshId, true))
      else
        var id := PyStr(m["msg_id"], repr);
        Success(Tagged(m["msg_id" := JStr(id)], id, false))
    case _ => Failure(Unexpected("TypeError"))
  }

  /** The checks of `handle_msg_2` before anything is sent upstream: a truthy
      `command`, then `sanitize_msg`. */
  function CheckRequest(msg: map<string, Json>): (r: Outcome<Exception>)
    ensures ("command" !in msg || !Truthy(msg["command"])) ==> r == Fail(InvalidArguments("command missing"))
    ensures "command" in msg && Truthy(msg["command"]) ==> r == SanitizeMsg(msg)
    ensures r.Fail? ==> r.error.InvalidArguments? || r.error.Unexpected?
  {
    if "command" !in msg || !Truthy(msg["command"]) then Fail(InvalidArguments("command missing"))
    else SanitizeMsg(msg)
  }

  /** `ident + [b"", " " + json.dumps(msg)]`. */
  function RequestFrames(ser: Serializer, ident: seq<Frame>, msg: map<string, Json>): (frames: seq<Frame>)
    // the client's identity, the empty delimiter, then one payload frame
    ensures |frames| == |ident| + 2 && frames[..|ident|] == ident && frames[|ident|] == DELIMITER
    // which the upstream decodes to the tagged message
    ensures Lawful(ser) ==> ParseMessage(ser, frames[|ident| + 1]) == Success(JObject(msg))
  {
    ident + [DELIMITER, Encode(ser, JObject(msg))]
  }

  /** A forwarded request awaiting its reply. */
  datatype Pending = Pending(ident: seq<Frame>, msgId: string, command: Json)

  datatype RequestOutcome =
    | Forwarded(task: Pending, frames: seq<Frame>)                // sent upstream
    | Rejected(ident: seq<Frame>, msgId: string, error: Exception) // answered by `send_error`
    | Crashed(error: Exception)                                    // raised before `msg_id` was bound

  datatype Handled<T> = Handled(outcome: T, counters: Counters)

  /** The request as a dict once decoded, if it decodes to one. */
  function Decoded(ser: Serializer, raw: Frame): Option<map<string, Json>> {
    var p := ParseMessage(ser, raw);
    if p.Success? && p.value.JObject? then Some(p.value.fields) else None
  }

  /** The id the request is handled under: its own, in string form, or the
      fresh one. */
  function ExpectedMsgId(repr: Json -> string, m: map<string, Json>, freshId: string): string {
    if "msg_id" in m then PyStr(m["msg_id"], repr) else freshId
  }

  /** `handle_msg_1` up to the point where the request is forwarded or
      answered. A failure before `msg_id` is assigned cannot be reported: the
      `except` block reads the unbound `msg_id` and raises
      `UnboundLocalError`, which ends the task; nothing is sent and nothing
      counted as invalid. `Crashed` keeps the exception being handled. */
  function HandleRequest(env: Env, ident: seq<Frame>, raw: Frame, freshId: Uuid, c: Counters): (r: Handled<RequestOutcome>)
    ensures r.counters.handled == c.handled + 1
    // crashes exactly when the payload is not a JSON dict
    ensures r.outcome.Crashed? <==> Decoded(env.ser, raw).None?
    ensures r.outcome.Crashed? ==> r.counters == c.(handled := c.handled + 1)
    ensures Decoded(env.ser, raw).None? && |raw| > 0 && raw[0] != JSON_CODEC ==> r.outcome == Crashed(CodecException)
    // one id made up exactly when the request lacked one
    ensures r.counters.idsAdded == c.idsAdded + (if Decoded(env.ser, raw).Some? && "msg_id" !in Decoded(env.ser, raw).value then 1 else 0)
    // one invalid message exactly when an error reply is sent
    ensures r.counters.invalid == c.invalid + (if r.outcome.Rejected? then 1 else 0)
    ensures r.outcome.Rejected? ==>
              && r.outcome.ident == ident
              && r.outcome.msgId == ExpectedMsgId(env.repr, Decoded(env.ser, raw).value, freshId)
              && (r.outcome.error.InvalidArguments? || r.outcome.error.Unexpected?)
    // a forwarded request is the decoded one with its msg_id set, behind the client's identity
    ensures r.outcome.Forwarded? ==>
              var m := Decoded(env.ser, raw).value;
              var id := ExpectedMsgId(env.repr, m, freshId);
              && CheckRequest(m["msg_id" := JStr(id)]) == Pass
              && "command" in m
              && r.outcome.task == Pending(ident, id, m["command"])
              && r.outcome.frames == RequestFrames(env.ser, ident, m["msg_id" := JStr(id)])
    // a request without an id is forwarded or answered under the generated one
    ensures Decoded(env.ser, raw).Some? && "msg_id" !in Decoded(env.ser, raw).value ==>
              && (r.outcome.Rejected? ==> r.outcome.msgId == freshId && |r.outcome.msgId| == 36)
              && (r.outcome.Forwarded? ==> r.outcome.task.msgId == freshId && |r.outcome.task.msgId| == 36)
    ensures Decoded(env.ser, raw).Some? ==>
              (r.outcome.Forwarded? <==> CheckRequest(Decoded(env.ser, raw).value["msg_id" := JStr(ExpectedMsgId(env.repr, Decoded(env.ser, raw).value, freshId))]) == Pass)
  {
    var c1 := c.(handled := c.handled + 1);
    match ParseMessage(env.ser, raw)
    case Failure(e) => Handled(Crashed(e), c1)
    case Success(v) =>
      match AssignMsgId(env.repr, v, freshId)
      case Failure(e) => Handled(Crashed(e), c1)
      case Success(t) =>
        var c2 := if t.added then c1.(idsAdded := c1.idsAdded + 1) else c1;
        match CheckRequest(t.msg)
        case Fail(e) => Handled(Rejected(ident, t.msgId, e), c2.(invalid := c2.invalid + 1))
        case Pass => Handled(Forwarded(Pending(ident, t.msgId, t.msg["command"]), RequestFrames(env.ser, ident, t.msg)), c2)
  }

  const STATUS_FIELDS := {"name", "uptime", "num_messages_handled", "num_msg_ids_added", "num_invalid_messages"}

  /** The three counters a status record reports, when it holds each as a
      non-negative int. */
  function ReportedCounters(j: Json): Option<Counters> {
    if && j.JObject?
       && "num_messages_handled" in j.fields && j.fields["num_messages_handled"].JInt? && j.fields["num_messages_handled"].i >= 0
       && "num_msg_ids_added" in j.fields && j.fields["num_msg_ids_added"].JInt? && j.fields["num_msg_ids_added"].i >= 0
       && "num_invalid_messages" in j.fields && j.fields["num_invalid_messages"].JInt? && j.fields["num_invalid_messages"].i >= 0
    then Some(Counters(j.fields["num_messages_handled"].i, j.fields["num_msg_ids_added"].i, j.fields["num_invalid_messages"].i))
    else None
  }

  /** The record `get_status` replies are given as first content element. */
  function StatusBlock(c: Counters, uptime: Float): (r: Json)
    ensures r.JObject? && r.fields.Keys == STATUS_FIELDS
    ensures r.fields["name"] == JStr(MODULE_NAME) && r.fields["uptime"] == JFloat(uptime)
    // the counters read back from the record are the frontend's
    ensures ReportedCounters(r) == Some(c)
  {
    JObject(map[
      "name" := JStr(MODULE_NAME),
      "uptime" := JFloat(uptime),
      "num_messages_handled" := JInt(c.handled),
      "num_msg_ids_added" := JInt(c.idsAdded),
      "num_invalid_messages" := JInt(c.invalid)])
  }

  function Last<T>(s: seq<T>): T
    requires |s| > 0
  {
    s[|s| - 1]
  }

  /** The reply record with `status` inserted at the front of its content. */
  function WithStatus(reply: map<string, Json>, status: Json): map<string, Json>
    requires "content" in reply && reply["content"].JList?
  {
    reply["content" := JList([status] + reply["content"].items)]
  }

  /** A reply `get_status` can augment: its last frame loads to a dict whose
      `content` is a list. */
  predicate Augmentable(ser: Serializer, parts: seq<Frame>) {
    && |parts| > 0
    && ser.loads(Last(parts)).Success?
    && ser.loads(Last(parts)).value.JObject?
    && "content" in ser.loads(Last(parts)).value.fields
    && ser.loads(Last(parts)).value.fields["content"].JList?
  }

  /** The `get_status` branch of `handle_msg_2`: decode the last reply frame,
      insert `status` at index 0 of its `content`, re-encode it in place. */
  function AugmentStatus(ser: Serializer, parts: seq<Frame>, status: Json): (r: Result<seq<Frame>, Exception>)
    ensures r.Success? <==> Augmentable(ser, parts)
    ensures |parts| == 0 ==> r == Failure(Unexpected("IndexError"))
    ensures r.Failure? ==> r.error.Unexpected?
    // every frame but the last is relayed as it came
    ensures r.Success? ==> |r.value| == |parts| && r.value[..|parts| - 1] == parts[..|parts| - 1]
    ensures r.Success? ==> Last(r.value) == Encode(ser, JObject(WithStatus(ser.loads(Last(parts)).value.fields, status)))
  {
    if |parts| == 0 then Failure(Unexpected("IndexError"))
    else match ser.loads(Last(parts))
      case Failure(name) => Failure(Unexpected(name))
      case Success(reply) =>
        match reply
        case JObject(m) =>
          if "content" !in m then Failure(Unexpected("KeyError"))
          else if !m["content"].JList? then Failure(Unexpected("AttributeError"))
          else Success(parts[..|parts| - 1] + [Encode(ser, JObject(WithStatus(m, status)))])
        case _ => Failure(Unexpected("TypeError"))
  }

  /** What a client receiving an augmented reply decodes: the upstream reply
      with the status block first and the upstream content after it. */
  lemma StatusComesFirst(ser: Serializer, parts: seq<Frame>, status: Json)
    requires Lawful(ser)
    requires Augmentable(ser, parts)
    ensures var out := AugmentStatus(ser, parts, status).value;
            var reply := ser.loads(Last(parts)).value.fields;
            && ParseMessage(ser, Last(out)).Success?
            && ParseMessage(ser, Last(out)).value.JObject?
            && var sent := ParseMessage(ser, Last(out)).value.fields;
               && sent.Keys == reply.Keys
               && (forall k :: k in reply && k != "content" ==> sent[k] == reply[k])
               && sent["content"].JList?
               && |sent["content"].items| == |reply["content"].items| + 1
               && sent["content"].items[0] == status
               && sent["content"].items[1..] == reply["content"].items
  {
    var out := AugmentStatus(ser, parts, status).value;
    var reply := ser.loads(Last(parts)).value.fields;
    ParseEncoded(ser, JObject(WithStatus(reply, status)));
    assert ([status] + reply["content"].items)[1..] == reply["content"].items;
  }

  datatype ReplyOutcome = Relayed(frames: seq<Frame>) | ReplyFailed(error: Exception)

  /** `handle_msg_2` after the upstream reply `parts` has arrived: relayed
      verbatim, except that a `get_status` reply gets the status block built
      from the counters as they are now. */
  function HandleReply(env: Env, p: Pending, parts: seq<Frame>, uptime: Float, c: Counters): (r: Handled<ReplyOutcome>)
    ensures p.command != JStr("get_status") ==> r == Handled(Relayed(parts), c)
    ensures p.command == JStr("get_status") && Augmentable(env.ser, parts) ==>
              r == Handled(Relayed(AugmentStatus(env.ser, parts, StatusBlock(c, uptime)).value), c)
    ensures p.command == JStr("get_status") && !Augmentable(env.ser, parts) ==>
              r.outcome.ReplyFailed? && r.outcome.error.Unexpected? && r.counters == c.(invalid := c.invalid + 1)
  {
    if p.command != JStr("get_status") then Handled(Relayed(parts), c)
    else match AugmentStatus(env.ser, parts, StatusBlock(c, uptime))
      case Success(out) => Handled(Relayed(out), c)
      case Failure(e) => Handled(ReplyFailed(e), c.(invalid := c.invalid + 1))
  }

  /** The error record `send_error` builds: `gen_error`'s dict with the
      request's `msg_id` added. */
  function ErrorRecord(env: Env, msgId: string, e: Exception): map<string, Json> {
    env.genError(ECodeOf(e), What(e))["msg_id" := JStr(msgId)]
  }

  /** The frames `send_error` sends: the client's identity, the delimiter and
      the encoded error record. */
  function ErrorFrames(env: Env, ident: seq<Frame>, msgId: string, e: Exception): (frames: seq<Frame>)
    ensures |frames| == |ident| + 2 && frames[..|ident|] == ident && frames[|ident|] == DELIMITER
    ensures Last(frames) == Encode(env.ser, JObject(ErrorRecord(env, msgId, e)))
  {
    ident + [DELIMITER, Encode(env.ser, JObject(ErrorRecord(env, msgId, e)))]
  }

  /** The client decodes the error reply to a record tagged with its own
      `msg_id` and the code `EXCEPTION_TO_ECODE` gives the exception. */
  lemma ErrorReplyDecodes(env: Env, ident: seq<Frame>, msgId: string, e: Exception)
    requires Lawful(env.ser)
    ensures var sent := ParseMessage(env.ser, Last(ErrorFrames(env, ident, msgId, e)));
            && sent.Success? && sent.value.JObject?
            && "msg_id" in sent.value.fields && sent.value.fields["msg_id"] == JStr(msgId)
            && sent.value.fields == env.genError(ECodeOf(e), What(e))["msg_id" := JStr(msgId)]
  {
    ParseEncoded(env.ser, JObject(ErrorRecord(env, msgId, e)));
  }

  /** A dict request without an id that fails its checks is answered under
      the generated id, counting one id added and one invalid message. */
  lemma UntaggedRejected(env: Env, ident: seq<Frame>, raw: Frame, freshId: Uuid, c: Counters, m: map<string, Json>, err: Exception)
    requires Decoded(env.ser, raw) == Some(m) && "msg_id" !in m
    requires CheckRequest(m["msg_id" := JStr(freshId)]) == Fail(err)
    ensures HandleRequest(env, ident, raw, freshId, c) ==
            Handled(Rejected(ident, freshId, err), Counters(c.handled + 1, c.idsAdded + 1, c.invalid + 1))
  {
  }

  /** A subscription above the maximum speed is answered with an error under
      the request's fresh id and is not forwarded. */
  lemma SpeedAboveMaximumAnswered(env: Env, ident: seq<Frame>, freshId: Uuid, c: Counters)
    requires Lawful(env.ser)
    ensures var req := map["command" := JStr("modify_subscription"),
                           "content" := JObject(map["order_book_speed" := JInt(15)])];
            HandleRequest(env, ident, Encode(env.ser, JObject(req)), freshId, c) ==
            Handled(Rejected(ident, freshId, InvalidArguments(TooLarge("order_book_speed", 10))),
                    Counters(c.handled + 1, c.idsAdded + 1, c.invalid + 1))
  {
    var req := map["command" := JStr("modify_subscription"),
                   "content" := JObject(map["order_book_speed" := JInt(15)])];
    var raw := Encode(env.ser, JObject(req));
    ParseEncoded(env.ser, JObject(req));
    assert Decoded(env.ser, raw) == Some(req);
    var tagged := req["msg_id" := JStr(freshId)];
    SpeedAboveMaximumRejected();
    SanitizeMsgIgnoresOtherFields(req, "msg_id", JStr(freshId));
    assert tagged["command"] == JStr("modify_subscription");
    assert CheckRequest(tagged) == SanitizeMsg(tagged);
    UntaggedRejected(env, ident, raw, freshId, c, req, InvalidArguments(TooLarge("order_book_speed", 10)));
  }

  /** A payload whose first byte is not the JSON codec byte ends the task
      with the codec error and no reply. */
  lemma ForeignCodecCrashes(env: Env, ident: seq<Frame>, rest: Frame, freshId: Uuid, c: Counters)
    ensures HandleRequest(env, ident, [1] + rest, freshId, c) == Handled(Crashed(CodecException), c.(handled := c.handled + 1))
  {
  }

  /** A client may send `"msg_id": ""`, and the request goes upstream with
      that empty id. */
  lemma EmptyMsgIdForwarded(env: Env, ident: seq<Frame>, freshId: Uuid, c: Counters)
    requires Lawful(env.ser)
    ensures var req := map["command" := JStr("get_status"), "msg_id" := JStr("")];
            var r := HandleRequest(env, ident, Encode(env.ser, JObject(req)), freshId, c);
            && r.outcome.Forwarded?
            && r.outcome.task.msgId == ""
            && r.outcome.frames == RequestFrames(env.ser, ident, req)
  {
    var req := map["command" := JStr("get_status"), "msg_id" := JStr("")];
    ParseEncoded(env.ser, JObject(req));
    assert req["msg_id" := JStr("")] == req;
    UnknownCommandAccepted(JNull);
    assert req == map["command" := JStr("get_status")]["msg_id" := JStr("")];
  }
}
