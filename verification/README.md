# ctl-frontend: a Dafny model of the CTL input sanitizer

The CTL frontend is a ZeroMQ proxy that sits between clients and an
upstream zmapi control socket. Each client request is a multipart message:
identity frames, an empty delimiter, and a payload frame. The payload is one
codec byte (32, a space, for JSON) followed by the JSON text.

For each request the frontend does the following:
- decodes the payload;
- makes sure it carries a string `msg_id`, making one up when it is absent;
- checks that it has a `command`;
- validates its `content` against a per-command schema;
- forwards it upstream, or answers the client with an error record.

When the upstream answers a `get_status` request, the frontend inserts its
own status block at the front of the reply's `content`. Messages with an
empty payload are pings and pass through unchanged. Three counters record
handled requests, generated ids and invalid messages.

The model is made of pure functions over immutable data:

- `results.dfy`: `Option`, `Result` and `Outcome`.
- `json.dfy`: decoded JSON values and the Python semantics that the checks rely on:
  - `d.get` returning `None` for an absent or null field;
  - `bool` being an `int`;
  - mixed int/float comparison;
  - truthiness;
  - `str()` of a value.
- `exceptions.dfy`: the exceptions and `EXCEPTION_TO_ECODE`.
- `codec.dfy`: the payload framing and `parse_message`, over an abstract JSON serializer.
- `reference_codec.dfy`: one concrete serializer that satisfies the round-trip law the framing lemmas assume. It shows that law is consistent; the frontend never uses this encoding.
- `validator.dfy`: `check_spec` and `check_content`.
- `sanitizers.dfy`: the `sanitize_*` tables, `populate_sanitizers`, and `sanitize_msg`.
- `router.dfy`: the request half of `handle_msg_1`/`handle_msg_2`, the reply half with the `get_status` augmentation, and `send_error`.
- `interceptor.dfy`: `run_ctl_interceptor` and its tasks, as a state machine. The counters are threaded through it as an explicit record.

## Model

| member | source | states |
|---|---|---|
| Exceptions.ECodeOf | app.py:23-27 | decoding, codec and invalid-argument exceptions map to DECODE, CODEC and ARGS; any other exception, and only those, maps to GENERIC |
| Exceptions.What | app.py:199-201 | an invalid-arguments error is described by its message, an unexpected one by its type name |
| Json.FieldValue | app.py:62 | `d.get(name, None)` is None exactly when the field is absent or JSON null; otherwise it is the stored value |
| Json.AsNumber | app.py:72-78 | a bool compares as 0 or 1, an int as itself, and a finite float as the exact value of its double; strings, lists, dicts and null do not compare with an int |
| Json.Digits | app.py:73-80 | the decimal rendering of a bound is a non-empty digit string without a leading zero |
| Json.DigitsRoundTrip | app.py:73-80 | reading the rendered digits back gives the number, so the bound in an error message is exact |
| Json.Decimal | app.py:73-80 | `str()` of an int puts a minus sign before a negative number and gives plain digits otherwise |
| Json.IsInstance | app.py:67 | `isinstance(v, t)` holds exactly when `t` is the type of `v`, or `t` is int and `v` a bool |
| Json.Truthy | app.py:150 | the falsy values are exactly None, False, 0, 0.0, the empty string, the empty list and the empty dict |
| Json.DoubleUnique | app.py:182 | two finite doubles have the same value exactly when they have the same form, so a decoded float denotes one model value |
| Json.PyStr | app.py:194 | `str()` of a msg_id: a string is kept, an int becomes its decimal, booleans become True/False, and null becomes None |
| Codec.Encode | app.py:135-137 | an encoded frame starts with the JSON codec byte, followed by the serialized value |
| Codec.ParseMessage | app.py:176-185 | a codec error happens exactly when the first byte is not 32; an empty frame is an IndexError; success happens exactly when the byte is 32 and the frame loads, giving the loaded value; a load failure is a decoding error carrying the loader's cause |
| Codec.ParseEncoded | app.py:135-137 | whatever the frontend encodes passes its own codec check and decodes back to the same value |
| ReferenceCodec.LawfulSerializerExists | app.py:176-185 | some serializer meets the round-trip law that the framing lemmas assume, so those lemmas do not hold vacuously |
| Validator.CheckRange | app.py:71-80 | a bound compared with a non-number raises TypeError; a number passes exactly when it lies within the inclusive bounds; the minimum is reported before the maximum; NaN passes any bounds |
| Validator.CheckSpec | app.py:54-80 | a non-dict gives AttributeError; an absent or null field passes only when optional, else "missing field"; the wrong type gives the type error naming the field; a numeric field passes exactly when it is within the inclusive bounds; the minimum is checked before the maximum; on a dict a well-formed spec fails only with invalid arguments |
| Validator.CheckAll | app.py:83-86 | passes exactly when every spec passes; a failure is the error of the first failing spec, and every earlier spec passed |
| Validator.CheckContent | app.py:82-86 | passes exactly when all required specs pass (as required) and all optional specs pass (as optional); a required violation is reported in preference to any optional one |
| Validator.NoSpecsAcceptAnything | app.py:82-86 | with no specs, any content passes, even one that is not a dict |
| Validator.CheckAllArgsOnly | app.py:66-80 | on a dict, well-formed specs fail only with an invalid-arguments error |
| Sanitizers.CommandOfSpec | app.py:114-115 | a `sanitize_*` name is the prefix followed by its command, so distinct names register distinct commands |
| Sanitizers.SanitizerNameOf | app.py:114-115 | the prefix plus a command is a sanitizer name, and slicing it gives the command back |
| Sanitizers.NotSanitizerName | app.py:114 | a name shorter than the prefix, or differing from it in the first or second letter, is skipped |
| Sanitizers.SchemaOf | app.py:120-123 | a None spec list reads as empty; the optional list is used only when the definition has two lists |
| Sanitizers.Populate | app.py:112-126 | the table's commands are exactly those of the `sanitize_*` globals, and each holds the schema of the last global registering it |
| Sanitizers.PopulateKeys | app.py:112-126 | after the loop has visited the first n globals, the table holds exactly the commands of the `sanitize_*` globals among them |
| Sanitizers.PopulateLast | app.py:112-126 | a command maps to the schema of the last global that registered it: a later entry overrides an earlier one |
| Sanitizers.PopulateFromLast | app.py:112-126 | every entry of the table comes from the last global registering its command |
| Sanitizers.PopulateSpec | app.py:112-126 | `populate_sanitizers` registers exactly the commands of the `sanitize_*` globals, each with the schema of its own definition |
| Sanitizers.PopulateWithinTable | app.py:112-127 | a namespace whose `sanitize_*` globals are the four definitions registers nothing beyond them, and each entry agrees with its definition |
| Sanitizers.PopulateCoversTable | app.py:112-127 | such a namespace registers all four commands |
| Sanitizers.TableFromGlobals | app.py:91-127 | any namespace of any size and order whose `sanitize_*` globals are the four definitions populates to the four-entry table |
| Sanitizers.SanitizersTable | app.py:1-127 | populating from the module's globals at line 127 (the interpreter's dunder names, the imported names, the definitions above) registers exactly modify_subscription, unsubscribe, get_snapshot and list_directory, with the schemas at lines 91-109 |
| Sanitizers.Sanitizers | app.py:111-127 | `SANITIZERS` is that four-entry table |
| Sanitizers.TableWellFormed | app.py:91-109 | in every table spec, bounds appear only on int fields |
| Sanitizers.SanitizeMsg | app.py:141-146 | a missing command gives KeyError; a list or dict command gives TypeError; a command without a sanitizer passes; a known command without content gives "content missing"; otherwise the content is checked against its schema; dict content fails only with invalid arguments |
| Sanitizers.SanitizeMsgIgnoresOtherFields | app.py:141-146 | `sanitize_msg` reads only command and content, so adding msg_id does not change its verdict |
| Sanitizers.SpeedAboveMaximumRejected | app.py:94 | order_book_speed 15 is rejected with the "less than 10" error |
| Sanitizers.SpeedMessage | app.py:78-80 | the "less than" message spells the bound 10 as "10" |
| Sanitizers.EmptySubscriptionAccepted | app.py:91-98 | modify_subscription has no required fields |
| Sanitizers.SubscriptionInRangeAccepted | app.py:91-98 | a ticker with an in-range speed passes |
| Sanitizers.SpeedBoundsInclusive | app.py:94-95 | the bounds 0 and 10 themselves are accepted |
| Sanitizers.BoolCountsAsInt | app.py:67-96 | true passes an int spec with minimum 0 |
| Sanitizers.ContentMissingRejected | app.py:144-145 | a known command without content is rejected |
| Sanitizers.NullTickerRejected | app.py:62-100 | a null ticker_id counts as missing |
| Sanitizers.UnknownCommandAccepted | app.py:142-143 | get_status has no sanitizer, so any content, or none, passes |
| Router.AssignMsgId | app.py:190-195 | a non-dict raises TypeError; otherwise the other fields are kept and msg_id is set to a string: the generated 36-character uuid exactly when msg_id was absent, and the `str()` of the given id otherwise |
| Router.CheckRequest | app.py:148-152 | an absent or falsy command gives "command missing"; otherwise the result of `sanitize_msg`; never a codec or decoding error |
| Router.RequestFrames | app.py:156-158 | the upstream gets the client's identity, the empty delimiter and one payload frame, which decodes to the tagged message under a lawful serializer |
| Router.HandleRequest | app.py:148-202 | handled goes up by one; the task crashes with no reply exactly when the payload is not a JSON dict, and then nothing else is counted; a foreign codec byte crashes with the codec error; idsAdded goes up exactly when the request lacked msg_id; invalid goes up exactly when an error is answered; a forwarded request is the decoded one with its msg_id set, behind the client's identity, and it passed every check; an answered error is never a codec or decoding error; a request without msg_id is forwarded or answered under the generated, non-empty id |
| Router.StatusBlock | app.py:162-168 | the status record has exactly the five get_status fields, names the module, carries the uptime, and reports the three counters as they stand |
| Router.AugmentStatus | app.py:160-170 | succeeds exactly when the last reply frame loads to a dict whose content is a list; an empty reply gives IndexError; every failure is a generic one; the other frames are relayed unchanged and the last is re-encoded with the status block in front |
| Router.StatusComesFirst | app.py:161-171 | the client decodes the augmented reply to the upstream record, with content being the status block followed by the upstream content, and all other fields unchanged |
| Router.HandleReply | app.py:159-173 | a reply to anything but get_status is relayed verbatim and nothing is counted; a get_status reply is relayed augmented with the current counters; a malformed one becomes a generic error and counts as invalid |
| Router.ErrorFrames | app.py:131-139 | the error reply goes to the client's identity, then the empty delimiter, then the encoded error record |
| Router.ErrorReplyDecodes | app.py:131-139 | the client decodes the error reply to gen_error's record for the mapped code, with the request's msg_id |
| Router.UntaggedRejected | app.py:187-202 | a dict request without msg_id that fails its checks is answered under the generated id, counting one handled message, one generated id and one invalid message |
| Router.SpeedAboveMaximumAnswered | app.py:187-202 | a modify_subscription with speed 15 is answered with the bound error under its fresh id; it counts one handled, one generated id and one invalid |
| Router.ForeignCodecCrashes | app.py:176-199 | a payload whose first byte is 1 ends the task with the codec error: no reply, and nothing counted but the handled message |
| Router.EmptyMsgIdForwarded | app.py:193-195 | a client msg_id of "" is kept and the request goes upstream with that empty id |
| Interceptor.StepRequest | app.py:187-202 | a request counts as handled and sends exactly what its handling decided: nothing after a crash, the error reply to the sender's identity under its msg_id, or the tagged request upstream, which becomes pending under the next task number; an error reply never carries DECODE or CODEC |
| Interceptor.StepReply | app.py:159-202 | a reply for a pending task is relayed or answered with an error reply to the request's identity and msg_id, with exactly one send; the task stops being pending; only an error reply counts as invalid |
| Interceptor.Step | app.py:204-220 | an unsplittable message counts as invalid and is dropped; a ping goes upstream verbatim and its pong goes back, with no counter change; a request counts as handled and sends what its handling decided: nothing after a crash, the error reply to the sender's identity under its msg_id, or the tagged request upstream, which becomes pending under a fresh task number; a reply goes back relayed, or as an error reply to the pending request's identity and msg_id; a reply to an unknown task does nothing; a reply to a pending task is answered once and the task is removed; no error reply carries DECODE or CODEC |
| Interceptor.Run | app.py:204-220 | every state reached keeps pending task numbers below the next task number |
| Interceptor.ErrorsInAppend | app.py:131-132 | error replies over two stretches of sends add up |
| Interceptor.StepCounters | app.py:187-220 | one step adds one handled message per request, one invalid message per unsplittable message or error reply sent, and at most one generated id per request |
| Interceptor.RunCounters | app.py:187-220 | over any run: handled grows by the number of requests; invalid grows by the unsplittable messages plus the error replies sent; at most one id is generated per request; no error reply carries DECODE or CODEC |

## Left out

- The sockets, asyncio and `SockRecvPublisher` are left out. The upstream reply and the pong are event inputs; matching a reply to its request by msg_id (`poll_for_msg_id`) is modelled as a task number.
- Task scheduling is simplified: each task's request half runs in one step when the message arrives, which is one of the schedules the event loop can produce.
- `split_message`, `ident_to_str`, `uuid.uuid4()` and `error.gen_error` are not part of this model. Their results are inputs: the split, the fresh id, and a `genError` function.
- JSON text is an abstract serializer. Its round trip (`Codec.Lawful`) is a precondition of the lemmas that decode what the frontend encodes. `ReferenceCodec` shows that some serializer meets it. That Python's `json` meets it for the values modelled here is assumed, not proved.
- Floats are IEEE doubles, each in the one `m * 2^e` form IEEE 754 gives it (normal or subnormal; `Json.DoubleUnique`), plus the three special values. Negative zero is not represented.
- A JSON string holding a lone surrogate (`"\ud800"`, which `json.loads` accepts at app.py:182) has no counterpart: the model's strings are sequences of Unicode scalar values.
- Float rendering, and `str()` of floats, lists and dicts, is an abstract `repr` function.
- Decoded objects are maps, so dict insertion order is not represented.
- Sanitizers that are functions rather than spec lists are left out: no such sanitizer exists in the module.
- SanitizersTable: lists only the three exceptions the module uses of the names `from zmapi.exceptions import *` binds, because zmapi.exceptions is not part of this model. `Sanitizers.TableFromGlobals` gives the same table for any further names, provided none starts with `sanitize_`.
- Exceptions.What: gives only the type name of an unexpected exception, because its message text comes from the Python runtime.
- The uptime is an input of the reply event, because it comes from the clock.
- Logging, `parse_args`, `setup_logging`, `init_zmq_sockets` and `main` are left out.

## Behaviour of the code worth knowing

- Codec and decoding failures are never answered. `EXCEPTION_TO_ECODE` maps `DecodingException` and `CodecException` to DECODE and CODEC (app.py:24-25). Both are raised by `parse_message` at app.py:190, before `msg_id` is bound at app.py:196. The `except` block at app.py:199-201 reads `msg_id`, so it raises `UnboundLocalError`: nothing is sent, and nothing is counted as invalid (`Router.ForeignCodecCrashes`, `Interceptor.RunCounters`).
- A ping holds up the receive loop. The ping branch awaits the upstream pong inside the loop (app.py:216-218), so no other message is read meanwhile. The model takes the pong as part of the ping event.
- A client-supplied `msg_id` of `""` is kept (app.py:195), so a request can go upstream with an empty id (`Router.EmptyMsgIdForwarded`). Only generated ids are guaranteed non-empty.
