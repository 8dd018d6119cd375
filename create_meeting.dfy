/**
 * `ZoomAPI.create_meeting` (zoom_api_helper/v2.py): resolve the user the
 * meeting is created for, assemble the request body, POST it.  The POST is a
 * parameter of the model; the email-to-id map (`_user_email_to_id_cached`) is
 * passed in as a plain map.
 */
module CreateMeeting {
  import opened Wrappers
  import opened Values

  /** Parameters bound by name; every other keyword argument lands in `request_data`. */
  const NamedParams: set<string> := {"host_id", "host_email", "topic", "agenda", "start_time", "timezone", "type"}

  const DefaultTopic := Str("My Meeting")
  const DefaultAgenda := Str("My Description")
  const DefaultTimezone := Str("UTC")

  /** Why a creation failed. */
  datatype Failure =
    | UnknownHostEmail          // `KeyError` from the email-to-id lookup
    | NotAMeetingType           // `type.value` on something other than a `Meeting`
    | HttpError(status: int)    // `raise_for_status` on a non-2xx reply

  /** The outcome of one creation: the parsed JSON reply, or the exception raised. */
  datatype Outcome = Created(resp: Response) | Failed(reason: Failure)

  /** The HTTP request `create_meeting` sends: POST /users/{userId}/meetings with `body`. */
  datatype MeetingCall = MeetingCall(userId: Value, body: map<string, Value>)

  /** The reply of the remote endpoint. */
  datatype PostReply = Ok2xx(json: Response) | NotOk(status: int)

  /** The remote Create Meeting endpoint. */
  type Post = MeetingCall -> PostReply

  /** The value a keyword argument takes: the one passed, else its default. */
  function Arg(kwargs: map<string, Value>, name: string, default: Value): Value {
    if name in kwargs then kwargs[name] else default
  }

  /** `start_time`, `timezone`, `agenda`, `topic` defaults, as in the signature. */
  function DefaultOf(name: string): Value {
    if name == "agenda" then DefaultAgenda
    else if name == "topic" then DefaultTopic
    else if name == "timezone" then DefaultTimezone
    else Null
  }

  /** `if value: d[name] = value` */
  function SetIfTruthy(d: map<string, Value>, name: string, value: Value): (r: map<string, Value>)
    ensures forall k :: k != name ==> (k in r <==> k in d) && (k in d ==> r[k] == d[k])
    ensures name in r <==> Truthy(value) || name in d
    ensures Truthy(value) ==> r[name] == value
    ensures !Truthy(value) ==> r == d
  {
    if Truthy(value) then d[name := value] else d
  }

  /** The user the meeting is created for (lines 273-278), or the `KeyError` of the lookup. */
  function UserId(kwargs: map<string, Value>, emailToId: map<Value, Value>): (r: Result<Value, Failure>)
    ensures Truthy(Arg(kwargs, "host_id", Null)) ==> r == Ok(kwargs["host_id"])
    ensures !Truthy(Arg(kwargs, "host_id", Null)) && Truthy(Arg(kwargs, "host_email", Null)) ==>
              r == if kwargs["host_email"] in emailToId then Ok(emailToId[kwargs["host_email"]]) else Err(UnknownHostEmail)
    ensures !Truthy(Arg(kwargs, "host_id", Null)) && !Truthy(Arg(kwargs, "host_email", Null)) ==> r == Ok(Str("me"))
  {
    var hostId := Arg(kwargs, "host_id", Null);
    var hostEmail := Arg(kwargs, "host_email", Null);
    if Truthy(hostId) then Ok(hostId)
    else if Truthy(hostEmail) then (if hostEmail in emailToId then Ok(emailToId[hostEmail]) else Err(UnknownHostEmail))
    else Ok(Str("me"))
  }

  /** Lines 280-291: `request_data` with agenda, topic, start time and timezone set when truthy. */
  function BodyFields(kwargs: map<string, Value>): (body: map<string, Value>)
    ensures forall k :: k in kwargs && k !in NamedParams ==> k in body && body[k] == kwargs[k]
    ensures "host_id" !in body && "host_email" !in body && "type" !in body
  {
    var requestData := kwargs - NamedParams;
    var d1 := SetIfTruthy(requestData, "agenda", Arg(kwargs, "agenda", DefaultAgenda));
    var d2 := SetIfTruthy(d1, "topic", Arg(kwargs, "topic", DefaultTopic));
    var d3 := SetIfTruthy(d2, "start_time", Arg(kwargs, "start_time", Null));
    SetIfTruthy(d3, "timezone", Arg(kwargs, "timezone", DefaultTimezone))
  }

  /**
   * Lines 273-294: the call `create_meeting(**kwargs)` makes, or the error it
   * raises before making it.  The user id is resolved first, so an unknown
   * host email wins over a bad `type`.
   */
  function BuildCall(kwargs: map<string, Value>, emailToId: map<Value, Value>): (r: Result<MeetingCall, Failure>)
    ensures UserId(kwargs, emailToId).Err? ==> r == Err(UnknownHostEmail)
    ensures UserId(kwargs, emailToId).Ok? && Truthy(Arg(kwargs, "type", Null)) && !kwargs["type"].MeetingType? ==>
              r == Err(NotAMeetingType)
    ensures r.Err? <==> UserId(kwargs, emailToId).Err? || (Truthy(Arg(kwargs, "type", Null)) && !kwargs["type"].MeetingType?)
    ensures r.Ok? ==> r.value.userId == UserId(kwargs, emailToId).value
  {
    match UserId(kwargs, emailToId)
    case Err(e) => Err(e)
    case Ok(userId) =>
      var body := BodyFields(kwargs);
      var meetingType := Arg(kwargs, "type", Null);
      if !Truthy(meetingType) then Ok(MeetingCall(userId, body))
      else if meetingType.MeetingType? then Ok(MeetingCall(userId, body["type" := Int(Code(meetingType.kind))]))
      else Err(NotAMeetingType)
  }

  /**
   * The body promised for keyword arguments `kwargs`: every keyword that is not
   * a named parameter, unchanged; `agenda`, `topic`, `start_time` and
   * `timezone` exactly when their value (or default) is truthy; `type` as the
   * enum's code exactly when truthy; never `host_id` or `host_email`.
   */
  ghost predicate BodyOf(kwargs: map<string, Value>, body: map<string, Value>) {
    && (forall k :: k in kwargs && k !in NamedParams ==> k in body && body[k] == kwargs[k])
    && (forall k :: k in body ==> (k in kwargs && k !in NamedParams) || k in NamedParams - {"host_id", "host_email"})
    && "host_id" !in body && "host_email" !in body
    && FieldSet(kwargs, body, "agenda") && FieldSet(kwargs, body, "topic")
    && FieldSet(kwargs, body, "start_time") && FieldSet(kwargs, body, "timezone")
    && ("type" in body <==> Truthy(Arg(kwargs, "type", Null)))
    && ("type" in body ==> kwargs["type"].MeetingType? && body["type"] == Int(Code(kwargs["type"].kind)))
  }

  /** `field` is in the body exactly when its value (or default) is truthy, and then holds it. */
  ghost predicate FieldSet(kwargs: map<string, Value>, body: map<string, Value>, field: string) {
    && (field in body <==> Truthy(Arg(kwargs, field, DefaultOf(field))))
    && (field in body ==> body[field] == Arg(kwargs, field, DefaultOf(field)))
  }

  /** The body `create_meeting` posts is the one its signature and docstring promise. */
  lemma BuildCallBody(kwargs: map<string, Value>, emailToId: map<Value, Value>)
    requires BuildCall(kwargs, emailToId).Ok?
    ensures BodyOf(kwargs, BuildCall(kwargs, emailToId).value.body)
  {
    var requestData := kwargs - NamedParams;
    var d1 := SetIfTruthy(requestData, "agenda", Arg(kwargs, "agenda", DefaultAgenda));
    var d2 := SetIfTruthy(d1, "topic", Arg(kwargs, "topic", DefaultTopic));
    var d3 := SetIfTruthy(d2, "start_time", Arg(kwargs, "start_time", Null));
    var d4 := SetIfTruthy(d3, "timezone", Arg(kwargs, "timezone", DefaultTimezone));
    assert d4 == BodyFields(kwargs);
    assert FieldSet(kwargs, d4, "agenda");
    assert FieldSet(kwargs, d4, "topic");
    assert FieldSet(kwargs, d4, "start_time");
    assert FieldSet(kwargs, d4, "timezone");
  }

  /** The whole of `create_meeting`: the error raised, or the reply of the POST. */
  function CreateOutcome(kwargs: map<string, Value>, emailToId: map<Value, Value>, post: Post): (o: Outcome)
    ensures BuildCall(kwargs, emailToId).Err? ==> o == Failed(BuildCall(kwargs, emailToId).error)
    ensures BuildCall(kwargs, emailToId).Ok? ==>
              match post(BuildCall(kwargs, emailToId).value)
              case Ok2xx(json) => o == Created(json)
              case NotOk(status) => o == Failed(HttpError(status))
  {
    match BuildCall(kwargs, emailToId)
    case Err(e) => Failed(e)
    case Ok(call) =>
      match post(call)
      case Ok2xx(json) => Created(json)
      case NotOk(status) => Failed(HttpError(status))
  }
}
