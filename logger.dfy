/**
 * The structured logging of the service: the adapter that strips reserved
 * record attributes from a call's `extra` fields, and the formatter that
 * turns a log record into one JSON object.
 */
module Logger {
  import opened Wrappers

  /** The attributes of a log record that caller-supplied `extra` fields must never set. */
  const ReservedKeys: set<string> := {
    "name", "msg", "args", "levelname", "levelno", "pathname", "filename",
    "module", "exc_info", "exc_text", "stack_info", "lineno", "funcName",
    "created", "msecs", "relativeCreated", "thread", "threadName",
    "processName", "process", "message"
  }

  /** A value of a structured field: text or a number. */
  datatype Value = Text(text: string) | Number(number: real)

  /**
   * The keyword arguments of a logging call: the `extra` dictionary (absent
   * or `None` is `None`) and the other keyword arguments, which the adapter
   * passes through.
   */
  datatype Kwargs = Kwargs(extra: Option<map<string, Value>>, others: map<string, Value>)

  /** The `extra` fields whose names are not reserved, with their values. */
  function SafeExtra(extra: map<string, Value>): (safe: map<string, Value>)
    ensures safe.Keys == extra.Keys - ReservedKeys
    ensures forall k :: k in safe ==> safe[k] == extra[k]
  {
    map k | k in extra && k !in ReservedKeys :: extra[k]
  }

  /**
   * `SafeLoggerAdapter.process`: the message is returned unchanged; a
   * non-empty `extra` is replaced by its non-reserved fields; an absent or
   * empty `extra` leaves the keyword arguments untouched.
   */
  function Process(msg: string, kwargs: Kwargs): (r: (string, Kwargs))
    ensures r.0 == msg && r.1.others == kwargs.others
    ensures kwargs.extra.None? || kwargs.extra == Some(map[]) ==> r.1 == kwargs
    ensures kwargs.extra.Some? ==> r.1.extra.Some?
    ensures kwargs.extra.Some? ==>
      && r.1.extra.value.Keys == kwargs.extra.value.Keys - ReservedKeys
      && forall k :: k in r.1.extra.value ==> r.1.extra.value[k] == kwargs.extra.value[k]
  {
    match kwargs.extra
    case Some(extra) =>
      if extra != map[] then (msg, kwargs.(extra := Some(SafeExtra(extra)))) else (msg, kwargs)
    case None => (msg, kwargs)
  }

  /** After `Process`, no reserved name is left in `extra`. */
  lemma ProcessDropsReserved(msg: string, kwargs: Kwargs)
    ensures var r := Process(msg, kwargs);
      r.1.extra.Some? ==> forall k :: k in r.1.extra.value ==> k !in ReservedKeys
  {
  }

  /** `Process` is idempotent: applying it to its own output changes nothing. */
  lemma ProcessIdempotent(msg: string, kwargs: Kwargs)
    ensures var r := Process(msg, kwargs); Process(r.0, r.1) == r
  {
    var r := Process(msg, kwargs);
    if r.1.extra.Some? && r.1.extra.value != map[] {
      assert SafeExtra(r.1.extra.value) == r.1.extra.value;
    }
  }

  /**
   * A log record: its creation time, level name, rendered message
   * (`getMessage()`), the attributes set from `extra`, and the formatted
   * exception when `exc_info` is set (a truthy value).
   */
  datatype Record = Record(created: real, levelname: string, message: string,
                           attrs: map<string, Value>, excInfo: Option<string>)

  /** One formatted line: the fields of the JSON object, in insertion order. */
  type Line = seq<(string, Value)>

  /** The value of field `key` in `line`, if it has one. */
  function Field(line: Line, key: string): Option<Value>
  {
    if line == [] then None
    else if line[0].0 == key then Some(line[0].1)
    else Field(line[1..], key)
  }

  /** The names of the fields of `line`, in order. */
  function Keys(line: Line): seq<string>
  {
    seq(|line|, i requires 0 <= i < |line| => line[i].0)
  }

  /** The only names a formatted line can have. */
  const FormattedKeys: set<string> := {"timestamp", "level", "message", "endpoint", "error_reason", "exc_info"}

  /** The field `[key: value]` when the record has `key`, and nothing otherwise. */
  function Optional(attrs: map<string, Value>, key: string): Line
  {
    if key in attrs then [(key, attrs[key])] else []
  }

  /**
   * `JSONFormatter.format`. `render` is the ISO-8601 rendering of a
   * creation time (`datetime.utcfromtimestamp(...).isoformat()`).
   */
  function Format(record: Record, render: real -> string): (line: Line)
  {
    [("timestamp", Text(render(record.created) + "Z")),
     ("level", Text(record.levelname)),
     ("message", Text(record.message))]
    + Optional(record.attrs, "endpoint")
    + Optional(record.attrs, "error_reason")
    + (if record.excInfo.Some? then [("exc_info", Text(record.excInfo.value))] else [])
  }

  lemma {:induction false} FieldConcat(x: Line, y: Line, key: string)
    ensures Field(x + y, key) == if key in Keys(x) then Field(x, key) else Field(y, key)
  {
    if x != [] {
      assert (x + y)[1..] == x[1..] + y;
      assert Keys(x) == [x[0].0] + Keys(x[1..]);
      FieldConcat(x[1..], y, key);
    } else {
      assert x + y == y;
    }
  }

  /**
   * A formatted line always starts with `timestamp` (ending in "Z"),
   * `level` and `message`, taken only from the record's creation time,
   * level name and message; its names are distinct and among the six
   * formatted names; `endpoint` and `error_reason` appear exactly when the
   * record has those attributes, with their values, and `exc_info` exactly
   * when the record carries exception information.
   */
  lemma FormatFields(record: Record, render: real -> string)
    ensures var line := Format(record, render);
      && |line| >= 3
      && line[0] == ("timestamp", Text(render(record.created) + "Z"))
      && line[0].1.text[|line[0].1.text| - 1] == 'Z'
      && line[1] == ("level", Text(record.levelname))
      && line[2] == ("message", Text(record.message))
      && (forall i :: 0 <= i < |line| ==> line[i].0 in FormattedKeys)
      && (forall i, j :: 0 <= i < j < |line| ==> line[i].0 != line[j].0)
      && Field(line, "message") == Some(Text(record.message))
      && Field(line, "endpoint") == (if "endpoint" in record.attrs then Some(record.attrs["endpoint"]) else None)
      && Field(line, "error_reason") == (if "error_reason" in record.attrs then Some(record.attrs["error_reason"]) else None)
      && Field(line, "exc_info") == (if record.excInfo.Some? then Some(Text(record.excInfo.value)) else None)
  {
    var line := Format(record, render);
    var head := [("timestamp", Text(render(record.created) + "Z")),
                 ("level", Text(record.levelname)),
                 ("message", Text(record.message))];
    var e := Optional(record.attrs, "endpoint");
    var er := Optional(record.attrs, "error_reason");
    var x := if record.excInfo.Some? then [("exc_info", Text(record.excInfo.value))] else [];
    assert line == head + (e + (er + x));
    assert Keys(head) == ["timestamp", "level", "message"];
    assert head[1..][1..] == [("message", Text(record.message))];
    assert Field(head[1..][1..], "message") == Some(Text(record.message));
    assert "level" != "message" && "timestamp" != "message";
    assert Field(head[1..], "message") == Some(Text(record.message));
    assert Field(head, "message") == Some(Text(record.message));
    FieldConcat(head, e + (er + x), "message");
    assert Field(e, "endpoint") == if "endpoint" in record.attrs then Some(record.attrs["endpoint"]) else None;
    assert Field(er, "endpoint") == None && Field(x, "endpoint") == None;
    FieldConcat(head, e + (er + x), "endpoint");
    FieldConcat(e, er + x, "endpoint");
    FieldConcat(head, e + (er + x), "error_reason");
    FieldConcat(e, er + x, "error_reason");
    FieldConcat(er, x, "error_reason");
    FieldConcat(head, e + (er + x), "exc_info");
    FieldConcat(e, er + x, "exc_info");
    FieldConcat(er, x, "exc_info");
  }

  /**
   * The record a logging call creates once the adapter has processed it:
   * the remaining `extra` fields become its attributes.
   */
  function RecordOf(created: real, levelname: string, msg: string, kwargs: Kwargs, excInfo: Option<string>): Record
  {
    var p := Process(msg, kwargs);
    Record(created, levelname, p.0, p.1.extra.GetOr(map[]), excInfo)
  }

  /**
   * End to end through the adapter and the formatter: the line's `message`
   * and `level` are the call's own, whatever `extra` holds (a caller's
   * "message" field is silently dropped); a caller's `endpoint` and
   * `error_reason` fields appear with their values. (An `extra` holding
   * "asctime" or "taskName", which the reserved set lacks, would make Python's
   * record factory raise instead; that refusal is not modelled.)
   */
  lemma LoggedLineKeepsOwnFields(created: real, levelname: string, msg: string, kwargs: Kwargs,
                                 excInfo: Option<string>, render: real -> string)
    ensures var line := Format(RecordOf(created, levelname, msg, kwargs, excInfo), render);
      && Field(line, "message") == Some(Text(msg))
      && line[1] == ("level", Text(levelname))
      && (kwargs.extra.Some? && "endpoint" in kwargs.extra.value ==>
            Field(line, "endpoint") == Some(kwargs.extra.value["endpoint"]))
      && (kwargs.extra.Some? && "error_reason" in kwargs.extra.value ==>
            Field(line, "error_reason") == Some(kwargs.extra.value["error_reason"]))
  {
    FormatFields(RecordOf(created, levelname, msg, kwargs, excInfo), render);
  }
}
