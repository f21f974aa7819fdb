/** Offline queue records: the validated schema, its encoding, and what a torn file can decode to. */
module QueueRecord {
  import opened Options
  import opened Text
  import opened Json
  import opened JsonLaws

  const QUEUE_SCHEMA := "awp-offline-result/v2"
  const MAX_OFFLINE_BYTES: nat := 16 * 1024 * 1024
  const MAX_OFFLINE_LOG_BYTES: nat := 1024 * 1024
  const MAX_DURATION: nat := 31_536_000

  /** One task result waiting to be delivered. */
  datatype Record = Record(taskId: string, attemptId: string, success: bool, output: Fields, logs: string, duration: string)

  function Utf8Width(c: char): (n: nat)
    ensures 1 <= n <= 4
  {
    if (c as int) < 0x80 then 1 else if (c as int) < 0x800 then 2 else if (c as int) < 0x1_0000 then 3 else 4
  }

  /** Bytes in the UTF-8 encoding of a text. */
  function Utf8Size(s: string): nat
  {
    if s == [] then 0 else Utf8Size(s[..|s| - 1]) + Utf8Width(s[|s| - 1])
  }

  lemma {:induction false} PrefixIsSmaller(p: string, s: string)
    requires p <= s
    ensures Utf8Size(p) <= Utf8Size(s)
  {
    if |p| < |s| {
      PrefixIsSmaller(p, s[..|s| - 1]);
    } else {
      assert p == s;
    }
  }

  // ---------- Validation ----------

  predicate IsSafeTaskId(s: string)
  {
    1 <= |s| <= 128 &&
    forall i :: 0 <= i < |s| ==>
      'A' <= s[i] <= 'Z' || 'a' <= s[i] <= 'z' || IsDigit(s[i]) || s[i] == '_' || s[i] == '.' || s[i] == '-'
  }

  /** A lower-case version 4 UUID. */
  predicate IsSafeAttemptId(s: string)
  {
    && |s| == 36
    && (forall i :: 0 <= i < 36 ==>
          if i == 8 || i == 13 || i == 18 || i == 23 then s[i] == '-'
          else IsDigit(s[i]) || 'a' <= s[i] <= 'f')
    && s[14] == '4'
    && s[19] in "89ab"
  }

  /** Finite, not negative, and at most a year: the exact decimal value is compared. */
  predicate IsDuration(token: string)
  {
    IsNumber(token) &&
    var d := ReadNumber(token).value;
    && (d.negative ==> d.mantissa == 0)
    && (if d.exponent >= 0 then d.mantissa * Pow10(d.exponent) <= MAX_DURATION
        else d.mantissa <= MAX_DURATION * Pow10(-d.exponent))
  }

  predicate ValidRecord(r: Record)
  {
    && IsSafeTaskId(r.taskId)
    && IsSafeAttemptId(r.attemptId)
    && WellFormedFields(r.output)
    && Utf8Size(r.logs) <= MAX_OFFLINE_LOG_BYTES
    && IsDuration(r.duration)
  }

  /** The keys of an object; a repeated key counts once. */
  function Keys(f: Fields): set<string>
  {
    if f.NoFields? then {} else {f.key} + Keys(f.more)
  }

  /** Dictionary lookup: the last occurrence of a repeated key wins. */
  function Get(f: Fields, k: string): Json
    requires k in Keys(f)
  {
    if k in Keys(f.more) then Get(f.more, k) else f.value
  }

  /** `_validate_queue_record` and `_validate_result_payload`: the record an accepted JSON value stands for. */
  function ValidateRecord(v: Json): Option<Record>
  {
    if !v.Obj? || Keys(v.fields) != {"schema", "kind", "payload"} then None
    else if Get(v.fields, "schema") != Str(QUEUE_SCHEMA) || Get(v.fields, "kind") != Str("result") then None
    else
      var body := Get(v.fields, "payload");
      if !body.Obj? || Keys(body.fields) != {"task_id", "payload"} then None
      else
        var taskId := Get(body.fields, "task_id");
        if !taskId.Str? || !IsSafeTaskId(taskId.text) then None
        else ValidatePayload(taskId.text, Get(body.fields, "payload"))
  }

  function ValidatePayload(taskId: string, p: Json): Option<Record>
  {
    if !p.Obj? || Keys(p.fields) != {"attempt_id", "status", "output", "logs", "duration_s"} then None
    else
      var attemptId := Get(p.fields, "attempt_id");
      var status := Get(p.fields, "status");
      var output := Get(p.fields, "output");
      var logs := Get(p.fields, "logs");
      var duration := Get(p.fields, "duration_s");
      if !attemptId.Str? || !IsSafeAttemptId(attemptId.text) then None
      else if status != Str("success") && status != Str("failed") then None
      else if !output.Obj? then None
      else if !logs.Str? || Utf8Size(logs.text) > MAX_OFFLINE_LOG_BYTES then None
      else if !duration.Num? || !IsDuration(duration.token) then None
      else Some(Record(taskId, attemptId.text, status == Str("success"), output.fields, logs.text, duration.token))
  }

  /** The task ids the control plane accepts. */
  predicate TaskIdShape(s: string)
  {
    0 < |s| < 129 && forall i :: 0 <= i < |s| ==>
      '0' <= s[i] <= '9' || 'A' <= s[i] <= 'Z' || 'a' <= s[i] <= 'z' || s[i] == '-' || s[i] == '.' || s[i] == '_'
  }

  /** The value is an object with exactly these members, as the last of each name has them. */
  predicate HasMembers(v: Json, names: set<string>)
  {
    v.Obj? && Keys(v.fields) == names
  }

  /** What a queue file must hold to stand for the record: the schema and kind, a task, and a result whose members are all
      there, of their kinds and within their limits. */
  ghost predicate StandsFor(v: Json, r: Record)
  {
    && HasMembers(v, {"kind", "payload", "schema"})
    && Get(v.fields, "schema") == Str("awp-offline-result/v2") && Get(v.fields, "kind") == Str("result")
    && var body := Get(v.fields, "payload");
       && HasMembers(body, {"payload", "task_id"})
       && Get(body.fields, "task_id") == Str(r.taskId) && TaskIdShape(r.taskId)
       && ResultStandsFor(Get(body.fields, "payload"), r)
  }

  ghost predicate ResultStandsFor(p: Json, r: Record)
  {
    && HasMembers(p, {"attempt_id", "duration_s", "logs", "output", "status"})
    && Get(p.fields, "attempt_id") == Str(r.attemptId) && IsSafeAttemptId(r.attemptId)
    && Get(p.fields, "status") == Str(if r.success then "success" else "failed")
    && Get(p.fields, "output") == Obj(r.output)
    && Get(p.fields, "logs") == Str(r.logs) && Utf8Size(r.logs) <= 1_048_576
    && Get(p.fields, "duration_s") == Num(r.duration) && IsDuration(r.duration)
  }

  lemma ResultValidated(taskId: string, p: Json, r: Record)
    requires r.taskId == taskId
    ensures ValidatePayload(taskId, p) == Some(r) <==> ResultStandsFor(p, r)
  {
    assert {"attempt_id", "status", "output", "logs", "duration_s"} == {"attempt_id", "duration_s", "logs", "output", "status"};
    assert "success" != "failed";
  }

  /** A queue file decodes to a record if and only if it is a JSON text that stands for it. */
  lemma DecodesIff(text: string, r: Record)
    ensures Decode(text) == Some(r) <==> Loads(text) != None && StandsFor(Loads(text).value, r)
  {
    if Loads(text).Some? {
      var v := Loads(text).value;
      assert {"schema", "kind", "payload"} == {"kind", "payload", "schema"} && {"task_id", "payload"} == {"payload", "task_id"};
      if HasMembers(v, {"kind", "payload", "schema"}) && HasMembers(Get(v.fields, "payload"), {"payload", "task_id"}) {
        var body := Get(v.fields, "payload");
        ResultValidated(r.taskId, Get(body.fields, "payload"), r);
        TaskIdsAgree(r.taskId);
        assert ValidateRecord(v).Some? ==> Get(body.fields, "task_id") == Str(ValidateRecord(v).value.taskId);
      }
    }
  }

  lemma TaskIdsAgree(s: string)
    ensures TaskIdShape(s) <==> IsSafeTaskId(s)
  {
  }

  // ---------- Encoding ----------

  function PayloadFields(r: Record): Fields
  {
    Field("attempt_id", Str(r.attemptId),
    Field("duration_s", Num(r.duration),
    Field("logs", Str(r.logs),
    Field("output", Obj(r.output),
    Field("status", Str(if r.success then "success" else "failed"), NoFields)))))
  }

  /** The record as a JSON object with its keys in sorted order. */
  function RecordFields(r: Record): Fields
  {
    Field("kind", Str("result"),
    Field("payload", Obj(
      Field("payload", Obj(PayloadFields(r)),
      Field("task_id", Str(r.taskId), NoFields))),
    Field("schema", Str(QUEUE_SCHEMA), NoFields)))
  }

  function Encode(r: Record): string
  {
    Print(Obj(RecordFields(r))) + "\n"
  }

  function Decode(text: string): Option<Record>
  {
    match Loads(text)
    case None => None
    case Some(v) => ValidateRecord(v)
  }

  /** A field is found at the head of its object unless the same key comes again. */
  lemma GetHead(f: Fields)
    requires f.Field? && f.key !in Keys(f.more)
    ensures Get(f, f.key) == f.value
  {
  }

  lemma PayloadLookups(r: Record)
    ensures var f := PayloadFields(r);
      && Keys(f) == {"attempt_id", "duration_s", "logs", "output", "status"}
      && Get(f, "attempt_id") == Str(r.attemptId)
      && Get(f, "duration_s") == Num(r.duration)
      && Get(f, "logs") == Str(r.logs)
      && Get(f, "output") == Obj(r.output)
      && Get(f, "status") == Str(if r.success then "success" else "failed")
  {
    var f0 := PayloadFields(r);
    var f1 := f0.more;
    var f2 := f1.more;
    var f3 := f2.more;
    var f4 := f3.more;
    assert Keys(f4) == {"status"};
    assert Keys(f3) == {"output", "status"};
    assert Keys(f2) == {"logs", "output", "status"};
    assert Keys(f1) == {"duration_s", "logs", "output", "status"};
    assert Keys(f0) == {"attempt_id", "duration_s", "logs", "output", "status"};
    GetHead(f0);
    GetHead(f1);
    GetHead(f2);
    GetHead(f3);
    GetHead(f4);
    assert Get(f0, "status") == Get(f1, "status") == Get(f2, "status") == Get(f3, "status") == Get(f4, "status");
    assert Get(f0, "output") == Get(f1, "output") == Get(f2, "output") == Get(f3, "output");
    assert Get(f0, "logs") == Get(f1, "logs") == Get(f2, "logs");
  }

  lemma ValidatePayloadFields(r: Record)
    requires ValidRecord(r)
    ensures ValidatePayload(r.taskId, Obj(PayloadFields(r))) == Some(r)
  {
    PayloadLookups(r);
    assert Keys(PayloadFields(r)) == {"attempt_id", "status", "output", "logs", "duration_s"};
  }

  lemma RecordLookups(r: Record)
    ensures var f := RecordFields(r);
      && Keys(f) == {"schema", "kind", "payload"}
      && Get(f, "kind") == Str("result")
      && Get(f, "schema") == Str(QUEUE_SCHEMA)
      && Get(f, "payload") == f.more.value
      && var b := f.more.value.fields;
      && Keys(b) == {"task_id", "payload"}
      && Get(b, "task_id") == Str(r.taskId)
      && Get(b, "payload") == Obj(PayloadFields(r))
  {
    var f0 := RecordFields(r);
    var f1 := f0.more;
    var f2 := f1.more;
    assert Keys(f2) == {"schema"} && Keys(f1) == {"payload", "schema"} && Keys(f0) == {"kind", "payload", "schema"};
    GetHead(f0);
    GetHead(f1);
    GetHead(f2);
    assert Get(f0, "schema") == Get(f1, "schema") == Get(f2, "schema");
    assert Get(f0, "payload") == Get(f1, "payload");
    var b0 := f1.value.fields;
    assert Keys(b0.more) == {"task_id"} && Keys(b0) == {"payload", "task_id"};
    GetHead(b0);
    GetHead(b0.more);
    assert Get(b0, "task_id") == Get(b0.more, "task_id");
  }

  lemma ValidateRecordFields(r: Record)
    requires ValidRecord(r)
    ensures ValidateRecord(Obj(RecordFields(r))) == Some(r)
  {
    RecordLookups(r);
    ValidatePayloadFields(r);
  }

  lemma AddField(k: string, v: Json, more: Fields)
    requires WellFormed(v) && WellFormedFields(more)
    ensures WellFormedFields(Field(k, v, more)) && WellFormed(Obj(Field(k, v, more)))
  {
  }

  lemma RecordIsWellFormed(r: Record)
    requires ValidRecord(r)
    ensures WellFormedFields(RecordFields(r))
  {
    var f := PayloadFields(r);
    AddField("status", f.more.more.more.more.value, NoFields);
    AddField("output", Obj(r.output), f.more.more.more.more);
    AddField("logs", Str(r.logs), f.more.more.more);
    AddField("duration_s", Num(r.duration), f.more.more);
    AddField("attempt_id", Str(r.attemptId), f.more);
    var b := RecordFields(r).more.value.fields;
    AddField("task_id", Str(r.taskId), NoFields);
    AddField("payload", Obj(f), b.more);
    AddField("schema", Str(QUEUE_SCHEMA), NoFields);
    AddField("payload", Obj(b), RecordFields(r).more.more);
    AddField("kind", Str("result"), RecordFields(r).more);
  }

  /** Encoding then decoding gives the record back, with or without the final newline. */
  lemma DecodeEncode(r: Record)
    requires ValidRecord(r)
    ensures Decode(Encode(r)) == Some(r)
    ensures Decode(Encode(r)[..|Encode(r)| - 1]) == Some(r)
  {
    var v := Obj(RecordFields(r));
    RecordIsWellFormed(r);
    LoadsPrint(v);
    ValidateRecordFields(r);
    assert Encode(r)[..|Encode(r)| - 1] == Print(v);
  }

  /** Whatever part of an encoded record reached the disk, it decodes to that record or to nothing. */
  lemma TornRecord(r: Record, p: string)
    requires ValidRecord(r) && p <= Encode(r)
    ensures Decode(p) == if |p| + 1 >= |Encode(r)| then Some(r) else None
  {
    DecodeEncode(r);
    if |p| + 1 < |Encode(r)| {
      RecordIsWellFormed(r);
      assert p < Print(Obj(RecordFields(r)));
      TornObjectUnreadable(RecordFields(r), p);
    } else if |p| == |Encode(r)| {
      assert p == Encode(r);
    } else {
      assert p == Encode(r)[..|Encode(r)| - 1];
    }
  }
}
