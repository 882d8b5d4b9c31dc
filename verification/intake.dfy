/** The `POST /api/applications` handler: it parses the body, checks the
    required fields in a fixed order and reports only the first failure,
    then the e-mail pattern, then the cover-letter length, and on success
    answers 201 with a record built from the payload. The clock value and
    the random suffix of the id are parameters. */
module Intake {
  import opened Wrappers
  import opened Text
  import opened Json
  import opened Email

  /** The request body as `request.json()` sees it. */
  datatype Body = Unparseable | Parsed(value: Json)

  /** What the handler answers: 400 with an error, 500, or 201 with the id
      and the stored record. */
  datatype Outcome =
    | Rejected(error: string)
    | Failed
    | Accepted(applicationId: string, data: map<string, Json>)

  datatype Response = Response(status: int, body: Json)

  const RequiredFields: seq<string> := ["firstName", "lastName", "email", "phone", "coverLetter", "jobId"]

  const InvalidEmail := "Invalid email format"
  const ShortCoverLetter := "Cover letter must be at least 50 characters"
  const MinCoverLetter := 50

  /** How one required value fares in `!v || v.trim() === ''`: a falsy or
      blank value is missing; a truthy value that is not a string has no
      `trim` and throws. */
  datatype FieldStatus = Present(text: string) | Missing | Throws

  function Status(v: Option<Json>): (r: FieldStatus)
    ensures r.Present? <==> v.Some? && v.value.JStr? && !IsBlank(v.value.s)
    ensures r.Throws? <==> v.Some? && Truthy(v.value) && !v.value.JStr?
  {
    if !TruthyOpt(v) then Missing
    else if !v.value.JStr? then Throws
    else if IsBlank(v.value.s) then Missing
    else Present(v.value.s)
  }

  function Lookup(m: map<string, Json>, key: string): Option<Json> {
    if key in m then Some(m[key]) else None
  }

  /** The outcome a failing field produces. */
  function FailureOf(field: string, st: FieldStatus): Outcome {
    if st.Throws? then Failed else Rejected(field + " is required")
  }

  /** The loop over the required fields: the first field that is not
      present decides the outcome; `None` means every field is present. */
  function CheckRequired(m: map<string, Json>, fields: seq<string>): (r: Option<Outcome>)
    ensures r.None? <==> forall i :: 0 <= i < |fields| ==> Status(Lookup(m, fields[i])).Present?
    ensures r.Some? ==> !r.value.Accepted?
    decreases |fields|
  {
    if fields == [] then None
    else
      var st := Status(Lookup(m, fields[0]));
      if !st.Present? then Some(FailureOf(fields[0], st))
      else
        var rest := CheckRequired(m, fields[1..]);
        assert forall i :: 1 <= i < |fields| ==> fields[i] == fields[1..][i - 1];
        rest
  }

  /** The loop reports the first failing field and no later one. */
  lemma {:induction false} CheckRequiredFirst(m: map<string, Json>, fields: seq<string>, k: nat)
    requires k < |fields|
    requires forall i :: 0 <= i < k ==> Status(Lookup(m, fields[i])).Present?
    requires !Status(Lookup(m, fields[k])).Present?
    ensures CheckRequired(m, fields) == Some(FailureOf(fields[k], Status(Lookup(m, fields[k]))))
    decreases k
  {
    if k > 0 {
      assert Status(Lookup(m, fields[0])).Present?;
      CheckRequiredFirst(m, fields[1..], k - 1);
    }
  }

  /** Every field is present: all six hold non-blank strings. */
  predicate AllPresent(m: map<string, Json>) {
    forall i :: 0 <= i < |RequiredFields| ==> Status(Lookup(m, RequiredFields[i])).Present?
  }

  /** The string under `key`, once the required fields are known to be
      strings. */
  function StrField(m: map<string, Json>, key: string): string {
    if key in m && m[key].JStr? then m[key].s else ""
  }

  /** The properties of the body: an object's own, none for the other
      non-null values. */
  function Props(v: Json): map<string, Json> {
    if v.JObject? then v.fields else map[]
  }

  /** `APP_<now>_<suffix>`. */
  function ApplicationId(now: nat, suffix: string): (id: string)
    ensures |id| > 5 && id[..4] == "APP_"
  {
    var id := "APP_" + NatToDecimal(now) + "_" + suffix;
    assert id[..4] == "APP_";
    id
  }

  /** `{id, ...payload, appliedAt, status: 'pending'}`. */
  function Record(m: map<string, Json>, id: string, appliedAt: string): (r: map<string, Json>)
    ensures r.Keys == m.Keys + {"id", "appliedAt", "status"}
  {
    map["id" := JStr(id)] + m + map["appliedAt" := JStr(appliedAt), "status" := JStr("pending")]
  }

  /** The handler. `now` is `Date.now()`, `suffix` the random part of the
      id and `appliedAt` the ISO time stamp. */
  function Submit(body: Body, now: nat, suffix: string, appliedAt: string): Outcome {
    match body
    case Unparseable => Failed
    case Parsed(v) =>
      if v == JNull then Failed
      else
        var m := Props(v);
        match CheckRequired(m, RequiredFields)
        case Some(failure) => failure
        case None =>
          if !ServerEmailOk(StrField(m, "email")) then Rejected(InvalidEmail)
          else if Utf16Length(StrField(m, "coverLetter")) < MinCoverLetter then Rejected(ShortCoverLetter)
          else
            var id := ApplicationId(now, suffix);
            Accepted(id, Record(m, id, appliedAt))
  }

  /** The HTTP status and JSON body sent for an outcome. */
  function Respond(o: Outcome): (r: Response)
    ensures r.status == 201 <==> o.Accepted?
    ensures r.status == 400 <==> o.Rejected?
    ensures r.status == 500 <==> o.Failed?
    ensures r.body.JObject? && "success" in r.body.fields
    ensures r.body.fields["success"] == JBool(r.status == 201)
    ensures o.Rejected? ==> r.body.fields.Keys == {"success", "error"} && r.body.fields["error"] == JStr(o.error)
    ensures o.Accepted? ==> && r.body.fields.Keys == {"success", "applicationId", "message", "data"}
                            && r.body.fields["applicationId"] == JStr(o.applicationId)
                            && r.body.fields["data"] == JObject(o.data)
                            && r.body.fields["message"] == JStr("Application submitted successfully")
    ensures o.Failed? ==> && r.body.fields.Keys == {"success", "error", "message"}
                          && r.body.fields["error"] == JStr("Internal server error")
                          && r.body.fields["message"] == JStr("Failed to submit application")
  {
    match o
    case Rejected(e) =>
      Response(400, JObject(map["success" := JBool(false), "error" := JStr(e)]))
    case Failed =>
      Response(500, JObject(map["success" := JBool(false), "error" := JStr("Internal server error"),
                                "message" := JStr("Failed to submit application")]))
    case Accepted(id, data) =>
      Response(201, JObject(map["success" := JBool(true), "applicationId" := JStr(id),
                                "message" := JStr("Application submitted successfully"),
                                "data" := JObject(data)]))
  }

  /** A body that cannot be parsed, or parses to `null`, gets a 500. */
  lemma BrokenBodyFails(now: nat, suffix: string, appliedAt: string)
    ensures Submit(Unparseable, now, suffix, appliedAt) == Failed
    ensures Submit(Parsed(JNull), now, suffix, appliedAt) == Failed
  {
  }

  /** A body that is neither an object nor `null` lacks every field, so the
      first one is reported. */
  lemma NonObjectBodyRejected(v: Json, now: nat, suffix: string, appliedAt: string)
    requires v != JNull && !v.JObject?
    ensures Submit(Parsed(v), now, suffix, appliedAt) == Rejected("firstName is required")
  {
  }

  /** Required fields are checked in order: when the `k`-th is the first
      that is not present, it alone decides the answer: 400 "<field> is
      required" when missing or blank, 500 when it is a non-string. */
  lemma FirstFailingFieldReported(m: map<string, Json>, k: nat, now: nat, suffix: string, appliedAt: string)
    requires k < |RequiredFields|
    requires forall i :: 0 <= i < k ==> Status(Lookup(m, RequiredFields[i])).Present?
    requires !Status(Lookup(m, RequiredFields[k])).Present?
    ensures Submit(Parsed(JObject(m)), now, suffix, appliedAt)
            == FailureOf(RequiredFields[k], Status(Lookup(m, RequiredFields[k])))
  {
    CheckRequiredFirst(m, RequiredFields, k);
  }

  /** What is sent when field k is the first one missing or blank: 400
      with the error "<field> is required". */
  lemma MissingFieldResponse(m: map<string, Json>, k: nat, now: nat, suffix: string, appliedAt: string)
    requires k < |RequiredFields|
    requires forall i :: 0 <= i < k ==> Status(Lookup(m, RequiredFields[i])).Present?
    requires Status(Lookup(m, RequiredFields[k])).Missing?
    ensures var r := Respond(Submit(Parsed(JObject(m)), now, suffix, appliedAt));
            r.status == 400 && r.body.fields["error"] == JStr(RequiredFields[k] + " is required")
  {
    FirstFailingFieldReported(m, k, now, suffix, appliedAt);
  }

  /** A string of white space counts as missing, like an absent value;
      a truthy value of any other type makes the handler throw. */
  lemma FieldStatusCases(s: string, v: Json)
    ensures Status(Some(JStr(s))) == Missing <==> AllSpace(s)
    ensures Status(None) == Missing
    ensures !Truthy(v) ==> Status(Some(v)) == Missing
    ensures Truthy(v) && !v.JStr? ==> Status(Some(v)) == Throws
  {
    BlankIffTrimEmpty(s);
  }

  /** Once every field is present, the e-mail is checked: the answer is
      "Invalid email format" exactly when the address does not match the
      anchored pattern. */
  lemma EmailCheckedAfterFields(m: map<string, Json>, now: nat, suffix: string, appliedAt: string)
    requires AllPresent(m)
    ensures Submit(Parsed(JObject(m)), now, suffix, appliedAt) == Rejected(InvalidEmail)
            <==> !AnchoredMatch(StrField(m, "email"))
  {
    ServerEmailOkIff(StrField(m, "email"));
  }

  /** After the e-mail passes, the untrimmed length of the cover letter
      decides: below 50 code units is rejected, 50 or more is accepted. */
  lemma CoverLetterLengthDecides(m: map<string, Json>, now: nat, suffix: string, appliedAt: string)
    requires AllPresent(m) && ServerEmailOk(StrField(m, "email"))
    ensures Submit(Parsed(JObject(m)), now, suffix, appliedAt) == Rejected(ShortCoverLetter)
            <==> Utf16Length(StrField(m, "coverLetter")) < MinCoverLetter
    ensures Submit(Parsed(JObject(m)), now, suffix, appliedAt).Accepted?
            <==> Utf16Length(StrField(m, "coverLetter")) >= MinCoverLetter
  {
  }

  /** The handler accepts exactly the objects whose six fields are
      non-blank strings, whose e-mail matches the anchored pattern and whose
      cover letter has at least 50 code units. */
  lemma AcceptedIff(v: Json, now: nat, suffix: string, appliedAt: string)
    ensures Submit(Parsed(v), now, suffix, appliedAt).Accepted?
            <==> && v.JObject?
                 && AllPresent(v.fields)
                 && AnchoredMatch(StrField(v.fields, "email"))
                 && Utf16Length(StrField(v.fields, "coverLetter")) >= MinCoverLetter
  {
    if v.JObject? {
      ServerEmailOkIff(StrField(v.fields, "email"));
    }
    if v != JNull && !v.JObject? {
      NonObjectBodyRejected(v, now, suffix, appliedAt);
    } else if v.JObject? {
      ObjectAcceptedIff(v.fields, now, suffix, appliedAt);
    }
  }

  lemma ObjectAcceptedIff(m: map<string, Json>, now: nat, suffix: string, appliedAt: string)
    ensures Submit(Parsed(JObject(m)), now, suffix, appliedAt).Accepted?
            <==> && AllPresent(m)
                 && ServerEmailOk(StrField(m, "email"))
                 && Utf16Length(StrField(m, "coverLetter")) >= MinCoverLetter
  {
    assert Props(JObject(m)) == m;
    if !AllPresent(m) {
      assert CheckRequired(m, RequiredFields).Some?;
    }
  }

  /** A cover letter of ten visible characters padded with forty spaces is
      long enough for the handler. */
  lemma PaddedCoverLetterPasses(m: map<string, Json>, now: nat, suffix: string, appliedAt: string)
    requires AllPresent(m) && ServerEmailOk(StrField(m, "email"))
    requires StrField(m, "coverLetter") == "0123456789" + seq(40, _ => ' ')
    ensures Submit(Parsed(JObject(m)), now, suffix, appliedAt).Accepted?
  {
  }

  /** `length` counts UTF-16 code units: 25 astral characters, such as
      U+1F600, make a cover letter of 50 and pass. */
  lemma AstralCoverLetterPasses(m: map<string, Json>, now: nat, suffix: string, appliedAt: string)
    requires AllPresent(m) && ServerEmailOk(StrField(m, "email"))
    requires StrField(m, "coverLetter") == seq(25, _ => '\U{1F600}')
    ensures Submit(Parsed(JObject(m)), now, suffix, appliedAt).Accepted?
  {
    assert IsAstral('\U{1F600}');
  }

  /** The stored record: every payload field except `appliedAt` and
      `status` is copied; `status` is "pending"; `appliedAt` is the server's
      time stamp; `id` is the generated id unless the payload has its own. */
  lemma AcceptedRecord(m: map<string, Json>, now: nat, suffix: string, appliedAt: string)
    requires Submit(Parsed(JObject(m)), now, suffix, appliedAt).Accepted?
    ensures var o := Submit(Parsed(JObject(m)), now, suffix, appliedAt);
            && o.applicationId == ApplicationId(now, suffix)
            && o.data.Keys == m.Keys + {"id", "appliedAt", "status"}
            && (forall k :: k in m && k != "appliedAt" && k != "status" ==> o.data[k] == m[k])
            && o.data["status"] == JStr("pending")
            && o.data["appliedAt"] == JStr(appliedAt)
            && o.data["id"] == (if "id" in m then m["id"] else JStr(o.applicationId))
  {
    var id := ApplicationId(now, suffix);
    assert CheckRequired(m, RequiredFields).None?;
    assert Submit(Parsed(JObject(m)), now, suffix, appliedAt) == Accepted(id, Record(m, id, appliedAt));
    RecordFields(m, id, appliedAt);
  }

  /** What the spread order of the record means for each key. */
  lemma RecordFields(m: map<string, Json>, id: string, appliedAt: string)
    ensures var r := Record(m, id, appliedAt);
            && (forall k :: k in m && k != "appliedAt" && k != "status" ==> r[k] == m[k])
            && r["status"] == JStr("pending")
            && r["appliedAt"] == JStr(appliedAt)
            && r["id"] == (if "id" in m && "id" != "appliedAt" && "id" != "status" then m["id"] else JStr(id))
  {
  }

  /** Different clock readings or suffixes give different ids: the clock
      part is all digits, so the `_` after it marks where it ends. */
  lemma ApplicationIdInjective(n1: nat, s1: string, n2: nat, s2: string)
    requires ApplicationId(n1, s1) == ApplicationId(n2, s2)
    ensures n1 == n2 && s1 == s2
  {
    var d1, d2 := NatToDecimal(n1), NatToDecimal(n2);
    var t1, t2 := d1 + "_" + s1, d2 + "_" + s2;
    assert ApplicationId(n1, s1) == "APP_" + t1;
    assert ApplicationId(n2, s2) == "APP_" + t2;
    assert t1 == ApplicationId(n1, s1)[4..];
    assert t2 == ApplicationId(n2, s2)[4..];
    DigitsThenMark(d1, s1, d2, s2);
    DecimalInjective(n1, n2);
  }

  /** A digit string followed by `_` can be split back uniquely. */
  lemma DigitsThenMark(d1: string, s1: string, d2: string, s2: string)
    requires AllDigits(d1) && AllDigits(d2)
    requires d1 + "_" + s1 == d2 + "_" + s2
    ensures d1 == d2 && s1 == s2
  {
    var t := d1 + "_" + s1;
    MarkPosition(d1, s1);
    MarkPosition(d2, s2);
    if |d1| == |d2| {
      assert d1 == t[..|d1|] == d2;
      assert s1 == t[|d1| + 1..] == s2;
    }
  }

  /** In `d + "_" + s` the mark sits at `|d|`, and a digit string puts no
      mark before it. */
  lemma MarkPosition(d: string, s: string)
    ensures (d + "_" + s)[|d|] == '_'
    ensures AllDigits(d) ==> forall k :: 0 <= k < |d| ==> (d + "_" + s)[k] != '_'
  {
  }
}
