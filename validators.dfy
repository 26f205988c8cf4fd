/** Request validation for the admin update endpoint
    (src/api/admin/announcement-bar/validators.ts): the object schema with its
    defaults and position enum, the three cross-field refinements, and the
    middleware that stores the parsed body on the request. */
module Validators {
  import opened JsValues
  import opened Framework

  const DefaultBackgroundColor: string := "#F68C2C"

  const TextRequiredMessage: string := "Text is required when enabled is true"
  const InvalidColorMessage: string := "Background color must be a valid hex color"
  const InvalidRangeMessage: string := "Invalid date time range"

  datatype Position = TopSticky | TopAbsolute | BottomSticky | BottomAbsolute

  function PositionName(p: Position): string
  {
    match p
    case TopSticky => "top-sticky"
    case TopAbsolute => "top-absolute"
    case BottomSticky => "bottom-sticky"
    case BottomAbsolute => "bottom-absolute"
  }

  /** The position enum: exactly the four names are accepted. */
  function ParsePosition(s: string): (r: Option<Position>)
    ensures r.Some? ==> PositionName(r.value) == s
    ensures forall p :: PositionName(p) == s ==> r == Some(p)
  {
    if s == "top-sticky" then Some(TopSticky)
    else if s == "top-absolute" then Some(TopAbsolute)
    else if s == "bottom-sticky" then Some(BottomSticky)
    else if s == "bottom-absolute" then Some(BottomAbsolute)
    else None
  }

  /** A parsed, defaulted update body. Absent optional fields are None;
      dates are time values in milliseconds. */
  datatype Config = Config(
    enabled: Option<bool>,
    text: Option<string>,
    backgroundColor: string,
    linkUrl: Option<string>,
    position: Position,
    dismissible: bool,
    startDateTime: Option<int>,
    endDateTime: Option<int>)

  predicate IsHexDigit(c: char)
  {
    '0' <= c <= '9' || 'a' <= c <= 'f' || 'A' <= c <= 'F'
  }

  predicate AllHex(d: string)
  {
    forall i | 0 <= i < |d| :: IsHexDigit(d[i])
  }

  /** A run of exactly n hex digits: one alternative of the colour pattern. */
  predicate HexRun(d: string, n: nat)
  {
    |d| == n && AllHex(d)
  }

  /** The colour pattern: '#' followed by a run of 3, 4, 6 or 8 hex digits,
      anchored at both ends. */
  predicate IsHexRgba(s: string)
  {
    |s| > 0 && s[0] == '#' &&
    (HexRun(s[1..], 3) || HexRun(s[1..], 4) || HexRun(s[1..], 6) || HexRun(s[1..], 8))
  }

  /** The range check: invalid only when both ends are present and the start
      is not strictly before the end. */
  predicate IsDateTimeRangeValid(start: Option<int>, end: Option<int>)
  {
    !(start.Some? && end.Some? && start.value >= end.value)
  }

  // ---------------------------------------------------------------------------
  // The object schema, field by field

  /** The outcome of one field of the schema. */
  datatype Parsed<+T> = Valid(val: T) | Invalid(issue: Issue)

  function TypeIssue(key: string, expected: string): Issue
  {
    Issue(key, InvalidType, "Expected " + expected)
  }

  function IssueOf<T>(p: Parsed<T>): (r: seq<Issue>)
    ensures r == [] <==> p.Valid?
  {
    if p.Invalid? then [p.issue] else []
  }

  function OptionalBoolean(body: Metadata, key: string): (r: Parsed<Option<bool>>)
    ensures r.Invalid? ==> key in body && r.issue.path == key
  {
    if key !in body then Valid(None)
    else if body[key].Bool? then Valid(Some(body[key].b))
    else Invalid(TypeIssue(key, "boolean"))
  }

  function BooleanWithDefault(body: Metadata, key: string, default: bool): (r: Parsed<bool>)
    ensures r.Invalid? ==> key in body && r.issue.path == key
  {
    if key !in body then Valid(default)
    else if body[key].Bool? then Valid(body[key].b)
    else Invalid(TypeIssue(key, "boolean"))
  }

  function OptionalString(body: Metadata, key: string): (r: Parsed<Option<string>>)
    ensures r.Invalid? ==> key in body && r.issue.path == key
  {
    if key !in body then Valid(None)
    else if body[key].Str? then Valid(Some(body[key].s))
    else Invalid(TypeIssue(key, "string"))
  }

  function StringWithDefault(body: Metadata, key: string, default: string): (r: Parsed<string>)
    ensures r.Invalid? ==> key in body && r.issue.path == key
  {
    if key !in body then Valid(default)
    else if body[key].Str? then Valid(body[key].s)
    else Invalid(TypeIssue(key, "string"))
  }

  function PositionWithDefault(body: Metadata): (r: Parsed<Position>)
    ensures r.Invalid? ==> "position" in body && r.issue.path == "position"
  {
    if "position" !in body then Valid(TopSticky)
    else if !body["position"].Str? then Invalid(TypeIssue("position", "string"))
    else match ParsePosition(body["position"].s)
      case Some(p) => Valid(p)
      case None => Invalid(Issue("position", InvalidEnumValue, "Invalid enum value"))
  }

  /** A coerced date: an absent key stays absent; anything else goes through
      `new Date(...)` and is refused when that is an invalid date. */
  function CoercedDate(body: Metadata, key: string, parse: DateParser): (r: Parsed<Option<int>>)
    ensures r.Invalid? ==> key in body && r.issue.path == key
  {
    if key !in body then Valid(None)
    else match NewDate(body[key], parse)
      case Some(t) => Valid(Some(t))
      case None => Invalid(Issue(key, InvalidDate, "Invalid date"))
  }

  /** Every present configuration key holds a value its field accepts: a
      boolean, a string, one of the four positions, or something `new Date`
      turns into a valid date. Absent keys are always accepted. */
  predicate WellTyped(m: Metadata, parse: DateParser)
  {
    && ("enabled" in m ==> m["enabled"].Bool?)
    && ("text" in m ==> m["text"].Str?)
    && ("backgroundColor" in m ==> m["backgroundColor"].Str?)
    && ("linkUrl" in m ==> m["linkUrl"].Str?)
    && ("position" in m ==> m["position"].Str? && ParsePosition(m["position"].s).Some?)
    && ("dismissible" in m ==> m["dismissible"].Bool?)
    && ("startDateTime" in m ==> NewDate(m["startDateTime"], parse).Some?)
    && ("endDateTime" in m ==> NewDate(m["endDateTime"], parse).Some?)
  }

  /** The base object schema: every field is checked, each failure gives one
      issue, and the defaults fill absent colour, position and dismissible. */
  function ParseShape(body: Value, parse: DateParser): (r: Result<Config, seq<Issue>>)
    ensures r.Failure? ==> |r.error| > 0
    ensures r.Success? <==> body.Obj? && WellTyped(body.fields, parse)
    ensures r.Failure? && body.Obj? ==> forall issue :: issue in r.error ==> issue.path in body.fields
    ensures r.Success? ==> DatesInRange(r.value)
    // each present field is carried as given, each absent one is absent or defaulted
    ensures r.Success? ==>
              r.value.enabled == if "enabled" in body.fields then Some(body.fields["enabled"].b) else None
    ensures r.Success? ==>
              r.value.text == if "text" in body.fields then Some(body.fields["text"].s) else None
    ensures r.Success? ==>
              r.value.backgroundColor ==
                if "backgroundColor" in body.fields then body.fields["backgroundColor"].s else DefaultBackgroundColor
    ensures r.Success? ==>
              r.value.linkUrl == if "linkUrl" in body.fields then Some(body.fields["linkUrl"].s) else None
    ensures r.Success? ==>
              r.value.position ==
                if "position" in body.fields then ParsePosition(body.fields["position"].s).value else TopSticky
    ensures r.Success? ==>
              r.value.dismissible == if "dismissible" in body.fields then body.fields["dismissible"].b else true
    ensures r.Success? ==>
              r.value.startDateTime ==
                if "startDateTime" in body.fields then NewDate(body.fields["startDateTime"], parse) else None
    ensures r.Success? ==>
              r.value.endDateTime ==
                if "endDateTime" in body.fields then NewDate(body.fields["endDateTime"], parse) else None
  {
    match body
    case Obj(m) =>
      var enabled := OptionalBoolean(m, "enabled");
      var text := OptionalString(m, "text");
      var color := StringWithDefault(m, "backgroundColor", DefaultBackgroundColor);
      var link := OptionalString(m, "linkUrl");
      var position := PositionWithDefault(m);
      var dismissible := BooleanWithDefault(m, "dismissible", true);
      var start := CoercedDate(m, "startDateTime", parse);
      var end := CoercedDate(m, "endDateTime", parse);
      var issues := IssueOf(enabled) + IssueOf(text) + IssueOf(color) + IssueOf(link)
                  + IssueOf(position) + IssueOf(dismissible) + IssueOf(start) + IssueOf(end);
      if issues != [] then Failure(issues)
      else Success(Config(enabled.val, text.val, color.val, link.val, position.val,
                          dismissible.val, start.val, end.val))
    case _ => Failure([TypeIssue("", "object")])
  }

  predicate InRange(t: Option<int>)
  {
    t.Some? ==> -MaxTime <= t.value <= MaxTime
  }

  /** Every date of a config is a valid JavaScript time value. */
  predicate DatesInRange(c: Config)
  {
    InRange(c.startDateTime) && InRange(c.endDateTime)
  }

  // ---------------------------------------------------------------------------
  // The refinements

  /** Rule 1 is broken: enabled is exactly true and the text is absent or empty. */
  predicate TextMissing(c: Config)
  {
    c.enabled == Some(true) && (c.text.None? || c.text.value == "")
  }

  /** Rule 2 is broken: a non-empty colour that is not a hex colour. */
  predicate ColorMalformed(c: Config)
  {
    c.backgroundColor != "" && !IsHexRgba(c.backgroundColor)
  }

  /** Rule 3 is broken: both dates present and the start not before the end. */
  predicate RangeInverted(c: Config)
  {
    !IsDateTimeRangeValid(c.startDateTime, c.endDateTime)
  }

  /** The configuration invariants the validator promises. */
  predicate WellFormed(c: Config)
  {
    !TextMissing(c) && !ColorMalformed(c) && !RangeInverted(c)
  }

  function Paths(issues: seq<Issue>): (r: seq<string>)
    ensures |r| == |issues|
  {
    seq(|issues|, i requires 0 <= i < |issues| => issues[i].path)
  }

  /** The order in which the refinements report. */
  function Rank(path: string): nat
  {
    if path == "text" then 0 else if path == "backgroundColor" then 1 else 2
  }

  /** The cross-field refinement: all three checks run, each adding its own issue. */
  function Refine(c: Config): (r: seq<Issue>)
    ensures |r| <= 3
    ensures "text" in Paths(r) <==> TextMissing(c)
    ensures "backgroundColor" in Paths(r) <==> ColorMalformed(c)
    ensures "startDateTime" in Paths(r) <==> RangeInverted(c)
    ensures forall i :: 0 <= i < |r| ==>
              r[i] in {Issue("text", Custom, TextRequiredMessage),
                       Issue("backgroundColor", Custom, InvalidColorMessage),
                       Issue("startDateTime", Custom, InvalidRangeMessage)}
    ensures forall i, j :: 0 <= i < j < |r| ==> Rank(r[i].path) < Rank(r[j].path)
    ensures r == [] <==> WellFormed(c)
  {
    var text := if TextMissing(c) then [Issue("text", Custom, TextRequiredMessage)] else [];
    var color := if ColorMalformed(c) then [Issue("backgroundColor", Custom, InvalidColorMessage)] else [];
    var range := if RangeInverted(c) then [Issue("startDateTime", Custom, InvalidRangeMessage)] else [];
    assert Paths(text) == if TextMissing(c) then ["text"] else [];
    assert Paths(color) == if ColorMalformed(c) then ["backgroundColor"] else [];
    assert Paths(range) == if RangeInverted(c) then ["startDateTime"] else [];
    assert Paths(text + color + range) == Paths(text) + Paths(color) + Paths(range);
    text + color + range
  }

  /** The refined schema: the shape first (refinements do not run when a
      field fails its type), then the refinements. */
  function Validate(body: Value, parse: DateParser): (r: Result<Config, seq<Issue>>)
    ensures r.Success? ==> WellFormed(r.value) && DatesInRange(r.value)
    ensures r.Failure? ==> |r.error| > 0
    ensures r.Success? <==> ParseShape(body, parse).Success? && WellFormed(ParseShape(body, parse).value)
    ensures r.Success? ==> r == ParseShape(body, parse)
    ensures ParseShape(body, parse).Failure? ==> r == ParseShape(body, parse)
    ensures ParseShape(body, parse).Success? && r.Failure? ==> r.error == Refine(ParseShape(body, parse).value)
  {
    match ParseShape(body, parse)
    case Failure(issues) => Failure(issues)
    case Success(c) =>
      var issues := Refine(c);
      if issues == [] then Success(c) else Failure(issues)
  }

  // ---------------------------------------------------------------------------
  // The parsed body as a JavaScript object

  /** The value the parsed body holds under one of the configuration keys,
      None where the field is absent. */
  function FieldValue(c: Config, key: string): Option<Value>
  {
    match key
    case "enabled" => if c.enabled.Some? then Some(Bool(c.enabled.value)) else None
    case "text" => if c.text.Some? then Some(Str(c.text.value)) else None
    case "backgroundColor" => Some(Str(c.backgroundColor))
    case "linkUrl" => if c.linkUrl.Some? then Some(Str(c.linkUrl.value)) else None
    case "position" => Some(Str(PositionName(c.position)))
    case "dismissible" => Some(Bool(c.dismissible))
    case "startDateTime" => if c.startDateTime.Some? then Some(Date(c.startDateTime.value)) else None
    case "endDateTime" => if c.endDateTime.Some? then Some(Date(c.endDateTime.value)) else None
    case _ => None
  }

  /** The parsed body as the object the workflow receives: only present fields
      are keys; dates are Date objects. */
  function ToRecord(c: Config): (r: Metadata)
    ensures r.Keys <= ConfigKeys
    ensures "backgroundColor" in r && "position" in r && "dismissible" in r
    ensures "enabled" in r <==> c.enabled.Some?
    ensures "text" in r <==> c.text.Some?
    ensures "linkUrl" in r <==> c.linkUrl.Some?
    ensures "startDateTime" in r <==> c.startDateTime.Some?
    ensures "endDateTime" in r <==> c.endDateTime.Some?
    ensures forall k :: k in r ==> Some(r[k]) == FieldValue(c, k)
  {
    map k | k in ConfigKeys && FieldValue(c, k).Some? :: FieldValue(c, k).value
  }

  // ---------------------------------------------------------------------------
  // Properties

  lemma DefaultColorIsHex()
    ensures IsHexRgba(DefaultBackgroundColor)
  {
  }

  /** A colour is accepted exactly when it is '#' and 3, 4, 6 or 8 hex digits. */
  lemma HexColorShape(d: string)
    ensures IsHexRgba("#" + d) <==> (|d| == 3 || |d| == 4 || |d| == 6 || |d| == 8) && AllHex(d)
  {
  }

  /** Without a leading '#' nothing is a colour. */
  lemma NoHashNoColor(s: string)
    requires |s| == 0 || s[0] != '#'
    ensures !IsHexRgba(s)
  {
  }

  /** Five or seven digits, a missing '#', and trailing characters are refused. */
  lemma RejectedColors()
    ensures !IsHexRgba("#12345")
    ensures !IsHexRgba("#1234567")
    ensures !IsHexRgba("F68C2C")
    ensures !IsHexRgba("#F68C2C ")
    ensures !IsHexRgba("#GGG")
  {
    assert !IsHexDigit("#GGG"[1]);
    assert !IsHexDigit("#F68C2C "[7]);
  }

  /** Two dates form a valid range exactly when the start is strictly before
      the end (equal instants are refused); a missing date is always valid. */
  lemma RangeBoundaries(s: int, e: int, o: Option<int>)
    ensures IsDateTimeRangeValid(Some(s), Some(e)) <==> s < e
    ensures IsDateTimeRangeValid(o, None) && IsDateTimeRangeValid(None, o)
  {
  }

  /** Where the colour key is absent, the default applies and no colour issue
      can arise. */
  lemma AbsentColorNeverFails(body: Value, parse: DateParser)
    requires body.Obj? && "backgroundColor" !in body.fields
    ensures Validate(body, parse).Failure? ==> "backgroundColor" !in Paths(Validate(body, parse).error)
    ensures Validate(body, parse).Success? ==>
              Validate(body, parse).value.backgroundColor == DefaultBackgroundColor
  {
    var shape := ParseShape(body, parse);
    if shape.Success? {
      DefaultColorIsHex();
      assert !ColorMalformed(shape.value);
    } else {
      forall i | 0 <= i < |shape.error|
        ensures Paths(shape.error)[i] != "backgroundColor"
      {
        assert shape.error[i] in shape.error;
      }
    }
  }

  /** A text issue is raised exactly when enabled is true and the text is
      absent or empty: enabled false or absent never raises one. */
  lemma TextIssueExactly(body: Value, parse: DateParser)
    requires ParseShape(body, parse).Success?
    ensures (Validate(body, parse).Failure? && "text" in Paths(Validate(body, parse).error))
            <==> TextMissing(ParseShape(body, parse).value)
  {
  }

  /** A position outside the four enum values is refused. */
  lemma UnknownPositionRefused(body: Value, parse: DateParser)
    requires body.Obj? && "position" in body.fields && body.fields["position"].Str?
    requires ParsePosition(body.fields["position"].s).None?
    ensures Validate(body, parse).Failure?
    ensures Issue("position", InvalidEnumValue, "Invalid enum value") in Validate(body, parse).error
  {
  }

  /** A schedule key holding a string that is not a date is refused with an
      invalid-date issue on that key. */
  lemma InvalidDateRefused(m: Metadata, key: string, s: string, parse: DateParser)
    requires key == "startDateTime" || key == "endDateTime"
    requires parse(s).None?
    ensures Validate(Obj(m[key := Str(s)]), parse).Failure?
    ensures Issue(key, InvalidDate, "Invalid date") in Validate(Obj(m[key := Str(s)]), parse).error
  {
  }

  /** Reading the parsed body back as an object gives the same config: the
      object the workflow receives carries exactly what was validated. */
  lemma ShapeOfRecord(c: Config, parse: DateParser)
    requires DatesInRange(c)
    ensures ParseShape(Obj(ToRecord(c)), parse) == Success(c)
  {
  }

  /** Validation is idempotent: a validated body validates again to itself. */
  lemma RevalidateIsIdentity(body: Value, parse: DateParser)
    requires Validate(body, parse).Success?
    ensures Validate(Obj(ToRecord(Validate(body, parse).value)), parse) == Validate(body, parse)
  {
    ShapeOfRecord(Validate(body, parse).value, parse);
  }

  // ---------------------------------------------------------------------------
  // The middleware

  /** The parts of an incoming request the middleware reads and writes;
      `nextCalls` counts how often the middleware handed the request on. */
  class Request {
    var body: Value
    var validatedBody: Option<Config>
    var nextCalls: nat

    constructor (body: Value)
      ensures this.body == body && validatedBody.None? && nextCalls == 0
    {
      this.body := body;
      validatedBody := None;
      nextCalls := 0;
    }
  }

  /** On failure raises INVALID_DATA carrying the issues and never calls next;
      on success stores the parsed, defaulted body and calls next once. */
  method ValidateAnnouncementBarDto(req: Request, parse: DateParser) returns (r: Outcome<MedusaError>)
    modifies req
    ensures req.body == old(req.body)
    ensures Validate(req.body, parse).Failure? ==>
              && r == Fail(MedusaError(InvalidData, Issues(Validate(req.body, parse).error)))
              && req.validatedBody == old(req.validatedBody)
              && req.nextCalls == old(req.nextCalls)
    ensures Validate(req.body, parse).Success? ==>
              && r == Pass
              && req.validatedBody == Some(Validate(req.body, parse).value)
              && req.nextCalls == old(req.nextCalls) + 1
  {
    var result := Validate(req.body, parse);
    if result.Failure? {
      return Fail(MedusaError(InvalidData, Issues(result.error)));
    }
    req.validatedBody := Some(result.value);
    req.nextCalls := req.nextCalls + 1;
    r := Pass;
  }
}
