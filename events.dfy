/** The calendar event record (src/features/events/types.js). Start and end
    are instants in minutes (see module Time). */
module EventModel {

  datatype EventType = Class | Work | Study | Biological | Personal | Suggestion

  datatype Event = Event(
    title: string,
    kind: EventType,
    startTime: int,
    endTime: int,
    isFixed: bool,
    isTentative: bool,
    description: string)

  /** The data-model invariant of a stored event: it ends after it starts. */
  predicate WellFormedEvent(e: Event) {
    e.startTime < e.endTime
  }
}

/** `validateEventData` (src/features/events/services/eventsService.js): the
    check run on an event before it is saved. */
module EventValidation {
  import opened Optional
  import opened EventModel

  /** The fields of an event being saved, each possibly absent. */
  datatype EventDraft = EventDraft(
    title: Option<string>,
    kind: Option<EventType>,
    startTime: Option<int>,
    endTime: Option<int>)

  /** The four error messages, in the order the checks run. */
  datatype ValidationError = TitleRequired | TypeRequired | DatesRequired | EndNotAfterStart

  /** The message text pushed for each error. */
  function Message(e: ValidationError): string {
    match e
    case TitleRequired => "El t\U{ED}tulo es obligatorio"
    case TypeRequired => "El tipo de evento es obligatorio"
    case DatesRequired => "Las fechas de inicio y fin son obligatorias"
    case EndNotAfterStart => "La hora de fin debe ser posterior a la hora de inicio"
  }

  /** The message texts of a list of errors, in the same order. */
  function Messages(errors: seq<ValidationError>): (texts: seq<string>)
    ensures |texts| == |errors|
    ensures forall i :: 0 <= i < |errors| ==> texts[i] == Message(errors[i])
  {
    if errors == [] then [] else [Message(errors[0])] + Messages(errors[1..])
  }

  /** Position of an error among the checks. */
  function Rank(e: ValidationError): nat {
    match e
    case TitleRequired => 0
    case TypeRequired => 1
    case DatesRequired => 2
    case EndNotAfterStart => 3
  }

  /** Characters that `String.prototype.trim` removes: the ECMAScript
      white-space and line-terminator code points. */
  predicate IsTrimmed(c: char) {
    || c == ' ' || c == '\t' || c == '\n' || c == '\r'
    || c == '\U{000B}' || c == '\U{000C}' || c == '\U{00A0}' || c == '\U{1680}'
    || ('\U{2000}' <= c <= '\U{200A}')
    || c == '\U{2028}' || c == '\U{2029}' || c == '\U{202F}' || c == '\U{205F}'
    || c == '\U{3000}' || c == '\U{FEFF}'
  }

  /** `s.trim() === ''`: the text is empty or all white space. */
  predicate Blank(s: string) {
    forall i :: 0 <= i < |s| ==> IsTrimmed(s[i])
  }

  /** The title check fails for an absent, empty or white-space title. */
  predicate TitleMissing(d: EventDraft) {
    d.title.None? || Blank(d.title.value)
  }

  predicate DatesMissing(d: EventDraft) {
    d.startTime.None? || d.endTime.None?
  }

  predicate EndsTooEarly(d: EventDraft) {
    d.startTime.Some? && d.endTime.Some? && d.endTime.value <= d.startTime.value
  }

  /** The errors the checks push, in check order. */
  function Errors(d: EventDraft): seq<ValidationError> {
    (if TitleMissing(d) then [TitleRequired] else [])
    + (if d.kind.None? then [TypeRequired] else [])
    + (if DatesMissing(d) then [DatesRequired] else [])
    + (if EndsTooEarly(d) then [EndNotAfterStart] else [])
  }

  /** Each error is reported exactly when its check fails, the errors come
      in check order, and a draft has at most three of them (missing dates
      and an end before the start exclude each other). */
  lemma {:induction false} ErrorsSpec(d: EventDraft)
    ensures TitleRequired in Errors(d) <==> TitleMissing(d)
    ensures TypeRequired in Errors(d) <==> d.kind.None?
    ensures DatesRequired in Errors(d) <==> DatesMissing(d)
    ensures EndNotAfterStart in Errors(d) <==> EndsTooEarly(d)
    ensures forall i, j :: 0 <= i < j < |Errors(d)| ==> Rank(Errors(d)[i]) < Rank(Errors(d)[j])
    ensures |Errors(d)| <= 3
  {
    var errors := Errors(d);
    assert forall i :: 0 <= i < |errors| ==> errors[i] in errors;
  }

  /** The four checks of the validator, in order, each pushing its error
      when it fails. */
  method PushErrors(d: EventDraft) returns (errors: seq<ValidationError>)
    ensures errors == Errors(d)
  {
    errors := [];
    if TitleMissing(d) {
      errors := errors + [TitleRequired];
    }
    if d.kind.None? {
      errors := errors + [TypeRequired];
    }
    if DatesMissing(d) {
      errors := errors + [DatesRequired];
    }
    if EndsTooEarly(d) {
      errors := errors + [EndNotAfterStart];
    }
  }

  /** `validateEventData`: the draft is valid exactly when no check failed.
      Together, the membership and ordering clauses determine the error
      list; `texts` is the list of message strings the source returns, one
      per error. */
  method ValidateEventData(d: EventDraft)
    returns (isValid: bool, errors: seq<ValidationError>, texts: seq<string>)
    ensures isValid <==> errors == []
    ensures |texts| == |errors| && forall i :: 0 <= i < |errors| ==> texts[i] == Message(errors[i])
    ensures TitleRequired in errors <==> TitleMissing(d)
    ensures TypeRequired in errors <==> d.kind.None?
    ensures DatesRequired in errors <==> DatesMissing(d)
    ensures EndNotAfterStart in errors <==> EndsTooEarly(d)
    ensures forall i, j :: 0 <= i < j < |errors| ==> Rank(errors[i]) < Rank(errors[j])
    ensures |errors| <= 3
  {
    errors := PushErrors(d);
    ErrorsSpec(d);
    texts := Messages(errors);
    isValid := |errors| == 0;
  }
}
