/**
 * The contact form's submit handler (script.js:113-197).
 *
 * The page is replaced by explicit state (the controls, the submit button,
 * the `.form-status` notes in document order, the focused control, the stored
 * last-lead record and a trace of the handler's side effects) and the browser
 * by inputs: the clock reading, the ISO-8601 text of the stamp, the result of
 * the one `fetch`, and whether `localStorage` accepts the write.
 *
 * `Attempt` says what one submit event does; `ContactForm.Submit` does it
 * step by step, as the handler does, and is proved to agree with `Attempt`.
 */
module Submission {
  import opened Wrappers
  import opened JsText
  import opened FormFields
  import opened Validation

  /** Submits earlier than this many milliseconds after the form was set up
      are ignored. */
  const MinFillTime: int := 1000
  const IncompleteText: string := "Please complete name, a valid work email, topic, and a short message."
  const SendingLabel: string := "Sending..."
  const SendLabel: string := "Send request"
  const DefaultMailto: string := "mailto:hello@statycal.com?subject=Consultation%20request"
  const DefaultMethod: string := "POST"

  datatype Button = Button(disabled: bool, text: string)

  /** A `.form-status` paragraph. Every kind has role `status`; the two
      failure kinds also carry the class `error`, and the transport-failure
      note links to the mail fallback. */
  datatype Note = Incomplete(text: string) | Received | Retry(mailto: string) {
    predicate IsError() {
      !Received?
    }
  }

  datatype Request = Request(endpoint: string, httpMethod: string, body: map<FieldName, string>)

  /** Side effects of the handler, in the order they happen. `ButtonSet`
      records the button's state after the handler writes `disabled` and
      `textContent`. */
  datatype Event =
    | StampedTime(at: string)
    | StampedReplyTo(address: string)
    | ButtonSet(button: Button)
    | Sent(request: Request)

  /** What `await fetch(...)` gives: a response with a status, or a throw. */
  datatype NetResult = Responded(status: int) | Threw

  /** `response.ok`: a response whose status is in 200-299. */
  predicate Accepted(net: NetResult) {
    net.Responded? && 200 <= net.status <= 299
  }

  datatype GuardReason = Honeypot | TooSoon | NoButton

  datatype Outcome = Ignored(reason: GuardReason) | Rejected | Delivered | NotDelivered

  /** What the script fixes when the form is set up (lines 119-121, 166). */
  datatype Config = Config(loadTime: int, mailto: string, endpoint: string, httpMethod: string)

  datatype FormState = FormState(
    fields: Fields,
    button: Option<Button>,
    notes: seq<Note>,
    focus: Option<FieldName>,
    lastLead: Option<map<FieldName, string>>,
    trace: seq<Event>)

  datatype Step = Step(state: FormState, outcome: Outcome)

  /** JavaScript's `a || b` for a string that may be missing: a missing or
      empty `a` gives `b`. */
  function OrElse(a: Option<string>, b: string): string {
    if a.Some? && a.value != "" then a.value else b
  }

  function Configure(loadTime: int, mailtoAttr: Option<string>, endpointAttr: Option<string>,
                     action: string, methodProp: string): Config
  {
    Config(loadTime, OrElse(mailtoAttr, DefaultMailto), OrElse(endpointAttr, action),
      OrElse(Some(methodProp), DefaultMethod))
  }

  /** The silent guard (lines 125-132): a filled honeypot, a submit too soon
      after load, or no submit button stops the handler before it touches
      anything. */
  function GuardReasonOf(s: FormState, cfg: Config, now: int): Option<GuardReason> {
    if s.fields.website.Some? && s.fields.website.value.value != "" then Some(Honeypot)
    else if now - cfg.loadTime < MinFillTime then Some(TooSoon)
    else if s.button.None? then Some(NoButton)
    else None
  }

  /** Removing the first `.form-status` element, if there is one (133-134). */
  function RemoveFirstStatus(notes: seq<Note>): seq<Note> {
    if |notes| > 0 then notes[1..] else notes
  }

  /** Whether line 156 writes the reply-to control. */
  predicate WritesReplyTo(f: Fields) {
    f.replyTo.Some? && f.email.Some?
  }

  /** Writing the hidden controls (155-156). Setting the value of a hidden
      input sets its `value` attribute, so the written value is also the one
      a reset restores. */
  function Stamp(f: Fields, at: string): Fields {
    var address := if f.email.Some? then Trim(f.email.value.value) else "";
    f.(submittedAt := if f.submittedAt.Some? then Some(Control(at, at)) else None,
       replyTo := if WritesReplyTo(f) then Some(Control(address, address)) else f.replyTo)
  }

  /** The trace after the hidden controls are written: one event per write. */
  function LogStamps(trace: seq<Event>, f: Fields, at: string): seq<Event> {
    var t := if f.submittedAt.Some? then trace + [StampedTime(at)] else trace;
    if WritesReplyTo(f) then t + [StampedReplyTo(Trim(f.email.value.value))] else t
  }

  /** One submit event: the new state and how the attempt ended. `now` is
      `Date.now()`, `at` the text of `new Date().toISOString()`, `net` the
      result of the request and `storageOk` whether the record write
      succeeds. */
  function Attempt(s: FormState, cfg: Config, now: int, at: string, net: NetResult, storageOk: bool): Step {
    var reason := GuardReasonOf(s, cfg, now);
    if reason.Some? then Step(s, Ignored(reason.value))
    else
      var cleared := s.(notes := RemoveFirstStatus(s.notes));
      if !Validate(s.fields).Passed() then Reject(cleared)
      else Send(cleared, cfg, at, net, storageOk)
  }

  /** Lines 146-152: an error note is added and the focus moves to the first
      control that exists. */
  function Reject(s: FormState): Step {
    var focus := if FocusTarget(s.fields).Some? then FocusTarget(s.fields) else s.focus;
    Step(s.(notes := s.notes + [Incomplete(IncompleteText)], focus := focus), Rejected)
  }

  /** Lines 155-196: stamp, disable, send, enable, then settle on the
      response. */
  function Send(s: FormState, cfg: Config, at: string, net: NetResult, storageOk: bool): Step {
    var notes := s.notes;
    var stamped := Stamp(s.fields, at);
    var request := Request(cfg.endpoint, cfg.httpMethod, Snapshot(stamped));
    var sending := Button(true, SendingLabel);
    var idle := Button(false, SendLabel);
    var trace := LogStamps(s.trace, s.fields, at) + [ButtonSet(sending)] + [Sent(request)] + [ButtonSet(idle)];
    var button := Some(idle);
    if Accepted(net) then
      var lead := if storageOk then Some(request.body) else s.lastLead;
      Step(FormState(Reset(stamped), button, notes + [Received], s.focus, lead, trace), Delivered)
    else
      Step(FormState(stamped, button, notes + [Retry(cfg.mailto)], s.focus, s.lastLead, trace), NotDelivered)
  }

  /** The form element and what the handler can see and change. */
  class ContactForm {
    const config: Config
    var fields: Fields
    var button: Option<Button>
    var notes: seq<Note>
    var focus: Option<FieldName>
    var lastLead: Option<map<FieldName, string>>
    var trace: seq<Event>

    function State(): FormState
      reads this
    {
      FormState(fields, button, notes, focus, lastLead, trace)
    }

    /** Setting up the form (lines 115-121): the clock is read once, and the
        mail fallback, the endpoint and the method resolve to their override
        when it is set and not empty. */
    constructor (initial: FormState, loadTime: int, mailtoAttr: Option<string>,
                 endpointAttr: Option<string>, action: string, methodProp: string)
      ensures State() == initial
      ensures config.loadTime == loadTime
      ensures config.mailto == (if mailtoAttr.Some? && mailtoAttr.value != "" then mailtoAttr.value else DefaultMailto)
      ensures config.endpoint == (if endpointAttr.Some? && endpointAttr.value != "" then endpointAttr.value else action)
      ensures config.httpMethod == (if methodProp != "" then methodProp else DefaultMethod)
    {
      config := Configure(loadTime, mailtoAttr, endpointAttr, action, methodProp);
      fields, button, notes := initial.fields, initial.button, initial.notes;
      focus, lastLead, trace := initial.focus, initial.lastLead, initial.trace;
    }

    /** Lines 133-134: the first `.form-status` element goes, if there is one. */
    method RemoveStatus()
      modifies this`notes
      ensures notes == RemoveFirstStatus(old(notes))
    {
      if |notes| > 0 {
        notes := notes[1..];
      }
    }

    /** Lines 155-156: the hidden controls are written, when they exist. */
    method StampHidden(at: string)
      modifies this`fields, this`trace
      ensures fields == Stamp(old(fields), at)
      ensures trace == LogStamps(old(trace), old(fields), at)
    {
      if fields.submittedAt.Some? {
        fields := fields.(submittedAt := Some(Control(at, at)));
        trace := trace + [StampedTime(at)];
      }
      if fields.replyTo.Some? && fields.email.Some? {
        var address := Trim(fields.email.value.value);
        fields := fields.(replyTo := Some(Control(address, address)));
        trace := trace + [StampedReplyTo(address)];
      }
    }

    /** Lines 155-196: the part of the listener after validation, up to and
        including the final note. */
    method SendRequest(at: string, net: NetResult, storageOk: bool) returns (outcome: Outcome)
      modifies this
      ensures Step(State(), outcome) == Send(old(State()), config, at, net, storageOk)
    {
      StampHidden(at);

      var sending := Button(true, SendingLabel);
      button := Some(sending);
      trace := trace + [ButtonSet(sending)];

      var data := Snapshot(fields);
      var request := Request(config.endpoint, config.httpMethod, data);
      trace := trace + [Sent(request)];
      var success := false;
      match net {
        case Responded(status) => success := 200 <= status <= 299;
        case Threw => success := false;
      }

      var idle := Button(false, SendLabel);
      button := Some(idle);
      trace := trace + [ButtonSet(idle)];

      if success {
        fields := Reset(fields);
        if storageOk {
          lastLead := Some(data);
        }
        notes := notes + [Received];
        outcome := Delivered;
      } else {
        notes := notes + [Retry(config.mailto)];
        outcome := NotDelivered;
      }
    }

    /** The submit listener, with its single `await` replaced by `net`. */
    method Submit(now: int, at: string, net: NetResult, storageOk: bool) returns (outcome: Outcome)
      modifies this
      ensures Step(State(), outcome) == Attempt(old(State()), config, now, at, net, storageOk)
    {
      if fields.website.Some? && fields.website.value.value != "" {
        return Ignored(Honeypot);
      }
      if now - config.loadTime < MinFillTime {
        return Ignored(TooSoon);
      }
      if button.None? {
        return Ignored(NoButton);
      }
      RemoveStatus();

      var checks := Validate(fields);
      if !checks.Passed() {
        notes := notes + [Incomplete(IncompleteText)];
        var target := FocusTarget(fields);
        if target.Some? {
          focus := target;
        }
        return Rejected;
      }

      outcome := SendRequest(at, net, storageOk);
    }
  }
}
