/**
 * What one submit event does, stated about `Submission.Attempt`: the silent
 * guard, the validation failure, the single status note, the order of the
 * side effects on the send path, and the two outcomes.
 */
module SubmissionProperties {
  import opened Wrappers
  import opened JsText
  import opened FormFields
  import opened Validation
  import opened Submission

  /** Whether the silent guard stops the attempt. */
  predicate Trips(s: FormState, cfg: Config, now: int) {
    || (s.fields.website.Some? && s.fields.website.value.value != "")
    || now - cfg.loadTime < MinFillTime
    || s.button.None?
  }

  /** An attempt that got past the guard and validation. */
  predicate SendsRequest(s: FormState, cfg: Config, now: int) {
    !Trips(s, cfg, now) && Validate(s.fields).Passed()
  }

  /** The request the send path issues: the form's values after stamping. */
  function RequestOf(s: FormState, cfg: Config, at: string): Request {
    Request(cfg.endpoint, cfg.httpMethod, Snapshot(Stamp(s.fields, at)))
  }

  /** The user-editable controls, that is, all but the two hidden ones. */
  predicate IsVisibleField(k: FieldName) {
    k != SubmittedAt && k != ReplyTo
  }

  /** The events the stamping step records. */
  function StampEvents(f: Fields, at: string): seq<Event> {
    (if f.submittedAt.Some? then [StampedTime(at)] else []) +
    (if WritesReplyTo(f) then [StampedReplyTo(Trim(f.email.value.value))] else [])
  }

  /** How many requests a trace records. */
  function Sends(t: seq<Event>): nat {
    if t == [] then 0 else (if t[0].Sent? then 1 else 0) + Sends(t[1..])
  }

  lemma {:induction false} SendsAppend(a: seq<Event>, b: seq<Event>)
    ensures Sends(a + b) == Sends(a) + Sends(b)
  {
    if a == [] {
      assert a + b == b;
    } else {
      assert (a + b)[1..] == a[1..] + b;
      SendsAppend(a[1..], b);
    }
  }

  lemma LogStampsAppends(t: seq<Event>, f: Fields, at: string)
    ensures LogStamps(t, f, at) == t + StampEvents(f, at)
    ensures Sends(StampEvents(f, at)) == 0
  {
    var time: seq<Event> := if f.submittedAt.Some? then [StampedTime(at)] else [];
    var reply: seq<Event> := if WritesReplyTo(f) then [StampedReplyTo(Trim(f.email.value.value))] else [];
    assert Sends(time) == 0 && Sends(reply) == 0;
    SendsAppend(time, reply);
  }

  /** The guard: a filled honeypot, a submit less than 1000 ms after load, or
      a missing button ends the attempt with nothing changed at all: no note,
      no focus move, no stamp, no request, no record. Otherwise the attempt
      is not ignored. */
  lemma GuardIsSilent(s: FormState, cfg: Config, now: int, at: string, net: NetResult, storageOk: bool)
    ensures var r := Attempt(s, cfg, now, at, net, storageOk);
      && (r.outcome.Ignored? <==> Trips(s, cfg, now))
      && (Trips(s, cfg, now) ==> r.state == s)
  {
  }

  /** Validation failure: outcome `Rejected` exactly when the guard passes and
      a check fails; then one error note with the fixed text replaces the
      first old note, the focus goes to the first control that exists, and the
      controls, the button, the record and the trace are untouched. */
  lemma RejectedAttempt(s: FormState, cfg: Config, now: int, at: string, net: NetResult, storageOk: bool)
    ensures var r := Attempt(s, cfg, now, at, net, storageOk);
      r.outcome == Rejected <==> !Trips(s, cfg, now) && !Validate(s.fields).Passed()
    ensures var r := Attempt(s, cfg, now, at, net, storageOk);
      r.outcome == Rejected ==>
        && r.state.notes == RemoveFirstStatus(s.notes) + [Incomplete(IncompleteText)]
        && r.state.notes[|r.state.notes| - 1].IsError()
        && r.state.focus == (if FocusTarget(s.fields).Some? then FocusTarget(s.fields) else s.focus)
        && r.state.fields == s.fields
        && r.state.button == s.button
        && r.state.lastLead == s.lastLead
        && r.state.trace == s.trace
  {
  }

  /** Status uniqueness: an attempt past the guard removes at most one old
      note and appends exactly one, as the last. */
  lemma OneNotePerAttempt(s: FormState, cfg: Config, now: int, at: string, net: NetResult, storageOk: bool)
    requires !Trips(s, cfg, now)
    ensures var r := Attempt(s, cfg, now, at, net, storageOk);
      && |r.state.notes| == |RemoveFirstStatus(s.notes)| + 1
      && r.state.notes[..|r.state.notes| - 1] == RemoveFirstStatus(s.notes)
      && (|s.notes| <= 1 ==> |r.state.notes| == 1)
  {
    var r := Attempt(s, cfg, now, at, net, storageOk);
    var kept := RemoveFirstStatus(s.notes);
    assert r.state.notes == kept + [r.state.notes[|r.state.notes| - 1]];
  }

  /** So a form with at most one note keeps at most one, whatever happens. */
  lemma AtMostOneNote(s: FormState, cfg: Config, now: int, at: string, net: NetResult, storageOk: bool)
    requires |s.notes| <= 1
    ensures |Attempt(s, cfg, now, at, net, storageOk).state.notes| <= 1
  {
    if !Trips(s, cfg, now) {
      OneNotePerAttempt(s, cfg, now, at, net, storageOk);
    }
  }

  /** Two attempts that both pass the guard, whatever their outcomes, leave
      exactly one note, the second replacing the first. */
  lemma TwoAttemptsLeaveOneNote(s: FormState, cfg: Config, now1: int, at1: string, net1: NetResult, ok1: bool,
                                now2: int, at2: string, net2: NetResult, ok2: bool)
    requires |s.notes| <= 1
    requires !Trips(s, cfg, now1)
    ensures var r1 := Attempt(s, cfg, now1, at1, net1, ok1).state;
      !Trips(r1, cfg, now2) ==> |Attempt(r1, cfg, now2, at2, net2, ok2).state.notes| == 1
  {
    var r1 := Attempt(s, cfg, now1, at1, net1, ok1).state;
    OneNotePerAttempt(s, cfg, now1, at1, net1, ok1);
    if !Trips(r1, cfg, now2) {
      OneNotePerAttempt(r1, cfg, now2, at2, net2, ok2);
    }
  }

  /** Unfolding `Attempt` into its three paths, for the lemmas below. */
  lemma AttemptDispatch(s: FormState, cfg: Config, now: int, at: string, net: NetResult, storageOk: bool)
    ensures Attempt(s, cfg, now, at, net, storageOk) ==
      if Trips(s, cfg, now) then Step(s, Attempt(s, cfg, now, at, net, storageOk).outcome)
      else if !Validate(s.fields).Passed() then Reject(s.(notes := RemoveFirstStatus(s.notes)))
      else Send(s.(notes := RemoveFirstStatus(s.notes)), cfg, at, net, storageOk)
  {
  }

  /** How an attempt ends, from its inputs alone: ignored exactly when the
      guard trips, rejected exactly when the guard passes and a check fails,
      delivered exactly when a request went out and the response was ok, and
      not delivered exactly when a request went out and it was not. */
  lemma OutcomeClassification(s: FormState, cfg: Config, now: int, at: string, net: NetResult, storageOk: bool)
    ensures var o := Attempt(s, cfg, now, at, net, storageOk).outcome;
      && (o.Ignored? <==> Trips(s, cfg, now))
      && (o == Rejected <==> !Trips(s, cfg, now) && !Validate(s.fields).Passed())
      && (o == Delivered <==> SendsRequest(s, cfg, now) && Accepted(net))
      && (o == NotDelivered <==> SendsRequest(s, cfg, now) && !Accepted(net))
  {
    AttemptDispatch(s, cfg, now, at, net, storageOk);
  }

  /** The send path, in order: the hidden controls are written, the button is
      disabled and labelled 'Sending...', one request carrying the stamped
      values goes out while it is so, and the button is enabled again with the
      label 'Send request', whatever the request gave. */
  lemma SendOrdering(s: FormState, cfg: Config, at: string, net: NetResult, storageOk: bool)
    ensures var r := Send(s, cfg, at, net, storageOk);
      && r.state.trace == s.trace + StampEvents(s.fields, at) + [ButtonSet(Button(true, "Sending...")), Sent(RequestOf(s, cfg, at)), ButtonSet(Button(false, "Send request"))]
      && r.state.button == Some(Button(false, "Send request"))
      && r.state.focus == s.focus
  {
    LogStampsAppends(s.trace, s.fields, at);
  }

  /** The request carries every visible control's value as it was, the
      timestamp when its control exists, and the trimmed e-mail when the
      reply-to control exists. */
  lemma RequestCarriesStamps(s: FormState, cfg: Config, at: string)
    ensures var body := RequestOf(s, cfg, at).body;
      && (s.fields.submittedAt.Some? ==> SubmittedAt in body && body[SubmittedAt] == at)
      && (WritesReplyTo(s.fields) ==> ReplyTo in body && body[ReplyTo] == Trim(s.fields.email.value.value))
      && (forall k :: IsVisibleField(k) ==> (k in body <==> s.fields.Get(k).Some?))
      && (forall k :: IsVisibleField(k) && k in body ==> body[k] == s.fields.Get(k).value.value)
  {
  }

  /** The send path issues exactly one request. */
  lemma SendIssuesOneRequest(s: FormState, cfg: Config, at: string, net: NetResult, storageOk: bool)
    ensures Sends(Send(s, cfg, at, net, storageOk).state.trace) == Sends(s.trace) + 1
  {
    var e := StampEvents(s.fields, at);
    var tail := [ButtonSet(Button(true, SendingLabel)), Sent(RequestOf(s, cfg, at)), ButtonSet(Button(false, SendLabel))];
    SendOrdering(s, cfg, at, net, storageOk);
    LogStampsAppends(s.trace, s.fields, at);
    SendsAppend(s.trace + e, tail);
    SendsAppend(s.trace, e);
    assert Sends(tail) == 1 by {
      var request := RequestOf(s, cfg, at);
      var idle := ButtonSet(Button(false, SendLabel));
      assert [idle][1..] == [];
      assert Sends([idle]) == 0;
      assert [Sent(request), idle][1..] == [idle];
      assert Sends([Sent(request), idle]) == 1;
      assert tail[1..] == [Sent(request), idle];
    }
  }

  /** Exactly one request per attempt that passes the guard and validation,
      none otherwise. */
  lemma RequestCount(s: FormState, cfg: Config, now: int, at: string, net: NetResult, storageOk: bool)
    ensures var r := Attempt(s, cfg, now, at, net, storageOk);
      Sends(r.state.trace) == Sends(s.trace) + (if SendsRequest(s, cfg, now) then 1 else 0)
  {
    AttemptDispatch(s, cfg, now, at, net, storageOk);
    if SendsRequest(s, cfg, now) {
      SendIssuesOneRequest(s, cfg, at, net, storageOk);
    }
  }

  /** After a reset of the stamped controls every control that exists is at
      its default, and the timestamp control keeps the stamp, which is now its
      default. */
  lemma ResetAfterStamp(f: Fields, at: string)
    ensures var r := Reset(Stamp(f, at));
      && (forall k :: f.Get(k).Some? ==> r.Get(k).Some? && r.Get(k).value.value == r.Get(k).value.initial)
      && (f.submittedAt.Some? ==> r.submittedAt == Some(Control(at, at)))
  {
    var stamped := Stamp(f, at);
    assert forall k :: f.Get(k).Some? ==> stamped.Get(k).Some?;
  }

  /** Success is exactly `response.ok`. On success every control is back at
      its default (the hidden ones keep their stamp, which is now their
      default), a non-error note is added, and the record is overwritten with
      the request's values when storage works and left alone when it does
      not. */
  lemma Delivery(s: FormState, cfg: Config, at: string, net: NetResult, storageOk: bool)
    ensures var r := Send(s, cfg, at, net, storageOk);
      r.outcome == Delivered <==> Accepted(net)
    ensures var r := Send(s, cfg, at, net, storageOk);
      r.outcome == Delivered ==>
        && r.state.fields == Reset(Stamp(s.fields, at))
        && (forall k :: s.fields.Get(k).Some? ==> r.state.fields.Get(k).value.value == r.state.fields.Get(k).value.initial)
        && (s.fields.submittedAt.Some? ==> r.state.fields.submittedAt == Some(Control(at, at)))
        && r.state.notes == s.notes + [Received]
        && !r.state.notes[|r.state.notes| - 1].IsError()
        && r.state.lastLead == (if storageOk then Some(RequestOf(s, cfg, at).body) else s.lastLead)
  {
    ResetAfterStamp(s.fields, at);
  }

  /** Failure (a status outside 200-299 or a throw): the user's input stays as
      it was, the record is untouched, and an error note with the mail
      fallback link is added. */
  lemma NonDelivery(s: FormState, cfg: Config, at: string, net: NetResult, storageOk: bool)
    requires !Accepted(net)
    ensures var r := Send(s, cfg, at, net, storageOk);
      && r.outcome == NotDelivered
      && r.state.fields == Stamp(s.fields, at)
      && (forall k :: IsVisibleField(k) ==> r.state.fields.Get(k) == s.fields.Get(k))
      && r.state.lastLead == s.lastLead
      && r.state.notes == s.notes + [Retry(cfg.mailto)]
      && r.state.notes[|r.state.notes| - 1].IsError()
  {
  }

  /** Storage that refuses the write changes nothing but the record. */
  lemma StorageOnlyAffectsRecord(s: FormState, cfg: Config, now: int, at: string, net: NetResult)
    ensures var up := Attempt(s, cfg, now, at, net, true);
      Attempt(s, cfg, now, at, net, false) == Step(up.state.(lastLead := s.lastLead), up.outcome)
  {
  }

  /** The record is written only after the server accepted the request. */
  lemma RecordOnlyAfterAcceptance(s: FormState, cfg: Config, now: int, at: string, net: NetResult, storageOk: bool)
    ensures var r := Attempt(s, cfg, now, at, net, storageOk);
      r.state.lastLead != s.lastLead ==> r.outcome == Delivered && Accepted(net) && storageOk
  {
  }

  /** A status of 200 is a success and 500 a failure, as is a throw. */
  lemma StatusExamples()
    ensures Accepted(Responded(200)) && Accepted(Responded(299))
    ensures !Accepted(Responded(500)) && !Accepted(Responded(300)) && !Accepted(Threw)
  {
  }
}
