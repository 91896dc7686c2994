/**
 * The four checks the submit handler makes before sending (script.js:140-145)
 * and where it moves the focus when they fail (line 151).
 */
module Validation {
  import opened Wrappers
  import opened JsText
  import opened EmailCheck
  import opened FormFields

  /** The four judgments of one attempt. */
  datatype Checks = Checks(name: bool, email: bool, topic: bool, message: bool) {
    predicate Passed() {
      name && email && topic && message
    }
  }

  /** A control that exists and whose trimmed value is longer than `n` UTF-16
      code units; a missing control never passes. */
  predicate LongerThan(c: Option<Control>, n: nat) {
    c.Some? && Utf16Length(Trim(c.value.value)) > n
  }

  /** A control that exists and whose trimmed value is an e-mail address. */
  predicate EmailOk(c: Option<Control>) {
    c.Some? && IsValidEmail(Trim(c.value.value))
  }

  function Validate(f: Fields): Checks {
    Checks(LongerThan(f.name, 1), EmailOk(f.email), LongerThan(f.topic, 0), LongerThan(f.message, 5))
  }

  /** Validation passes exactly when all four controls exist, the trimmed
      name is longer than one code unit, the topic is not blank, the trimmed
      message is longer than five, and the trimmed e-mail matches the pattern. */
  lemma ValidationPassesIff(f: Fields)
    ensures Validate(f).Passed() <==>
      && f.name.Some? && f.email.Some? && f.topic.Some? && f.message.Some?
      && Utf16Length(Trim(f.name.value.value)) > 1
      && MatchesPattern(Trim(f.email.value.value))
      && Utf16Length(Trim(f.topic.value.value)) > 0
      && Utf16Length(Trim(f.message.value.value)) > 5
  {
    if f.email.Some? {
      ValidEmailIffPattern(Trim(f.email.value.value));
    }
  }

  /** The order in which the handler looks for a control to focus. */
  const FocusOrder: seq<FieldName> := [Name, Email, Topic, Message]

  /** The first control of `order` that exists. */
  function FirstPresent(f: Fields, order: seq<FieldName>): (r: Option<FieldName>)
    ensures r.None? <==> forall i :: 0 <= i < |order| ==> f.Get(order[i]).None?
    ensures r.Some? ==>
      exists i :: 0 <= i < |order| && order[i] == r.value && f.Get(r.value).Some? &&
        (forall j :: 0 <= j < i ==> f.Get(order[j]).None?)
  {
    if order == [] then None
    else if f.Get(order[0]).Some? then Some(order[0])
    else
      var r := FirstPresent(f, order[1..]);
      assert forall i :: 1 <= i < |order| ==> order[i] == order[1..][i - 1];
      r
  }

  /** `(nameField || emailField || topicField || messageField)?.focus()`: the
      first of the four controls that EXISTS, whether or not it passed. */
  function FocusTarget(f: Fields): Option<FieldName> {
    FirstPresent(f, FocusOrder)
  }

  lemma NameJoPasses()
    ensures LongerThan(Some(Control("Jo", "")), 1)
  {
    TrimKeepsUnspaced("Jo");
    assert Utf16Length("Jo") == 2;
  }

  lemma EmailJoFails()
    ensures !EmailOk(Some(Control("jo@", "")))
  {
    TrimKeepsUnspaced("jo@");
    assert IndexOf("jo@", '@') == 2;
  }

  /** A form whose name is fine and whose e-mail is not: the focus still goes
      to the name control, not to the e-mail control that failed. */
  lemma FocusIsNotFirstInvalid()
    ensures var f := Fields(Some(Control("Jo", "")), Some(Control("jo@", "")), None, None, None, None, None);
      && Validate(f).name && !Validate(f).email
      && FocusTarget(f) == Some(Name)
  {
    NameJoPasses();
    EmailJoFails();
  }
}
