/**
 * The controls of the contact form (script.js:116-118, 136-139) and the two
 * whole-form operations the handler uses on them: reading every value, as
 * `Object.fromEntries(new FormData(form))` does (lines 161, 186), and
 * `form.reset()` (line 183).
 */
module FormFields {
  import opened Wrappers

  /** A control: the value it holds now, and the default value that a reset
      restores (for an input, its `value` attribute; for a select, its
      default-selected option). */
  datatype Control = Control(value: string, initial: string)

  /** The named controls the script looks up. `Website` is the honeypot;
      `SubmittedAt` and `ReplyTo` are the two hidden inputs. */
  datatype FieldName = Name | Email | Topic | Message | Website | SubmittedAt | ReplyTo

  const AllFields: set<FieldName> := {Name, Email, Topic, Message, Website, SubmittedAt, ReplyTo}

  /** Each control, absent when the page does not contain it. */
  datatype Fields = Fields(
    name: Option<Control>,
    email: Option<Control>,
    topic: Option<Control>,
    message: Option<Control>,
    website: Option<Control>,
    submittedAt: Option<Control>,
    replyTo: Option<Control>)
  {
    function Get(k: FieldName): Option<Control> {
      match k
      case Name => name
      case Email => email
      case Topic => topic
      case Message => message
      case Website => website
      case SubmittedAt => submittedAt
      case ReplyTo => replyTo
    }
  }

  lemma AllFieldsComplete(k: FieldName)
    ensures k in AllFields
  {
  }

  /** The submitted entries: one per control present, holding its current value. */
  function Snapshot(f: Fields): (m: map<FieldName, string>)
    ensures forall k :: k in m <==> f.Get(k).Some?
    ensures forall k :: k in m ==> m[k] == f.Get(k).value.value
  {
    forall k ensures k in AllFields { AllFieldsComplete(k); }
    map k | k in AllFields && f.Get(k).Some? :: f.Get(k).value.value
  }

  function ResetControl(c: Option<Control>): Option<Control> {
    match c
    case None => None
    case Some(Control(_, initial)) => Some(Control(initial, initial))
  }

  /** `form.reset()`: every control present goes back to its default value. */
  function Reset(f: Fields): (r: Fields)
    ensures forall k :: r.Get(k).Some? <==> f.Get(k).Some?
    ensures forall k :: r.Get(k).Some? ==> r.Get(k) == Some(Control(f.Get(k).value.initial, f.Get(k).value.initial))
  {
    Fields(ResetControl(f.name), ResetControl(f.email), ResetControl(f.topic), ResetControl(f.message),
      ResetControl(f.website), ResetControl(f.submittedAt), ResetControl(f.replyTo))
  }

  /** Resetting twice is resetting once: a reset control already holds its
      default. */
  lemma ResetIdempotent(f: Fields)
    ensures Reset(Reset(f)) == Reset(f)
  {
  }

  /** The entries read right after a reset are the defaults of the controls
      present. */
  lemma SnapshotAfterReset(f: Fields)
    ensures forall k :: k in Snapshot(Reset(f)) <==> f.Get(k).Some?
    ensures forall k :: k in Snapshot(Reset(f)) ==> Snapshot(Reset(f))[k] == f.Get(k).value.initial
  {
  }

  /** The entries depend only on which controls are present and what they
      hold now, never on their defaults. */
  lemma SnapshotIgnoresDefaults(f: Fields, g: Fields)
    requires forall k :: f.Get(k).Some? <==> g.Get(k).Some?
    requires forall k :: f.Get(k).Some? ==> f.Get(k).value.value == g.Get(k).value.value
    ensures Snapshot(f) == Snapshot(g)
  {
  }
}
