/**
 * The decorative-mode preference (script.js:65-91): decided once at load
 * from the body's `data-decorative` attribute or the stored value, applied to
 * the body class and the checkbox, and written back to storage on every
 * change.
 */
module Decor {
  import opened Wrappers

  /** The storage key the preference lives under. */
  const StorageKey: string := "statycal-decor"

  /** What `localStorage.getItem` does: give the stored string (`None` for
      null), or throw. */
  datatype StorageRead = Returned(value: Option<string>) | Threw

  /** The stored form of a preference. */
  function Encode(enabled: bool): string {
    if enabled then "on" else "off"
  }

  /** `initialDecorPref` (lines 75-83). */
  function InitialPreference(attr: Option<string>, read: StorageRead): bool {
    if attr == Some("on") then true
    else if attr == Some("off") then false
    else match read
      case Returned(v) => v == Some("on")
      case Threw => false
  }

  /** The body class `decorative-on`, the checkbox (absent when the page has
      none) and the stored string. */
  datatype DecorState = DecorState(bodyOn: bool, checkbox: Option<bool>, stored: Option<string>)

  /** `setDecor` (lines 65-73); `storageOk` is whether `setItem` succeeds. */
  function SetDecor(s: DecorState, enabled: bool, storageOk: bool): DecorState {
    DecorState(
      enabled,
      if s.checkbox.Some? then Some(enabled) else None,
      if storageOk then Some(Encode(enabled)) else s.stored)
  }

  /** The attribute decides whenever it is "on" or "off", whatever storage
      holds or does. */
  lemma AttributeWins(attr: Option<string>, read: StorageRead)
    ensures attr == Some("on") ==> InitialPreference(attr, read)
    ensures attr == Some("off") ==> !InitialPreference(attr, read)
  {
  }

  /** Otherwise the preference is on exactly when storage returns "on": a
      missing value, any other string, or a throw gives off. */
  lemma StorageDecidesOtherwise(attr: Option<string>, read: StorageRead)
    requires attr != Some("on") && attr != Some("off")
    ensures InitialPreference(attr, read) <==> read == Returned(Some("on"))
  {
  }

  /** Round trip: what `setDecor` stores is read back as the same preference
      by a later load without a deciding attribute. */
  lemma SetThenLoadRoundTrip(s: DecorState, enabled: bool, attr: Option<string>)
    requires attr != Some("on") && attr != Some("off")
    ensures InitialPreference(attr, Returned(SetDecor(s, enabled, true).stored)) == enabled
  {
  }

  /** `setDecor` makes the body class and the checkbox agree with its
      argument, and when storage refuses the write the stored value stays. */
  lemma SetDecorApplies(s: DecorState, enabled: bool, storageOk: bool)
    ensures var r := SetDecor(s, enabled, storageOk);
      && r.bodyOn == enabled
      && (r.checkbox.Some? <==> s.checkbox.Some?)
      && (r.checkbox.Some? ==> r.checkbox.value == enabled)
      && (!storageOk ==> r.stored == s.stored)
  {
  }

  /** The body, the checkbox and the stored preference. */
  class Preference {
    var bodyOn: bool
    var checkbox: Option<bool>
    var stored: Option<string>

    function State(): DecorState
      reads this
    {
      DecorState(bodyOn, checkbox, stored)
    }

    /** Page load (lines 75-85): the preference is decided and applied at
        once. `readOk` and `writeOk` say whether the read and the write of
        storage succeed. */
    constructor Load(initial: DecorState, attr: Option<string>, readOk: bool, writeOk: bool)
      ensures State() == SetDecor(initial, InitialPreference(attr, if readOk then Returned(initial.stored) else Threw), writeOk)
    {
      bodyOn, checkbox, stored := initial.bodyOn, initial.checkbox, initial.stored;
      new;
      var read := if readOk then Returned(stored) else Threw;
      Set(InitialPreference(attr, read), writeOk);
    }

    method Set(enabled: bool, storageOk: bool)
      modifies this
      ensures State() == SetDecor(old(State()), enabled, storageOk)
    {
      bodyOn := enabled;
      if checkbox.Some? {
        checkbox := Some(enabled);
      }
      if storageOk {
        stored := Some(Encode(enabled));
      }
    }

    /** The checkbox's change listener (lines 87-91), attached only when the
        checkbox exists; `checked` is its state after the user's click. */
    method OnChange(checked: bool, storageOk: bool)
      modifies this
      ensures State() == if old(checkbox).Some? then SetDecor(old(State()).(checkbox := Some(checked)), checked, storageOk) else old(State())
    {
      if checkbox.None? {
        return;
      }
      checkbox := Some(checked);
      Set(checked, storageOk);
    }
  }
}
