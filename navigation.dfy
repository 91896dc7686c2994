/**
 * The collapsible navigation menu (script.js:7-51): one boolean, the `open`
 * class on the nav element, mirrored by the toggle's `aria-expanded`
 * attribute, driven by a click on the toggle, a click anywhere in the
 * document, the Escape key and a click on a link inside the menu.
 */
module Navigation {
  import opened Wrappers

  /** Which of the looked-up elements the page has. */
  datatype Page = Page(hasNav: bool, hasToggle: bool, hasLink: bool) {
    /** Both elements exist: only then are the listeners attached and do
        `openNav`/`closeNav` act. */
    predicate Wired() {
      hasNav && hasToggle
    }
  }

  /** Where the script last moved the focus. */
  datatype Focus = Elsewhere | FirstLink | ToggleButton

  datatype NavState = NavState(open: bool, expanded: Option<string>, focus: Focus)

  /** Where a click landed: inside the nav, inside the toggle (either, both or
      neither). */
  datatype Target = Target(inNav: bool, inToggle: bool)

  /** `aria-expanded` says "true" when the menu is open and "false" when not. */
  predicate Mirrored(s: NavState) {
    s.expanded == Some(if s.open then "true" else "false")
  }

  /** `closeNav` (lines 7-11). */
  function CloseNav(p: Page, s: NavState): NavState {
    if !p.Wired() then s else s.(open := false, expanded := Some("false"))
  }

  /** `openNav` (lines 13-19): also focuses the first link of the menu, if it
      has one. */
  function OpenNav(p: Page, s: NavState): NavState {
    if !p.Wired() then s
    else s.(open := true, expanded := Some("true"), focus := if p.hasLink then FirstLink else s.focus)
  }

  /** The toggle's click listener (lines 22-29). */
  function ToggleClick(p: Page, s: NavState): NavState {
    if !p.Wired() then s
    else if s.open then CloseNav(p, s)
    else OpenNav(p, s)
  }

  /** The document's click listener (lines 31-37); `None` is an event without
      a target. */
  function DocumentClick(p: Page, s: NavState, target: Option<Target>): NavState {
    if !p.Wired() || target.None? then s
    else if s.open && !target.value.inNav && !target.value.inToggle then CloseNav(p, s)
    else s
  }

  /** The document's keydown listener (lines 39-44). */
  function KeyDown(p: Page, s: NavState, key: string): NavState {
    if p.Wired() && key == "Escape" && s.open then CloseNav(p, s).(focus := ToggleButton)
    else s
  }

  /** A click on a link inside the menu (lines 47-51). */
  function LinkClick(p: Page, s: NavState): NavState {
    if p.hasNav then CloseNav(p, s) else s
  }

  /** Every operation that acts leaves `aria-expanded` mirroring `open`, and
      the ones that do not act keep a mirrored state mirrored. */
  lemma OperationsKeepMirror(p: Page, s: NavState, target: Option<Target>, key: string)
    requires p.Wired() || Mirrored(s)
    ensures Mirrored(CloseNav(p, s)) && Mirrored(OpenNav(p, s)) && Mirrored(ToggleClick(p, s))
    ensures Mirrored(s) ==> Mirrored(DocumentClick(p, s, target)) && Mirrored(KeyDown(p, s, key))
    ensures Mirrored(LinkClick(p, s))
  {
  }

  /** So `aria-expanded` is "true" exactly when the menu is open. */
  lemma MirroredMeansExpandedIffOpen(s: NavState)
    requires Mirrored(s)
    ensures s.expanded == Some("true") <==> s.open
  {
  }

  lemma CloseNavIdempotent(p: Page, s: NavState)
    ensures CloseNav(p, CloseNav(p, s)) == CloseNav(p, s)
  {
  }

  /** A click on the toggle flips the menu. */
  lemma ToggleFlips(p: Page, s: NavState)
    requires p.Wired()
    ensures ToggleClick(p, s).open == !s.open
  {
  }

  /** Two clicks on the toggle bring the menu back to where it was. */
  lemma ToggleTwiceRestoresOpen(p: Page, s: NavState)
    ensures ToggleClick(p, ToggleClick(p, s)).open == s.open
  {
  }

  /** Escape and an outside click only ever close the menu, and change
      nothing when it is already closed. */
  lemma EscapeAndOutsideOnlyClose(p: Page, s: NavState, target: Option<Target>, key: string)
    ensures !s.open ==> KeyDown(p, s, key) == s && DocumentClick(p, s, target) == s
    ensures KeyDown(p, s, key).open ==> KeyDown(p, s, key) == s
    ensures DocumentClick(p, s, target).open ==> DocumentClick(p, s, target) == s
  {
  }

  /** Escape on an open menu closes it and focuses the toggle; a click
      outside both elements closes it. */
  lemma EscapeAndOutsideClose(p: Page, s: NavState)
    requires p.Wired() && s.open
    ensures KeyDown(p, s, "Escape") == NavState(false, Some("false"), ToggleButton)
    ensures DocumentClick(p, s, Some(Target(false, false))) == s.(open := false, expanded := Some("false"))
  {
  }

  /** A click on the toggle also reaches the document listener, which leaves
      what the toggle did alone. */
  lemma ToggleClickBubbles(p: Page, s: NavState, inNav: bool)
    ensures DocumentClick(p, ToggleClick(p, s), Some(Target(inNav, true))) == ToggleClick(p, s)
  {
  }

  /** Without the nav or the toggle, nothing does anything. */
  lemma MissingElementsMeanNoOp(p: Page, s: NavState, target: Option<Target>, key: string)
    requires !p.Wired()
    ensures CloseNav(p, s) == s && OpenNav(p, s) == s && ToggleClick(p, s) == s
    ensures DocumentClick(p, s, target) == s && KeyDown(p, s, key) == s && LinkClick(p, s) == s
  {
  }

  /** The nav element, its toggle and the focus, as the listeners change them. */
  class Menu {
    const page: Page
    var open: bool
    var expanded: Option<string>
    var focus: Focus

    function State(): NavState
      reads this
    {
      NavState(open, expanded, focus)
    }

    constructor (page: Page, initial: NavState)
      ensures this.page == page && State() == initial
    {
      this.page := page;
      open, expanded, focus := initial.open, initial.expanded, initial.focus;
    }

    method Close()
      modifies this
      ensures State() == CloseNav(page, old(State()))
    {
      if !page.hasNav || !page.hasToggle {
        return;
      }
      open := false;
      expanded := Some("false");
    }

    method Open()
      modifies this
      ensures State() == OpenNav(page, old(State()))
    {
      if !page.hasNav || !page.hasToggle {
        return;
      }
      open := true;
      expanded := Some("true");
      if page.hasLink {
        focus := FirstLink;
      }
    }

    method OnToggleClick()
      modifies this
      ensures State() == ToggleClick(page, old(State()))
    {
      if !page.Wired() {
        return;
      }
      var isOpen := open;
      if isOpen {
        Close();
      } else {
        Open();
      }
    }

    method OnDocumentClick(target: Option<Target>)
      modifies this
      ensures State() == DocumentClick(page, old(State()), target)
    {
      if !page.Wired() {
        return;
      }
      if target.None? {
        return;
      }
      if open && !target.value.inNav && !target.value.inToggle {
        Close();
      }
    }

    method OnKeyDown(key: string)
      modifies this
      ensures State() == KeyDown(page, old(State()), key)
    {
      if !page.Wired() {
        return;
      }
      if key == "Escape" && open {
        Close();
        focus := ToggleButton;
      }
    }

    method OnLinkClick()
      modifies this
      ensures State() == LinkClick(page, old(State()))
    {
      if !page.hasNav {
        return;
      }
      Close();
    }
  }
}
