/**
  The apply button of an opportunity's detail page,
  `src/components/ui/opportunity/detail/DetailActions.tsx`: a priority chain
  deciding its state, the apply transition, and the sign-in tooltip.
 */
module DetailActions {

  datatype OpportunityStatus = Open | Closed | Filled

  /** What `getButtonState` returns; `text` is the translation key of the label. */
  datatype ButtonState = ButtonState(disabled: bool, text: string, loading: bool, showTooltip: bool)

  /**
    `getButtonState`: a closed or filled opportunity wins over everything,
    then an application already made, then a missing sign-in; otherwise the
    button is live, spinning while an application is in flight.
   */
  function GetButtonState(status: OpportunityStatus, isApplied: bool, isLoggedIn: bool, isApplying: bool): (r: ButtonState)
    ensures status != Open ==>
      (r.disabled && !r.loading && !r.showTooltip
       && r.text == (if status == Closed then "opportunityClosed" else "opportunityFilled"))
    ensures status == Open && isApplied ==> r == ButtonState(true, "applied", false, false)
    ensures status == Open && !isApplied && !isLoggedIn ==> r == ButtonState(true, "signInToApply", false, true)
    ensures status == Open && !isApplied && isLoggedIn ==> r == ButtonState(false, "applyNow", isApplying, false)
  {
    if !status.Open? then
      ButtonState(true, if status == Closed then "opportunityClosed" else "opportunityFilled", false, false)
    else if isApplied then ButtonState(true, "applied", false, false)
    else if !isLoggedIn then ButtonState(true, "signInToApply", false, true)
    else ButtonState(false, "applyNow", isApplying, false)
  }

  /** The button can be pressed exactly for an open opportunity, not yet applied to, by a signed-in user. */
  lemma EnabledIff(status: OpportunityStatus, isApplied: bool, isLoggedIn: bool, isApplying: bool)
    ensures !GetButtonState(status, isApplied, isLoggedIn, isApplying).disabled
      <==> status == Open && !isApplied && isLoggedIn
  {
  }

  /** A tooltip is asked for only when signing in is the one thing missing. */
  lemma TooltipIff(status: OpportunityStatus, isApplied: bool, isLoggedIn: bool, isApplying: bool)
    ensures GetButtonState(status, isApplied, isLoggedIn, isApplying).showTooltip
      <==> status == Open && !isApplied && !isLoggedIn
  {
  }

  /** The label on the button: the spinner text while loading, otherwise the state's text. */
  function Label(s: ButtonState): string {
    if s.loading then "applying" else s.text
  }

  class ApplyButton {
    const status: OpportunityStatus
    const isLoggedIn: bool
    var isApplying: bool
    var isApplied: bool
    var showTooltip: bool

    constructor(status: OpportunityStatus, isLoggedIn: bool)
      ensures this.status == status && this.isLoggedIn == isLoggedIn
      ensures !isApplying && !isApplied && !showTooltip
    {
      this.status := status;
      this.isLoggedIn := isLoggedIn;
      isApplying := false;
      isApplied := false;
      showTooltip := false;
    }

    function State(): ButtonState
      reads this
    {
      GetButtonState(status, isApplied, isLoggedIn, isApplying)
    }

    /**
      `handleApply`: nothing without a sign-in; otherwise the application starts.
      The handler is modelled with its own sign-in guard and no precondition: the
      disabled button never calls it, so that guard is what a call while signed
      out would meet.
     */
    method HandleApply()
      modifies this
      ensures !isLoggedIn ==> isApplying == old(isApplying)
      ensures isLoggedIn ==> isApplying
      ensures isApplied == old(isApplied) && showTooltip == old(showTooltip)
    {
      if !isLoggedIn {
        return;
      }
      isApplying := true;
    }

    /** The simulated request completes: the spinner stops and the application is recorded. */
    method CompleteApply()
      modifies this
      ensures !isApplying && isApplied && showTooltip == old(showTooltip)
    {
      isApplying := false;
      isApplied := true;
    }

    /** Entering the button shows the tooltip only when its state asks for one. */
    method MouseEnter()
      modifies this
      ensures showTooltip == (old(showTooltip) || State().showTooltip)
      ensures isApplying == old(isApplying) && isApplied == old(isApplied)
    {
      if State().showTooltip {
        showTooltip := true;
      }
    }

    method MouseLeave()
      modifies this
      ensures !showTooltip
      ensures isApplying == old(isApplying) && isApplied == old(isApplied)
    {
      showTooltip := false;
    }
  }

  /** A signed-in user applying to an open opportunity ends with the button disabled and showing "applied". */
  method ApplyScenario() returns (before: ButtonState, during: ButtonState, after: ButtonState)
    ensures before == ButtonState(false, "applyNow", false, false)
    ensures during == ButtonState(false, "applyNow", true, false) && Label(during) == "applying"
    ensures after == ButtonState(true, "applied", false, false)
  {
    var b := new ApplyButton(Open, true);
    before := b.State();
    b.HandleApply();
    during := b.State();
    b.CompleteApply();
    after := b.State();
  }

  /** Without a sign-in, pressing apply changes nothing and hovering shows the tooltip. */
  method SignedOutScenario() returns (state: ButtonState, tooltip: bool)
    ensures state == ButtonState(true, "signInToApply", false, true)
    ensures tooltip
  {
    var b := new ApplyButton(Open, false);
    b.HandleApply();
    state := b.State();
    b.MouseEnter();
    tooltip := b.showTooltip;
  }
}
