/** The add-space wizard: the active step, the form values gathered so far and
    the error snackbar, changed by the step views' next, back and submit
    handlers and by clicks on the stepper's labels. */
module AddSpace {
  import opened Wrappers

  /** What each step shows; any step outside 0..5 shows the text "Unknown step". */
  datatype StepView = SearchView | AddressView | AttributesView | ReviewView | SubmitView | SuccessView | UnknownStep

  datatype WizardState = WizardState(activeStep: int, formValues: map<string, string>, snackbarOpen: bool)

  /** One call of a handler. `Back(None)` is a back call whose argument is not a number
      (a click event), which the range test sends to the previous step. */
  datatype Event =
    | Next(data: map<string, string>)
    | Back(target: Option<int>)
    | Submit
    | LabelClick(index: int)
    | CloseSnackbar

  const StepLabels := ["Add space", "Address", "Attributes", "Rate and Review", "Submit"]
  const SuccessStep := 5

  const Initial := WizardState(0, map[], false)

  function ViewOf(step: int): (v: StepView)
    ensures v == UnknownStep <==> step < 0 || step > SuccessStep
  {
    if step == 0 then SearchView
    else if step == 1 then AddressView
    else if step == 2 then AttributesView
    else if step == 3 then ReviewView
    else if step == 4 then SubmitView
    else if step == 5 then SuccessView
    else UnknownStep
  }

  /** The stepper is hidden on the success screen. */
  predicate StepperShown(s: WizardState) {
    s.activeStep != SuccessStep
  }

  /** `disableNext` handed to the views. */
  function DisableNext(s: WizardState): bool {
    s.snackbarOpen
  }

  /** The search step rejects the name "error" by opening the snackbar. */
  predicate RejectedSearch(s: WizardState, data: map<string, string>) {
    s.activeStep == 0 && "name" in data && data["name"] == "error"
  }

  function OnNext(s: WizardState, data: map<string, string>): (r: WizardState)
    ensures RejectedSearch(s, data) ==> r.snackbarOpen && r.activeStep == s.activeStep && r.formValues == s.formValues
    ensures !RejectedSearch(s, data) ==> r.activeStep == s.activeStep + 1 && r.snackbarOpen == s.snackbarOpen
    ensures !RejectedSearch(s, data) ==>
      && r.formValues.Keys == s.formValues.Keys + data.Keys
      && (forall k :: k in data ==> r.formValues[k] == data[k])
      && (forall k :: k in s.formValues && k !in data ==> r.formValues[k] == s.formValues[k])
  {
    if RejectedSearch(s, data) then s.(snackbarOpen := true)
    else s.(formValues := s.formValues + data, activeStep := s.activeStep + 1)
  }

  /** A target strictly between -1 and 6 is jumped to; anything else goes one step back, with no lower bound. */
  function OnBack(s: WizardState, target: Option<int>): (r: WizardState)
    ensures r.formValues == s.formValues && r.snackbarOpen == s.snackbarOpen
    ensures target.Some? && -1 < target.value < 6 ==> r.activeStep == target.value
    ensures !(target.Some? && -1 < target.value < 6) ==> r.activeStep == s.activeStep - 1
  {
    if target.Some? && -1 < target.value < 6 then s.(activeStep := target.value)
    else s.(activeStep := s.activeStep - 1)
  }

  function OnSubmit(s: WizardState): (r: WizardState)
    ensures r.activeStep == SuccessStep && !StepperShown(r) && ViewOf(r.activeStep) == SuccessView
    ensures r.formValues == s.formValues && r.snackbarOpen == s.snackbarOpen
  {
    s.(activeStep := SuccessStep)
  }

  /** A label click moves only back to an earlier step, and never from the success screen. */
  function OnLabelClick(s: WizardState, index: int): (r: WizardState)
    ensures r.activeStep == s.activeStep || (r.activeStep == index < s.activeStep && s.activeStep != SuccessStep)
    ensures r.formValues == s.formValues && r.snackbarOpen == s.snackbarOpen
  {
    if index < s.activeStep && s.activeStep != SuccessStep then s.(activeStep := index) else s
  }

  function Apply(s: WizardState, e: Event): WizardState {
    match e
    case Next(data) => OnNext(s, data)
    case Back(target) => OnBack(s, target)
    case Submit => OnSubmit(s)
    case LabelClick(index) => OnLabelClick(s, index)
    case CloseSnackbar => s.(snackbarOpen := false)
  }

  /** The handlers the current screen hands out: next to the search, address, attributes
      and review views; back to all views after the search; submit to the submit view;
      label clicks while the stepper is shown, on one of its five labels. */
  predicate Offered(s: WizardState, e: Event) {
    match e
    case Next(_) => 0 <= s.activeStep <= 3
    case Back(_) => 1 <= s.activeStep <= 4
    case Submit => s.activeStep == 4
    case LabelClick(index) => StepperShown(s) && 0 <= index < |StepLabels|
    case CloseSnackbar => true
  }

  function Run(s: WizardState, events: seq<Event>): WizardState
    decreases |events|
  {
    if events == [] then s else Run(Apply(s, events[0]), events[1..])
  }

  predicate AllOffered(s: WizardState, events: seq<Event>)
    decreases |events|
  {
    events == [] || (Offered(s, events[0]) && AllOffered(Apply(s, events[0]), events[1..]))
  }

  /** A handler the screen offers keeps the step between 0 and 5. */
  lemma OfferedKeepsRange(s: WizardState, e: Event)
    requires 0 <= s.activeStep <= SuccessStep && Offered(s, e)
    ensures 0 <= Apply(s, e).activeStep <= SuccessStep
  {
  }

  /** Driving the wizard only through the handlers its screens offer never reaches
      the "Unknown step" screen. */
  lemma {:induction false} OfferedRunsStayKnown(s: WizardState, events: seq<Event>)
    requires 0 <= s.activeStep <= SuccessStep && AllOffered(s, events)
    ensures 0 <= Run(s, events).activeStep <= SuccessStep
    ensures ViewOf(Run(s, events).activeStep) != UnknownStep
    decreases |events|
  {
    if events != [] {
      OfferedKeepsRange(s, events[0]);
      OfferedRunsStayKnown(Apply(s, events[0]), events[1..]);
    }
  }

  /** Back has no lower bound: called with a non-number on the first step it leaves
      the known steps. */
  lemma BackFromFirstStep()
    ensures ViewOf(OnBack(Initial, None).activeStep) == UnknownStep
  {
  }

  /** A rejected search keeps the wizard on the search step with Next disabled until
      the snackbar is closed. */
  lemma RejectedSearchDisablesNext(s: WizardState, data: map<string, string>)
    requires RejectedSearch(s, data)
    ensures var r := OnNext(s, data); r.activeStep == 0 && DisableNext(r)
    ensures !DisableNext(Apply(OnNext(s, data), CloseSnackbar))
  {
  }

  class Wizard {
    var activeStep: int
    var formValues: map<string, string>
    var snackbarOpen: bool

    function State(): WizardState
      reads this
    {
      WizardState(activeStep, formValues, snackbarOpen)
    }

    constructor ()
      ensures State() == Initial
    {
      activeStep := 0;
      formValues := map[];
      snackbarOpen := false;
    }

    method HandleNext(data: map<string, string>)
      modifies this
      ensures State() == OnNext(old(State()), data)
    {
      if activeStep == 0 {
        if "name" in data && data["name"] == "error" {
          snackbarOpen := true;
          return;
        }
      }
      formValues := formValues + data;
      activeStep := activeStep + 1;
    }

    method HandleBack(target: Option<int>)
      modifies this
      ensures State() == OnBack(old(State()), target)
    {
      if target.Some? && target.value > -1 && target.value < 6 {
        activeStep := target.value;
        return;
      }
      activeStep := activeStep - 1;
    }

    method HandleSubmit()
      modifies this
      ensures State() == OnSubmit(old(State()))
    {
      activeStep := SuccessStep;
    }

    method HandleLabelClick(index: int)
      modifies this
      ensures State() == OnLabelClick(old(State()), index)
    {
      if index < activeStep && activeStep != SuccessStep {
        activeStep := index;
      }
    }

    method HandleSnackbarClose()
      modifies this
      ensures State() == Apply(old(State()), CloseSnackbar)
    {
      snackbarOpen := false;
    }
  }
}
