/** The new-goal form (components/AddGoal.tsx): its state and its submit handler. */
module AddGoalForm {
  import opened Wrappers
  import opened Text
  import opened Types
  import opened Goals

  /** The form's local state: the typed title, the chosen category, whether it is open. */
  datatype FormState = FormState(title: string, category: Category, expanded: bool)

  /** The `onAdd(title, category)` call a submit makes. */
  datatype AddCall = AddCall(title: string, category: Category)

  /** The state after a submit, and the `onAdd` call it made, if any. */
  datatype SubmitResult = SubmitResult(state: FormState, call: Option<AddCall>)

  /** An empty title, the personal category, collapsed. */
  const InitialForm: FormState := FormState("", Personal, false)

  /** `disabled={!title.trim()}` on the submit button. */
  predicate SubmitDisabled(s: FormState) {
    IsBlank(s.title)
  }

  /**
   * `handleSubmit`: a blank title changes nothing and calls nothing; otherwise
   * `onAdd` receives the title as typed and the current category, the title is
   * cleared and the form collapses, keeping the category.
   */
  function HandleSubmit(s: FormState): (r: SubmitResult)
    ensures r.call.None? <==> SubmitDisabled(s)
    ensures r.call.None? ==> r.state == s
    ensures r.call.Some? ==> r.call.value == AddCall(s.title, s.category)
    ensures r.call.Some? ==> r.state.title == "" && !r.state.expanded && r.state.category == s.category
  {
    if !IsBlank(s.title) then SubmitResult(FormState("", s.category, false), Some(AddCall(s.title, s.category)))
    else SubmitResult(s, None)
  }

  /** A title made only of whitespace is rejected exactly like an empty one. */
  lemma WhitespaceTitleRejected(s: FormState)
    requires forall i :: 0 <= i < |s.title| ==> IsWhitespace(s.title[i])
    ensures HandleSubmit(s) == SubmitResult(s, None)
  {
    BlankIffAllWhitespace(s.title);
  }

  /** The fresh form cannot be submitted. */
  lemma InitialFormCannotSubmit()
    ensures SubmitDisabled(InitialForm)
    ensures HandleSubmit(InitialForm) == SubmitResult(InitialForm, None)
  {
  }

  /** A second submit right after a successful one does nothing: one title, one goal. */
  lemma SubmitOnce(s: FormState)
    requires !SubmitDisabled(s)
    ensures HandleSubmit(HandleSubmit(s).state).call.None?
    ensures HandleSubmit(HandleSubmit(s).state).state == HandleSubmit(s).state
  {
  }

  /**
   * Submitting into the goal list: a successful submit prepends exactly one goal
   * carrying the untrimmed title and the chosen category.
   */
  lemma SubmitAddsGoal(s: FormState, goals: seq<Goal>, id: string, now: int)
    requires !SubmitDisabled(s)
    ensures var call := HandleSubmit(s).call.value;
      var after := AddGoal(goals, id, call.title, call.category, now);
      && |after| == |goals| + 1
      && after[0].title == s.title && after[0].category == s.category && !after[0].completed
      && after[1..] == goals
  {
  }
}
