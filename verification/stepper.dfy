/** The compound stepper (components/ui/stepper.tsx): the row of step badges
    joined by separators that shows the checkout's progress. */
module Stepper {
  import CheckoutFlow

  /** How a step is drawn relative to the current step. */
  datatype Status = Completed | Current | Upcoming

  /** `isCompleted = index < currentStep`, `isCurrent = index === currentStep`. */
  function StepStatus(index: int, currentStep: int): Status {
    if index < currentStep then Completed
    else if index == currentStep then Current
    else Upcoming
  }

  /** The badge content: a check mark for a completed step, else its 1-based number. */
  datatype Badge = CheckMark | Number(n: int)

  function StepBadge(index: int, currentStep: int): (b: Badge)
    ensures b.CheckMark? <==> StepStatus(index, currentStep) == Completed
    ensures b.Number? ==> b.n == index + 1
  {
    if index < currentStep then CheckMark else Number(index + 1)
  }

  /** The separator after step `index` is drawn in the primary colour. */
  predicate SeparatorHighlighted(index: int, currentStep: int) {
    index < currentStep
  }

  /** The title is emphasised only for the current step. */
  predicate TitleEmphasised(index: int, currentStep: int) {
    index == currentStep
  }

  /** The three statuses split the steps: below, at and above the current one. */
  lemma StatusPartition(index: int, currentStep: int)
    ensures StepStatus(index, currentStep) == Completed <==> index < currentStep
    ensures StepStatus(index, currentStep) == Current <==> index == currentStep
    ensures StepStatus(index, currentStep) == Upcoming <==> index > currentStep
    ensures TitleEmphasised(index, currentStep) <==> StepStatus(index, currentStep) == Current
  {
  }

  /** A separator is lit exactly when the step before it is completed. */
  lemma SeparatorFollowsLeftStep(index: int, currentStep: int)
    ensures SeparatorHighlighted(index, currentStep) <==> StepStatus(index, currentStep) == Completed
    ensures SeparatorHighlighted(index, currentStep) ==> StepBadge(index, currentStep) == CheckMark
  {
  }

  // ---------------------------------------------------------------------
  // Layout: each child followed by a separator, except the last.

  datatype Node = StepNode(index: nat) | SeparatorNode(index: nat)

  function LayoutFrom(i: nat, totalSteps: nat): seq<Node>
    decreases totalSteps - i
  {
    if i >= totalSteps then []
    else [StepNode(i)] + (if i < totalSteps - 1 then [SeparatorNode(i)] else []) + LayoutFrom(i + 1, totalSteps)
  }

  /** The rendered row for `totalSteps` children. */
  function Layout(totalSteps: nat): seq<Node> {
    LayoutFrom(0, totalSteps)
  }

  lemma {:induction false} LayoutFromShape(i: nat, totalSteps: nat)
    requires i < totalSteps
    ensures |LayoutFrom(i, totalSteps)| == 2 * (totalSteps - i) - 1
    ensures forall j :: 0 <= j < totalSteps - i ==> LayoutFrom(i, totalSteps)[2 * j] == StepNode(i + j)
    ensures forall j :: 0 <= j < totalSteps - i - 1 ==> LayoutFrom(i, totalSteps)[2 * j + 1] == SeparatorNode(i + j)
    decreases totalSteps - i
  {
    var r := LayoutFrom(i, totalSteps);
    if i < totalSteps - 1 {
      LayoutFromShape(i + 1, totalSteps);
      var rest := LayoutFrom(i + 1, totalSteps);
      assert r == [StepNode(i), SeparatorNode(i)] + rest;
      forall j | 1 <= j < totalSteps - i ensures r[2 * j] == StepNode(i + j) {
        assert r[2 * j] == rest[2 * (j - 1)];
      }
      forall j | 1 <= j < totalSteps - i - 1 ensures r[2 * j + 1] == SeparatorNode(i + j) {
        assert r[2 * j + 1] == rest[2 * (j - 1) + 1];
      }
    } else {
      assert LayoutFrom(i + 1, totalSteps) == [];
      assert r == [StepNode(i)];
    }
  }

  /** `n` steps render as `2n - 1` nodes alternating step and separator:
      step `i` at position `2i` and the separator after it at `2i + 1`, so
      there are `n - 1` separators and none after the last step. */
  lemma LayoutShape(totalSteps: nat)
    ensures totalSteps == 0 ==> Layout(totalSteps) == []
    ensures totalSteps > 0 ==> |Layout(totalSteps)| == 2 * totalSteps - 1
    ensures forall i :: 0 <= i < totalSteps ==> Layout(totalSteps)[2 * i] == StepNode(i)
    ensures forall i :: 0 <= i < totalSteps - 1 ==> Layout(totalSteps)[2 * i + 1] == SeparatorNode(i)
  {
    if totalSteps > 0 {
      LayoutFromShape(0, totalSteps);
    }
  }

  // ---------------------------------------------------------------------
  // Counting completed steps.

  /** The number of completed steps among the first `totalSteps`. */
  function CompletedSteps(totalSteps: nat, currentStep: int): nat {
    if totalSteps == 0 then 0
    else CompletedSteps(totalSteps - 1, currentStep) + (if StepStatus(totalSteps - 1, currentStep) == Completed then 1 else 0)
  }

  /** The check marks count the steps before the current one, capped by the
      number of steps. */
  lemma {:induction false} CompletedStepsCount(totalSteps: nat, currentStep: int)
    ensures CompletedSteps(totalSteps, currentStep) ==
      if currentStep <= 0 then 0 else if currentStep >= totalSteps then totalSteps else currentStep
  {
    if totalSteps > 0 {
      CompletedStepsCount(totalSteps - 1, currentStep);
    }
  }

  /** In the checkout wizard, whose step always lies in range, the stepper
      shows `step` check marks and exactly one current step. */
  lemma CheckoutProgress(step: int)
    requires CheckoutFlow.ValidStep(step)
    ensures CompletedSteps(CheckoutFlow.StepCount, step) == step
    ensures StepStatus(step, step) == Current
    ensures forall i :: 0 <= i < CheckoutFlow.StepCount && i != step ==> StepStatus(i, step) != Current
  {
    CompletedStepsCount(CheckoutFlow.StepCount, step);
  }
}
