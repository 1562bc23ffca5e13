/** The three-step onboarding flow (`OnboardingViewModel`): a step counter and
    the choices collected along the way. */
module Onboarding {
  import opened Wrappers
  import opened PrayerTimeService

  const TotalSteps := 3

  /** `nextStep` on the counter: one forward, except at the last step. */
  function Next(step: int): int {
    if step < TotalSteps - 1 then step + 1 else step
  }

  /** `previousStep` on the counter: one back, except at the first step. */
  function Previous(step: int): int {
    if step > 0 then step - 1 else step
  }

  /** `moveToStep`: out-of-range targets are ignored. */
  function MoveTo(step: int, target: int): int {
    if 0 <= target < TotalSteps then target else step
  }

  predicate InRange(step: int) {
    0 <= step < TotalSteps
  }

  /** Every navigation keeps the counter in range; forward and back undo each
      other away from the ends, and the ends are fixed points. */
  lemma NavigationSteps(step: int, target: int)
    requires InRange(step)
    ensures InRange(Next(step)) && InRange(Previous(step)) && InRange(MoveTo(step, target))
    ensures step < TotalSteps - 1 ==> Next(step) == step + 1 && Previous(Next(step)) == step
    ensures step > 0 ==> Previous(step) == step - 1 && Next(Previous(step)) == step
    ensures Next(TotalSteps - 1) == TotalSteps - 1 && Previous(0) == 0
    ensures MoveTo(step, target) == target <==> InRange(target)
  {
  }

  /** A navigation call of the view model. */
  datatype Nav = Forward | Back | Jump(target: int)

  /** Any run of navigation calls from a valid step stays in range. */
  lemma {:induction false} NavigationStaysInRange(step: int, moves: seq<Nav>)
    requires InRange(step)
    ensures InRange(Run(step, moves))
  {
    if moves != [] {
      NavigationStaysInRange(step, moves[..|moves| - 1]);
    }
  }

  /** Applies navigation calls in order. */
  function Run(step: int, moves: seq<Nav>): int {
    if moves == [] then step
    else
      var s := Run(step, moves[..|moves| - 1]);
      match moves[|moves| - 1]
      case Forward => Next(s)
      case Back => Previous(s)
      case Jump(target) => MoveTo(s, target)
  }

  /** `TotalSteps - 1` forward moves from the start reach the last step, and
      further ones stay there. */
  lemma ForwardToLast()
    ensures Run(0, [Forward, Forward]) == TotalSteps - 1
    ensures Run(0, [Forward, Forward, Forward]) == TotalSteps - 1
  {
    assert [Forward, Forward, Forward][..2] == [Forward, Forward];
    assert [Forward, Forward][..1] == [Forward];
    assert [Forward][..0] == [];
  }

  class OnboardingViewModel {
    var currentStep: int
    var location: Option<Coordinate>
    var selectedMadhab: MadhabType
    var selectedCalculationMethod: CalculationMethodType
    var notificationsEnabled: bool

    /** The counter never leaves the three steps. */
    predicate Valid()
      reads this
    {
      InRange(currentStep)
    }

    /** Defaults: first step, Hanafi, North America, notifications off, no location. */
    constructor ()
      ensures Valid()
      ensures currentStep == 0 && location == None
      ensures selectedMadhab == Hanafi && selectedCalculationMethod == NorthAmerica && !notificationsEnabled
    {
      currentStep := 0;
      location := None;
      selectedMadhab := Hanafi;
      selectedCalculationMethod := NorthAmerica;
      notificationsEnabled := false;
    }

    method NextStep()
      requires Valid()
      modifies this`currentStep
      ensures Valid() && currentStep == Next(old(currentStep))
    {
      if currentStep < TotalSteps - 1 {
        currentStep := currentStep + 1;
      }
    }

    method PreviousStep()
      requires Valid()
      modifies this`currentStep
      ensures Valid() && currentStep == Previous(old(currentStep))
    {
      if currentStep > 0 {
        currentStep := currentStep - 1;
      }
    }

    method MoveToStep(step: int)
      requires Valid()
      modifies this`currentStep
      ensures Valid() && currentStep == MoveTo(old(currentStep), step)
    {
      if step >= 0 && step < TotalSteps {
        currentStep := step;
      }
    }

    /** Records the location the permission step produced (none when refused)
        and moves on. */
    method HandleLocationPermission(coordinate: Option<Coordinate>)
      requires Valid()
      modifies this`location, this`currentStep
      ensures Valid() && location == coordinate && currentStep == Next(old(currentStep))
    {
      location := coordinate;
      NextStep();
    }

    /** Records the madhab and moves on. */
    method HandleMadhabSelection(madhab: MadhabType)
      requires Valid()
      modifies this`selectedMadhab, this`currentStep
      ensures Valid() && selectedMadhab == madhab && currentStep == Next(old(currentStep))
    {
      selectedMadhab := madhab;
      NextStep();
    }

    /** Records the method and the notification choice; the step is unchanged. */
    method HandleGoalSelection(calculationMethod: CalculationMethodType, enableNotifications: bool)
      modifies this`selectedCalculationMethod, this`notificationsEnabled
      ensures selectedCalculationMethod == calculationMethod && notificationsEnabled == enableNotifications
    {
      selectedCalculationMethod := calculationMethod;
      notificationsEnabled := enableNotifications;
    }
  }
}
