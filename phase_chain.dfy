/** The phase loop of main: each phase starts from the nominal amount the
    previous phase rolled over, plus any fresh money added for it, and is
    stamped with the number of years elapsed before it. */
module PhaseChain {
  import Portfolio

  /** What a phase hands back to the loop: nothing when it has no stored
      result, or its nominal final value and the number of rows of its stored
      table. */
  datatype PhaseOutcome = NotCalculated | Calculated(nominalFinal: real, tableRows: nat)

  /** The fresh money entered for a phase (never read for the first phase)
      and what the phase hands back. */
  datatype PhaseInput = PhaseInput(additionalInvestment: real, outcome: PhaseOutcome)

  /** The rollover amount and the years elapsed, as the loop carries them. */
  datatype Carry = Carry(rollover: real, cumulativeYears: nat)

  /** The carry handed to phase k (0-based): the first phase gets no fresh money. */
  function Entering(phases: seq<PhaseInput>, k: nat): Carry
    requires k < |phases|
    decreases k, 1
  {
    var c := After(phases, k);
    if k > 0 then Carry(c.rollover + phases[k].additionalInvestment, c.cumulativeYears) else c
  }

  /** The carry after the first k phases. */
  function After(phases: seq<PhaseInput>, k: nat): Carry
    requires k <= |phases|
    decreases k, 0
  {
    if k == 0 then Carry(0.0, 0) else Settle(Entering(phases, k - 1), phases[k - 1].outcome)
  }

  /** A phase with a result replaces the rollover by its nominal final value
      and adds its row count to the years elapsed; one without leaves both. */
  function Settle(entering: Carry, outcome: PhaseOutcome): Carry
  {
    match outcome
    case NotCalculated => entering
    case Calculated(nominalFinal, tableRows) => Carry(nominalFinal, entering.cumulativeYears + tableRows)
  }

  /** Runs the phases in order; returns the carry each phase was given and
      the carry left at the end. */
  method RunPhases(phases: seq<PhaseInput>) returns (entered: seq<Carry>, final: Carry)
    ensures |entered| == |phases|
    ensures forall k :: 0 <= k < |phases| ==> entered[k] == Entering(phases, k)
    ensures final == After(phases, |phases|)
  {
    var rolloverAmount := 0.0;
    var cumulativeYears: nat := 0;
    entered := [];
    for k := 0 to |phases|
      invariant Carry(rolloverAmount, cumulativeYears) == After(phases, k)
      invariant |entered| == k
      invariant forall j :: 0 <= j < k ==> entered[j] == Entering(phases, j)
    {
      if k > 0 {
        rolloverAmount := rolloverAmount + phases[k].additionalInvestment;
      }
      entered := entered + [Carry(rolloverAmount, cumulativeYears)];
      match phases[k].outcome
      case Calculated(nominalFinal, tableRows) =>
        rolloverAmount := nominalFinal;
        cumulativeYears := cumulativeYears + tableRows;
      case NotCalculated =>
    }
    final := Carry(rolloverAmount, cumulativeYears);
  }

  /** The rows of all calculated phases among the first k. */
  function RowsSoFar(phases: seq<PhaseInput>, k: nat): nat
    requires k <= |phases|
  {
    if k == 0 then 0
    else RowsSoFar(phases, k - 1) + (if phases[k - 1].outcome.Calculated? then phases[k - 1].outcome.tableRows else 0)
  }

  /** The years elapsed before phase k are the row counts of the calculated
      phases before it, added up. */
  lemma {:induction false} CumulativeYearsAreRowsSoFar(phases: seq<PhaseInput>, k: nat)
    requires k <= |phases|
    ensures After(phases, k).cumulativeYears == RowsSoFar(phases, k)
    ensures k < |phases| ==> Entering(phases, k).cumulativeYears == RowsSoFar(phases, k)
  {
    if k > 0 {
      CumulativeYearsAreRowsSoFar(phases, k - 1);
    }
  }

  /** A calculated phase whose table has one row per year of its duration,
      started from the years the loop carried to it, numbers its rows on from
      the rows of the earlier phases; its last row ends where the next phase
      starts, so every row is deflated over the years elapsed since the
      first phase began. */
  lemma {:induction false} PhaseRowsContinueChain(phases: seq<PhaseInput>, k: nat, ph: Portfolio.Phase)
    requires k < |phases|
    requires phases[k].outcome.Calculated? && phases[k].outcome.tableRows == ph.years
    requires ph.phaseStartYear == Entering(phases, k).cumulativeYears
    ensures forall year :: 1 <= year <= ph.years ==>
              Portfolio.YearFiguresAt(ph, year).cumulativeYears == RowsSoFar(phases, k) + year
    ensures ph.years >= 1 ==>
              Portfolio.YearFiguresAt(ph, ph.years).cumulativeYears == After(phases, k + 1).cumulativeYears
    ensures k + 1 < |phases| ==> Entering(phases, k + 1).cumulativeYears == RowsSoFar(phases, k) + ph.years
  {
    CumulativeYearsAreRowsSoFar(phases, k);
    CumulativeYearsAreRowsSoFar(phases, k + 1);
  }

  /** A calculated phase hands its nominal final value, plus the next
      phase's fresh money, to the next phase, and moves the years elapsed on
      by its row count. */
  lemma RolloverIsPreviousNominal(phases: seq<PhaseInput>, k: nat)
    requires k + 1 < |phases| && phases[k].outcome.Calculated?
    ensures Entering(phases, k + 1).rollover == phases[k].outcome.nominalFinal + phases[k + 1].additionalInvestment
    ensures Entering(phases, k + 1).cumulativeYears == Entering(phases, k).cumulativeYears + phases[k].outcome.tableRows
  {
  }

  /** Fresh money keeps accumulating over phases that hand back nothing. */
  function AddedSince(phases: seq<PhaseInput>, from: nat, k: nat): real
    requires from <= k < |phases|
    decreases k - from
  {
    if k == from then 0.0 else AddedSince(phases, from, k - 1) + phases[k].additionalInvestment
  }

  lemma {:induction false} UncalculatedPhasesAccumulate(phases: seq<PhaseInput>, from: nat, k: nat)
    requires from <= k < |phases|
    requires forall j :: from <= j < k ==> phases[j].outcome.NotCalculated?
    ensures Entering(phases, k).rollover == Entering(phases, from).rollover + AddedSince(phases, from, k)
    ensures Entering(phases, k).cumulativeYears == Entering(phases, from).cumulativeYears
  {
    if k > from {
      UncalculatedPhasesAccumulate(phases, from, k - 1);
    }
  }
}
