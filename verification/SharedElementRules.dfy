/** The money rules of shared debts, goals and budgets: exact integer cents, never an overpayment. */
module SharedElementRules {
  import opened Prelude

  datatype GoalStatus = GOAL_ACTIVE | GOAL_ACHIEVED

  /** The outstanding balance after a payment. */
  function Pay(outstanding: int, amount: int): Result<int> {
    if amount <= 0 then Err(Validation)
    else if amount > outstanding then Err(Overpayment)
    else Ok(outstanding - amount)
  }

  /** The funded amount after a deposit; it may pass the target. */
  function Fund(funded: int, amount: int): Result<int> {
    if amount <= 0 then Err(Validation) else Ok(funded + amount)
  }

  function StatusAt(funded: int, target: int): GoalStatus {
    if funded >= target then GOAL_ACHIEVED else GOAL_ACTIVE
  }

  /** What was spent after one more expense; it may pass the limit. */
  function Spend(spent: int, amount: int): Result<int> {
    if amount <= 0 then Err(Validation) else Ok(spent + amount)
  }
}
