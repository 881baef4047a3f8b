/**
 * The document store: the Category, Expense and Budget collections, and the
 * counter that hands out fresh ids. `Valid` is what the schemas and indexes
 * guarantee of the stored documents.
 */
module Store {
  import opened Ids
  import opened Folds
  import opened CategoryModel
  import opened ExpenseModel
  import opened BudgetModel

  predicate AllExpensesValid(rows: seq<Expense>)
  {
    forall i :: 0 <= i < |rows| ==> ValidExpense(rows[i])
  }

  predicate AllBudgetsValid(rows: seq<Budget>)
  {
    forall i :: 0 <= i < |rows| ==> ValidBudget(rows[i])
  }

  class Database {
    var categories: seq<Category>
    var expenses: seq<Expense>
    var budgets: seq<Budget>
    var nextId: Id

    ghost predicate Valid()
      reads this
    {
      && KeysDistinct(categories, CategoryId) && KeysBelow(categories, CategoryId, nextId)
      && KeysDistinct(expenses, ExpenseId) && KeysBelow(expenses, ExpenseId, nextId)
      && KeysDistinct(budgets, BudgetId) && KeysBelow(budgets, BudgetId, nextId)
      && UniqueScopes(budgets)
      && AllExpensesValid(expenses)
      && AllBudgetsValid(budgets)
    }

    constructor ()
      ensures Valid()
      ensures categories == [] && expenses == [] && budgets == [] && nextId == 0
    {
      categories, expenses, budgets, nextId := [], [], [], 0;
    }
  }
}
