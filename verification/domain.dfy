/**
 The profile and the expense categories of the inflation calculator: where
 the user lives, and the fixed list of spending categories, each known to
 the rate table by its display name.
 */
module Domain {

  /** The two answers the location selector offers. */
  datatype Location = Metro | NonMetro

  /** The fixed expense categories. */
  datatype Category =
    | Rent
    | GroceriesAndHouseholdSupplies
    | WeekendEntertainment
    | Vacation
    | Househelp
    | Healthcare
    | PetExpenses
    | Education
    | Subscriptions
    | Utilities

  /** The name a category is shown under and keyed by in the rate table. */
  function Name(c: Category): string
  {
    match c
    case Rent => "Rent"
    case GroceriesAndHouseholdSupplies => "Groceries & Household Supplies"
    case WeekendEntertainment => "Weekend Entertainment"
    case Vacation => "Vacation"
    case Househelp => "Househelp"
    case Healthcare => "Healthcare"
    case PetExpenses => "Pet Expenses"
    case Education => "Education"
    case Subscriptions => "Subscriptions"
    case Utilities => "Utilities"
  }

  /** The category names in display order, as the calculator lists them. */
  const CategoryNames: seq<string> := [
    "Rent",
    "Groceries & Household Supplies",
    "Weekend Entertainment",
    "Vacation",
    "Househelp",
    "Healthcare",
    "Pet Expenses",
    "Education",
    "Subscriptions",
    "Utilities"
  ]

  /** The set of listed names: the keys the rate table must have. */
  const CategoryNameSet: set<string> := set i | 0 <= i < |CategoryNames| :: CategoryNames[i]

  /** The categories in the same display order. */
  const AllCategories: seq<Category> := [
    Rent, GroceriesAndHouseholdSupplies, WeekendEntertainment, Vacation, Househelp,
    Healthcare, PetExpenses, Education, Subscriptions, Utilities
  ]

  /** Where a category stands in the display order. */
  function Position(c: Category): (i: nat)
    ensures i < |AllCategories| && AllCategories[i] == c
  {
    match c
    case Rent => 0
    case GroceriesAndHouseholdSupplies => 1
    case WeekendEntertainment => 2
    case Vacation => 3
    case Househelp => 4
    case Healthcare => 5
    case PetExpenses => 6
    case Education => 7
    case Subscriptions => 8
    case Utilities => 9
  }

  /** The name list is the categories' names, in display order. */
  lemma CategoryNamesAreNames()
    ensures |CategoryNames| == |AllCategories|
    ensures forall i :: 0 <= i < |AllCategories| ==> CategoryNames[i] == Name(AllCategories[i])
  {
  }

  /** Every category is listed, under its name. */
  lemma EveryCategoryListed()
    ensures forall c: Category :: c in AllCategories && Name(c) in CategoryNames
  {
    CategoryNamesAreNames();
    forall c: Category ensures c in AllCategories && Name(c) in CategoryNames {
      assert CategoryNames[Position(c)] == Name(c);
    }
  }

  /** No name is listed twice, so each listed category is looked up once. */
  lemma CategoryNamesDistinct()
    ensures forall i, j :: 0 <= i < j < |CategoryNames| ==> CategoryNames[i] != CategoryNames[j]
  {
  }

  /** Distinct categories have distinct names, so a name identifies its category. */
  lemma NameInjective(c1: Category, c2: Category)
    ensures Name(c1) == Name(c2) <==> c1 == c2
  {
  }
}
