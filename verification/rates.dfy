/**
 The inflation-rate selection rule: a base table of annual inflation
 percentages keyed by category name, in which Rent depends on location,
 followed by an age-based override of the Healthcare rate.
 */
module Rates {
  import opened Domain
  import PyDict

  /** The lowest and highest annual rate (in percent) the rule ever assigns. */
  const MinRate: nat := 5
  const MaxRate: nat := 20

  /** The entries of the base rate table, in the order they are written.
      They are keyed by the listed category names, in display order, and
      every rate written lies between MinRate and 12. */
  function BaseEntries(loc: Location): (e: seq<(string, nat)>)
    ensures |e| == |CategoryNames|
    ensures forall i :: 0 <= i < |CategoryNames| ==> e[i].0 == CategoryNames[i]
    ensures forall i :: 0 <= i < |e| ==> MinRate <= e[i].1 <= 12
  {
    [
      ("Rent", if loc == Metro then 7 else 5),
      ("Groceries & Household Supplies", 5),
      ("Weekend Entertainment", 5),
      ("Vacation", 8),
      ("Househelp", 8),
      ("Healthcare", 12),
      ("Pet Expenses", 10),
      ("Education", 10),
      ("Subscriptions", 10),
      ("Utilities", 6)
    ]
  }

  /** The base rate table, built the way a dict display builds it. It writes
      no key twice, so it holds exactly the listed category names, each with
      the rate written beside it. */
  function BaseRates(loc: Location): (b: map<string, nat>)
    ensures b.Keys == CategoryNameSet
    ensures forall i :: 0 <= i < |CategoryNames| ==> b[CategoryNames[i]] == BaseEntries(loc)[i].1
  {
    var entries := BaseEntries(loc);
    CategoryNamesDistinct();
    assert PyDict.DistinctKeys(entries);
    PyDict.DisplayKeysAndLastValues(entries);
    PyDict.DisplayDistinct(entries);
    assert PyDict.KeysOf(entries) == CategoryNameSet;
    PyDict.Display(entries)
  }

  /** The age-based override of the Healthcare rate: 20 above age 40, 15
      above age 30, otherwise unchanged. It keeps every key and changes no
      rate other than Healthcare's. */
  function HealthcareOverride(age: int, rates: map<string, nat>): (t: map<string, nat>)
    requires "Healthcare" in rates
    ensures t.Keys == rates.Keys
    ensures forall name :: name in rates && name != "Healthcare" ==> t[name] == rates[name]
  {
    if age > 40 then rates["Healthcare" := 20]
    else if age > 30 then rates["Healthcare" := 15]
    else rates
  }

  /** "Healthcare" is listed at Healthcare's position and nowhere else. */
  lemma HealthcareListedOnce()
    ensures CategoryNames[Position(Healthcare)] == "Healthcare"
    ensures forall i :: 0 <= i < |CategoryNames| ==>
      (CategoryNames[i] == "Healthcare" <==> i == Position(Healthcare))
  {
    CategoryNamesDistinct();
  }

  /** The rate table for a profile: the base table followed by the
      Healthcare override. Exactly the listed category names are keys, every
      rate lies in [MinRate, MaxRate], and only Healthcare can differ from
      the base table. */
  function RateTable(age: int, loc: Location): (t: map<string, nat>)
    ensures t.Keys == CategoryNameSet
    ensures forall i :: 0 <= i < |CategoryNames| ==> MinRate <= t[CategoryNames[i]] <= MaxRate
    ensures forall name :: name in t && name != "Healthcare" ==> t[name] == BaseRates(loc)[name]
  {
    HealthcareListedOnce();
    HealthcareOverride(age, BaseRates(loc))
  }

  /** The rate of one category for a profile. */
  function Rate(age: int, loc: Location, c: Category): (r: nat)
    ensures MinRate <= r <= MaxRate
  {
    EveryCategoryListed();
    RateTable(age, loc)[Name(c)]
  }

  /** Category `i` of the display order is looked up under name `i`. */
  lemma RateOfListedCategory(age: int, loc: Location, i: int)
    requires 0 <= i < |CategoryNames|
    ensures RateTable(age, loc)[CategoryNames[i]] == Rate(age, loc, AllCategories[i])
  {
    CategoryNamesAreNames();
  }

  /** The display loop: for each name in `names`, in order, look its rate up
      in `rates`. When every name is a key, no lookup fails and row `i`
      pairs name `i` with its rate. */
  method ShowRates(rates: map<string, nat>, names: seq<string>) returns (shown: seq<(string, nat)>)
    requires forall i :: 0 <= i < |names| ==> names[i] in rates
    ensures |shown| == |names|
    ensures forall i :: 0 <= i < |names| ==> shown[i] == (names[i], rates[names[i]])
  {
    shown := [];
    for i := 0 to |names|
      invariant |shown| == i
      invariant forall j :: 0 <= j < i ==> shown[j] == (names[j], rates[names[j]])
    {
      var name := names[i];
      shown := shown + [(name, rates[name])];
    }
  }

  /** The rates shown to the user: the display loop run over the category
      list and the profile's rate table. Row `i` carries category `i`'s name
      and rate. */
  method AppliedRates(age: int, loc: Location) returns (shown: seq<(string, nat)>)
    ensures |shown| == |CategoryNames|
    ensures forall i :: 0 <= i < |shown| ==>
      shown[i].0 == CategoryNames[i] && shown[i].1 == Rate(age, loc, AllCategories[i])
  {
    shown := ShowRates(RateTable(age, loc), CategoryNames);
    forall i | 0 <= i < |shown| ensures shown[i].1 == Rate(age, loc, AllCategories[i]) {
      RateOfListedCategory(age, loc, i);
    }
  }
}
