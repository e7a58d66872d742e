/**
 The inflation-rate policy stated per category, independently of how the
 rate table is built, and the properties the built table keeps: Rent
 follows location, Healthcare follows age with strict thresholds, and each
 of the two profile fields moves exactly one rate.
 */
module Policy {
  import opened Domain
  import opened Rates

  /** The Healthcare rate of an age band: 12 up to age 30, 15 from 31 to
      40, 20 from 41 on. */
  function HealthcareBand(age: int): nat
  {
    if age <= 30 then 12
    else if age <= 40 then 15
    else 20
  }

  /** The rate each category should get, case by category. */
  function ReferenceRate(age: int, loc: Location, c: Category): nat
  {
    match c
    case Rent => if loc == Metro then 7 else 5
    case GroceriesAndHouseholdSupplies | WeekendEntertainment => 5
    case Utilities => 6
    case Vacation | Househelp => 8
    case PetExpenses | Education | Subscriptions => 10
    case Healthcare => HealthcareBand(age)
  }

  /** Healthcare's rate in the built table is the rate of the user's age band. */
  lemma HealthcareRateFollowsBand(age: int, loc: Location)
    ensures Rate(age, loc, Healthcare) == HealthcareBand(age)
  {
    var i := Position(Healthcare);
    RateOfListedCategory(age, loc, i);
    HealthcareListedOnce();
    assert BaseRates(loc)[CategoryNames[i]] == 12;
  }

  /** Every other category keeps the rate written in the base table. */
  lemma OtherRateIsBaseRate(age: int, loc: Location, c: Category)
    requires c != Healthcare
    ensures Rate(age, loc, c) == BaseEntries(loc)[Position(c)].1
  {
    var i := Position(c);
    RateOfListedCategory(age, loc, i);
    HealthcareListedOnce();
    assert i != Position(Healthcare);
  }

  /** The base table writes the reference rate of every category but
      Healthcare, whose reference rate depends on age. */
  lemma BaseEntriesMatchReference(age: int, loc: Location, c: Category)
    requires c != Healthcare
    ensures BaseEntries(loc)[Position(c)].1 == ReferenceRate(age, loc, c)
  {
  }

  /** The built rate table gives every category its reference rate. */
  lemma RateMatchesReference(age: int, loc: Location, c: Category)
    ensures Rate(age, loc, c) == ReferenceRate(age, loc, c)
  {
    if c == Healthcare {
      HealthcareRateFollowsBand(age, loc);
    } else {
      OtherRateIsBaseRate(age, loc, c);
      BaseEntriesMatchReference(age, loc, c);
    }
  }

  /** Rent is 7 in a metro and 5 elsewhere, whatever the age. */
  lemma RentFollowsLocation(age: int, loc: Location)
    ensures Rate(age, loc, Rent) == 7 <==> loc == Metro
    ensures Rate(age, loc, Rent) == 5 <==> loc == NonMetro
  {
    RateMatchesReference(age, loc, Rent);
  }

  /** Healthcare is 20 exactly for ages above 40. */
  lemma HealthcareTwentyAbove40(age: int, loc: Location)
    ensures Rate(age, loc, Healthcare) == 20 <==> age > 40
  {
    RateMatchesReference(age, loc, Healthcare);
  }

  /** Healthcare is 15 exactly for ages 31 to 40: age 40 is still in this band. */
  lemma HealthcareFifteenFrom31To40(age: int, loc: Location)
    ensures Rate(age, loc, Healthcare) == 15 <==> 30 < age <= 40
  {
    RateMatchesReference(age, loc, Healthcare);
  }

  /** Healthcare keeps its base rate 12 exactly for ages up to 30: age 30
      is not overridden. */
  lemma HealthcareBaseUpTo30(age: int, loc: Location)
    ensures Rate(age, loc, Healthcare) == 12 <==> age <= 30
  {
    RateMatchesReference(age, loc, Healthcare);
  }

  /** The rates at the edges of the age bands. */
  lemma HealthcareAtBandEdges(loc: Location)
    ensures Rate(30, loc, Healthcare) == 12
    ensures Rate(31, loc, Healthcare) == 15
    ensures Rate(40, loc, Healthcare) == 15
    ensures Rate(41, loc, Healthcare) == 20
  {
    HealthcareBaseUpTo30(30, loc);
    HealthcareFifteenFrom31To40(31, loc);
    HealthcareFifteenFrom31To40(40, loc);
    HealthcareTwentyAbove40(41, loc);
  }

  /** Getting older never lowers the Healthcare rate. */
  lemma HealthcareMonotoneInAge(younger: int, older: int, loc: Location)
    requires younger <= older
    ensures Rate(younger, loc, Healthcare) <= Rate(older, loc, Healthcare)
  {
    RateMatchesReference(younger, loc, Healthcare);
    RateMatchesReference(older, loc, Healthcare);
  }

  /** Age moves no rate but Healthcare's. */
  lemma AgeAffectsOnlyHealthcare(age1: int, age2: int, loc: Location, c: Category)
    requires c != Healthcare
    ensures Rate(age1, loc, c) == Rate(age2, loc, c)
  {
    RateMatchesReference(age1, loc, c);
    RateMatchesReference(age2, loc, c);
  }

  /** Location moves no rate but Rent's. */
  lemma LocationAffectsOnlyRent(age: int, c: Category)
    requires c != Rent
    ensures Rate(age, Metro, c) == Rate(age, NonMetro, c)
  {
    RateMatchesReference(age, Metro, c);
    RateMatchesReference(age, NonMetro, c);
  }

  /** The range [MinRate, MaxRate] is tight: both ends are reached. */
  lemma RateRangeIsTight()
    ensures exists age, loc, c :: Rate(age, loc, c) == MinRate
    ensures exists age, loc, c :: Rate(age, loc, c) == MaxRate
  {
    RentFollowsLocation(18, NonMetro);
    HealthcareTwentyAbove40(41, Metro);
  }
}
