# Inflation-rate selection of the Inflation Impact Calculator

The calculator asks for the user's age and whether they live in a Metro or
a Non-Metro area, lists ten fixed household expense categories, and shows
the annual inflation percentage it applies to each. This project models the
rule that picks those percentages:

- the list of categories, in display order (`Domain.CategoryNames`, with a
  typed view `Domain.Category` and its display `Name`);
- the base rate table, written as a Python dict display keyed by category
  name, where Rent is 7 in a Metro and 5 elsewhere (`Rates.BaseEntries`,
  `Rates.BaseRates`); a dict display is modelled with its Python meaning,
  entries inserted left to right with the last duplicate winning
  (`PyDict.Display`);
- the age-based override of the Healthcare rate with strict thresholds: 20
  above 40, 15 above 30, otherwise the base 12 (`Rates.HealthcareOverride`,
  `Rates.RateTable`, `Rates.Rate`);
- the loop that looks every listed category up in the table to show it
  (`Rates.ShowRates`, run on the profile's table by `Rates.AppliedRates`).

`Policy` states the rule a second time, category by category
(`Policy.ReferenceRate`, `Policy.HealthcareBand`), proves the built table
agrees with it for every age, location and category, and derives the band
edges, monotonicity in age and which rates each profile field can move.

Files: `pydict.dfy` (dict display), `domain.dfy` (categories and
locations), `rates.dfy` (table construction and lookup), `policy.dfy`
(reference rule and properties).

The age is an unbounded integer and the rule is total in it; the input
widget's range 18..80 is not needed by any property, so no member requires
it. The location is the two-valued `Location`; the source compares the
selected string with `"Metro"`, and the selector offers only `"Metro"` and
`"Non-Metro"`, so `NonMetro` stands for every value that is not `"Metro"`.

app.py lists ten categories and computes no projection, totals or CAGR.

Definitions without a row below, because their meaning is stated by the
members that have one:

- `Domain.CategoryNames` (app.py:41-52) is the category list, and
  `Domain.CategoryNameSet` the set of its names; their properties are
  `Domain.CategoryNamesAreNames`, `Domain.EveryCategoryListed` and
  `Domain.CategoryNamesDistinct`.
- `PyDict.Display` (app.py:59-70) is the dict-display construction; what it
  builds is stated by `PyDict.DisplayKeysAndLastValues` and
  `PyDict.DisplayDistinct`.
- `Policy.ReferenceRate` and `Policy.HealthcareBand` are reference
  definitions of the rule, written independently of the table construction;
  `Policy.RateMatchesReference` and `Policy.HealthcareRateFollowsBand` tie
  the built table to them.

## Model

| member | source | states |
|---|---|---|
| PyDict.DisplayKeysAndLastValues | app.py:59-70 | a dict display's keys are exactly the keys written, and each key holds the value of its last entry |
| PyDict.DisplayDistinct | app.py:59-70 | a dict display that writes no key twice holds every entry exactly as written |
| Domain.CategoryNamesAreNames | app.py:41-52 | the category list holds the categories' names in display order, one per category |
| Domain.EveryCategoryListed | app.py:41-52 | every category appears in the list, under its name |
| Domain.CategoryNamesDistinct | app.py:41-52 | no category name is listed twice |
| Domain.Position | app.py:41-52 | every category has a place in the display order, and the category listed there is that category |
| Domain.NameInjective | app.py:41-52 | two categories share a display name only if they are the same category |
| Rates.BaseEntries | app.py:59-70 | the rate dict literal is written with exactly the listed category names as keys, in the same order, and every rate written lies between 5 and 12 |
| Rates.BaseRates | app.py:59-70 | the base table's keys are exactly the listed names, and each name holds the rate written beside it |
| Rates.HealthcareListedOnce | app.py:41-52 | the name the override writes, "Healthcare", is listed exactly once, at Healthcare's place |
| Rates.HealthcareOverride | app.py:72-75 | the age override keeps every key and changes no rate other than Healthcare's |
| Rates.RateTable | app.py:41-75 | every listed category has a rate and no other key exists; every rate lies in [5, 20]; every rate except Healthcare's is the base rate |
| Rates.Rate | app.py:59-75 | every category's rate lies in [5, 20] |
| Rates.RateOfListedCategory | app.py:79-80 | looking up the i-th listed name gives the i-th category's rate |
| Rates.ShowRates | app.py:79-80 | when every listed name is a key, the display loop never fails a lookup and row i pairs name i with its rate |
| Rates.AppliedRates | app.py:79-80 | the display loop never fails a lookup and shows, in list order, each category's name with its rate |
| Policy.HealthcareRateFollowsBand | app.py:65-75 | Healthcare's rate in the built table is that of the age band: 12 up to 30, 15 up to 40, 20 above |
| Policy.OtherRateIsBaseRate | app.py:59-75 | every category other than Healthcare keeps the rate written in the base table |
| Policy.BaseEntriesMatchReference | app.py:59-70 | the base table writes the reference rate of every category other than Healthcare |
| Policy.RateMatchesReference | app.py:59-75 | for every age, location and category the built table gives the category-by-category reference rate |
| Policy.RentFollowsLocation | app.py:60 | Rent is 7 if and only if the location is Metro, and 5 if and only if it is Non-Metro, at any age |
| Policy.HealthcareTwentyAbove40 | app.py:72-73 | Healthcare is 20 if and only if the age is above 40 |
| Policy.HealthcareFifteenFrom31To40 | app.py:72-75 | Healthcare is 15 if and only if 30 < age <= 40, so age 40 gets 15 |
| Policy.HealthcareBaseUpTo30 | app.py:65-75 | Healthcare keeps its base 12 if and only if the age is at most 30, so age 30 gets 12 |
| Policy.HealthcareAtBandEdges | app.py:72-75 | ages 30, 31, 40 and 41 get Healthcare rates 12, 15, 15 and 20 |
| Policy.HealthcareMonotoneInAge | app.py:65-75 | an older user never gets a lower Healthcare rate |
| Policy.AgeAffectsOnlyHealthcare | app.py:59-75 | every category other than Healthcare has the same rate at every age |
| Policy.LocationAffectsOnlyRent | app.py:59-70 | every category other than Rent has the same rate in Metro and Non-Metro |
| Policy.RateRangeIsTight | app.py:59-75 | both ends of the range [5, 20] are reached by some profile and category |

## Left out

- Page styling, title, headers and the text written for each rate (app.py:1-38, app.py:77-80): presentation only; `Rates.AppliedRates` keeps the lookup of line 80 but not the formatted string.
- The input widgets (app.py:34-35, app.py:56): their bounds (age 18..80, amounts at least 0) are enforced by the widget library, which is not part of this model.
- The monthly expense amounts (app.py:40, app.py:55-56): they are collected but nothing in app.py uses them.
- Expense projection over 10 and 20 years, totals, percentage increase and CAGR: app.py does not compute them, so there is no code to model; CAGR would also need real powers and rounding.
