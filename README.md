# Surname tradition and pedigree map: a Dafny model

This project models two pieces of the webtrees genealogy application and
proves properties of them.

1. **The paternal surname tradition.** When a user adds a child, a parent
   or a spouse, the tradition proposes GEDCOM `NAME` fragments for the new
   person. Under the paternal tradition:
   - a child takes the father's surname;
   - a new father shares the child's surname;
   - a new mother, and a new wife, get an unknown birth name plus a
     married name carrying the child's or the husband's surname;
   - every other relative gets the blank name `//`.

   The surname bracket `/…/` is split into a prefix (the GEDCOM `SPFX`, such
   as `de`, `van der` or `van 't`) and a bare surname (`SURN`). The
   implementing class is not part of this model. Its behaviour is therefore
   reconstructed from its unit test, and every asserted case of that test is
   proved as a lemma.
2. **Sosa–Stradonitz numbering on the pedigree map.** The start individual
   is ancestor 1. The father of ancestor k is 2k, and the mother is 2k+1.
   The pedigree map module does three things, each modelled against a
   declarative specification:
   - it fills a dictionary of ancestors by Sosa number;
   - it keeps those ancestors that can be shown and whose birth has a place;
   - it answers with status 204 when none is left, and otherwise with 200
     and one map feature per located birth. A feature carries a line from
     the point of the Sosa parent (`floor(id/2)`) whenever that parent is
     on the map too.

The model is split into modules as follows:
- `Optional` and `Text`: `Option`, plus character search, split and join on strings.
- `SurnameSplit`: the bracket and prefix split.
- `NameFragment`: the text of a `NAME` fragment.
- `PaternalTradition`: the four tradition operations.
- `PaternalTraditionTests`: the test cases.
- `PedigreeMap`: the Sosa logic.

The surname part is pure functions. The pedigree part is methods with loops,
as in the PHP.

The family tree is abstract. It is a value of type `FamilyTree` holding the
queries the module makes:
- the primary child family;
- the husband and the wife of a family;
- whether an individual can be shown;
- the first birth fact;
- whether a birth's place is empty.

The map location of a birth is a function parameter. It stands for the
`FactLocation` lookup, which is not part of this model.

Decisions where the code leaves a choice open:
- **Particles.** The set of prefix particles is a parameter. The prefix is
  the longest leading run of the bracket's words whose space-joined text is
  in the set. Membership is exact. The test lemmas hold for every particle
  set that contains `de`, `van`, `der`, `'t`, `van der` and `van 't`, and
  none of whose particles holds a capital letter A–Z (so that `White` is
  never a particle).
- **Particle-only bracket.** A bracket made only of particles, such as
  `John /de/`, gives SPFX `de` and no SURN line: the longest leading run of
  particles is taken even when no word is left after it.
- **No bracket.** A raw name without a `/…/` bracket gives the blank birth
  fragment from every operation, the same as a missing relative.
- **Fewer than one generation.** For `generations <= 0`, PHP's
  `2 ** (generations - 1)` is a fraction below 1, so the loop does not run.
  The model's loop bound is then 1, and the ancestor map is `{1: individual}`.
- **Iteration order.** PHP arrays keep insertion order, and both loops
  insert keys in ascending order. The `foreach` loops are therefore modelled
  as ascending loops over the Sosa numbers.

## Model

| member | source | states |
|---|---|---|
| SurnameSplit.Bracket | tests/app/SurnameTradition/PaternalSurnameTraditionTest.php:82-85 | the bracket found runs from the first `/` to the next `/` after it, with no other slash before its end |
| SurnameSplit.BracketNone | tests/app/SurnameTradition/PaternalSurnameTraditionTest.php:82-85 | a name has no bracket exactly when it does not hold two slashes |
| SurnameSplit.SplitContent | tests/app/SurnameTradition/PaternalSurnameTraditionTest.php:102-105 | the prefix taken from a bracket's text is empty or one of the particles |
| SurnameSplit.SplitContentRoundTrip | tests/app/SurnameTradition/PaternalSurnameTraditionTest.php:142-145 | prefix and surname joined by a space are the words of the bracket's text, and that text itself when it is singly spaced |
| SurnameSplit.LongestParticle | tests/app/SurnameTradition/PaternalSurnameTraditionTest.php:102-105 | the leading words taken as prefix join to a particle, and no longer run of leading words does |
| SurnameSplit.SplitSurname | tests/app/SurnameTradition/PaternalSurnameTraditionTest.php:82-85 | None exactly when there is no bracket; otherwise the bracket is kept with its slashes, the prefix is empty or a particle, and no slash is inside |
| SurnameSplit.SplitSurnameRoundTrip | tests/app/SurnameTradition/PaternalSurnameTraditionTest.php:142-145 | SPFX and SURN joined by a space are the bracket's words again, and exactly the bracket content when it is singly spaced |
| SurnameSplit.SplitSurnameIdempotent | tests/app/SurnameTradition/PaternalSurnameTraditionTest.php:82-85 | splitting the kept bracket again gives the same prefix and surname |
| SurnameSplit.SplitSurnameKeepsOut | tests/app/SurnameTradition/PaternalSurnameTraditionTest.php:82-85 | a character other than a space that is not in the raw name is in none of the surname parts |
| SurnameSplit.SplitWords | tests/app/SurnameTradition/PaternalSurnameTraditionTest.php:102-105 | a name `given /w1 … wn/` splits into the longest leading particle and the remaining words |
| NameFragment.BuildNameLines | tests/app/SurnameTradition/PaternalSurnameTraditionTest.php:82-85 | a fragment is exactly the lines NAME, TYPE, then SPFX and SURN when non-empty, in that order, with no trailing newline |
| NameFragment.BuildNameJoinsLines | tests/app/SurnameTradition/PaternalSurnameTraditionTest.php:170-173 | the fragment text is its lines joined by newlines, with SPFX and SURN lines left out when empty |
| NameFragment.BuildName | tests/app/SurnameTradition/PaternalSurnameTraditionTest.php:82-85 | every fragment begins with the NAME line holding the given value, then the TYPE line; its full line structure is stated by BuildNameLines and BuildNameJoinsLines |
| PaternalTradition.DefaultName | tests/app/SurnameTradition/PaternalSurnameTraditionTest.php:35 | the default name is an empty bracket, its two slashes at the start and at the end |
| PaternalTradition.NoBracketIsBlank | tests/app/SurnameTradition/PaternalSurnameTraditionTest.php:184-187 | a raw name without a bracket gives every relative, child, parent or spouse, just the blank fragment, whatever the sex |
| PaternalTradition.NewChildNames | tests/app/SurnameTradition/PaternalSurnameTraditionTest.php:52-65 | a new child gets exactly one name |
| PaternalTradition.NewParentNames | tests/app/SurnameTradition/PaternalSurnameTraditionTest.php:156-187 | two names for a mother of a child with a bracket, one name otherwise |
| PaternalTradition.NewSpouseNames | tests/app/SurnameTradition/PaternalSurnameTraditionTest.php:198-243 | two names for a wife of a spouse with a bracket, one name otherwise |
| PaternalTradition.BlankNameText | tests/app/SurnameTradition/PaternalSurnameTraditionTest.php:184-187 | the blank fragment is `1 NAME //` then `2 TYPE BIRTH`, with no SPFX or SURN line |
| PaternalTradition.DefaultNameIsBlank | tests/app/SurnameTradition/PaternalSurnameTraditionTest.php:35 | the default name `//` splits into an empty prefix and surname, so its fragment is the blank one |
| PaternalTradition.ChildNamesIgnoreMotherAndSex | tests/app/SurnameTradition/PaternalSurnameTraditionTest.php:52-65 | a child's names are the same for every mother and every sex code |
| PaternalTradition.ChildNameLines | tests/app/SurnameTradition/PaternalSurnameTraditionTest.php:82-85 | the child's name has the lines NAME with the father's bracket, TYPE BIRTH, then SPFX and SURN from the father, or is the blank name without a bracket |
| PaternalTradition.FatherAndChildShareName | tests/app/SurnameTradition/PaternalSurnameTraditionTest.php:156-159 | a new father given a child's name gets the very name a child of that father would get |
| PaternalTradition.WifeNamedLikeMother | tests/app/SurnameTradition/PaternalSurnameTraditionTest.php:212-215 | a new wife gets the same names as a new mother |
| PaternalTradition.UnknownNamesAreBlank | tests/app/SurnameTradition/PaternalSurnameTraditionTest.php:240-243 | a husband, a spouse of unknown sex and a parent of unknown sex get only the blank name, whatever the other person's name |
| PaternalTradition.MarriedNameCarriesSurname | tests/app/SurnameTradition/PaternalSurnameTraditionTest.php:170-173 | a mother gets the blank name then the child's parts with TYPE MARRIED; a father gets the child's parts with TYPE BIRTH |
| PaternalTraditionTests.TestSurnames | tests/app/SurnameTradition/PaternalSurnameTraditionTest.php:35 | the default name is `//` |
| PaternalTraditionTests.TestNewChildNames | tests/app/SurnameTradition/PaternalSurnameTraditionTest.php:52-65 | the father `John /White/` gives the same single BIRTH fragment with SURN White for sex M, F and U |
| PaternalTraditionTests.TestNewChildNamesWithSpfx | tests/app/SurnameTradition/PaternalSurnameTraditionTest.php:82-85 | `John /de White/` gives the fragment with SPFX de and SURN White |
| PaternalTraditionTests.TestNewChildNamesWithMultipleSpfx | tests/app/SurnameTradition/PaternalSurnameTraditionTest.php:102-105 | `John /van der White/` gives SPFX van der and SURN White |
| PaternalTraditionTests.TestNewChildNamesWithDutchSpfx | tests/app/SurnameTradition/PaternalSurnameTraditionTest.php:122-125 | `John /'t White/` gives SPFX 't and SURN White |
| PaternalTraditionTests.TestNewChildNamesWithMultipleDutchSpfx | tests/app/SurnameTradition/PaternalSurnameTraditionTest.php:142-145 | `John /van 't White/` gives SPFX van 't and SURN White |
| PaternalTraditionTests.TestNewFatherNames | tests/app/SurnameTradition/PaternalSurnameTraditionTest.php:156-159 | a father of `Chris /White/` gets the BIRTH fragment with SURN White |
| PaternalTraditionTests.TestNewMotherNames | tests/app/SurnameTradition/PaternalSurnameTraditionTest.php:170-173 | a mother gets the blank fragment, then the MARRIED fragment with SURN White |
| PaternalTraditionTests.TestNewParentNames | tests/app/SurnameTradition/PaternalSurnameTraditionTest.php:184-187 | a parent of unknown sex gets only the blank fragment |
| PaternalTraditionTests.TestNewHusbandNames | tests/app/SurnameTradition/PaternalSurnameTraditionTest.php:198-201 | a husband gets only the blank fragment |
| PaternalTraditionTests.TestNewWifeNames | tests/app/SurnameTradition/PaternalSurnameTraditionTest.php:212-215 | a wife gets the blank fragment, then the MARRIED fragment with SURN White |
| PaternalTraditionTests.TestNewWifeNamesWithSpfx | tests/app/SurnameTradition/PaternalSurnameTraditionTest.php:226-229 | a wife of `Chris /van der White/` gets the blank fragment, then the MARRIED fragment with SPFX van der and SURN White |
| PaternalTraditionTests.TestNewSpouseNames | tests/app/SurnameTradition/PaternalSurnameTraditionTest.php:240-243 | a spouse of unknown sex gets only the blank fragment |
| PedigreeMap.LoopBound | app/Module/PedigreeMapModule.php:451 | the loop bound is at least 1, and twice it is 2^generations when generations >= 1 |
| PedigreeMap.SosaStradonitzAncestors | app/Module/PedigreeMapModule.php:444-471 | slot 1 is the start individual; the keys are exactly 1 .. 2^generations - 1 (just 1 below two generations); each slot holds the ancestor with that Sosa number |
| PedigreeMap.AncestorsBelowMeaning | app/Module/PedigreeMapModule.php:446-468 | the slots filled below n are exactly 1 .. n - 1, and each holds the ancestor with that Sosa number |
| PedigreeMap.AncestorsBelowNext | app/Module/PedigreeMapModule.php:452-466 | moving the bound past slot n adds just slot n, holding its ancestor |
| PedigreeMap.ParentSlots | app/Module/PedigreeMapModule.php:452-466 | slot 2i is the husband, and slot 2i+1 the wife, of slot i's primary child family; each is null when anything on the way is missing |
| PedigreeMap.AncestorsBelowStep | app/Module/PedigreeMapModule.php:451-468 | one pass of the loop extends the filled slots below 2i to those below 2i+2, writing only the parents of slot i, which an earlier pass had filled |
| PedigreeMap.MissingAncestorHasNoAncestors | app/Module/PedigreeMapModule.php:452-457 | when slot k is null, so is every slot d generations above it, k·2^d .. (k+1)·2^d - 1 |
| PedigreeMap.MissingParent | app/Module/PedigreeMapModule.php:452-457 | a slot whose child slot m / 2 is null is null too |
| PedigreeMap.AncestorFollowsDigits | app/Module/PedigreeMapModule.php:451-468 | the ancestor numbered 2^d + j is the one reached from the start by the d binary digits of j, 0 for the father and 1 for the mother |
| PedigreeMap.GetPedigreeMapFacts | app/Module/PedigreeMapModule.php:269-291 | the facts are exactly the declarative fact map of the ancestors |
| PedigreeMap.PedigreeFactsMeaning | app/Module/PedigreeMapModule.php:280-287 | a Sosa number keeps a fact exactly when its ancestor exists, can be shown and has a first birth with a non-empty place, and the fact is that birth |
| PedigreeMap.GetMapData | app/Module/PedigreeMapModule.php:197-261 | status 204 when there are no facts and 200 otherwise; one feature per located fact, ascending by Sosa number, each with its point and a polyline exactly when its Sosa parent is located |
| PedigreeMap.MapFeatures | app/Module/PedigreeMapModule.php:214-257 | the feature loop builds exactly the reference features of the located Sosa numbers below the bound, in ascending order |
| PedigreeMap.FeaturesBelowCorrect | app/Module/PedigreeMapModule.php:214-257 | the features built for the Sosa numbers below n are each correct, ascend strictly, and miss no located number below n |
| PedigreeMap.FeaturesBelowSound | app/Module/PedigreeMapModule.php:214-257 | every feature built for the Sosa numbers below n is the reference feature of a located number below n |
| PedigreeMap.FeaturesBelowAscend | app/Module/PedigreeMapModule.php:214-257 | the features built below n ascend strictly by Sosa number |
| PedigreeMap.FeaturesBelowComplete | app/Module/PedigreeMapModule.php:214-257 | every located Sosa number below n has a feature |
| PedigreeMap.PolylineFromParentFeature | app/Module/PedigreeMapModule.php:221-236 | every polyline runs from the point of an earlier feature, the one for the Sosa parent floor(id/2), to the feature's own point |
| PedigreeMap.PointsBelowStep | app/Module/PedigreeMapModule.php:221 | recording the point of a located Sosa number n extends the recorded points below n by exactly that one |

## Left out

- The implementing class `PaternalSurnameTradition` is not part of this model. Its rules are reconstructed from its test, so behaviour the test does not pin down is a modelling choice: the particle set, exact matching, and names without a bracket.
- Choosing a person's birth name among their `NAME` facts: the raw `NAME` value is taken as input.
- The given-name part of a name, and case-insensitive particle matching: the tests use neither.
- Whitespace other than a single space between the words of a bracket.
- Other surname traditions: none of them is part of this model.
- `FactLocation` is not part of this model. These are replaced by the location function parameter: known latitude and longitude, the JavaScript point array, GeoJSON coordinates, icon, tooltip, sidebar summary and zoom.
- The line colour: it uses floating-point `log($id, 2)`.
- JSON and HTTP responses, view rendering and translation.
- The map-provider XML files and their process-wide static caches.
- The style-name assignment at app/Module/PedigreeMapModule.php:155: it is plumbing outside the Sosa logic.
- Looking up the start individual from a request: the individual and the number of generations are parameters, and a missing individual is not modelled.
- PHP's switch from integer to float powers for very large generation counts: integers are unbounded here.
