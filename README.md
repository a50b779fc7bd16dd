# RoboAdvisor Lex handler, modelled in Dafny

This is a model of an Amazon Lex (V1) code hook. The hook serves a single
intent, `recommendPortfolio`. During slot collection (`DialogCodeHook`) it
validates the four slots: first name, age, investment amount and risk level.
It then either re-elicits the first slot that fails its rule, clearing that
slot, or delegates back to Lex. At fulfillment it closes the dialog with a
portfolio recommendation for the chosen risk level. Requests for any other
intent raise an error.

Modules:

- `Wrappers` (wrappers.dfy): `Option` stands for Python's `None`. `Result`
  stands for a raised exception.
- `Builtins` (builtins.dfy): the Python built-ins the handler uses, over ASCII.
  These are `str.isalpha`, `str.lower` and `int(str)` (a partial parse).
  `int(str)` has a decimal renderer as its partner. A substring predicate
  states what the handler's messages contain; the handler's own `in` is
  list membership, which `IsRiskLevel` models with `in RiskLevels`.
- `Slots` (slots.dfy): the slot names and their dictionary keys. `Slots` is a
  snapshot of the slot dictionary. `SlotMap` is the live dictionary, which the
  handler changes in place.
- `Lex` (lex.dfy): the request and the three response shapes. The
  constructors of `Response` (`ElicitSlot`, `Delegate` and `Close`) are the
  builders `elicit_slot`, `delegate` and `close`.
- `Validator` (validator.dfy): `parse_int` returns a `Number`, which is an
  integer or NaN. Comparisons with NaN are false, as in Python. The module
  also holds `build_validation_result` and `validate_data`.
- `Recommendation` (recommendation.dfy): `investment_recommendation`, checked
  against the allocation table that the exercise statement lists.
- `Handler` (handler.dfy): `recommend_portfolio` and `dispatch`. Each appears
  twice:
  - as a function on snapshots, which states what the response is;
  - as a method on the live request, which clears the violated slot in the
    caller's own `SlotMap` and returns that same object in the response.
- `Scenarios` (scenarios.dfy): whole requests and their responses.

Some behaviour of the code is easy to miss, and the model follows the code
as written:

- A non-numeric age such as `"abc"` is accepted, although the comment at
  Lambda/lambda_function.py:112 and the exercise text at :93 say the age
  "should be greater than zero and less than 65". `parse_int` turns such
  an age into NaN, and both `age <= 0` and `age >= 65` are false for NaN.
  See `NonNumericAgePasses` and `NonNumericAgeIsDelegated`.
- A fulfillment request without a risk level raises an `AttributeError`,
  because `None.lower()` is called at :141. The only `raise` in the file is
  the unsupported-intent error at :198. The model returns
  `Failure(RiskLevelMissing)`.
- Only the Delegate response replaces missing session attributes with `{}`.
  ElicitSlot and Close pass `None` through.
- `build_validation_result` leaves the violated slot as it is given. It drops
  only a missing message. It does not normalise the valid case.

## Model

| member | source | states |
|---|---|---|
| `Builtins.IsAlpha` | Lambda/lambda_function.py:109 | `str.isalpha` fails on the empty text; text that passes holds no digit, no whitespace and no `_` |
| `Builtins.IntOf` | Lambda/lambda_function.py:15 | text `int()` accepts, once stripped, ends in a digit, and a negative result comes from a leading `-` |
| `Builtins.Lower` | Lambda/lambda_function.py:131 | `str.lower` keeps the length and lowers each character and nothing else |
| `Builtins.LowerEqualsWord` | Lambda/lambda_function.py:131 | `s.lower() == w` for a lower-case word holds iff `s` equals `w` ignoring case |
| `Builtins.IntOfShowInt` | Lambda/lambda_function.py:15 | `int()` reads back every integer from its decimal form |
| `Builtins.IntOfPadded` | Lambda/lambda_function.py:15 | `int()` ignores space, tab, line feed, vertical tab, form feed and carriage return on both sides of its argument |
| `Builtins.ForeignCharRejected` | Lambda/lambda_function.py:14-17 | text with a character that is not whitespace, a sign, a digit or `_` makes `int()` raise `ValueError` |
| `Builtins.SeparatorRejected` | Lambda/lambda_function.py:14-17 | the separators 0x1C..0x1F are not skipped as whitespace: text holding one makes `int()` raise |
| `Builtins.IntOfGrouped` | Lambda/lambda_function.py:15 | an underscore between two runs of digits is ignored: `int("1_000")` is `int("1000")`, the number the digits denote |
| `Builtins.BlankRejected` | Lambda/lambda_function.py:14-17 | blank text, the empty string included, makes `int()` raise |
| `Builtins.LoneSignRejected` | Lambda/lambda_function.py:14-17 | a sign with nothing but whitespace around it makes `int()` raise |
| `Builtins.DoubleUnderscoreRejected` | Lambda/lambda_function.py:14-17 | two underscores in a row make `int()` raise |
| `Builtins.InnerSpaceRejected` | Lambda/lambda_function.py:14-17 | whitespace between two other characters makes `int()` raise |
| `Validator.ParseIntShowInt` | Lambda/lambda_function.py:10-17 | `parse_int` returns the integer itself for every decimal integer text |
| `Validator.ParseIntForeignChar` | Lambda/lambda_function.py:10-17 | `parse_int` returns NaN, and does not raise, on text containing a character that is not whitespace, a sign, a digit or `_` |
| `Validator.ValidateData` | Lambda/lambda_function.py:105-136 | valid iff every present slot passes its rule (NaN age passes, NaN amount fails); otherwise the violated slot is the first failing one in the order firstName, age, investmentAmount, riskLevel, with that slot's message; valid results carry no slot and no message |
| `Validator.IsRiskLevelIgnoresCase` | Lambda/lambda_function.py:130-134 | a risk level passes iff it equals none, low, medium or high ignoring case |
| `Validator.NumericAge` | Lambda/lambda_function.py:113-118 | an integer age n is the violation iff n <= 0 or n >= 65, with the invalid-age message for n <= 0 and the retirement message for n >= 65 |
| `Validator.NumericInvestmentAmount` | Lambda/lambda_function.py:121-127 | an integer amount n is the violation iff n < 5000, with the $5,000-minimum message |
| `Validator.NonNumericAgePasses` | Lambda/lambda_function.py:113-118 | any age that `parse_int` turns into NaN is never the violation; validation behaves as if the age were absent |
| `Validator.NonNumericInvestmentAmountFails` | Lambda/lambda_function.py:121-127 | any amount that `parse_int` turns into NaN is the violation, with the $5,000-minimum message, once first name and age have passed |
| `Validator.ParseIntRejects` | Lambda/lambda_function.py:14-17 | `parse_int` gives NaN for blank text, a lone sign, `1__0` and `12 34` |
| `Recommendation.Allocations` | Lambda/lambda_function.py:95-99 | the allocation the exercise text lists for each of none, low, medium and high |
| `Recommendation.InvestmentRecommendation` | Lambda/lambda_function.py:139-149 | the allocation listed for the lowered risk level, or `''` when there is none; non-empty iff validation accepts the risk level |
| `Recommendation.RecommendationIgnoresCase` | Lambda/lambda_function.py:139-149 | risk levels equal ignoring case get the same recommendation |
| `Recommendation.RecommendationsDistinct` | Lambda/lambda_function.py:95-99 | the four accepted risk levels get four different allocations |
| `Slots.SlotMap.Clear` | Lambda/lambda_function.py:171 | `slots[name] = None` empties that slot and keeps the others |
| `Handler.PortfolioOutcome` | Lambda/lambda_function.py:152-184 | DialogCodeHook with an invalid result gives ElicitSlot: the violated slot is re-elicited with its message and cleared, all other slots and the session attributes are unchanged. A valid result gives Delegate with the slots unchanged and session attributes defaulted to `{}`. Any other source gives Close, Fulfilled, with the templated message, or raises when the risk level is missing |
| `Handler.ClosingText` | Lambda/lambda_function.py:184 | the closing message is the 94-character template plus the three values, with the risk level right after "Given your risk level - " |
| `Handler.UnsupportedIntentNamed` | Lambda/lambda_function.py:198 | the unsupported-intent error text contains the intent's name |
| `Handler.ClosingTextMentions` | Lambda/lambda_function.py:180-184 | the closing message contains the risk level as given, the recommendation and the first name (`None` when absent) |
| `Handler.FulfillmentRecommends` | Lambda/lambda_function.py:180-184 | a validated fulfillment request is closed with a message that contains the non-empty allocation for its risk level |
| `Handler.RecommendPortfolio` | Lambda/lambda_function.py:152-184 | the method's response is `PortfolioOutcome` of the request as it was; on ElicitSlot the caller's slot dictionary has the violated slot cleared and is the object the response returns; otherwise the dictionary is unchanged |
| `Handler.Dispatch` | Lambda/lambda_function.py:187-198 | the method's response is `DispatchOutcome` of the request as it was; the slot dictionary changes only on ElicitSlot |
| `Scenarios.RetirementAgeIsElicited` | Lambda/lambda_function.py:166-176 | age "70" alone gives ElicitSlot for age with the retirement message and the age slot cleared |
| `Scenarios.ValidSlotsAreDelegated` | Lambda/lambda_function.py:177-178 | Jane, 40, 10000, Medium gives Delegate with the same slots and `{}` session attributes |
| `Scenarios.HighRiskIsFulfilled` | Lambda/lambda_function.py:180-184 | fulfillment for Sam at "high" closes as Fulfilled with a message naming high, the 20/80 allocation and Sam |
| `Scenarios.OtherIntentIsRefused` | Lambda/lambda_function.py:192-198 | intent orderFlowers raises "Intent with name orderFlowers not supported" |
| `Scenarios.NonNumericAgeIsDelegated` | Lambda/lambda_function.py:113-118 | age "abc" alone is delegated, not re-elicited |

## Left out

- Logging (`logger.debug` and the logger setup): these are side effects only.
- The unused `datetime` and `relativedelta` imports.
- `lambda_handler` logs the bot name and calls `dispatch`. The model starts
  at `dispatch`, so a request without a bot name, which raises `KeyError`
  there, is not modelled.
- `get_slots` and the dictionary lookups of the four slot keys: the slots
  are a record of four optional strings. A request without one of the keys,
  which raises `KeyError`, is not modelled. Extra keys in the slot
  dictionary are not modelled either.
- `validate_data` has an unused `intent_request` parameter, which the model
  drops.
- Python's `int()`: the model uses ASCII digits, the ASCII whitespace `int()`
  skips (space, tab, line feed, vertical tab, form feed and carriage return,
  but not the separators 0x1C..0x1F), a sign and single underscores between
  digits. Non-ASCII digits and non-ASCII
  whitespace are not modelled.
- IntOf: no limit on the number of digits, as in Python 3.7 before 3.7.14
  (Lambda/lambda_function.py:90 names Python 3.7 as the runtime). From
  3.7.14 on, `int()` raises `ValueError` on more than 4300 digits, so there
  an age or an amount that long parses to NaN: the age passes and the amount
  fails, where the model checks the number.
- IntOfShowInt, ParseIntShowInt, NumericAge and NumericInvestmentAmount: they
  hold for every integer only on a Python without that limit; with it, only
  for integers of at most 4300 digits.
- `str.isalpha` and `str.lower` are modelled over ASCII letters only.
  Non-ASCII letters are treated as non-letters, and `lower` leaves them
  unchanged.
- The float NaN is the `NaN` case of `Number`. No other float arithmetic
  occurs.
- The JSON dictionaries are datatypes: `Message`, `ValidationResult`,
  `Request`, `Response`. Key order and the dictionary encoding are not
  modelled.
- Slot values that are not strings or `None` are not modelled. Such a first
  name raises `AttributeError` at `.isalpha()` (:109) and such a risk level
  at `.lower()` (:131). An integer age or amount passes through `int()`
  unchanged and is checked like its decimal text.
