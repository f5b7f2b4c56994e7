# Credit-card number validator: a Dafny model

This project models `src/index.js`. That file is a small JavaScript validator for credit-card numbers, built from three side-effect-free functions:

- `luhnAlgorithm(cardNumber)` computes the mod-10 Luhn checksum, the check-digit scheme of ISO/IEC 7812-1, Annex B. It converts each character with `Number`, which yields a digit, a 0 or NaN. It keeps the values at odd positions and the values at even positions (counted from the right, starting at 1) in two separate lists. It reduces the odd list to a plain sum, and the even list to a sum of doubled values, less 9 where the double exceeds 9. It accepts when the total is divisible by 10.
- `getCardIssuer(cardNumber)` tries an ordered table of ten anchored regular expressions. It returns the first key that matches, or `"Unknown"`.
- `validateCreditCard(cardNumber)` runs the Luhn check first. It asks for the issuer only when the check passes, and returns `{ valid, issuer }` with `issuer` `null` for a rejected number.

The model has four modules:

- `Chars` (`chars.dfy`): the character classes. These are the ASCII digits that `[0-9]` and `\d` accept, and the characters JavaScript's `Number` treats as white space.
- `Luhn` (`luhn.dfy`): the checksum, computed the way the source computes it, with filter and reduce. A JavaScript number is either `Finite(n)` or `NaN`. The module also holds a reference definition: the textbook Luhn sum `Total` over integer digits. `ChecksumIsTotal` proves that the filter-and-reduce checksum equals `Total` when no value is NaN, and is NaN otherwise. `ValuesBridge` carries this over to characters: no value is NaN exactly when every character converts.
- `Issuers` (`issuers.dfy`): one predicate per table entry. Each predicate transcribes its regular expression as a length check and a check on the leading characters. First-match search over the table in the source's order is `Classify`, and `GetCardIssuer` applies it to the table.
- `Validator` (`validator.dfy`): the entry point and its result record.

Where the code and the comments next to it disagree, the model follows the code:

- **Visa shadows four issuers.** The Visa pattern is `^[0-9]{16}$` and comes first in the table, so every 16-digit string is labelled `"Visa"`. MasterCard, Discover, HiperCard and Aura accept only 16-digit strings, so they are never returned (`ShadowedIssuersNeverReturned`). The same goes for JCB's 16-digit `35…` branch, although the comment at line 34 says JCB has "15 or 16 digits". A number such as `5105105105105100` (16 digits, starting 51) is therefore labelled `"Visa"`, not `"MasterCard"`.
- **The empty string is accepted.** Its checksum is 0, so `validateCreditCard("")` gives `{ valid: true, issuer: "Unknown" }` (`EmptyCardNumber`). The code does not reject empty input.
- **Malformed input.** Any other character is not rejected as such: `Number` turns white space into 0, and anything else into NaN. NaN makes the check fail (`NonNumericFails`). White space counts as a 0 digit and shifts the positions of the digits to its left, so a blank string is valid with issuer `"Unknown"` (`WhiteSpaceOnlyCardNumber`).

## Model

| member | source | states |
|---|---|---|
| `Luhn.ToNumber` | src/index.js:5 | `Number` of one character: a digit gives its value, a white-space character gives 0, any other character gives NaN; every finite result lies in 0..9 |
| `Luhn.Values` | src/index.js:5 | `split('').map(Number)` yields one converted value per character, in order |
| `Luhn.AddAssocComm` | src/index.js:12-15 | `Add`, JavaScript `+` on integers and NaN (NaN absorbs, integers add exactly), is associative and commutative |
| `Luhn.ByParity` | src/index.js:7-9 | the result of each `filter` holds only values of its input |
| `Luhn.ByParityElements` | src/index.js:7-9 | which values each `filter` keeps: every second value, ending at the last one (odd positions) or the one before it (even positions); the k-th kept value is at index n - 2m + 2k (+1 for odd positions), for m kept out of n |
| `Luhn.ByParityLength` | src/index.js:7-9 | the odd-position filter keeps ⌈n/2⌉ of n values and the even-position filter keeps ⌊n/2⌋ |
| `Luhn.Term` | src/index.js:12-16 | each reducer adds a term in 0..9 for a digit in 0..9; a NaN value gives a NaN term |
| `Luhn.Reduce` | src/index.js:12-16 | each `reduce` starts from 0 and, over digit values, gives an integer in 0..9n for n values |
| `Luhn.ReduceAppend` | src/index.js:12-16 | reducing a concatenation gives the sum of the two reductions, NaN included |
| `Luhn.Contribution` | src/index.js:13-16 | at either parity, a digit in 0..9 contributes a value in 0..9 |
| `Luhn.Total` | src/index.js:12-16 | the reference Luhn sum of n digits lies in 0..9n, so it is never negative and JavaScript's `%` agrees with Dafny's |
| `Luhn.Checksum` | src/index.js:12-16 | over digit values, `checksum` is a non-negative integer, so JavaScript's `%` on it agrees with Dafny's |
| `Luhn.ChecksumCons` | src/index.js:7-16 | the leftmost value adds its own term (plain if the sequence has odd length, doubled if even) to the checksum of the rest |
| `Luhn.TermIsContribution` | src/index.js:12-16 | the term a reducer adds for a value at position p is the reference contribution of that digit at p, or NaN for NaN |
| `Luhn.ChecksumIsLeftToRight` | src/index.js:7-16 | filtering by parity and reducing each half adds up the same terms as a single left-to-right pass that gives each value the term its position calls for |
| `Luhn.ChecksumOfFinite` | src/index.js:7-16 | when no value is NaN, the filter-and-reduce checksum equals the reference Luhn sum of the values |
| `Luhn.ChecksumOfNaN` | src/index.js:7-16 | one NaN value makes the whole checksum NaN |
| `Luhn.ChecksumIsTotal` | src/index.js:7-16 | the filter-and-reduce checksum equals the reference Luhn sum when no value is NaN, and is NaN otherwise |
| `Luhn.ValuesBridge` | src/index.js:5 | the converted values of a string contain no NaN exactly when every character converts, and their integers are then the string's digit values |
| `Luhn.LuhnAlgorithm` | src/index.js:3-20 | accepts iff no character converts to NaN and the reference Luhn sum of the values is divisible by 10 |
| `Luhn.DigitStringCheck` | src/index.js:3-20 | on a string of digits, the check is exactly the textbook Luhn test |
| `Luhn.NonNumericFails` | src/index.js:5-19 | a character that is neither a digit nor white space makes the check fail |
| `Luhn.EmptyPasses` | src/index.js:12-19 | the empty string passes, because its checksum is 0 |
| `Luhn.ZerosTotal` | src/index.js:12-16 | zero digits contribute nothing at any position |
| `Luhn.WhiteSpaceOnlyPasses` | src/index.js:5-19 | a string made only of white space passes the check |
| `Luhn.ContributionInjective` | src/index.js:13-16 | two different digits at the same position contribute differently (the adjusted doubling permutes 0..9) |
| `Luhn.TotalDiffAt` | src/index.js:12-16 | sequences that differ at one index have Luhn sums that differ by the two contributions at that index |
| `Luhn.SingleDigitChangeBreaksTotal` | src/index.js:12-19 | changing one digit of a sequence whose Luhn sum is a multiple of 10 gives a sum that is not |
| `Luhn.SingleDigitErrorDetected` | src/index.js:3-20 | changing any one digit of an accepted digit string gives a rejected string |
| `Luhn.ExampleNumbers` | src/index.js:70-71 | `"4532633854619837"` passes the check; `"4532633854619830"` (last digit changed) fails it |
| `Issuers.Matches` | src/index.js:27-45 | each anchored pattern is an all-digit length check plus a check on its leading characters; every pattern accepts 14 to 16 digits only, and only AmericanExpress, JCB, DinersClub, EnRoute and Voyager accept fewer than 16 |
| `Issuers.CardPatternsAreKeys` | src/index.js:25-49 | the table `Object.entries` walks holds each of the ten keys exactly once |
| `Issuers.LabelsAreDistinct` | src/index.js:49-55 | the key returned for an entry identifies it: distinct keys give distinct labels, none equal to the fallback `"Unknown"`, all in the label set |
| `Issuers.AllLabelsAreTableLabels` | src/index.js:25-51 | every label in the label set is the key of some table entry |
| `Issuers.Classify` | src/index.js:49-55 | returns the label of the first table entry that matches, and `"Unknown"` when none does |
| `Issuers.GetCardIssuer` | src/index.js:24-56 | always returns one of the ten table labels or `"Unknown"` |
| `Issuers.IssuerDecision` | src/index.js:25-55 | reading the table in order: 16 digits gives Visa, then AmericanExpress, JCB, DinersClub, EnRoute, Voyager, else `"Unknown"` |
| `Issuers.SixteenDigitsAreVisa` | src/index.js:25-53 | the label is `"Visa"` iff the string is exactly 16 decimal digits |
| `Issuers.ShadowedIssuersNeverReturned` | src/index.js:27-45 | `"MasterCard"`, `"Discover"`, `"HiperCard"` and `"Aura"` are never returned |
| `Issuers.AmericanExpressShape` | src/index.js:27-31 | the label is `"AmericanExpress"` iff the string is 15 digits starting 34 or 37 |
| `Issuers.JcbShape` | src/index.js:27-35 | the label is `"JCB"` iff the string is 15 digits starting 2131 or 1800 |
| `Issuers.DinersClubShape` | src/index.js:27-37 | the label is `"DinersClub"` iff the string is 14 digits starting 300–305, 36 or 38 |
| `Issuers.EnRouteShape` | src/index.js:27-39 | the label is `"EnRoute"` iff the string is 15 digits starting 2014 or 2149 |
| `Issuers.VoyagerShape` | src/index.js:27-41 | the label is `"Voyager"` iff the string is 15 digits starting 8699 |
| `Issuers.OtherShapesAreUnknown` | src/index.js:27-55 | a string with a non-digit character, or of length other than 14, 15 or 16, is `"Unknown"` |
| `Validator.ValidateCreditCard` | src/index.js:60-67 | `valid` iff the Luhn sum of the converted characters is divisible by 10 and none is NaN; `issuer` is null iff `valid` is false; when valid, `issuer` is the classifier's label, which is a table label or `"Unknown"` |
| `Validator.DigitStringValidity` | src/index.js:60-61 | on a digit string, `valid` is exactly the textbook Luhn test |
| `Validator.ReportedIssuers` | src/index.js:60-67 | a reported issuer is a table label or `"Unknown"`, and never the label of MasterCard, Discover, HiperCard or Aura |
| `Validator.EmptyCardNumber` | src/index.js:60-63 | `""` gives `{ valid: true, issuer: "Unknown" }` |
| `Validator.WhiteSpaceOnlyCardNumber` | src/index.js:60-63 | a non-empty string of white space gives `{ valid: true, issuer: "Unknown" }` |
| `Validator.ExampleIsVisa` | src/index.js:70 | the usage example's number is labelled `"Visa"` |
| `Validator.ExampleCards` | src/index.js:70-71 | the usage example gives `{ valid: true, issuer: "Visa" }`; with its last digit changed to 0 it gives `{ valid: false, issuer: null }` |

## Left out

- The usage example at src/index.js:70-72 prints to the console. The printing is I/O and is left out; the example number is kept as the lemmas `Luhn.ExampleNumbers` and `Validator.ExampleCards`.
- The regular-expression engine is not modelled. Each pattern is written out as an equivalent length check and prefix check (`Issuers.Matches`).
- `String.prototype.split('')` splits a string into UTF-16 code units, but a Dafny `string` holds Unicode scalar values. A character outside the Basic Multilingual Plane becomes two lone surrogates in JavaScript and one character here. Either way it converts to NaN and matches no pattern, so the results agree, but the model does not represent code units.
- IEEE-754 arithmetic is not modelled. A JavaScript number is an unbounded integer or NaN. The sums stay exact below 2^53, which no string of realistic length reaches.
- Arguments that are not strings are not modelled. JavaScript would throw on `split` for `undefined` or a number; every input here is a string.
- The functions keep no state, so calling them twice on the same string gives the same result. This holds by construction and is not stated as a lemma.
