# hemlock-crt in Dafny

A model of the Cognitive Reflection Test (CRT) items of `hemlock_crt`, a
package of survey questions for the hemlock survey framework, with proofs of
what its code promises. The package has three moving parts, all in
`hemlock_crt/__init__.py`:

- the **response assessor** `_assess_response`. Every CRT question runs it
  when it is submitted. It removes the question's earlier `<var>Correct` and
  `<var>Intuitive` entries from its page's embedded data. It scores the
  submitted value against the item's correct and intuitive answers. Then it
  appends the two new flags, each 0, 1 or `None`;
- the **item registry**: the dictionary `crt_items` and the decorator
  `register`, which wraps each item function so that it sets its
  question's `data_rows` to -1 and appends the assessor, bound to the
  item's two answers, to its submit functions;
- the **selection function** `crt`. It builds the questions for a list of
  item names, or for a default list of three. It can also require an
  answer, put each question on its own page, and shuffle the list.

Files, one module each:

- `wrappers.dfy`: `Option` and `Result`.
- `coercion.dfy`: `type(correct)(data)`, that is `float()`, `int()` and
  `str()` on a submitted value, and the Python exceptions the core raises.
- `hemlock.dfy`: the host framework's objects as far as the core touches
  them. `Question` and `Page` are classes, because the core updates their
  fields in place. `Embedded`, validators and submit functions are values.
- `assess.dfy`: `_assess_response`. `AssessResponse` is a method that
  updates `page.embedded` in place with the same removal loop as the
  source. It is proved equal to the function `Assess`, and the lemmas
  state the properties of `Assess`.
- `shuffle.dfy`: `random.shuffle` as the list Python's Fisher-Yates loop
  leaves. The random draws are a parameter.
- `items.dfy`: the built-in items as constant data (key, variable,
  widget, correct answer, intuitive answer). The source registers 23 of
  them.
- `registry.dfy`: `crt_items` as the class `CrtItems`, `register`, the
  wrapper `gen_question`, and `crt` with its steps.

Two behaviours of the assessor are easy to miss:

- A value that cannot be converted raises: `float('five')` raises
  `ValueError` (line 107). By then the earlier flags are already removed
  (line 101), and nothing is appended.
- Removal happens before scoring: the old entries are gone before either
  flag is computed.

## Model

| member | source | states |
|---|---|---|
| `ResponseAssessor.Assess` | hemlock_crt/__init__.py:96-115 | The new list starts with the old list's other entries, in order. When nothing is raised, exactly two entries follow, both flags of this question. It raises exactly when one of the two flags raises, and then nothing follows the other entries. |
| `ResponseAssessor.PreviousAssessment` | hemlock_crt/__init__.py:97-100 | `prev_assessment` holds exactly the entries of the list named `<var>Correct` or `<var>Intuitive`: no other entry, and none of those missed. |
| `ResponseAssessor.Others` | hemlock_crt/__init__.py:97-101 | What the removal leaves holds no entry named `<var>Correct` or `<var>Intuitive`. |
| `ResponseAssessor.RemoveFirst` | hemlock_crt/__init__.py:101 | `list.remove(e)` on a list holding `e` removes exactly one occurrence of `e`: the length drops by one and the multiset of entries loses one `e`. |
| `ResponseAssessor.RemoveFirstIsFirst` | hemlock_crt/__init__.py:101 | The occurrence `list.remove(e)` removes is the first one; the entries before and after it keep their order. |
| `ResponseAssessor.IsMissing` | hemlock_crt/__init__.py:103 | Text is missing exactly when it is empty. A chosen integer, zero included, is never missing. |
| `ResponseAssessor.Flag` | hemlock_crt/__init__.py:103-112 | A flag is `None` exactly when the answer is missing. It raises exactly when the answer is present and the conversion fails, with the conversion's exception. Otherwise it is 0 or 1, and 1 exactly when the converted answer equals the reference. |
| `ResponseAssessor.AssessResponse` | hemlock_crt/__init__.py:91-115 | The page's embedded list becomes exactly `Assess(old list, var, data, correct, intuitive)`, and the exception raised is the one `Assess` gives. With no page, `AttributeError` is raised and nothing changes. The page's other fields are unchanged. |
| `ResponseAssessor.RemoveFirstAssessment` | hemlock_crt/__init__.py:97-101 | `list.remove` of the first stale entry removes that entry. The remaining stale entries are the rest of `prev_assessment`, and every other entry stays in order. This is the invariant of the removal loop. |
| `ResponseAssessor.NoAssessmentLeft` | hemlock_crt/__init__.py:97-101 | Once no stale entry is left, the list equals its filtering. So the removal loop ends with exactly the non-flag entries. |
| `ResponseAssessor.AssessPlacesFlags` | hemlock_crt/__init__.py:97-115 | After an assessment that does not raise, the list is the other entries in their original order, then `<var>Correct`, then `<var>Intuitive`, both with `data_rows == -1`. No other position holds either name, so there is exactly one of each. |
| `ResponseAssessor.AssessScores` | hemlock_crt/__init__.py:102-112 | `None` or `''` records `None` for both flags. Any other value is converted to each reference's type. Each flag is 1 exactly when the converted value equals that reference, and 0 otherwise. |
| `ResponseAssessor.AssessRaises` | hemlock_crt/__init__.py:101-115 | An assessment raises exactly when the value is present and cannot be converted to one of the two reference types. The conversion for the correct answer is tried first. When it raises, the old flags are gone and nothing is appended. |
| `ResponseAssessor.AssessKeepsOthers` | hemlock_crt/__init__.py:97-104 | Filtering the flags out of the new list gives the same as filtering them out of the old list. Every other entry survives, in its original relative order. |
| `ResponseAssessor.OthersKeepsEveryOther` | hemlock_crt/__init__.py:97-101 | An entry that is not a flag of this question is kept by the filtering exactly when it was in the list. |
| `ResponseAssessor.AssessIdempotent` | hemlock_crt/__init__.py:96-115 | Assessing the same value twice leaves the same list and raises the same exception as assessing it once. Stale flags do not accumulate. |
| `ResponseAssessor.OthersIdempotent` | hemlock_crt/__init__.py:97-101 | Filtering an already filtered list changes nothing. |
| `ResponseAssessor.OthersAppend` | hemlock_crt/__init__.py:101-104 | Filtering distributes over appending, so the flags appended at line 104 are exactly the ones the next submission removes. |
| `ResponseAssessor.FlagNamesDiffer` | hemlock_crt/__init__.py:99 | `<var>Correct` and `<var>Intuitive` are different names for every `var`. |
| `ResponseAssessor.CoerceByKind` | hemlock_crt/__init__.py:107-112 | `type(correct)(data)` depends only on the type of the reference, not on its value. |
| `ResponseAssessor.NeverBothFlags` | hemlock_crt/__init__.py:107-112 | If the two references have one type and differ, no value scores 1 on both flags. |
| `ResponseAssessor.EqualReferencesAgree` | hemlock_crt/__init__.py:104-115 | The two flags are computed separately. When the references are equal, the recorded flags are equal, for example both 1 on a match. |
| `ResponseAssessor.NumberTextScores` | hemlock_crt/__init__.py:103-107 | For a float reference, text that `float()` reads as `y` is an answer, and it scores 1 exactly when `y` equals the reference, 0 otherwise. |
| `ResponseAssessor.IntegerTextScores` | hemlock_crt/__init__.py:103-107 | For an int reference, text that `int()` reads as `n` is an answer, and it scores 1 exactly when `n` equals the reference, 0 otherwise. |
| `ResponseAssessor.NumericTextScores` | hemlock_crt/__init__.py:107 | For a float reference, the typed digits of an integer `n`, or the integer `n` itself, score 1 exactly when `n` equals the reference, and 0 otherwise. |
| `ResponseAssessor.IntegerAnswerScores` | hemlock_crt/__init__.py:107 | For an int reference, the typed digits of `n`, or the chosen value `n`, score 1 exactly when `n` equals the reference, and 0 otherwise. |
| `ResponseAssessor.ZeroIsScored` | hemlock_crt/__init__.py:103 | The answer `0`, chosen or typed, is scored. It is never recorded as missing. |
| `Coercion.Coerce` | hemlock_crt/__init__.py:107-112 | `type(reference)(data)` yields a value of the reference's own type. It fails exactly for `None`, with `TypeError`, and for text that `float()` or `int()` rejects, with `ValueError` of that text. It never fails for `str`. |
| `Coercion.Strip` | hemlock_crt/__init__.py:107 | The white space `int()` and `float()` ignore: the stripped text is a slice of the text that neither begins nor ends with white space, and only white space lies outside it. |
| `Coercion.ParseInt` | hemlock_crt/__init__.py:107 | Text `int()` accepts ends, once stripped, in a digit, and gives a negative number only after a `-`. Stripped text made only of digits is always accepted. |
| `Coercion.ParseFloat` | hemlock_crt/__init__.py:107 | Text `float()` accepts is not blank, and gives a negative number only after a `-`. Stripped text made only of digits is always accepted. |
| `Coercion.IntToString` | hemlock_crt/__init__.py:112 | `str(i)` starts with `-` exactly when `i` is negative. The rest is a non-empty string of digits whose value is the magnitude of `i`. |
| `Coercion.ParseIntOfIntToString` | hemlock_crt/__init__.py:107 | `int(str(i)) == i` for every integer. |
| `Coercion.ParseFloatExtendsParseInt` | hemlock_crt/__init__.py:107 | Every text `int()` accepts is accepted by `float()` with the same value. |
| `Coercion.ParseFloatOfIntToString` | hemlock_crt/__init__.py:107 | `float(str(i)) == i` for every integer. |
| `Coercion.NonNumeralRejected` | hemlock_crt/__init__.py:107 | Text whose first character is neither white space, a digit, a sign nor a point is rejected by both `int()` and `float()`, whatever follows. |
| `Coercion.NatToString` | hemlock_crt/__init__.py:107 | The decimal digits of `n` are non-empty and read back as `n`. |
| `Shuffle.ShuffleDown` | hemlock_crt/__init__.py:59-60 | The swaps for positions `i` down to 1 keep the length and leave a permutation of the list, for any valid draws. |
| `Shuffle.Shuffled` | hemlock_crt/__init__.py:59-60 | For any valid draws, the shuffled list is a permutation of the original one. Draws that pick each position itself leave it in its original order. |
| `Shuffle.ShuffleDownFixedDraws` | hemlock_crt/__init__.py:59-60 | Draws that pick each position itself leave the list unchanged by every step. |
| `Registry.Lookup` | hemlock_crt/__init__.py:44-45 | Looking up the names succeeds exactly when every name is registered. It then gives one generator per name, in the names' order. Otherwise it raises `KeyError` for the first unregistered name. |
| `Registry.Generate` | hemlock_crt/__init__.py:80-85 | A generated question is fresh and has the function's fields and `data_rows == -1`. Its submit list is the function's, plus exactly one assessor bound to the registered `(correct, intuitive)`. |
| `Registry.GenerateAll` | hemlock_crt/__init__.py:45 | Builds one fresh, distinct question per name, in order. It stops with the `KeyError` that `Lookup` reports. |
| `Registry.RequireEach` | hemlock_crt/__init__.py:46-48 | Each question's validator list grows by exactly one `V.require()`. |
| `Registry.WrapEach` | hemlock_crt/__init__.py:49-58 | Each question gets its own fresh page, named after the question's `var` and timed under `(<var>Time, -1)`. There is one page per question. |
| `Registry.CrtItems.Crt` | hemlock_crt/__init__.py:22-61 | With no names, the default three are used. The call raises exactly when `Lookup` does, with the same `KeyError`. Otherwise element k presents the question generated for name k: the question itself, or its own page. The `require` option adds exactly one validator. The list is left in order without `shuffle`, and is `Shuffled(...)`, a permutation, with it; with draws that pick each position itself, `shuffle` changes nothing. The registry is only read. |
| `Registry.CrtItems.RegisterThenCrt` | hemlock_crt/__init__.py:44-86 | Registering a function and then calling `crt` with its key builds exactly one element, presenting the function's question hooked with the `(correct, intuitive)` given to `register`. |
| `Registry.RegistryKey` | hemlock_crt/__init__.py:86 | `key or func.__name__`: a non-empty key is used as given; a missing or empty key falls back to the function's name. |
| `Registry.Selection` | hemlock_crt/__init__.py:44 | The names given, or `bat_ball`, `widgets` and `lily_pads` when none are given; so never an empty list. |
| `Registry.BuiltinTemplate` | hemlock_crt/__init__.py:124-397 | A built-in function registered without a key is stored under its item's key, and builds the item's widget under the item's variable with no validators or submit functions of its own. |
| `Registry.Registered` | hemlock_crt/__init__.py:86 | After the items of a table are registered one by one, every item's key is in the registry. |
| `Hemlock.Page.constructor` | hemlock_crt/__init__.py:51-56 | The new page holds just the question, under the given name and timer, with no embedded data; the question now belongs to that page, and its other fields are unchanged. |
| `Registry.CrtItems.Register` | hemlock_crt/__init__.py:65-89 | Stores the wrapped function under `key`, or under the function's name when `key` is missing or empty. A repeated key is overwritten without error. |
| `Registry.CrtItems.constructor` | hemlock_crt/__init__.py:63 | `crt_items` starts empty. |
| `Registry.CrtItems.Loaded` | hemlock_crt/__init__.py:124-397 | Importing the module registers the items of its table in file order, so `crt_items` becomes `Registered(table)`. |
| `Registry.LastRegistrationWins` | hemlock_crt/__init__.py:86 | The registry keeps the last registration under each key. |
| `Registry.RegisteredFromItems` | hemlock_crt/__init__.py:86 | Every key in the registry came from some registered item and holds that item's generator. |
| `Registry.BuiltinLookup` | hemlock_crt/__init__.py:124-397 | After import, each built-in key holds its own item's generator. |
| `Registry.DefaultSelectionResolves` | hemlock_crt/__init__.py:44-45 | `crt()` on the built-in registry finds `bat_ball`, `widgets` and `lily_pads`, in that order. |
| `Registry.BuiltinGeneratorsDistinguish` | hemlock_crt/__init__.py:124-397 | Every generator in the built-in registry binds two references that have one type and differ. |
| `Items.BuiltinReferencesDiffer` | hemlock_crt/__init__.py:124-397 | There are 23 built-in items. In each, `correct` and `intuitive` have one type and differ. |
| `Items.BuiltinKeysDistinct` | hemlock_crt/__init__.py:124-397 | No two built-in items share a registry key, so none of them overwrites another. |
| `Items.BuiltinVarNamesDistinct` | hemlock_crt/__init__.py:124-397 | No two built-in items share a question variable, so their flags never collide. |
| `Items.BuiltinNeverBothFlags` | hemlock_crt/__init__.py:124-397 | No answer to a built-in item scores 1 on both flags. |
| `Items.AssessOnEmptyPage` | hemlock_crt/__init__.py:104-115 | On a page with no embedded data, a successful assessment leaves just the two new flags. |
| `Items.BatBallScenario` | hemlock_crt/__init__.py:125-136 | For bat-and-ball (correct 5, intuitive 10): `"5"` gives (1, 0), `"10"` gives (0, 1), `"7"` gives (0, 0), and `""` gives (None, None). |
| `Items.BatBallRejectsWords` | hemlock_crt/__init__.py:125-136 | For bat-and-ball, the text `"five"` raises `ValueError`, and nothing is appended. |
| `Items.StockScenario` | hemlock_crt/__init__.py:381-397 | For the stock item (correct `loss`, intuitive `gain`): `loss` gives (1, 0), `gain` gives (0, 1), and `even` gives (0, 0). |

## Left out

- Widget and page construction (`Input`, `Binary`, `Check`, `Choice`, `Page`, `Embedded`, `V.require`, `S`) belongs to the host framework. These are modelled as plain records and constructors. Prompt text, choices, `append`, `prepend`, `extra_attrs` and the page `debug` argument are presentation and are not modelled.
- Registry.BuiltinTemplate assumes that each built-in widget starts with no validators, no submit functions and `data_rows` set to 1. These are the host's defaults, and the host is not part of this model. `data_rows` is overwritten with -1 anyway.
- Registry.Generate assumes the registered function returns a fresh question on every call, as every built-in one does. A function that returns a shared object would alias; that case is not modelled.
- `_debug_functions` (lines 117-122) is not modelled. It builds browser auto-fill helpers that fire with a probability.
- Shuffle.Shuffled: where the random draws come from, and their uniform distribution, are not modelled. The draws are a parameter with `draws[i] <= i`, which is the range `randbelow(i + 1)` promises.
- `random.shuffle` updates the list in place with a loop that lives in Python's standard library, not in `hemlock_crt`. The model computes the list that loop leaves as the value `Shuffled(list, draws)`; the update in place is not modelled.
- Coercion.ParseFloat reads `float(text)` as an exact decimal: optional sign, digits, and at most one point. Exponents, `inf`, `nan`, digit underscores, non-ASCII digits and non-ASCII white space are not modelled; for those the model raises `ValueError` where Python parses. IEEE rounding is not modelled either: float references and parsed values are exact reals.
- Coercion.ParseInt does not accept digit underscores or non-ASCII digits.
- Coercion.Data has three cases: no answer, text, and an integer choice value. Boolean, float and list answers are not modelled.
- `register(correct, intuitive, key)` returns a decorator that is then applied to the function. The model makes this one call, `Register(correct, intuitive, key, func)`.
- `survey.py` (a web route that reads totals from the respondent's record) and `mkdocs.py` (documentation generation) are not part of this model.
- Concurrency is not modelled: each respondent's questions and pages are separate objects.
