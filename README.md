# onliner-car-sales: a verified model of the wait wrapper and its string helpers

This project models, in Dafny, the part of the onliner-car-sales Selenium test framework that the repository itself computes. Everything else is left to Selenium and Awaitility. The model has three parts.

- **`Await`** is the repository's wrapper around an Awaitility `ConditionFactory`.
  - Its constructor maps a timeout to a poll interval by a fixed staircase.
  - `waitFor(seconds)` rejects 0 and anything above 1000 as a typo.
  - Four nullable message fields (`errorMessage`, `callableErrorMessage`, `exceptionMessage`, `callableExceptionMessage`) decide how a timed-out wait fails. It can fail with a TestNG assertion failure, with a new `ConditionTimeoutException` carrying a composed text, with a `RuntimeException` when a message supplier throws, or by rethrowing the original timeout.
- **`ElementsUtil`** holds static helpers:
  - `parseColor`, a regular-expression parser for `rgb…(r, g, b, …)` strings;
  - `isClassPresent`, which looks for a class token;
  - the two `addName` message builders;
  - the waiters, which build an `Await` with a failure message and wait on a condition.
- **`LeftMenu`** finds a filter entry by its label. The label is the entry's text up to the first space. `getCarType` and `getCarCount` share this lookup.

Files:
- `wrappers.dfy`: `Option` and `Result`.
- `java_lang.dfy`: the Java semantics the code relies on:
  - 32-bit `int` multiplication with wrap-around;
  - the decimal text of numbers in string concatenation, and `Integer.valueOf` of a digit string;
  - `null` in concatenation, and `StringUtils.isBlank`;
  - `String.split` on a one-character separator, including the removal of trailing empty strings.
- `await_spec.dfy`: the pure parts of `Await`:
  - the staircase and the seconds guard;
  - the message texts;
  - the routing of a timeout, as total functions over the four fields, the wait shape and the poll result.
- `await.dfy`: the class `Await`. Its fields are the builder log of the condition factory and the four message fields. Each method is proved against the functions of `await_spec.dfy`.
- `elements_util.dfy`: `parseColor` as a deterministic matcher proved equal to the pattern, `isClassPresent`, `addName`, the failure texts and the waiters.
- `left_menu.dfy`: the first-token loop of `getCarType`/`getCarCount`, proved against a recursive specification, then `indexOf` and `get`.

Awaitility's poll loop is not part of this model. A wait receives the library's verdict as an input: `Satisfied(value)`, `TimedOut(message)` or `Raised(error)`. The last is an exception or `Error` that Awaitility lets through. A message supplier (`Callable<String>`) is an input too. It can yield a string, throw an `Exception`, or throw an `Error`. A selector `By` is represented by its `toString()` text. A `WebElement` is represented by its `class` attribute and optional `Named` name in `ElementsUtil`, and by its text in `LeftMenu`.

Where the code and its documentation disagree, the model follows the code:
- A successful wait does not clear the message fields. Only the failure paths call `forgetErrorMessages`, so a message set before a successful wait is still in force for the next wait on the same object (`AwaitSpec.MessageSurvivesSuccess`).
- TestNG's `fail` always throws. So a timed-out wait never returns `null`, even where the Java code writes `return null` after the handling (`AwaitSpec.WaitOutcome`).
- `untilAsserted` with no message set fails the test with the original timeout text alone. It does not rethrow (`AwaitSpec.OnTimeout`).
- `waitForNotVisible(driver, selector, seconds)` reports "Element is not displayed", the text of the visibility waiters, although the element form of `waitForNotVisible` reports "Element is not hidden". A selector that stays visible therefore fails with the same text as one that never appeared (`ElementsUtil.NotVisibleSelectorReportsNotDisplayed`).
- A negative number of seconds passes the guard of `waitFor`. `seconds * 1000` is then `int` arithmetic and wraps for `seconds < -2147483` (`AwaitSpec.NegativeSecondsPassGuard`).

## Model

| member | source | states |
|---|---|---|
| AwaitSpec.PollIntervalMs | src/main/java/com/onlinerautomation/utils/Await.java:48-57 | the poll interval derived from a timeout is always between 200 and 1000 ms |
| AwaitSpec.StaircaseBoundaries | src/main/java/com/onlinerautomation/utils/Await.java:49-57 | the steps are 200 up to 1000 ms inclusive, 300 up to 3000, 500 below 10000, 1000 from 10000 on, checked on both sides of each boundary |
| AwaitSpec.StaircaseMonotone | src/main/java/com/onlinerautomation/utils/Await.java:49-57 | a longer timeout never gets a shorter poll interval |
| AwaitSpec.WaitForTimeoutMs | src/main/java/com/onlinerautomation/utils/Await.java:70-75 | fails with "Waiter timeout set to <s>s. Is it a typo?" exactly when s is 0 or above 1000; otherwise the timeout is s*1000 as a 32-bit `int` (congruent mod 2^32), and exactly s*1000 for 1..1000 |
| AwaitSpec.NegativeSecondsPassGuard | src/main/java/com/onlinerautomation/utils/Await.java:71-74 | negative seconds pass the guard; -2147484 s wraps to a positive 2147483296 ms |
| AwaitSpec.TypoMessage | src/main/java/com/onlinerautomation/utils/Await.java:72 | the text is "Waiter timeout set to ", the decimal text of the seconds, then "s. Is it a typo?" |
| AwaitSpec.SetCount | src/main/java/com/onlinerautomation/utils/Await.java:31-34 | no message is configured exactly when all four fields are null |
| AwaitSpec.AssertionText | src/main/java/com/onlinerautomation/utils/Await.java:655 | a blank message gives the original text alone; otherwise message, ";\n", original |
| AwaitSpec.TimeoutText | src/main/java/com/onlinerautomation/utils/Await.java:638 | the text is the message (the four letters "null" for a null one, no blank check, so an empty message gives "\n" first), a newline, then the original text |
| AwaitSpec.ProducerFailureText | src/main/java/com/onlinerautomation/utils/Await.java:650 | the text is the supplier exception's message ("null" when it has none), ";\nCondition failed: ", then the original text |
| AwaitSpec.SeparatorsDiffer | src/main/java/com/onlinerautomation/utils/Await.java:637-658 | the assertion text and the timeout text for the same message and original always differ |
| AwaitSpec.OnTimeout | src/main/java/com/onlinerautomation/utils/Await.java:620-667 | the original timeout is rethrown exactly when the shape rethrows and no field is set, and then nothing changes; an `Error` from a supplier leaves the fields set; every other outcome clears all four; an assertion text always ends with the original; `untilAsserted` with no field set fails with the original text |
| AwaitSpec.WaitOutcome | src/main/java/com/onlinerautomation/utils/Await.java:457-464 | a satisfied wait returns its value and leaves the fields as they were; an exception Awaitility lets through propagates unchanged; a timeout always throws and leaves the fields either as they were or cleared; it never returns `null` |
| AwaitSpec.KeepFirst | src/main/java/com/onlinerautomation/utils/Await.java:626-634 | keeping only the field of highest priority leaves at most one field set |
| AwaitSpec.PriorityOrder | src/main/java/com/onlinerautomation/utils/Await.java:626-634 | with several fields set, the outcome is that of the first of errorMessage, callableErrorMessage, exceptionMessage, callableExceptionMessage |
| AwaitSpec.TimeoutKeepsInvariant | src/main/java/com/onlinerautomation/utils/Await.java:613-667 | handling a timeout keeps "at most one field set" |
| AwaitSpec.NoMessageLeaksAfterTimeout | src/main/java/com/onlinerautomation/utils/Await.java:637-667 | after a timeout that did not propagate an `Error`, the next timeout behaves as if no message had ever been set |
| AwaitSpec.MessageSurvivesSuccess | src/main/java/com/onlinerautomation/utils/Await.java:457-464 | a successful wait keeps the fields, so the next timeout is routed by the same message |
| AwaitClass.Await.constructor | src/main/java/com/onlinerautomation/utils/Await.java:36-40 | the default factory ignores StaleElementReference and NoSuchElement; no message is set |
| AwaitClass.Await.WithTimeout | src/main/java/com/onlinerautomation/utils/Await.java:47-62 | the factory is: timeout, fixed poll interval from the staircase, the two default ignore rules; no message is set |
| AwaitClass.Await.WaitFor | src/main/java/com/onlinerautomation/utils/Await.java:70-75 | fails exactly as `WaitForTimeoutMs` does, otherwise a fresh `Await` for the wrapped milliseconds |
| AwaitClass.Await.ForgetErrorMessages | src/main/java/com/onlinerautomation/utils/Await.java:613-618 | all four fields become null; the factory is unchanged |
| AwaitClass.Await.WithError | src/main/java/com/onlinerautomation/utils/Await.java:83-87 | the fields become exactly this message and three nulls; exactly one is set when the message is non-null |
| AwaitClass.Await.WithErrorFrom | src/main/java/com/onlinerautomation/utils/Await.java:96-100 | the fields become exactly this supplier and three nulls |
| AwaitClass.Await.WithException | src/main/java/com/onlinerautomation/utils/Await.java:109-113 | the fields become exactly this message and three nulls |
| AwaitClass.Await.WithExceptionFrom | src/main/java/com/onlinerautomation/utils/Await.java:122-126 | the fields become exactly this supplier and three nulls |
| AwaitClass.Await.AtLeast | src/main/java/com/onlinerautomation/utils/Await.java:134-169 | appends the lower time bound to the factory; the message fields are unchanged |
| AwaitClass.Await.AtMost | src/main/java/com/onlinerautomation/utils/Await.java:177-212 | appends the upper time bound to the factory; the message fields are unchanged |
| AwaitClass.Await.Between | src/main/java/com/onlinerautomation/utils/Await.java:222-238 | appends both bounds to the factory; the message fields are unchanged |
| AwaitClass.Await.PollDelay | src/main/java/com/onlinerautomation/utils/Await.java:248-251 | appends the poll delay to the factory; the message fields are unchanged |
| AwaitClass.Await.PollIntervalStrategy | src/main/java/com/onlinerautomation/utils/Await.java:261-264 | appends the poll-interval strategy to the factory; the message fields are unchanged |
| AwaitClass.Await.PollIntervalAmount | src/main/java/com/onlinerautomation/utils/Await.java:274-291 | appends the interval and its unit (milliseconds for the one-argument form); the message fields are unchanged |
| AwaitClass.Await.IgnoreExceptionsInstanceOf | src/main/java/com/onlinerautomation/utils/Await.java:303-306 | appends the ignore rule; the message fields are unchanged |
| AwaitClass.Await.IgnoreException | src/main/java/com/onlinerautomation/utils/Await.java:317-320 | appends the ignore rule; the message fields are unchanged |
| AwaitClass.Await.IgnoreExceptions | src/main/java/com/onlinerautomation/utils/Await.java:330-333 | appends "ignore all"; the message fields are unchanged |
| AwaitClass.Await.IgnoreNoExceptions | src/main/java/com/onlinerautomation/utils/Await.java:342-344 | appends a filter that matches nothing; the message fields are unchanged |
| AwaitClass.Await.IgnoreExceptionsMatching | src/main/java/com/onlinerautomation/utils/Await.java:353-368 | appends the filter; the message fields are unchanged |
| AwaitClass.Await.DontCatchUncaughtExceptions | src/main/java/com/onlinerautomation/utils/Await.java:427-430 | appends the flag; the message fields are unchanged |
| AwaitClass.Await.ConditionEvaluationListener | src/main/java/com/onlinerautomation/utils/Await.java:438-441 | appends the listener; the message fields are unchanged |
| AwaitClass.Await.And | src/main/java/com/onlinerautomation/utils/Await.java:387-389 | returns the same object and changes nothing |
| AwaitClass.Await.With | src/main/java/com/onlinerautomation/utils/Await.java:397-399 | returns the same object and changes nothing |
| AwaitClass.Await.Then | src/main/java/com/onlinerautomation/utils/Await.java:407-409 | returns the same object and changes nothing |
| AwaitClass.Await.Given | src/main/java/com/onlinerautomation/utils/Await.java:417-419 | returns the same object and changes nothing |
| AwaitClass.Await.ThrowAssertionError | src/main/java/com/onlinerautomation/utils/Await.java:654-658 | fails with the assertion text and clears all four fields |
| AwaitClass.Await.ThrowAssertionErrorFrom | src/main/java/com/onlinerautomation/utils/Await.java:660-667 | a yielded message gives the assertion failure; a supplier `Exception` gives a `RuntimeException` with "<message>;\nCondition failed: <original>"; both clear the fields; a supplier `Error` propagates and leaves them set |
| AwaitClass.Await.GetTimeoutException | src/main/java/com/onlinerautomation/utils/Await.java:637-643 | a timeout exception with "<message>\n<original>" (null printed as "null", no blank check), all fields cleared |
| AwaitClass.Await.GetTimeoutExceptionFrom | src/main/java/com/onlinerautomation/utils/Await.java:645-652 | as `ThrowAssertionErrorFrom`, with a timeout exception for a yielded message |
| AwaitClass.Await.ProcessMessages | src/main/java/com/onlinerautomation/utils/Await.java:625-635 | with no field set, throws nothing and changes nothing; otherwise signals by the field of highest priority |
| AwaitClass.Await.ConditionTimeoutExceptionHandling | src/main/java/com/onlinerautomation/utils/Await.java:620-623 | the signal and new fields are those of `OnTimeout` for a rethrowing shape |
| AwaitClass.Await.Attempt | src/main/java/com/onlinerautomation/utils/Await.java:458-463 | the shared `try`/`catch (ConditionTimeoutException)`: a satisfied wait returns its value, another throwable passes through, a timeout is handled as `OnTimeout` for a rethrowing shape; the outcome and new fields are `WaitOutcome` |
| AwaitClass.Await.UntilCall | src/main/java/com/onlinerautomation/utils/Await.java:457-464 | outcome and new fields are `WaitOutcome` for a rethrowing shape |
| AwaitClass.Await.Until | src/main/java/com/onlinerautomation/utils/Await.java:476-515 | outcome and new fields are `WaitOutcome` for a rethrowing shape |
| AwaitClass.Await.UntilTrueCondition | src/main/java/com/onlinerautomation/utils/Await.java:523-529 | outcome and new fields are `WaitOutcome` for a rethrowing shape |
| AwaitClass.Await.UntilFlag | src/main/java/com/onlinerautomation/utils/Await.java:588-608 | outcome and new fields are `WaitOutcome` for a rethrowing shape |
| AwaitClass.Await.UntilGot | src/main/java/com/onlinerautomation/utils/Await.java:671-678 | outcome and new fields are `WaitOutcome` for a rethrowing shape |
| AwaitClass.Await.UntilAsserted | src/main/java/com/onlinerautomation/utils/Await.java:573-580 | outcome and new fields are `WaitOutcome` for the asserting shape: with no message it still fails an assertion |
| JavaLang.WrapInt | src/main/java/com/onlinerautomation/utils/Await.java:74 | the 32-bit result is congruent to the exact product mod 2^32 and equal to it when it fits |
| JavaLang.IntToString | src/main/java/com/onlinerautomation/utils/Await.java:72 | the decimal text of an `int`: it starts with "-" exactly for a negative number, and its digits read back (`DecimalValue`) as the number's absolute value |
| JavaLang.IsBlank | src/main/java/com/onlinerautomation/utils/Await.java:655 | a string is blank exactly when it is null or nothing is left once its leading whitespace (`Character.isWhitespace`) is stripped |
| JavaLang.DecimalRoundTrip | src/main/java/com/onlinerautomation/utils/ElementsUtil.java:347-349 | reading back the decimal text of a number gives the number |
| JavaLang.LeadingZerosIgnored | src/main/java/com/onlinerautomation/utils/ElementsUtil.java:347-349 | leading zeros do not change the value `Integer.valueOf` reads |
| JavaLang.SplitFirst | src/main/java/com/onlinerautomation/page/LeftMenu.java:60 | `split(" ")` is empty exactly for a non-empty string of spaces; otherwise its first element is the text before the first space |
| JavaLang.SplitMember | src/main/java/com/onlinerautomation/utils/ElementsUtil.java:137 | for a non-empty token, membership in `split` is membership among all pieces, trailing empty ones included |
| JavaLang.Split | src/main/java/com/onlinerautomation/utils/ElementsUtil.java:137 | without the separator the result is the whole string; otherwise it is the pieces between separators with the trailing empty ones, and only those, removed; no element holds the separator |
| JavaLang.PiecesJoin | src/main/java/com/onlinerautomation/utils/ElementsUtil.java:137 | the pieces contain no separator and join back to the string |
| JavaLang.PiecesAppend | src/main/java/com/onlinerautomation/utils/ElementsUtil.java:137 | a separator between two strings splits them into their own pieces |
| ElementsUtil.MatchRgb | src/main/java/com/onlinerautomation/utils/ElementsUtil.java:344-346 | every match is well formed (three non-empty digit groups, no line terminator under `.*`) and renders back to the input: the matcher accepts nothing outside the pattern |
| ElementsUtil.MatchComplete | src/main/java/com/onlinerautomation/utils/ElementsUtil.java:344-346 | every string the pattern describes is matched, with exactly its parts |
| ElementsUtil.MatchShape | src/main/java/com/onlinerautomation/utils/ElementsUtil.java:344 | a matched string has at least three commas and ends with ")" |
| ElementsUtil.ColorOf | src/main/java/com/onlinerautomation/utils/ElementsUtil.java:347-349 | succeeds exactly when all three values are at most 255, with those values; a value above `Integer.MAX_VALUE` is a `NumberFormatException`, any other failure an `IllegalArgumentException` |
| ElementsUtil.ParseColor | src/main/java/com/onlinerautomation/utils/ElementsUtil.java:343-352 | `null` exactly when the whole input does not match; a returned colour has components in 0..255 |
| ElementsUtil.ParseColorOfMatch | src/main/java/com/onlinerautomation/utils/ElementsUtil.java:346-350 | a match whose numbers are at most 255 parses to exactly those numbers |
| ElementsUtil.ParseColorRoundTrip | src/main/java/com/onlinerautomation/utils/ElementsUtil.java:343-350 | any `rgb`, `rgba`, `rgbaa`… text with any spacing and any trailing text parses back to the components written in it |
| ElementsUtil.ParseColorWithAlpha | src/main/java/com/onlinerautomation/utils/ElementsUtil.java:343-350 | "rgba(10, 20, 30, 0.5)" parses to (10, 20, 30) |
| ElementsUtil.ParseColorNeedsThreeCommas | src/main/java/com/onlinerautomation/utils/ElementsUtil.java:343-352 | an input with fewer than three commas, or not ending with ")", gives `null` |
| ElementsUtil.ParseColorWithoutThirdComma | src/main/java/com/onlinerautomation/utils/ElementsUtil.java:343-352 | "rgb(1, 2, 3)" gives `null` |
| ElementsUtil.IsClassPresent | src/main/java/com/onlinerautomation/utils/ElementsUtil.java:136-138 | a missing `class` attribute throws `NullPointerException`, and nothing else throws |
| ElementsUtil.ClassPresentIffPiece | src/main/java/com/onlinerautomation/utils/ElementsUtil.java:136-138 | a non-empty class name is present exactly when it is one of the space-separated tokens of the attribute |
| ElementsUtil.ClassWithSpaceAbsent | src/main/java/com/onlinerautomation/utils/ElementsUtil.java:136-138 | a name containing a space is never present |
| ElementsUtil.AppendedClassPresent | src/main/java/com/onlinerautomation/utils/ElementsUtil.java:136-138 | appending " " and a class name to the attribute makes it present |
| ElementsUtil.AddName | src/main/java/com/onlinerautomation/utils/ElementsUtil.java:175-178 | the message is kept as a prefix; it is unchanged exactly for an unnamed element, and a named one gets ": [name]" after it |
| ElementsUtil.AddNameToSelector | src/main/java/com/onlinerautomation/utils/ElementsUtil.java:180-182 | the selector text directly followed by the message, with no separator |
| ElementsUtil.SelectorMessage | src/main/java/com/onlinerautomation/utils/ElementsUtil.java:278 | "WebElement with selector [", the selector, "] did not appear in ", the decimal text of the seconds, "s" |
| ElementsUtil.SupplierMessage | src/main/java/com/onlinerautomation/utils/ElementsUtil.java:284 | "WebElement with did not appear in ", the decimal text of the seconds, "s" |
| ElementsUtil.ClassMessage | src/main/java/com/onlinerautomation/utils/ElementsUtil.java:236-242 | the class name and " - ", then the named "does not have given class" text for a presence wait or "has given class" for an absence wait |
| ElementsUtil.ClassMessagesDiffer | src/main/java/com/onlinerautomation/utils/ElementsUtil.java:234-244 | the presence and absence waits report different texts for the same class name and element |
| ElementsUtil.WaitForSeconds | src/main/java/com/onlinerautomation/utils/ElementsUtil.java:513-517 | fails exactly where `Await.waitFor` does, with its text; otherwise a fresh waiter whose factory is the timed one plus the two ignore rules again |
| ElementsUtil.WaitWithText | src/main/java/com/onlinerautomation/utils/ElementsUtil.java:276-292 | a rejected number of seconds throws the typo `RuntimeException`; otherwise a timeout throws "<text>\n<original>", a found element is returned, an exception passes through |
| ElementsUtil.WaitWithSuppliedText | src/main/java/com/onlinerautomation/utils/ElementsUtil.java:158-244 | the same outcome for the waiters whose text comes from a supplier |
| ElementsUtil.WaitForElement | src/main/java/com/onlinerautomation/utils/ElementsUtil.java:276-292 | a timed-out lookup throws "WebElement with selector [<by>] did not appear in <s>s\n<original>" |
| ElementsUtil.WaitForSupplied | src/main/java/com/onlinerautomation/utils/ElementsUtil.java:282-286 | a timed-out lookup throws "WebElement with did not appear in <s>s\n<original>" |
| ElementsUtil.WaitUntilElementStoppedMoving | src/main/java/com/onlinerautomation/utils/ElementsUtil.java:270-274 | a three-second wait that times out with "Element is still moving\n<original>" |
| ElementsUtil.StateTarget | src/main/java/com/onlinerautomation/utils/ElementsUtil.java:158-232 | the selector forms name their selector, and every other form names an element: the element waited on, or the parent of the child waited on |
| ElementsUtil.StateMessage | src/main/java/com/onlinerautomation/utils/ElementsUtil.java:158-232 | "Element is not hidden" exactly for `waitForNotVisible(WebElement, int)`; "Element is not clickable" exactly for the three clickability waiters; "Element is not displayed" exactly for the three visibility waiters and `waitForNotVisible(WebDriver, By, int)` |
| ElementsUtil.WaitForState | src/main/java/com/onlinerautomation/utils/ElementsUtil.java:158-232 | a rejected number of seconds throws the typo `RuntimeException`; otherwise a timeout throws the waiter's named message, a newline and the original text |
| ElementsUtil.WaitForStateByDefault | src/main/java/com/onlinerautomation/utils/ElementsUtil.java:154-219 | the forms without seconds wait 30 seconds, which the guard accepts, and so always report as `WaitForState` does |
| ElementsUtil.NotVisibleSelectorReportsNotDisplayed | src/main/java/com/onlinerautomation/utils/ElementsUtil.java:191-195 | a timed-out `waitForNotVisible(driver, selector, s)` reports "<selector>Element is not displayed", the same text as `waitForVisible(driver, selector, s)` |
| ElementsUtil.NotVisibleElementReportsNotHidden | src/main/java/com/onlinerautomation/utils/ElementsUtil.java:201-205 | for an element, the hiding wait and the visibility wait report different texts |
| ElementsUtil.WaitForClass | src/main/java/com/onlinerautomation/utils/ElementsUtil.java:234-244 | class waits time out with "<className> - " before the named message, "does not have" for present and "has" for not present |
| LeftMenu.FirstToken | src/main/java/com/onlinerautomation/page/LeftMenu.java:60 | `split(" ")[0]` is the text before the first space, and throws `ArrayIndexOutOfBoundsException` exactly for a non-empty text of spaces only |
| LeftMenu.UpToLabel | src/main/java/com/onlinerautomation/page/LeftMenu.java:60 | the text before the first space of "label rest" is the label |
| LeftMenu.FirstTokenOfEntry | src/main/java/com/onlinerautomation/page/LeftMenu.java:60 | an entry "label count" has the key "label" |
| LeftMenu.FirstTokenOfLabel | src/main/java/com/onlinerautomation/page/LeftMenu.java:60 | a text without a space is its own key |
| LeftMenu.Keys | src/main/java/com/onlinerautomation/page/LeftMenu.java:58-60 | the key list has one key per text, in order, each the first token of its text; it fails exactly when some text has no first token |
| LeftMenu.CarBodyTypeNames | src/main/java/com/onlinerautomation/page/LeftMenu.java:57-60 | the `for` loop builds exactly `Keys` of the texts |
| LeftMenu.IndexOf | src/main/java/com/onlinerautomation/page/LeftMenu.java:61 | the first position holding the value, or -1 exactly when no position holds it |
| LeftMenu.SelectedIndex | src/main/java/com/onlinerautomation/page/LeftMenu.java:61 | the first entry whose key is the label; fails when building keys fails or, with `IndexOutOfBoundsException(-1)`, when no entry has the label |
| LeftMenu.GetCarType | src/main/java/com/onlinerautomation/page/LeftMenu.java:56-62 | the `input` child of the `SelectedIndex` entry, or its exception |
| LeftMenu.GetCarCount | src/main/java/com/onlinerautomation/page/LeftMenu.java:64-70 | the `.count` child of the same entry `getCarType` selects, or the same exception |
| LeftMenu.SelectsLabelledEntry | src/main/java/com/onlinerautomation/page/LeftMenu.java:56-70 | for entries written "label count", the requested label selects the first entry with that label |

## Left out

- Awaitility's poll loop, its timing, and how it applies the ignore rules and listeners. The configuration is kept as a log of builder calls, and the verdict of a wait is an input. So `atLeast`, `atMost`, `between`, `pollDelay`, `pollInterval`, `ignore*`, `dontCatchUncaughtExceptions` and `conditionEvaluationListener` are modelled only as appending to that log.
- The Hamcrest descriptions built by `until(supplier, predicate)`. These are library text.
- `untilTrue`/`untilFalse` read an `AtomicBoolean` that other threads may change. They are modelled as one more wait shape, `UntilFlag`; the concurrency is not modelled.
- The stack trace copied onto a new timeout exception, and the cause passed to a `RuntimeException` from a failing supplier (`e.getCause()`). Only exception kinds and texts are modelled.
- A message supplier is modelled as a fixed value (yield, `Exception` or `Error`). A supplier that gives different answers on different calls is not modelled; the code calls it at most once per timeout.
- `AwaitClass.Await.UntilFlag`: takes the target value but does not use it, because the flag is read only inside Awaitility.
- Everything in `ElementsUtil` and `LeftMenu` that drives Selenium or JavaScript: `isDisplayed*`, `isClickable*`, `isStale`, alert checks, `executeScript`, drag and drop, `Select`, `elementHasStoppedMoving` (which sleeps), `findElement`. The waiters take the condition's verdict as an input. `LeftMenu` returns the index and CSS selector of the child it would look up.
- `ElementsUtil.WaitForState`: the waited-for condition is an input, so the child forms differ from the element forms only in the element the message names. `waitForVisible(WebElement, int)` and `waitForClickable(WebElement, int)` return the element they were given; the model returns no value.
- The other page objects, the tests, `TestBase`, `AllureListener`, `WebDriverManager` and `DataForFilers`. These are UI and I/O glue.
- Awaitility's own checks on its arguments. For example, a `Duration` with a negative amount may be rejected by Awaitility, but the model lets a negative timeout from `waitFor` through to the factory log unchecked.
- Java `null` arguments other than the message fields and the `class` attribute. The model has no `null` class name (Java's `contains(null)` is false, and the class waiters' text would start with "null - "), no `null` from `Named.getName()` (Java would print ": [null]"), and no `null` input to `parseColor` (Java's `Pattern.matcher` throws a `NullPointerException`).
