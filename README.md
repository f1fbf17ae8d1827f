# noworkday core, modelled in Dafny

noworkday fills in a weekly Workday timesheet. Its core has two
deterministic chains, both in `__main__.py`:

- **Allocation.** `quarter_round` rounds a number of hours to the nearest
  quarter hour with Python's `round`, which breaks ties towards the even
  neighbour. `time_distribution` splits a day's hours between the
  `student` and `admin` time types: a drawn student percentage and its
  complement to 100, each converted to minutes and back and then
  quarter-rounded. `week_distribution` produces one such split per day,
  each day's hours drawn between a minimum and a maximum and
  quarter-rounded first.
- **Navigation.** `get_element` waits up to three times for an element to
  become clickable. The first success wins, and the third failure escapes
  to the caller. `submenu_dropdown` walks an ordered list of menu labels:
  it locates each label's element with `get_element`, hovers over it and
  clicks it, and stops at the first label it cannot locate.
  `open_submenu` maps a time type to its fixed label path and to an
  XPath format (exact text for `admin`, contains-text for `student`).

The project has four modules, one file each:

- `rounding.dfy` (`QuarterRounding`): half-to-even rounding over exact
  reals, and quarter rounding.
- `allocation.dfy` (`Allocation`): the percentages, the per-day split as a
  loop that fills the distribution, and the per-week loop. The random draws
  `random.triangular(45, 70, 60)` and `random.uniform(min, max)` are
  inputs, and their ranges are preconditions. A Python dict keeps its
  insertion order, so a distribution is an ordered sequence of
  (time type, amount) entries.
- `navigation.dfy` (`Navigation`): the browser is an oracle, the `Driver`
  class.
  - `Driver.script` lists what the page answers to the coming
    wait-until-clickable attempts. An attempt past its end times out.
  - The driver logs every locate attempt (XPath and wait time) and every
    element it hovers over and clicks.
  - `GetElement` and `SubmenuDropdown` are methods over this driver. Each
    is proved against a function of the script: `Retry` for the bounded
    retry, `Traverse` for the whole traversal. The lemmas about these
    functions state what the source promises: first success wins, failure
    only after three time-outs, labels attempted in order, nothing
    attempted after a failing label.
- `menus.dfy` (`Menus`): the `open_submenu` table and the method that
  dispatches on it.

Three facts about the code shape the model:

- The code uses one match mode for every label of a path: exact text for
  the admin path, contains-text for the student path.
- `random.uniform` accepts its bounds in either order, so the model has no
  configuration error: each day's draw lies between the two bounds,
  whichever is larger.
- The code has exactly two time types, a percentage and its complement;
  there is no multi-category allocation or correction loop.

Rounding every category independently makes the 0.25 bound on a day's
total tight in both directions, on a tie: 8.25 hours split 50/50 gives
4.0 + 4.0 = 8.0 (`TieLosesAQuarter`), and 8.75 hours split 50/50 gives
4.5 + 4.5 = 9.0 (`TieGainsAQuarter`). When the day's hours are a whole
number of quarters and the student share is not a tie, the two values add
up to the day exactly (`SplitTotalExact`).

## Model

| member | source | states |
|---|---|---|
| QuarterRounding.RoundHalfEven | __main__.py:28 | Python's `round`: the result is within 0.5 of the argument, and even whenever the argument lies exactly halfway between two integers |
| QuarterRounding.RoundHalfEvenIsNearest | __main__.py:28 | no integer is closer to the argument than the rounded value |
| QuarterRounding.RoundHalfEvenUnique | __main__.py:28 | any integer within 0.5 that is even on a tie is the rounded value, so the contract pins the result down |
| QuarterRounding.RoundHalfEvenOfInteger | __main__.py:28 | an integer rounds to itself |
| QuarterRounding.RoundHalfEvenMonotone | __main__.py:28 | rounding preserves order |
| QuarterRounding.QuarterRound | __main__.py:24-28 | the result is a whole number of quarters, within 0.125 of the argument, and not negative for a non-negative argument |
| QuarterRounding.QuarterRoundIsNearest | __main__.py:24-28 | no multiple of 0.25 is closer to the argument than the result ("nearest 1/4") |
| QuarterRounding.QuarterRoundIdempotent | __main__.py:24-28 | rounding a rounded value changes nothing |
| QuarterRounding.QuarterRoundOfQuarter | __main__.py:24-28 | a multiple of 0.25 is returned unchanged |
| QuarterRounding.QuarterRoundMonotone | __main__.py:24-28 | quarter rounding preserves order |
| QuarterRounding.RoundComplement | __main__.py:28 | away from ties, the rounded values of `z` and `n - z` add up to the integer `n` |
| Allocation.TimeDistribution | __main__.py:31-49 | the loop over `percents` builds exactly `Split(hours, cap)`: each time type in insertion order with its quarter-rounded share |
| Allocation.MinutesCancel | __main__.py:43-45 | the conversion to minutes and back (`minutes * (percent / 100) / 60`) equals `hours * percent / 100` |
| Allocation.PercentsSumTo100 | __main__.py:36-40 | the percentages have the keys `student` then `admin`, the student one is the draw, and they sum to exactly 100 |
| Allocation.SharesSum | __main__.py:36-45 | the exact student and admin shares add up to the day's hours |
| Allocation.ShareNonNegative | __main__.py:45 | a non-negative percentage of non-negative hours is non-negative |
| Allocation.SplitEntries | __main__.py:42-45 | the distribution has exactly the keys `student` and `admin`, each holding the quarter-rounded share of its own percentage |
| Allocation.SplitValues | __main__.py:36-45 | every value is a multiple of 0.25 within 0.125 of its exact share, and none is negative for non-negative hours |
| Allocation.SplitTotalWithinQuarter | __main__.py:43-47 | the values sum to within 0.25 of the day's hours |
| Allocation.SplitTotalExact | __main__.py:43-45 | for quarter-multiple hours and a student share that is not a tie, the values sum to the hours exactly |
| Allocation.TieLosesAQuarter | __main__.py:43-45 | 8.25 hours at 50% gives 4.0 and 4.0, a total of 8.0 |
| Allocation.TieGainsAQuarter | __main__.py:43-45 | 8.75 hours at 50% gives 4.5 and 4.5, a total of 9.0 |
| Allocation.TenHoursSixtyPercent | __main__.py:36-45 | 10 hours at 60% gives 6.0 student hours and 4.0 admin hours |
| Allocation.WeekDistribution | __main__.py:52-61 | exactly `days_in_week` distributions, and none when `days_in_week` is zero or negative, as `range` gives; day `d` is the split of its quarter-rounded hour draw by its percentage draw |
| Allocation.WeekDayShape | __main__.py:59-61 | a day's hours are a multiple of 0.25 within 0.125 of a draw between the bounds; its keys are `student` and `admin`; its values are quarter multiples that sum to within 0.25 of the day, and none is negative for non-negative bounds |
| Allocation.RoundedDayWithinBounds | __main__.py:60 | when both bounds are quarter multiples, the rounded day stays between them |
| Allocation.DefaultWeek | __main__.py:52-60 | with the default bounds 8 and 13 every day's rounded hours are between 8 and 13; the default of five days gives a five-day week through `WeekDistribution`'s length clause |
| Navigation.Retry | __main__.py:193-199 | a retry with a budget uses at most that many attempts, and at least one when the budget is positive |
| Navigation.RetryFirstSuccessWins | __main__.py:193-201 | a located element is the answer of the last attempt made, and every earlier attempt timed out |
| Navigation.RetrySucceedsAt | __main__.py:193-201 | if attempt `k` is the first clickable one and lies within the budget, the retry returns its element after `k + 1` attempts |
| Navigation.RetryFailsOnlyIfAllFail | __main__.py:193-199 | the retry fails if and only if every attempt within the budget timed out, and it has then used the whole budget |
| Navigation.Driver.WaitUntilClickable | __main__.py:194 | one wait consumes one answer of the page, returns it and logs the request; nothing is clicked |
| Navigation.Driver.MoveToAndClick | __main__.py:104-107 | the action chain logs one hover-and-click of the element and changes nothing else |
| Navigation.GetElement | __main__.py:185-201 | the three nested waits return `Retry(script, 3)`'s result, consume its attempts, log one request per attempt with the given XPath and wait time, and click nothing |
| Navigation.TraverseShape | __main__.py:99-107 | one `get_element` call per attempted label, in label order, each of one to three attempts; a completed traversal attempted every label and made one click per label; a traversal failing at `k` attempted labels 0 to `k`, made `k` clicks, and spent three attempts on label `k` |
| Navigation.TraverseClicksLocatedElements | __main__.py:102-107 | click `i` is the element that answered the last attempt of label `i`'s `get_element` call, which by `RetryFirstSuccessWins` is the element that call returned |
| Navigation.TraverseAttemptBound | __main__.py:99-102 | a traversal makes at most three locate attempts per label |
| Navigation.TraverseStopsAtFailure | __main__.py:99-107 | after a failure at label `k`, only labels 0 to `k` were ever requested and exactly `k` elements were clicked |
| Navigation.TraverseFailsOnlyOnTimeOuts | __main__.py:99-102 | a traversal fails at label `k` only when the three attempts that follow the first `k` calls all timed out, so no traversal aborts after locating the label it stops at |
| Navigation.TraverseCompletesWhenClickable | __main__.py:99-107 | when each of the next attempts is clickable, one per label, the traversal completes with one request and one click per label |
| Navigation.FirstLabelMissing | __main__.py:99-102 | a first label that times out three times fails the traversal at once, after three requests for it and no click |
| Navigation.MiddleLabelMissing | __main__.py:99-107 | path `A, B, C` with `A` clickable and `B` never: `B` is requested three times, `C` never, only `A` is clicked, and the failure is at label 1 |
| Navigation.FormatInjective | __main__.py:101 | different labels give different XPaths under one format |
| Navigation.LaterLabelsNeverRequested | __main__.py:99-102 | after a failure at label `k`, no XPath of a later label that differs from labels 0 to `k` is ever requested |
| Navigation.SelectItem | __main__.py:102-107 | one turn of the loop: `get_element`'s retry, then one click exactly when the element was located |
| Navigation.SubmenuDropdown | __main__.py:95-109 | the loop over the labels ends with the outcome, requests, clicks and remaining script of `Traverse` over the labels' XPaths |
| Menus.MenuTable | __main__.py:81-92 | `admin` selects the four-label admin path with exact matching, `student` the four-label EAB path with contains matching, any other time type nothing; both paths start at "Project Plan Tasks", "Education Advisory Board" |
| Menus.EveryCategoryHasAMenu | __main__.py:86-92 | both keys the generator produces select a menu: `student` with contains matching and `admin` with exact matching |
| Menus.ModesDiffer | __main__.py:87-90 | the two XPath formats give different XPaths for the same label |
| Menus.OpenSubmenu | __main__.py:81-92 | an unknown time type opens nothing and changes nothing; a known one traverses its path with its format, as `Traverse` says, and reports the traversal's outcome |

## Left out

- The Selenium plumbing (`WebDriverWait`, `ActionChains`, `scrollIntoView`, `send_keys`) is third-party browser I/O. The page is the `Driver` oracle. The model records each locate attempt with its XPath and wait time, in order, and each hover-and-click with the element it hit (`TraverseClicksLocatedElements` ties a click to the call that located its element); nothing else of the browser is modelled.
- `main` (`__main__.py:112-182`) is browser I/O that drives the day and time-type loops. It is not part of this model.
- `get_password` (`__main__.py:64-78`) reads the keychain through `subprocess` and `getpass`, which is external I/O.
- The logging setup and log calls (`__main__.py:16-21` and the `log.*` lines) are observability only. The total that `time_distribution` logs is not modelled as output, but `SplitTotalWithinQuarter` states what it is.
- The settle delays `time.sleep(.8)` and `time.sleep(0.2)` (`__main__.py:109`, `__main__.py:200`) are timing only.
- `random.triangular` and `random.uniform` are input parameters with their ranges as preconditions. Their distributions are not modelled.
- Floating point and `Decimal(float)` (`__main__.py:28`, `__main__.py:43-45`) are modelled with exact `real` arithmetic. The source's binary-float intermediates can differ from this at the level of the last bit, which can move a value that is near a tie.
- `WeekDistribution` returns the whole week as a sequence. The generator's laziness (one day computed per `next` call) is not modelled.
- Navigation.Driver.WaitUntilClickable: treats every exception the bare `except:` catches (time-out, stale element, anything else) as one `TimedOut` answer. The wait time is recorded in the request log but has no other effect on the oracle.
- Navigation.GetElement: does not model the wait time's effect on how long a wait takes. It is recorded with each request only.
- `str.format` on an XPath format is modelled only for a format with a single `{}` placeholder, as the text before and after it, which covers both formats the source uses.
- Navigation.Driver.MoveToAndClick: a hover-and-click is modelled as never raising. In the source, `action.perform()` (`__main__.py:104-107`) runs outside any `try`, so a stale or intercepted element would end `submenu_dropdown` at that label after one successful locate. The model has no such outcome: a traversal fails only when a label cannot be located, which is why `TraverseShape` can say a failing label used all three attempts.
