# ROI calculator: form state and payback period

A model of the single-page return-on-investment calculator of `app/components/ROICalculator.js`.
The component holds two pieces of state: a form record of text fields plus a list of
justification tags, and the result shown under the form. Its event handlers replace the record:

- typing into a text box replaces one field; the three money fields (labour rate, project
  cost, maintenance cost) first lose every character that is not a digit or a point;
- a row of single-choice buttons (hours per shift, shifts per day, days per week, efficiency)
  sets its field to the clicked choice;
- a justification tag button copies the tag list, searches it for the tag, and either splices
  out the first occurrence or pushes the tag at the end;
- submitting converts the fields to numbers and computes the yearly manual labour cost (the
  product of seven factors, efficiency as a percentage), the robotic labour cost (a quarter of
  it), the savings per year, the total project cost and the payback period
  `totalCost / savingsPerYear`.

Modules: `CurrencyFilter` (currency.dfy) is the character filter; `Justification`
(justification.dfy) is the tag list and its toggle; `Payback` (payback.dfy) is the submit-time
arithmetic over exact reals; `Form` (form.dfy) is the form record and the record each event
produces; `Calculator` (calculator.dfy) is the component as a class `ROICalculator` whose
fields `formData` and `result` are its two state cells and whose methods are the handlers.
`ROICalculator.Valid()` is the invariant every reachable state keeps: each row of buttons has
one of its own choices selected, and the tag list holds offered tags, each at most once.

The division by zero savings, which gives a non-finite number in the source, is `None` in
`Payback.PaybackPeriod` and `NotFinite` on the result panel.

## Model

| member | source | states |
|---|---|---|
| `CurrencyFilter.KeepNumeric` | app/components/ROICalculator.js:27 | the filtered text holds only digits and points and is no longer than the input |
| `CurrencyFilter.KeepNumericIsSubsequence` | app/components/ROICalculator.js:27 | the filtered text is a subsequence of the input: kept characters stay in their order |
| `CurrencyFilter.KeepNumericCounts` | app/components/ROICalculator.js:27 | every digit and point of the input is kept, as often as it occurs, and no other character |
| `CurrencyFilter.KeepNumericUnique` | app/components/ROICalculator.js:27 | any subsequence of the input that holds each digit and point as often as the input does, and no other character, is the filter's output |
| `CurrencyFilter.KeepNumericOfCurrency` | app/components/ROICalculator.js:27 | text made only of digits and points passes unchanged |
| `CurrencyFilter.KeepNumericIdempotent` | app/components/ROICalculator.js:27 | filtering twice gives the same text as filtering once |
| `CurrencyFilter.DollarAmountExample` | app/components/ROICalculator.js:27 | "$1,200.50" is stored as "1200.50" |
| `Justification.IndexOf` | app/components/ROICalculator.js:36 | returns -1 exactly when the tag is absent, otherwise a position holding the tag with no earlier occurrence |
| `Justification.RemoveFirst` | app/components/ROICalculator.js:38 | removing a present tag shortens the list by one and takes exactly one copy of it out; an absent tag leaves the list as it is |
| `Justification.RemoveFirstAt` | app/components/ROICalculator.js:36-38 | splicing at the position found by the search is the removal of the first occurrence |
| `Justification.Toggled` | app/components/ROICalculator.js:35-42 | the length changes by exactly one, down when the tag was present and up when absent; one copy of the tag is removed or added and nothing else |
| `Justification.ToggledKeepsOthers` | app/components/ROICalculator.js:37-41 | the other tags keep their relative order |
| `Justification.ToggledFlips` | app/components/ROICalculator.js:36-41 | in a list without duplicates the tag is selected after the click exactly when it was not before |
| `Justification.ToggledNoDuplicates` | app/components/ROICalculator.js:35-42 | a click never introduces a duplicate |
| `Justification.ToggleTwiceAbsent` | app/components/ROICalculator.js:36-40 | clicking an unselected tag twice restores the list exactly |
| `Justification.ToggleTwicePresent` | app/components/ROICalculator.js:36-40 | clicking a selected tag twice moves it to the end and restores the same tags with the same multiplicities |
| `Justification.ToggledWithin` | app/components/ROICalculator.js:102-109 | clicking one of the offered tags keeps the list within the offered tags |
| `Payback.CurrentCost` | app/components/ROICalculator.js:63-70 | nobody working or no working weeks gives a zero labour cost; non-negative inputs never give a negative cost |
| `Payback.RoboticLaborCost` | app/components/ROICalculator.js:72 | the automated labour cost lies between zero and the manual labour cost whenever that cost is not negative |
| `Payback.TotalCost` | app/components/ROICalculator.js:75 | with non-negative costs the total is at least the project cost and at least the maintenance cost |
| `Payback.SavingsPerYear` | app/components/ROICalculator.js:72-74 | the yearly savings are three quarters of the manual labour cost, and savings plus robotic cost make up that cost |
| `Payback.PaybackPeriod` | app/components/ROICalculator.js:74-76 | undefined exactly when the savings are zero; otherwise the period times the yearly savings equals the total cost |
| `Payback.SavingsZeroIff` | app/components/ROICalculator.js:63-74 | the savings are zero exactly when one of the seven labour factors is zero |
| `Payback.NoWorkNoPayback` | app/components/ROICalculator.js:63-70 | with no people or no weeks the labour cost and the savings are zero and the payback is undefined |
| `Payback.SavingsSign` | app/components/ROICalculator.js:63-74 | non-negative inputs give non-negative savings, positive when all labour factors are positive |
| `Payback.PaybackNonNegative` | app/components/ROICalculator.js:75-76 | non-negative costs and positive savings give a non-negative payback period |
| `Payback.PaybackMonotone` | app/components/ROICalculator.js:75-76 | for equal positive savings the payback period grows with the total cost |
| `Payback.WorkedExample` | app/components/ROICalculator.js:63-76 | 8 hours, 10 people, 1 shift, 5 days, 50 weeks, rate 20, 90% give cost 360000, robotic 90000, savings 270000; costs 50000 + 5000 give payback 55000/270000 |
| `Form.Options` | app/components/ROICalculator.js:119-210 | each row of single-choice buttons offers at least one choice and no two alike |
| `Form.WithInput` | app/components/ROICalculator.js:28-30 | the spread update sets the named text field to the given text and leaves every other field and the tags as they were |
| `Form.Changed` | app/components/ROICalculator.js:23-32 | typing changes only the named field; money fields are stored filtered, holding only digits and points, other fields verbatim |
| `Form.ChangedTwice` | app/components/ROICalculator.js:27-28 | typing a money field's stored text back into it leaves the record unchanged |
| `Form.Selected` | app/components/ROICalculator.js:119-217 | a single-choice click sets its row's field to the clicked choice and leaves the other rows, the text fields and the tags unchanged |
| `Form.JustificationToggled` | app/components/ROICalculator.js:34-43 | a tag click replaces the tag list by its toggle and leaves every other field unchanged |
| `Form.InitialValid` | app/components/ROICalculator.js:7-19 | the initial record `INITIAL` (hours 8, shifts 1, days 5, efficiency 90, weeks and people 0, empty texts) selects one offered choice in each row and has no tags |
| `Form.ChangedValid` | app/components/ROICalculator.js:23-32 | typing keeps the form invariant |
| `Form.SelectedValid` | app/components/ROICalculator.js:119-217 | a single-choice click keeps the form invariant |
| `Form.JustificationToggledValid` | app/components/ROICalculator.js:34-43 | a click on an offered tag keeps the form invariant |
| `Form.OneButtonSelected` | app/components/ROICalculator.js:119-125 | in a reachable record each row shows exactly one button as selected |
| `Calculator.ResultIgnoresTags` | app/components/ROICalculator.js:47-70 | the numbers converted from the form on submission (`MeasuresOf`: hours, shifts, days and efficiency through parseFloat, the other five fields through Number) never depend on the project name or the tags |
| `Calculator.InitialSubmission` | app/components/ROICalculator.js:13-14 | submitting the initial record (converted by `MeasuresOf`), whose weeks and people are 0, gives no finite payback |
| `Calculator.ROICalculator.constructor` | app/components/ROICalculator.js:7-21 | starts from the initial record with no result shown, in a valid state |
| `Calculator.ROICalculator.HandleChange` | app/components/ROICalculator.js:23-32 | the new record is the old one changed by the typed text; the result is unchanged and the invariant kept |
| `Calculator.ROICalculator.Select` | app/components/ROICalculator.js:119-217 | the new record is the old one with the clicked choice selected; the result is unchanged and the invariant kept |
| `Calculator.ROICalculator.HandleJustificationChange` | app/components/ROICalculator.js:34-43 | search, splice or push yields the toggled tag list; nothing else changes and the invariant is kept |
| `Calculator.ROICalculator.HandleSubmit` | app/components/ROICalculator.js:45-79 | the record is unchanged; the panel is shown after the submission; it shows a number of years exactly when the converted record's savings are not zero, and that number times the savings is the total cost (the result panel of lines 261-264 through `Shown`) |

## Left out

- Conversion of text to numbers: `Number(...)`, `parseFloat(...)` and the implicit conversion in the product are parameters `number` and `parseFloat`, total functions to exact reals; their NaN and empty-string behaviour is not modelled.
- The source starts the weeks-per-year and people fields as the number 0 and stores text after the first edit; the model stores the text "0", which converts to 0 when `number("0") == 0`, as `Calculator.InitialSubmission` assumes.
- Floating point: the arithmetic is over exact reals; which non-finite value (infinity, minus infinity, not-a-number) a zero-savings division gives is collapsed into one `NotFinite`.
- Calculator.ROICalculator.HandleSubmit: shows the exact quotient, not the two-decimal text produced by `toFixed(2)`, because number formatting is not modelled.
- Form.Changed: covers the six text boxes that call the change handler; a change event naming any other key, which the JavaScript spread would add to the record, cannot occur in this form and is not modelled.
- A return-on-investment percentage: the code computes and displays only the payback period.
- React rendering, markup, styling, `useState` and the event objects (`preventDefault`, `e.target`); `app/components/Header.js` and `app/page.js` hold only markup and no logic.
