/** The calculator component: its two pieces of state (the form record and the shown
    result) and the event handlers that replace them. */
module Calculator {
  import opened Form
  import CurrencyFilter
  import Justification
  import Payback

  /** What the result panel shows: nothing before the first submission, a number of years,
      or the text of a non-finite quotient when the savings are zero. */
  datatype Display = Hidden | Years(years: real) | NotFinite

  function Shown(p: Payback.Option<real>): Display {
    match p
    case None => NotFinite
    case Some(years) => Years(years)
  }

  /** The numbers handed to the arithmetic on submission. `number` stands for `Number(...)`
      and for the implicit conversion of the two numeric text boxes, `parseFloat` for
      `parseFloat(...)`. */
  function MeasuresOf(f: FormData, number: string -> real, parseFloat: string -> real): Payback.Measures
  {
    Payback.Measures(
      parseFloat(f.avgHoursPerShift), number(f.avgPeopleWorking), parseFloat(f.shiftsPerDay),
      parseFloat(f.daysPerWeek), number(f.weeksPerYear), number(f.laborRate),
      parseFloat(f.efficiency), number(f.projectCost), number(f.maintenanceCost))
  }

  /** The project name and the justification tags never change the computed result. */
  lemma ResultIgnoresTags(f: FormData, name: string, tags: seq<string>,
                          number: string -> real, parseFloat: string -> real)
    ensures MeasuresOf(f.(projectName := name, justification := tags), number, parseFloat)
         == MeasuresOf(f, number, parseFloat)
  {
  }

  /** A submission straight from the initial record: no people and no weeks, so no finite payback. */
  lemma InitialSubmission(number: string -> real, parseFloat: string -> real)
    requires number("0") == 0.0
    ensures Payback.PaybackPeriod(MeasuresOf(INITIAL, number, parseFloat)) == Payback.None
  {
    Payback.NoWorkNoPayback(MeasuresOf(INITIAL, number, parseFloat));
  }

  class ROICalculator {
    var formData: FormData
    var result: Display

    ghost predicate Valid()
      reads this
    {
      Form.Valid(formData)
    }

    constructor ()
      ensures formData == INITIAL && result == Hidden
      ensures Valid()
    {
      formData := INITIAL;
      result := Hidden;
      InitialValid();
    }

    /** Typing `value` into the text box `name`. */
    method HandleChange(name: InputName, value: string)
      requires Valid()
      modifies this
      ensures formData == Changed(old(formData), name, value)
      ensures result == old(result)
      ensures Valid()
    {
      if IsCurrencyField(name) {
        var numericValue := CurrencyFilter.KeepNumeric(value);
        formData := WithInput(formData, name, numericValue);
      } else {
        formData := WithInput(formData, name, value);
      }
      ChangedValid(old(formData), name, value);
    }

    /** Clicking the button `option` in the row of single-choice buttons `sel`. */
    method Select(sel: Selector, option: string)
      requires Valid() && option in Options(sel)
      modifies this
      ensures formData == Selected(old(formData), sel, option)
      ensures result == old(result)
      ensures Valid()
    {
      formData := Selected(formData, sel, option);
      SelectedValid(old(formData), sel, option);
    }

    /** Clicking the justification tag `option`: the list is copied, searched for the tag,
        and the first occurrence spliced out or the tag pushed at the end. */
    method HandleJustificationChange(option: string)
      requires Valid() && option in Justification.TAGS
      modifies this
      ensures formData == JustificationToggled(old(formData), option)
      ensures result == old(result)
      ensures Valid()
    {
      var updated := formData.justification;
      var index := Justification.IndexOf(updated, option);
      if index > -1 {
        Justification.RemoveFirstAt(updated, option, index);
        updated := updated[..index] + updated[index + 1..];
      } else {
        updated := updated + [option];
      }
      formData := formData.(justification := updated);
      JustificationToggledValid(old(formData), option);
    }

    /** Submitting the form: the form is converted to numbers and the payback period shown. */
    method HandleSubmit(number: string -> real, parseFloat: string -> real)
      requires Valid()
      modifies this
      ensures formData == old(formData)
      ensures result == Shown(Payback.PaybackPeriod(MeasuresOf(formData, number, parseFloat)))
      ensures result != Hidden
      ensures result.Years? <==> Payback.SavingsPerYear(MeasuresOf(formData, number, parseFloat)) != 0.0
      ensures result.Years? ==>
        result.years * Payback.SavingsPerYear(MeasuresOf(formData, number, parseFloat))
          == Payback.TotalCost(MeasuresOf(formData, number, parseFloat))
      ensures Valid()
    {
      var m := MeasuresOf(formData, number, parseFloat);
      var currentCost := Payback.CurrentCost(m);
      var roboticLaborCost := currentCost * Payback.ROBOTIC_LABOR_SHARE;
      var savingsPerYear := currentCost - roboticLaborCost;
      var totalCost := m.projectCost + m.maintenanceCost;
      if savingsPerYear == 0.0 {
        result := NotFinite;
      } else {
        result := Years(totalCost / savingsPerYear);
      }
    }
  }
}
