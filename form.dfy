/** The form's state: one record of text fields and the list of selected justification
    tags, and the record each form event produces from the one before. */
module Form {
  import CurrencyFilter
  import Justification

  datatype FormData = FormData(
    projectName: string,
    justification: seq<string>,
    avgHoursPerShift: string,
    shiftsPerDay: string,
    daysPerWeek: string,
    weeksPerYear: string,
    avgPeopleWorking: string,
    laborRate: string,
    efficiency: string,
    projectCost: string,
    maintenanceCost: string)

  /** The record the form starts from. */
  const INITIAL: FormData :=
    FormData("", [], "8", "1", "5", "0", "0", "", "90", "", "")

  /** The fields edited by typing into a text box. */
  datatype InputName = ProjectName | WeeksPerYear | AvgPeopleWorking | LaborRate | ProjectCost | MaintenanceCost

  /** The fields that hold an amount of money and are filtered as they are typed. */
  predicate IsCurrencyField(name: InputName) {
    name == LaborRate || name == ProjectCost || name == MaintenanceCost
  }

  function Input(f: FormData, name: InputName): string {
    match name
    case ProjectName => f.projectName
    case WeeksPerYear => f.weeksPerYear
    case AvgPeopleWorking => f.avgPeopleWorking
    case LaborRate => f.laborRate
    case ProjectCost => f.projectCost
    case MaintenanceCost => f.maintenanceCost
  }

  /** The fields set by a row of single-choice buttons. */
  datatype Selector = HoursPerShift | ShiftsPerDay | DaysPerWeek | Efficiency

  /** The choices each row of buttons offers, in button order: at least one, and no two alike,
      so that a selected value lights one button only. */
  function Options(sel: Selector): (r: seq<string>)
    ensures |r| >= 1 && Justification.NoDuplicates(r)
  {
    match sel
    case HoursPerShift => ["4", "6", "8", "12"]
    case ShiftsPerDay => ["1", "1.5", "2", "3"]
    case DaysPerWeek => ["4", "5", "6", "7"]
    case Efficiency => ["80", "85", "90", "95", "100"]
  }

  function Selection(f: FormData, sel: Selector): string {
    match sel
    case HoursPerShift => f.avgHoursPerShift
    case ShiftsPerDay => f.shiftsPerDay
    case DaysPerWeek => f.daysPerWeek
    case Efficiency => f.efficiency
  }

  /** The record with text box `name` holding `text` and every other field as before. */
  function WithInput(f: FormData, name: InputName, text: string): (g: FormData)
    ensures Input(g, name) == text
    ensures forall other :: other != name ==> Input(g, other) == Input(f, other)
    ensures forall sel :: Selection(g, sel) == Selection(f, sel)
    ensures g.justification == f.justification
  {
    match name
    case ProjectName => f.(projectName := text)
    case WeeksPerYear => f.(weeksPerYear := text)
    case AvgPeopleWorking => f.(avgPeopleWorking := text)
    case LaborRate => f.(laborRate := text)
    case ProjectCost => f.(projectCost := text)
    case MaintenanceCost => f.(maintenanceCost := text)
  }

  /** The record after `value` is typed into text box `name`: that field alone changes,
      to the filtered text for a money field and to the text itself otherwise. */
  function Changed(f: FormData, name: InputName, value: string): (g: FormData)
    ensures Input(g, name) == if IsCurrencyField(name) then CurrencyFilter.KeepNumeric(value) else value
    ensures forall other :: other != name ==> Input(g, other) == Input(f, other)
    ensures forall sel :: Selection(g, sel) == Selection(f, sel)
    ensures g.justification == f.justification
  {
    WithInput(f, name, if IsCurrencyField(name) then CurrencyFilter.KeepNumeric(value) else value)
  }

  /** Typing the same text into a money field twice leaves the record as typing it once. */
  lemma ChangedTwice(f: FormData, name: InputName, value: string)
    requires IsCurrencyField(name)
    ensures Changed(Changed(f, name, value), name, Input(Changed(f, name, value), name)) == Changed(f, name, value)
  {
    CurrencyFilter.KeepNumericIdempotent(value);
  }

  /** The record after the button `option` of row `sel` is clicked: that row's field alone changes. */
  function Selected(f: FormData, sel: Selector, option: string): (g: FormData)
    requires option in Options(sel)
    ensures Selection(g, sel) == option
    ensures forall other :: other != sel ==> Selection(g, other) == Selection(f, other)
    ensures forall name :: Input(g, name) == Input(f, name)
    ensures g.justification == f.justification
  {
    match sel
    case HoursPerShift => f.(avgHoursPerShift := option)
    case ShiftsPerDay => f.(shiftsPerDay := option)
    case DaysPerWeek => f.(daysPerWeek := option)
    case Efficiency => f.(efficiency := option)
  }

  /** The record after a click on justification tag `option`. */
  function JustificationToggled(f: FormData, option: string): (g: FormData)
    ensures g.justification == Justification.Toggled(f.justification, option)
    ensures forall name :: Input(g, name) == Input(f, name)
    ensures forall sel :: Selection(g, sel) == Selection(f, sel)
  {
    f.(justification := Justification.Toggled(f.justification, option))
  }

  /** What every record the form can reach satisfies: each row of buttons has one of its
      own choices selected, and the justification list holds offered tags, each at most once. */
  predicate Valid(f: FormData) {
    (forall sel :: Selection(f, sel) in Options(sel)) &&
    Justification.NoDuplicates(f.justification) &&
    (forall tag :: tag in f.justification ==> tag in Justification.TAGS)
  }

  lemma InitialValid()
    ensures Valid(INITIAL)
  {
    assert Selection(INITIAL, HoursPerShift) == Options(HoursPerShift)[2];
    assert Selection(INITIAL, ShiftsPerDay) == Options(ShiftsPerDay)[0];
    assert Selection(INITIAL, DaysPerWeek) == Options(DaysPerWeek)[1];
    assert Selection(INITIAL, Efficiency) == Options(Efficiency)[2];
  }

  lemma ChangedValid(f: FormData, name: InputName, value: string)
    requires Valid(f)
    ensures Valid(Changed(f, name, value))
  {
  }

  lemma SelectedValid(f: FormData, sel: Selector, option: string)
    requires Valid(f) && option in Options(sel)
    ensures Valid(Selected(f, sel, option))
  {
    var g := Selected(f, sel, option);
    forall other ensures Selection(g, other) in Options(other) {
      if other != sel {
        assert Selection(g, other) == Selection(f, other);
      }
    }
  }

  lemma JustificationToggledValid(f: FormData, option: string)
    requires Valid(f) && option in Justification.TAGS
    ensures Valid(JustificationToggled(f, option))
  {
    Justification.ToggledNoDuplicates(f.justification, option);
    Justification.ToggledWithin(f.justification, option, Justification.TAGS);
  }

  /** In a reachable record each row of buttons shows exactly one button as selected. */
  lemma OneButtonSelected(f: FormData, sel: Selector)
    requires Valid(f)
    ensures exists i :: 0 <= i < |Options(sel)| && Options(sel)[i] == Selection(f, sel)
    ensures forall i, j ::
      (0 <= i < |Options(sel)| && 0 <= j < |Options(sel)| &&
       Options(sel)[i] == Selection(f, sel) && Options(sel)[j] == Selection(f, sel)) ==> i == j
  {
  }
}
