/**
 * The add/edit/clone part form (components/AddPartModal.tsx): the draft it is prefilled
 * with in each mode, the guard and payload of its submit, and its labels.
 *
 * The lifespan and date inputs are `None` when empty. A date input holds a calendar day,
 * represented by the instant of its UTC midnight.
 */
module AddPartModal {
  import opened Wrappers
  import opened PartTypes
  import opened Health

  /** The five fields of the form. */
  datatype Draft = Draft(
    machineId: string,
    name: string,
    category: string,
    lifespan: Option<int>,
    installDate: Option<int>)

  /** The category a new entry starts with. */
  const DEFAULT_CATEGORY: string := "General"

  /**
   * The UTC midnight that starts the day containing `t`: what a date input shows for an
   * instant, and the instant the input's value stands for when submitted.
   */
  function StartOfDay(t: int): (day: int)
    ensures day <= t < day + DAY_MS
    ensures day % DAY_MS == 0
  {
    t - t % DAY_MS
  }

  /**
   * The draft the form is prefilled with when it opens. Edit and clone start from the
   * given part, and fall back to a blank entry when there is none. A blank entry takes
   * the selected machine (empty when the filter is the sentinel) and today's date.
   */
  function PrefillDraft(mode: Mode, initialData: Option<Part>, initialMachineId: Option<string>, now: int): (d: Draft)
    ensures initialData.Some? && mode == Edit ==>
      d == Draft(initialData.value.machineId, initialData.value.name, initialData.value.category,
                 Some(initialData.value.lifespanDays), Some(StartOfDay(initialData.value.installDate)))
    ensures initialData.Some? && mode == Clone ==>
      d == Draft("", initialData.value.name, initialData.value.category,
                 Some(initialData.value.lifespanDays), Some(StartOfDay(now)))
    ensures initialData.None? || mode == Create ==>
      && d.name == "" && d.category == DEFAULT_CATEGORY && d.lifespan == None
      && d.installDate == Some(StartOfDay(now))
      && (initialMachineId.None? || initialMachineId.value == ALL ==> d.machineId == "")
      && (initialMachineId.Some? && initialMachineId.value != ALL ==> d.machineId == initialMachineId.value)
  {
    if initialData.Some? && (mode == Edit || mode == Clone) then
      var p := initialData.value;
      Draft(if mode == Clone then "" else p.machineId,
            p.name,
            p.category,
            Some(p.lifespanDays),
            Some(if mode == Clone then StartOfDay(now) else StartOfDay(p.installDate)))
    else
      Draft(if initialMachineId == Some(ALL) then "" else (if initialMachineId.Some? then initialMachineId.value else ""),
            "",
            DEFAULT_CATEGORY,
            None,
            Some(StartOfDay(now)))
  }

  /**
   * Submitting a draft: a payload is handed on exactly when machine, name, lifespan and
   * date are all filled in (the category is not checked). It carries the part's id only
   * in edit mode.
   */
  function Submission(d: Draft, mode: Mode, initialData: Option<Part>): (r: Option<SaveData>)
    ensures r.Some? <==> d.machineId != "" && d.name != "" && d.lifespan.Some? && d.installDate.Some?
    ensures r.Some? ==>
      && r.value.machineId == d.machineId && r.value.name == d.name && r.value.category == d.category
      && r.value.lifespanDays == d.lifespan.value && r.value.installDate == d.installDate.value
    ensures r.Some? ==> (r.value.id.Some? <==> mode == Edit && initialData.Some?)
    ensures r.Some? && r.value.id.Some? ==> r.value.id.value == initialData.value.id
  {
    if d.machineId == "" || d.name == "" || d.lifespan.None? || d.installDate.None? then None
    else
      Some(SaveData(
        if mode == Edit && initialData.Some? then Some(initialData.value.id) else None,
        d.machineId, d.name, d.category, d.lifespan.value, d.installDate.value))
  }

  /** The dialog title; each mode has its own. */
  function Title(mode: Mode): (t: string)
    ensures t == "Edit Part Details" <==> mode == Edit
    ensures t == "Clone Part to New Machine" <==> mode == Clone
    ensures t == "Add New Part" <==> mode.Create?
  {
    if mode == Edit then "Edit Part Details"
    else if mode == Clone then "Clone Part to New Machine"
    else "Add New Part"
  }

  /** The submit button's label; each mode has its own. */
  function ButtonText(mode: Mode): (t: string)
    ensures t == "Save Changes" <==> mode == Edit
    ensures t == "Clone Part" <==> mode == Clone
    ensures t == "Add Part" <==> mode.Create?
  {
    if mode == Edit then "Save Changes"
    else if mode == Clone then "Clone Part"
    else "Add Part"
  }

  lemma LabelsDistinguishModes(m1: Mode, m2: Mode)
    requires m1 != m2
    ensures Title(m1) != Title(m2)
    ensures ButtonText(m1) != ButtonText(m2)
  {
  }

  /**
   * Saving an untouched edit form gives back the part's own fields and id, except that
   * the install instant is moved to the UTC midnight of its day.
   */
  lemma EditRoundTrip(p: Part, initialMachineId: Option<string>, now: int)
    requires p.machineId != "" && p.name != ""
    ensures Submission(PrefillDraft(Edit, Some(p), initialMachineId, now), Edit, Some(p))
         == Some(SaveData(Some(p.id), p.machineId, p.name, p.category, p.lifespanDays, StartOfDay(p.installDate)))
  {
  }

  /**
   * Saving an untouched edit form moves the install instant back to its UTC midnight, so
   * the part's elapsed days (for an install in the past) stay the same or grow by one.
   */
  lemma {:induction false} EditSaveAddsAtMostOneDay(t: int, now: int)
    requires t <= now
    ensures DaysElapsed(t, now) <= DaysElapsed(StartOfDay(t), now) <= DaysElapsed(t, now) + 1
  {
  }

  /** A part installed at noon and saved unchanged at once goes from 0 to 1 elapsed day. */
  lemma EditSaveCanAddADay()
    ensures DaysElapsed(10 * DAY_MS + 43200000, 10 * DAY_MS + 43200000) == 0
    ensures StartOfDay(10 * DAY_MS + 43200000) == 10 * DAY_MS
    ensures DaysElapsed(StartOfDay(10 * DAY_MS + 43200000), 10 * DAY_MS + 43200000) == 1
  {
  }

  /** A clone form cannot be submitted until a machine is entered; once it is, no id travels with it. */
  lemma CloneNeedsMachine(p: Part, initialMachineId: Option<string>, now: int, machine: string)
    requires p.name != "" && machine != ""
    ensures Submission(PrefillDraft(Clone, Some(p), initialMachineId, now), Clone, Some(p)) == None
    ensures Submission(PrefillDraft(Clone, Some(p), initialMachineId, now).(machineId := machine), Clone, Some(p))
         == Some(SaveData(None, machine, p.name, p.category, p.lifespanDays, StartOfDay(now)))
  {
  }

  /** The form's state. */
  class PartForm {
    var machineId: string
    var name: string
    var category: string
    var lifespan: Option<int>
    var installDate: Option<int>

    function Current(): Draft
      reads this
    {
      Draft(machineId, name, category, lifespan, installDate)
    }

    /** The initial field values, before the form is first opened. */
    constructor ()
      ensures Current() == Draft("", "", DEFAULT_CATEGORY, None, None)
    {
      machineId, name, category, lifespan, installDate := "", "", DEFAULT_CATEGORY, None, None;
    }

    /** The prefill effect: it runs only while the form is open. */
    method Prefill(isOpen: bool, mode: Mode, initialData: Option<Part>, initialMachineId: Option<string>, now: int)
      modifies this
      ensures isOpen ==> Current() == PrefillDraft(mode, initialData, initialMachineId, now)
      ensures !isOpen ==> Current() == old(Current())
    {
      if isOpen {
        var d := PrefillDraft(mode, initialData, initialMachineId, now);
        machineId, name, category, lifespan, installDate := d.machineId, d.name, d.category, d.lifespan, d.installDate;
      }
    }

    /** A keystroke in one of the inputs. */
    method SetMachineId(value: string)
      modifies this`machineId
      ensures Current() == old(Current()).(machineId := value)
    {
      machineId := value;
    }

    method SetName(value: string)
      modifies this`name
      ensures Current() == old(Current()).(name := value)
    {
      name := value;
    }

    method SetCategory(value: string)
      modifies this`category
      ensures Current() == old(Current()).(category := value)
    {
      category := value;
    }

    method SetLifespan(value: Option<int>)
      modifies this`lifespan
      ensures Current() == old(Current()).(lifespan := value)
    {
      lifespan := value;
    }

    /** The date input only produces calendar days, which are UTC midnights. */
    method SetInstallDate(value: Option<int>)
      requires value.Some? ==> value.value % DAY_MS == 0
      modifies this`installDate
      ensures Current() == old(Current()).(installDate := value)
    {
      installDate := value;
    }

    /**
     * The submit handler: the payload given to the save callback, or `None` when the
     * guard stops the submission. The lifespan input only accepts values from 1 up.
     */
    method Submit(mode: Mode, initialData: Option<Part>) returns (payload: Option<SaveData>)
      requires lifespan.Some? ==> lifespan.value >= 1
      ensures payload == Submission(Current(), mode, initialData)
      ensures payload.Some? ==> payload.value.lifespanDays > 0
    {
      payload := Submission(Current(), mode, initialData);
    }
  }
}
