/**
 * The inventory state held by the application component (App.tsx): the part list, the
 * two filter selections, the pending replacement and the mode the part form opens in.
 */
module Inventory {
  import opened Wrappers
  import opened PartTypes
  import opened Health
  import opened FilterView
  import opened AddPartModal

  // ---------------------------------------------------------------------------
  // List transformations behind the handlers
  // ---------------------------------------------------------------------------

  /** Replacement: every part with the given id is re-installed at `now`; nothing else changes. */
  function ReplaceInstall(ps: seq<Part>, id: string, now: int): (r: seq<Part>)
    ensures |r| == |ps|
    ensures forall i :: 0 <= i < |ps| && ps[i].id == id ==> r[i] == ps[i].(installDate := now)
    ensures forall i :: 0 <= i < |ps| && ps[i].id != id ==> r[i] == ps[i]
    decreases |ps|
  {
    if ps == [] then []
    else [if ps[0].id == id then ps[0].(installDate := now) else ps[0]] + ReplaceInstall(ps[1..], id, now)
  }

  /** The fields an edit overwrites, taken from the submitted form; id and notes are kept. */
  function ApplyEdit(p: Part, data: SaveData): (r: Part)
    ensures r.id == p.id && r.notes == p.notes
    ensures r.machineId == data.machineId && r.name == data.name && r.category == data.category
    ensures r.lifespanDays == data.lifespanDays && r.installDate == data.installDate
  {
    p.(machineId := data.machineId, name := data.name, category := data.category,
       lifespanDays := data.lifespanDays, installDate := data.installDate)
  }

  /**
   * Edit: the part with the given id takes the submitted machine, name, category,
   * lifespan and install date, keeping its id and notes; every other part is unchanged.
   */
  function EditParts(ps: seq<Part>, id: string, data: SaveData): (r: seq<Part>)
    ensures |r| == |ps|
    ensures forall i :: 0 <= i < |ps| ==> r[i].id == ps[i].id && r[i].notes == ps[i].notes
    ensures forall i :: 0 <= i < |ps| && ps[i].id == id ==>
      && r[i].machineId == data.machineId && r[i].name == data.name
      && r[i].category == data.category && r[i].lifespanDays == data.lifespanDays
      && r[i].installDate == data.installDate
    ensures forall i :: 0 <= i < |ps| && ps[i].id != id ==> r[i] == ps[i]
    decreases |ps|
  {
    if ps == [] then []
    else [if ps[0].id == id then ApplyEdit(ps[0], data) else ps[0]] + EditParts(ps[1..], id, data)
  }

  /** The part a create or clone appends: the submitted fields under a freshly minted id, no notes. */
  function NewPart(id: string, data: SaveData): (r: Part)
    ensures r.id == id && r.notes == None
    ensures r == ApplyEdit(r, data)
  {
    Part(id, data.machineId, data.name, data.category, data.installDate, data.lifespanDays, None)
  }

  /** A save updates in place only in edit mode with a non-empty id; anything else appends. */
  function IsUpdate(mode: Mode, data: SaveData): (b: bool)
    ensures b ==> mode == Edit && data.id.Some?
    ensures data.id == None || data.id == Some("") ==> !b
  {
    mode == Edit && data.id.Some? && data.id.value != ""
  }

  /**
   * The machine filter after an append: a specific machine other than the new part's
   * switches to the new part's machine; the sentinel and the same machine stay.
   */
  function MachineAfterAppend(selected: string, data: SaveData): (m: string)
    ensures m == ALL || m == data.machineId
    ensures selected == ALL || selected == data.machineId ==> m == selected
    ensures selected != ALL && selected != data.machineId ==> m == data.machineId
  {
    if selected != ALL && selected != data.machineId then data.machineId else selected
  }

  // ---------------------------------------------------------------------------
  // Properties of the transformations
  // ---------------------------------------------------------------------------

  lemma IdsOfSameIds(ps: seq<Part>, r: seq<Part>)
    requires |r| == |ps|
    requires forall i :: 0 <= i < |ps| ==> r[i].id == ps[i].id
    ensures Ids(r) == Ids(ps)
  {
    forall k | k in Ids(ps) ensures k in Ids(r) {
      var i :| 0 <= i < |ps| && ps[i].id == k;
      assert r[i].id == k;
    }
  }

  /** Replacement keeps every id and the inventory invariant. */
  lemma ReplaceKeepsValid(ps: seq<Part>, id: string, now: int)
    requires ValidParts(ps)
    ensures Ids(ReplaceInstall(ps, id, now)) == Ids(ps)
    ensures ValidParts(ReplaceInstall(ps, id, now))
  {
    IdsOfSameIds(ps, ReplaceInstall(ps, id, now));
  }

  /** Replacing an id no part carries changes nothing. */
  lemma ReplaceAbsent(ps: seq<Part>, id: string, now: int)
    requires id !in Ids(ps)
    ensures ReplaceInstall(ps, id, now) == ps
  {
    var r := ReplaceInstall(ps, id, now);
    forall i | 0 <= i < |ps| ensures r[i] == ps[i] {
      assert ps[i].id in Ids(ps);
    }
  }

  /** Right after a replacement the replaced parts show no wear. */
  lemma ReplacedPartIsGood(ps: seq<Part>, id: string, now: int, i: int)
    requires PositiveLifespans(ps)
    requires 0 <= i < |ps| && ps[i].id == id
    ensures CalculateHealth(ReplaceInstall(ps, id, now)[i], now) == PartHealth(0, ps[i].lifespanDays, 0.0, Good)
  {
    FreshInstallIsGood(ps[i], now);
  }

  /**
   * The replace handler and the health evaluation read the clock separately: evaluated
   * any later instant within a day of the replace, the new part is one day old, which is
   * already Critical for a one-day lifespan.
   */
  lemma ReplacedPartLaterInTheDay(ps: seq<Part>, id: string, now: int, later: int, i: int)
    requires PositiveLifespans(ps)
    requires 0 <= i < |ps| && ps[i].id == id
    requires now < later <= now + DAY_MS
    ensures CalculateHealth(ReplaceInstall(ps, id, now)[i], later).daysElapsed == 1
    ensures ps[i].lifespanDays == 1 ==> CalculateHealth(ReplaceInstall(ps, id, now)[i], later).status == Critical
  {
    var d := DaysElapsed(now, later);
    assert Abs(later - now) == later - now;
    assert d * DAY_MS >= later - now > 0;
    assert d >= 1;
  }

  /** An edit keeps every id, and the invariant when the new lifespan is positive. */
  lemma EditKeepsValid(ps: seq<Part>, id: string, data: SaveData)
    requires ValidParts(ps)
    requires data.lifespanDays > 0
    ensures Ids(EditParts(ps, id, data)) == Ids(ps)
    ensures ValidParts(EditParts(ps, id, data))
  {
    IdsOfSameIds(ps, EditParts(ps, id, data));
  }

  /** Editing an id no part carries changes nothing. */
  lemma EditAbsent(ps: seq<Part>, id: string, data: SaveData)
    requires id !in Ids(ps)
    ensures EditParts(ps, id, data) == ps
  {
    var r := EditParts(ps, id, data);
    forall i | 0 <= i < |ps| ensures r[i] == ps[i] {
      assert ps[i].id in Ids(ps);
    }
  }

  /** Appending a part with a fresh id and a positive lifespan keeps the invariant. */
  lemma AppendKeepsValid(ps: seq<Part>, p: Part)
    requires ValidParts(ps)
    requires p.id !in Ids(ps) && p.lifespanDays > 0
    ensures ValidParts(ps + [p])
    ensures Ids(ps + [p]) == Ids(ps) + {p.id}
  {
    var r := ps + [p];
    forall i, j | 0 <= i < j < |r| ensures r[i].id != r[j].id {
      if j == |ps| {
        assert r[i] == ps[i];
        assert ps[i].id in Ids(ps);
      }
    }
    forall k | k in Ids(r) ensures k in Ids(ps) + {p.id} {
      var i :| 0 <= i < |r| && r[i].id == k;
      if i < |ps| { assert r[i] == ps[i]; }
    }
    forall k | k in Ids(ps) ensures k in Ids(r) {
      var i :| 0 <= i < |ps| && ps[i].id == k;
      assert r[i] == ps[i];
    }
    assert r[|ps|] == p;
  }

  /** A submitted clone form is never an update: saving it appends a part under a fresh id. */
  lemma ClonedSubmissionAppends(d: Draft, source: Option<Part>)
    requires Submission(d, Clone, source).Some?
    ensures !IsUpdate(Clone, Submission(d, Clone, source).value)
  {
  }

  /** A submitted edit form for a part with a non-empty id updates exactly that part. */
  lemma EditedSubmissionUpdates(d: Draft, p: Part)
    requires p.id != ""
    requires Submission(d, Edit, Some(p)).Some?
    ensures IsUpdate(Edit, Submission(d, Edit, Some(p)).value)
    ensures Submission(d, Edit, Some(p)).value.id == Some(p.id)
  {
  }

  /** An edit form opened without a part submits no id, so saving it appends instead. */
  lemma EditWithoutPartAppends(d: Draft)
    requires Submission(d, Edit, None).Some?
    ensures !IsUpdate(Edit, Submission(d, Edit, None).value)
  {
  }

  // ---------------------------------------------------------------------------
  // Seed data
  // ---------------------------------------------------------------------------

  /** The built-in inventory, installed the given numbers of days before the load instant. */
  function SeedParts(loadTime: int): (ps: seq<Part>)
    ensures |ps| == 5 && ValidParts(ps)
    ensures forall i :: 0 <= i < |ps| ==> ps[i].id == ["12345"[i]] && ps[i].installDate < loadTime
  {
    [ Part("1", "M-01", "Engine Air Filter", "Engine", loadTime - 300 * DAY_MS, 365, None),
      Part("2", "M-01", "Brake Pads (Front)", "Brakes", loadTime - 60 * DAY_MS, 730, None),
      Part("3", "M-02", "Synthetic Oil", "Engine", loadTime - 170 * DAY_MS, 180, None),
      Part("4", "M-02", "Timing Belt", "Transmission", loadTime - 1000 * DAY_MS, 1800, None),
      Part("5", "M-03", "Cabin Filter", "HVAC", loadTime - 400 * DAY_MS, 365, None) ]
  }

  /**
   * The seed is a valid inventory. At the load instant the oil (170 of 180 days) is in
   * Warning, the cabin filter (400 of 365 days) is Critical and the other three are Good.
   */
  lemma SeedAtLoad(loadTime: int)
    ensures ValidParts(SeedParts(loadTime))
    ensures CalculateHealth(SeedParts(loadTime)[0], loadTime).status == Good
    ensures CalculateHealth(SeedParts(loadTime)[1], loadTime).status == Good
    ensures CalculateHealth(SeedParts(loadTime)[2], loadTime).status == Warning
    ensures CalculateHealth(SeedParts(loadTime)[3], loadTime).status == Good
    ensures CalculateHealth(SeedParts(loadTime)[4], loadTime).status == Critical
    ensures CalculateHealth(SeedParts(loadTime)[4], loadTime).daysRemaining == -35
  {
    ElapsedWholeDays(loadTime, 300);
    ElapsedWholeDays(loadTime, 60);
    ElapsedWholeDays(loadTime, 170);
    ElapsedWholeDays(loadTime, 1000);
    ElapsedWholeDays(loadTime, 400);
  }

  // ---------------------------------------------------------------------------
  // The application state
  // ---------------------------------------------------------------------------

  class Inventory {
    var parts: seq<Part>
    var selectedMachine: string
    var selectedPartName: string
    var partToReplace: string
    var modalMode: Mode
    var selectedPart: Option<Part>

    /** Ids are unique and every lifespan is positive. */
    ghost predicate Valid()
      reads this
    {
      ValidParts(parts)
    }

    /** Start-up: the saved list when storage holds one, otherwise the seed; no filter, nothing pending. */
    constructor (saved: Option<seq<Part>>, loadTime: int)
      requires saved.Some? ==> ValidParts(saved.value)
      ensures Valid()
      ensures parts == (if saved.Some? then saved.value else SeedParts(loadTime))
      ensures selectedMachine == ALL && selectedPartName == ALL && partToReplace == ALL
      ensures modalMode == Create && selectedPart == None
    {
      if saved.Some? {
        parts := saved.value;
      } else {
        SeedAtLoad(loadTime);
        parts := SeedParts(loadTime);
      }
      selectedMachine, selectedPartName, partToReplace := ALL, ALL, ALL;
      modalMode, selectedPart := Create, None;
    }

    method SelectMachine(machine: string)
      modifies this`selectedMachine
      ensures selectedMachine == machine
    {
      selectedMachine := machine;
    }

    method SelectPartName(name: string)
      modifies this`selectedPartName
      ensures selectedPartName == name
    {
      selectedPartName := name;
    }

    /** The "Clear all filters" action. */
    method ClearFilters()
      modifies this`selectedMachine, this`selectedPartName
      ensures selectedMachine == ALL && selectedPartName == ALL
    {
      selectedMachine, selectedPartName := ALL, ALL;
    }

    /** Marks a part as pending replacement; the confirmation dialog is open while it is not the sentinel. */
    method InitiateReplace(id: string)
      modifies this`partToReplace
      ensures partToReplace == id
    {
      partToReplace := id;
    }

    /** Closing the confirmation dialog without confirming. */
    method CancelReplace()
      modifies this`partToReplace
      ensures partToReplace == ALL
    {
      partToReplace := ALL;
    }

    /**
     * Confirming the replacement. With nothing pending (the empty string or the sentinel)
     * nothing happens; otherwise the pending part is re-installed at `now` and the
     * pending mark returns to the sentinel.
     */
    method ConfirmReplace(now: int)
      requires Valid()
      modifies this`parts, this`partToReplace
      ensures Valid()
      ensures old(partToReplace) == "" || old(partToReplace) == ALL ==>
        parts == old(parts) && partToReplace == old(partToReplace)
      ensures old(partToReplace) != "" && old(partToReplace) != ALL ==>
        parts == ReplaceInstall(old(parts), old(partToReplace), now) && partToReplace == ALL
    {
      if partToReplace == "" || partToReplace == ALL {
        return;
      }
      ReplaceKeepsValid(parts, partToReplace, now);
      parts := ReplaceInstall(parts, partToReplace, now);
      partToReplace := ALL;
    }

    method OpenCreateModal()
      modifies this`modalMode, this`selectedPart
      ensures modalMode == Create && selectedPart == None
    {
      modalMode, selectedPart := Create, None;
    }

    method OpenEditModal(part: Part)
      modifies this`modalMode, this`selectedPart
      ensures modalMode == Edit && selectedPart == Some(part)
    {
      modalMode, selectedPart := Edit, Some(part);
    }

    method OpenCloneModal(part: Part)
      modifies this`modalMode, this`selectedPart
      ensures modalMode == Clone && selectedPart == Some(part)
    {
      modalMode, selectedPart := Clone, Some(part);
    }

    /**
     * Saving the form. In edit mode with an id the matching part is updated in place;
     * otherwise (create, clone, or an edit payload without an id) one new part with the
     * fresh id is appended and the machine filter follows it when it named another machine.
     */
    method SavePart(data: SaveData, freshId: string)
      requires Valid()
      requires data.lifespanDays > 0
      requires !IsUpdate(modalMode, data) ==> freshId !in Ids(parts)
      modifies this`parts, this`selectedMachine
      ensures Valid()
      ensures IsUpdate(modalMode, data) ==>
        parts == EditParts(old(parts), data.id.value, data) && selectedMachine == old(selectedMachine)
      ensures !IsUpdate(modalMode, data) ==>
        && parts == old(parts) + [NewPart(freshId, data)]
        && selectedMachine == MachineAfterAppend(old(selectedMachine), data)
      ensures !IsUpdate(modalMode, data) ==> Ids(parts) == old(Ids(parts)) + {freshId}
    {
      if IsUpdate(modalMode, data) {
        EditKeepsValid(parts, data.id.value, data);
        parts := EditParts(parts, data.id.value, data);
      } else {
        var newPart := NewPart(freshId, data);
        AppendKeepsValid(parts, newPart);
        parts := parts + [newPart];
        if selectedMachine != ALL && selectedMachine != data.machineId {
          selectedMachine := data.machineId;
        }
      }
    }

    /** The health map, filled part by part in list order. */
    method PartsHealth(now: int) returns (health: map<string, PartHealth>)
      requires Valid()
      ensures health == HealthMap(parts, now)
    {
      health := map[];
      var i := 0;
      while i < |parts|
        invariant 0 <= i <= |parts|
        invariant PositiveLifespans(parts[..i])
        invariant health == HealthMap(parts[..i], now)
      {
        assert parts[..i + 1][..i] == parts[..i];
        health := health[parts[i].id := CalculateHealth(parts[i], now)];
        i := i + 1;
      }
      assert parts[..i] == parts;
    }

    /** The dashboard's Critical and Warning counts: the number of parts in each band. */
    method DashboardCounts(now: int) returns (critical: nat, warning: nat)
      requires Valid()
      ensures critical == BandCount(parts, now, Critical)
      ensures warning == BandCount(parts, now, Warning)
      ensures critical + warning <= |parts|
    {
      var health := PartsHealth(now);
      critical := StatusCount(health, Critical);
      warning := StatusCount(health, Warning);
      StatusCountOfUnique(parts, now, Critical);
      StatusCountOfUnique(parts, now, Warning);
      BandsPartition(parts, now);
    }
  }
}
