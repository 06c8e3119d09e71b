/**
 * The records of the part-wear inventory (types.ts).
 *
 * Instants (`installDate`, "now") are integer milliseconds since the Unix epoch, the
 * value `Date.getTime()` gives for the ISO strings the application stores.
 */
module PartTypes {
  import opened Wrappers

  /** The wear band of a part. */
  datatype PartStatus = Good | Warning | Critical

  /** A trackable part installed on a machine. */
  datatype Part = Part(
    id: string,
    machineId: string,
    name: string,
    category: string,
    installDate: int,
    lifespanDays: int,
    notes: Option<string>)

  /** The wear of a part at one instant; derived, never stored. */
  datatype PartHealth = PartHealth(
    daysElapsed: nat,
    daysRemaining: int,
    percentageUsed: real,
    status: PartStatus)

  /** What the add/edit/clone form hands to the inventory when it is submitted. */
  datatype SaveData = SaveData(
    id: Option<string>,
    machineId: string,
    name: string,
    category: string,
    lifespanDays: int,
    installDate: int)

  /** The three ways the part form is opened. */
  datatype Mode = Create | Edit | Clone

  /** The sentinel the filters and the pending replacement use for "none selected". */
  const ALL: string := "all"

  /** The set of ids occurring in a list of parts. */
  function Ids(ps: seq<Part>): set<string> {
    set i | 0 <= i < |ps| :: ps[i].id
  }

  /** No two parts share an id. */
  predicate UniqueIds(ps: seq<Part>) {
    forall i, j :: 0 <= i < j < |ps| ==> ps[i].id != ps[j].id
  }

  /** Every part has a positive expected lifespan. */
  predicate PositiveLifespans(ps: seq<Part>) {
    forall i :: 0 <= i < |ps| ==> ps[i].lifespanDays > 0
  }

  /** The invariant the inventory keeps. */
  predicate ValidParts(ps: seq<Part>) {
    UniqueIds(ps) && PositiveLifespans(ps)
  }
}
