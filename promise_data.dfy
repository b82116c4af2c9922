/**
 The page's fixed data: the tracked promise records and the four tab
 values (script.js lines 4-53 and 62).
 */
module PromiseData {

  /** One tracked public commitment. `status` is a free string: the lookups fall back on unknown values. */
  datatype Record = Record(
    id: int,
    politician: string,
    promise: string,
    category: string,
    status: string,
    progress: int,
    datePromised: string,
    lastUpdate: string,
    evidence: string,
    state: string)

  // The four promise texts are written as concatenations of shorter
  // literals; each value is the source's text unchanged.
  const MAHARASHTRA_JOBS := Record(1, "CM of Maharashtra", "Create 2 million jobs " + "in the tech sector by 2025",
    "Employment", "in-progress", 45, "Jan 2024", "Oct 2024",
    "1.2M jobs created via MAITRI scheme; 800K target remaining", "Maharashtra")
  const UP_TABLETS := Record(2, "UP Government", "Provide free tablets to 10 la" + "k" + "h students",
    "Education", "fulfilled", 100, "Feb 2024", "Sep 2024",
    "11.2 lakh tablets distributed across 75 districts", "Uttar Pradesh")
  const KARNATAKA_MILK := Record(3, "Karnataka CM", "Launch 500 new milk collection " + "centers in rural areas",
    "Agriculture", "delayed", 20, "Mar 2024", "Nov 2024",
    "Only 98 centers operational; budget allocation pending", "Karnataka")
  const TAMIL_NADU_BUS := Record(4, "Tamil Nadu Government", "Establish universal " + "free bus travel for women",
    "Transport", "fulfilled", 100, "Jan 2024", "Aug 2024",
    "Scheme operational across all 38 districts since August", "Tamil Nadu")

  /** The records the page tracks, in display order. */
  const PROMISES: seq<Record> := [MAHARASHTRA_JOBS, UP_TABLETS, KARNATAKA_MILK, TAMIL_NADU_BUS]

  /** The category tabs, in display order; `"all"` disables the status condition. */
  const TABS: seq<string> := ["all", "fulfilled", "in-progress", "delayed"]

  /** The identifiers of a list of records, in order. */
  function Ids(ps: seq<Record>): (r: seq<int>)
    ensures |r| == |ps|
    ensures forall k :: 0 <= k < |ps| ==> r[k] == ps[k].id
  {
    if ps == [] then [] else [ps[0].id] + Ids(ps[1..])
  }
}
