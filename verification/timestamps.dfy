/**
 * The timestamp resolver: which column of a clinical table holds its event time, with the
 * documented fall-back columns for labs and vitals.
 */
module Timestamps {
  import opened Wrappers
  import opened Relational

  /** The tables that are pivoted from long to wide form. */
  const PIVOT_TABLES: seq<string> := ["vitals", "labs", "medication_admin_continuous", "patient_assessments"]

  /** The tables that are already wide. */
  const WIDE_TABLES: seq<string> := ["respiratory_support"]

  /** The fixed primary timestamp column of each table kind; None for any other table. */
  function PrimaryTimestamp(table: string): Option<string> {
    if table == "vitals" then Some("recorded_dttm")
    else if table == "labs" then Some("lab_result_dttm")
    else if table == "medication_admin_continuous" then Some("admin_dttm")
    else if table == "patient_assessments" then Some("recorded_dttm")
    else if table == "respiratory_support" then Some("recorded_dttm")
    else None
  }

  /** The fall-back timestamp columns, in the order they are tried. */
  function Alternatives(table: string): seq<string> {
    if table == "labs" then ["lab_collect_dttm", "recorded_dttm", "lab_order_dttm"]
    else if table == "vitals" then ["recorded_dttm_min", "recorded_dttm"]
    else []
  }

  /** The first of `candidates` that is among `columns`. */
  function FirstPresent(candidates: seq<string>, columns: seq<string>): (r: Option<string>)
    ensures r.Some? ==> r.value in candidates && r.value in columns
    ensures r.Some? ==> forall j :: 0 <= j < FirstIndex(candidates, r.value) ==> candidates[j] !in columns
    ensures r.None? <==> forall c :: c in candidates ==> c !in columns
  {
    if candidates == [] then None
    else if candidates[0] in columns then Some(candidates[0])
    else
      assert forall c :: c in candidates <==> c == candidates[0] || c in candidates[1..];
      FirstPresent(candidates[1..], columns)
  }

  /**
   * `_find_alternative_timestamp`: scans the table kind's alternatives in order and returns
   * the first one present in `columns`.
   */
  method FindAlternativeTimestamp(table: string, columns: seq<string>) returns (r: Option<string>)
    ensures r == FirstPresent(Alternatives(table), columns)
    ensures r.Some? ==> r.value in columns && r.value in Alternatives(table)
    ensures r.None? ==> forall c :: c in Alternatives(table) ==> c !in columns
  {
    var alternatives := Alternatives(table);
    var i := 0;
    while i < |alternatives|
      invariant 0 <= i <= |alternatives|
      invariant forall j :: 0 <= j < i ==> alternatives[j] !in columns
      invariant FirstPresent(alternatives, columns) == FirstPresent(alternatives[i..], columns)
    {
      assert alternatives[i..][1..] == alternatives[i + 1..];
      if alternatives[i] in columns {
        return Some(alternatives[i]);
      }
      i := i + 1;
    }
    return None;
  }

  /**
   * The timestamp column of a loaded table (the resolution in `_process_hospitalizations`):
   * the primary column when present, otherwise the first present alternative; None when the
   * table kind has no primary column or neither is present, in which case the table is skipped.
   */
  function ResolveTimestamp(table: string, columns: seq<string>): (r: Option<string>)
    ensures r.Some? ==> r.value in columns
    ensures PrimaryTimestamp(table).None? ==> r.None?
    ensures PrimaryTimestamp(table).Some? && PrimaryTimestamp(table).value in columns ==>
              r == PrimaryTimestamp(table)
    ensures PrimaryTimestamp(table).Some? && PrimaryTimestamp(table).value !in columns ==>
              r == FirstPresent(Alternatives(table), columns)
  {
    match PrimaryTimestamp(table)
    case None => None
    case Some(p) => if p in columns then Some(p) else FirstPresent(Alternatives(table), columns)
  }

  /** A lab table without `lab_result_dttm` falls back to `lab_collect_dttm` before `recorded_dttm`. */
  lemma LabsFallBackInOrder(columns: seq<string>)
    requires "lab_result_dttm" !in columns
    requires "lab_collect_dttm" in columns
    ensures ResolveTimestamp("labs", columns) == Some("lab_collect_dttm")
  {
  }

  /** Tables other than labs and vitals have no fall-back: without the primary column they are skipped. */
  lemma OnlyLabsAndVitalsFallBack(table: string, columns: seq<string>)
    requires table != "labs" && table != "vitals"
    requires PrimaryTimestamp(table).Some? && PrimaryTimestamp(table).value !in columns
    ensures ResolveTimestamp(table, columns).None?
  {
  }
}
