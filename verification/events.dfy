/**
 * The event-time union and the expanded cohort of `_create_wide_dataset`: every distinct
 * (encounter, event time) pair from the event sources, inner-joined to the base cohort and
 * keyed by its combo key.
 */
module Events {
  import opened Wrappers
  import opened Relational
  import opened ComboKeys

  /** An event source: a catalog table and the column that holds its event times. */
  datatype EventSource = EventSource(table: string, tsCol: string)

  /** One (hospitalization_id, event_time) pair. */
  datatype Event = Event(id: Option<Value>, time: Timestamp)

  /** `SELECT hospitalization_id, ts AS event_time FROM t WHERE ts IS NOT NULL`, in row order. */
  function SourceEvents(rows: seq<Row>, tsCol: string): (es: seq<Event>)
    ensures forall e :: e in es <==>
      exists r :: r in rows && TimeOf(Cell(r, tsCol)) == Some(e.time) && Cell(r, "hospitalization_id") == e.id
    decreases |rows|
  {
    if rows == [] then []
    else
      var init, last := rows[..|rows| - 1], rows[|rows| - 1];
      assert forall r :: r in rows <==> r in init || r == last;
      SourceEvents(init, tsCol) +
        (match TimeOf(Cell(last, tsCol))
         case Some(t) => [Event(Cell(last, "hospitalization_id"), t)]
         case None => [])
  }

  /** Every source names a table of the catalog. */
  predicate SourcesPresent(catalog: map<string, Table>, sources: seq<EventSource>) {
    forall i :: 0 <= i < |sources| ==> sources[i].table in catalog
  }

  /** An event that a source's table holds: a row with that id and that non-NULL event time. */
  ghost predicate InSource(catalog: map<string, Table>, src: EventSource, e: Event)
    requires src.table in catalog
  {
    exists r :: r in catalog[src.table].rows && TimeOf(Cell(r, src.tsCol)) == Some(e.time) &&
      Cell(r, "hospitalization_id") == e.id
  }

  /** An event that some source's table holds. */
  ghost predicate FromSources(catalog: map<string, Table>, sources: seq<EventSource>, e: Event)
    requires SourcesPresent(catalog, sources)
  {
    exists i :: 0 <= i < |sources| && InSource(catalog, sources[i], e)
  }

  /** The sources' events one after another (`UNION ALL`). */
  function UnionAll(catalog: map<string, Table>, sources: seq<EventSource>): (es: seq<Event>)
    requires SourcesPresent(catalog, sources)
    ensures forall e :: e in es <==> FromSources(catalog, sources, e)
    decreases |sources|
  {
    if sources == [] then []
    else
      var init, last := sources[..|sources| - 1], sources[|sources| - 1];
      assert forall e :: FromSources(catalog, sources, e) <==>
        (FromSources(catalog, init, e) || InSource(catalog, last, e))
      by {
        forall e ensures FromSources(catalog, sources, e) ==>
          (FromSources(catalog, init, e) || InSource(catalog, last, e))
        {
          if FromSources(catalog, sources, e) {
            var i :| 0 <= i < |sources| && InSource(catalog, sources[i], e);
            if i < |init| {
              assert init[i] == sources[i];
            }
          }
        }
        forall e ensures FromSources(catalog, init, e) ==> FromSources(catalog, sources, e) {
          if FromSources(catalog, init, e) {
            var i :| 0 <= i < |init| && InSource(catalog, init[i], e);
            assert sources[i] == init[i];
          }
        }
      }
      UnionAll(catalog, init) + SourceEvents(catalog[last.table].rows, last.tsCol)
  }

  /**
   * `all_events`: the distinct (id, event_time) pairs of the union. Every pair occurs once,
   * and a pair occurs exactly when some source row holds that id and a non-NULL event time.
   */
  function AllEvents(catalog: map<string, Table>, sources: seq<EventSource>): (es: seq<Event>)
    requires SourcesPresent(catalog, sources)
    ensures NoDuplicates(es)
    ensures forall e :: e in es <==> FromSources(catalog, sources, e)
  {
    Distinct(UnionAll(catalog, sources))
  }

  /** `a.hospitalization_id = b.hospitalization_id`: NULL never joins. */
  predicate Joins(a: Row, e: Event) {
    e.id.Some? && Cell(a, "hospitalization_id") == e.id
  }

  /** A base-cohort row extended by an event: `a.*, b.event_time, ... AS combo_id`. */
  function EcRow(a: Row, e: Event): Row
    requires e.id.Some?
  {
    a["event_time" := Some(Time(e.time))]["combo_id" := Some(Str(ComboKey(Render(e.id.value), e.time)))]
  }

  /** The expanded rows of one base-cohort row, one per event of its encounter. */
  function Expand(a: Row, events: seq<Event>): (rs: seq<Row>)
    ensures forall r :: r in rs <==> exists e :: e in events && Joins(a, e) && r == EcRow(a, e)
    decreases |events|
  {
    if events == [] then []
    else
      var init, last := events[..|events| - 1], events[|events| - 1];
      assert forall e :: e in events <==> e in init || e == last;
      Expand(a, init) + (if Joins(a, last) then [EcRow(a, last)] else [])
  }

  /** The expanded-cohort columns: the base cohort's, then `event_time` and `combo_id`. */
  function EcColumns(base: Table): seq<string> {
    base.columns + ["event_time", "combo_id"]
  }

  /** `expanded_cohort`: base rows in order, each followed by its encounter's events. */
  function ExpandedCohort(base: seq<Row>, events: seq<Event>): (rs: seq<Row>)
    ensures forall r :: r in rs <==> exists a, e :: a in base && e in events && Joins(a, e) && r == EcRow(a, e)
    decreases |base|
  {
    if base == [] then []
    else
      var init, last := base[..|base| - 1], base[|base| - 1];
      assert forall a :: a in base <==> a in init || a == last;
      ExpandedCohort(init, events) + Expand(last, events)
  }

  /**
   * Every expanded-cohort row carries a non-NULL id, its event time, and the combo key of the
   * two: the key that the pivoted and joined tables are matched on.
   */
  lemma ExpandedRowsKeyed(base: seq<Row>, events: seq<Event>, r: Row)
    requires r in ExpandedCohort(base, events)
    ensures Cell(r, "hospitalization_id").Some?
    ensures exists t :: Cell(r, "event_time") == Some(Time(t)) &&
              Cell(r, "combo_id") == Some(Str(ComboKey(Render(Cell(r, "hospitalization_id").value), t)))
  {
    var a, e :| a in base && e in events && Joins(a, e) && r == EcRow(a, e);
    assert Cell(r, "event_time") == Some(Time(e.time));
  }

  /**
   * An encounter that has no event in any source is absent from the expanded cohort, and one
   * that has events has a row for each of them.
   */
  lemma EncounterRowsAreItsEvents(base: seq<Row>, events: seq<Event>, a: Row)
    requires a in base && Cell(a, "hospitalization_id").Some?
    ensures (forall e :: e in events ==> e.id != Cell(a, "hospitalization_id")) ==>
              forall r :: r in ExpandedCohort(base, events) ==> Cell(r, "hospitalization_id") != Cell(a, "hospitalization_id")
    ensures forall e :: e in events && e.id == Cell(a, "hospitalization_id") ==> EcRow(a, e) in ExpandedCohort(base, events)
  {
    var id := Cell(a, "hospitalization_id");
    forall r | r in ExpandedCohort(base, events) && Cell(r, "hospitalization_id") == id
      ensures exists e :: e in events && e.id == id
    {
      var b, e :| b in base && e in events && Joins(b, e) && r == EcRow(b, e);
      assert Cell(r, "hospitalization_id") == Cell(b, "hospitalization_id");
    }
  }
}
