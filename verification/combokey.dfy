/**
 * The combo key `hospitalization_id || '_' || strftime(ts, '%Y%m%d%H%M')`: the one join key of
 * the wide dataset, built by the same expression in the pivot, the expanded cohort, the ADT join
 * and the wide-table join. The minute stamp is modelled as the decimal number of whole minutes
 * since the epoch, which, like the calendar text, identifies the minute and contains no '_'.
 */
module ComboKeys {
  import opened Relational
  import Text

  /** The minute a timestamp falls in. */
  function Minute(t: Timestamp): nat {
    t / 60
  }

  /** The minute stamp: digits only, one text per minute. */
  function MinuteStamp(t: Timestamp): (r: string)
    ensures |r| >= 1 && '_' !in r
  {
    Text.Digits(Minute(t))
  }

  /** The combo key of an encounter id and an event time. */
  function ComboKey(id: string, t: Timestamp): string {
    id + "_" + MinuteStamp(t)
  }

  /**
   * Two combo keys are equal exactly when they name the same encounter and the same minute:
   * timestamps in one minute share a key, and no two encounters or minutes collide, even when
   * an id itself contains '_'.
   */
  lemma ComboKeyInjective(id1: string, t1: Timestamp, id2: string, t2: Timestamp)
    ensures ComboKey(id1, t1) == ComboKey(id2, t2) <==> id1 == id2 && Minute(t1) == Minute(t2)
  {
    Text.DigitsInjective(Minute(t1), Minute(t2));
    Text.SplitAtSeparator(id1, MinuteStamp(t1), id2, MinuteStamp(t2), "_");
  }
}
