/**
 * One logged play session and the validation that turns a submitted form
 * into one (`tsumu.py`, the submit branch of `main`).
 */
module Records {
  import opened Wrappers
  import opened Dates

  /**
   * A stored row: the seven columns date, coins before, coins after,
   * coins earned, play count, Tsum used and memo, in that order.
   */
  datatype Record = Record(
    date: string,
    before: nat,
    after: nat,
    earned: nat,
    plays: nat,
    tsum: string,
    memo: string)

  /** What the sidebar form hands over when it is submitted. The number inputs have `min_value=0`. */
  datatype Candidate = Candidate(
    date: Date,
    before: nat,
    after: nat,
    plays: nat,
    tsum: string,
    memo: string)

  /** The one way a submission is refused. */
  datatype SubmitError = AfterBelowBefore

  /** A row the application writes: a calendar date in canonical text and earned = after - before. */
  predicate WellFormed(r: Record)
  {
    ParseDate(r.date).Some? && r.before + r.earned == r.after
  }

  /**
   * Validates a submission and builds its row. Coins after below coins
   * before is refused; otherwise the difference is the coins earned and the
   * date is rendered as `YYYY-MM-DD`.
   */
  function MakeRecord(c: Candidate): (r: Result<Record, SubmitError>)
    requires ValidDate(c.date)
    ensures r.Failure? <==> c.after < c.before
    ensures r.Failure? ==> r.error == AfterBelowBefore
    ensures r.Success? ==>
      && WellFormed(r.value)
      && ParseDate(r.value.date) == Some(c.date)
      && r.value.before == c.before && r.value.after == c.after
      && r.value.earned == c.after - c.before
      && r.value.plays == c.plays && r.value.tsum == c.tsum && r.value.memo == c.memo
  {
    if c.after < c.before then
      Failure(AfterBelowBefore)
    else
      ParseFormat(c.date);
      Success(Record(FormatDate(c.date), c.before, c.after, c.after - c.before, c.plays, c.tsum, c.memo))
  }
}
