/**
 The integer conventions of the asynchronous stream's entry points and
 callbacks (src/stream/astream.h): open, read, writ, seek and sync return
 1 when done, 0 when pending and -1 when failed; the read and writ
 callbacks return 1 to stop after success, 0 to continue and -1 to stop
 after failure.
 */
module AStreamStatus {
  import opened Options

  /** What issuing an operation did. */
  datatype IssueResult = Done | Pending | Failed

  /** The integer an entry point returns for each outcome. */
  function IssueValue(r: IssueResult): (v: int)
    ensures -1 <= v <= 1
  {
    match r
    case Done => 1
    case Pending => 0
    case Failed => -1
  }

  /** The outcome an entry point's return value reports, if it is one of the three. */
  function IssueOf(v: int): (r: Option<IssueResult>)
    ensures r.Some? <==> -1 <= v <= 1
    ensures r.Some? ==> IssueValue(r.value) == v
  {
    if v == 1 then Some(Done)
    else if v == 0 then Some(Pending)
    else if v == -1 then Some(Failed)
    else None
  }

  /** Each outcome is read back from its integer. */
  lemma IssueRoundTrip(r: IssueResult)
    ensures IssueOf(IssueValue(r)) == Some(r)
  {
  }

  /** What a read or writ callback asks of the stream after a completion. */
  datatype Verdict = BreakOk | Continue | BreakFailed

  /** The integer a read or writ callback returns for each verdict. */
  function VerdictValue(d: Verdict): (v: int)
    ensures -1 <= v <= 1
  {
    match d
    case BreakOk => 1
    case Continue => 0
    case BreakFailed => -1
  }

  /** The verdict a callback's return value carries, if it is one of the three. */
  function VerdictOf(v: int): (r: Option<Verdict>)
    ensures r.Some? <==> -1 <= v <= 1
    ensures r.Some? ==> VerdictValue(r.value) == v
  {
    if v == 1 then Some(BreakOk)
    else if v == 0 then Some(Continue)
    else if v == -1 then Some(BreakFailed)
    else None
  }

  /** Each verdict is read back from its integer. */
  lemma VerdictRoundTrip(d: Verdict)
    ensures VerdictOf(VerdictValue(d)) == Some(d)
  {
  }

  /** The issue and callback conventions use the same three integers, in the same order. */
  lemma ConventionsAgree(v: int)
    ensures IssueOf(v).Some? <==> VerdictOf(v).Some?
    ensures IssueOf(v) == Some(Done) <==> VerdictOf(v) == Some(BreakOk)
    ensures IssueOf(v) == Some(Pending) <==> VerdictOf(v) == Some(Continue)
    ensures IssueOf(v) == Some(Failed) <==> VerdictOf(v) == Some(BreakFailed)
  {
  }
}
