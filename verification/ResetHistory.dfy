/**
 What a trace alone says about a challenge. No store, digest or deadline occurs here: a
 challenge is open from its start until it is used, exhausted, seen to have expired, or
 withdrawn after a failed delivery, and an open challenge counts its wrong tries.
 */
module ResetHistory {
  import opened Wrappers
  import opened ChallengeSpec
  import opened ResetProtocol

  datatype Issue = Issue(started: nat, email: string, account: Account, code: string, expiresAt: int)

  datatype Standing = Unknown | Open(issue: Issue, failures: nat) | Closed

  /** What the history says a verification must answer. */
  datatype Ruling = Refuse | Exhaust | Accept(issue: Issue, failures: nat)

  predicate Concerns(e: Event, cid: string) {
    match e
    case Started(c, _, _, _, _, _) => c == cid
    case DeliveryFailed(c) => c == cid
    case Lapsed(c, _) => c == cid
    case Probed(c, _, _) => c == cid
    case Judged(c, _, _, _, _) => c == cid
    case _ => false
  }

  predicate Matches(issue: Issue, email: string, code: string) {
    email == issue.email && code == issue.code
  }

  function Rule(standing: Standing, email: string, code: string, readAt: real, max: int): Ruling {
    match standing
    case Open(issue, failures) =>
      if issue.expiresAt <= Seconds(readAt) then Refuse
      else if Matches(issue, email, code) then Accept(issue, failures)
      else if failures + 1 >= max then Exhaust else Refuse
    case _ => Refuse
  }

  /** A login verification under the challenge's key counts a failure, unless nothing is left to count on. */
  predicate Exhausts(standing: Standing, readAt: real, max: int) {
    standing.Open? && !(standing.issue.expiresAt > Seconds(readAt) && standing.failures + 1 < max)
  }

  /** How the event at position `i` changes the standing of the challenge it concerns. */
  function Next(standing: Standing, i: nat, e: Event, max: int): Standing {
    match e
    case Started(_, _, email, account, code, expiresAt) => Open(Issue(i, email, account, code, expiresAt), 0)
    case Judged(_, email, code, readAt, _) =>
      (match standing
       case Open(issue, failures) =>
         if issue.expiresAt > Seconds(readAt) && !Matches(issue, email, code) && failures + 1 < max
         then Open(issue, failures + 1) else Closed
       case _ => standing)
    case Probed(_, readAt, _) =>
      if !standing.Open? then standing
      else if Exhausts(standing, readAt, max) then Closed
      else Open(standing.issue, standing.failures + 1)
    case _ => if standing.Open? then Closed else standing
  }

  /** The standing of a challenge after the first `n` events. */
  function StandingAt(trace: seq<Event>, n: nat, cid: string, max: int): Standing
    requires n <= |trace|
  {
    if n == 0 then Unknown
    else
      var before := StandingAt(trace, n - 1, cid, max);
      if Concerns(trace[n - 1], cid) then Next(before, n - 1, trace[n - 1], max) else before
  }

  function RulingAt(trace: seq<Event>, k: nat, max: int): Ruling
    requires k < |trace| && trace[k].Judged?
  {
    Rule(StandingAt(trace, k, trace[k].cid, max), trace[k].email, trace[k].code, trace[k].readAt, max)
  }

  function RecordOf(cid: string, issue: Issue, failures: nat): Record {
    Record(Some(issue.email), Some(CodeDigest(cid, issue.code)), Int(failures), Int(issue.expiresAt),
           Some(RESET_PURPOSE), Some(issue.account))
  }

  ghost predicate Answers(verdict: Verdict, ruling: Ruling, cid: string) {
    match ruling
    case Refuse => verdict == Invalid
    case Exhaust => verdict == AttemptsExceeded
    case Accept(issue, failures) => verdict == Verified(RecordOf(cid, issue, failures))
  }

  ghost predicate IsIssue(trace: seq<Event>, cid: string, issue: Issue) {
    && issue.started < |trace|
    && trace[issue.started].Started? && trace[issue.started].cid == cid
    && trace[issue.started].email == issue.email
    && trace[issue.started].account == issue.account
    && trace[issue.started].code == issue.code
    && trace[issue.started].expiresAt == issue.expiresAt
  }

  lemma {:induction false} StandingPrefix(trace: seq<Event>, e: Event, n: nat, cid: string, max: int)
    requires n <= |trace|
    ensures StandingAt(trace + [e], n, cid, max) == StandingAt(trace, n, cid, max)
  {
    if n > 0 {
      StandingPrefix(trace, e, n - 1, cid, max);
    }
  }

  /** The standing after one more event. */
  lemma {:induction false} StandingAppend(trace: seq<Event>, e: Event, cid: string, max: int)
    ensures StandingAt(trace + [e], |trace| + 1, cid, max)
            == if Concerns(e, cid) then Next(StandingAt(trace, |trace|, cid, max), |trace|, e, max)
               else StandingAt(trace, |trace|, cid, max)
  {
    StandingPrefix(trace, e, |trace|, cid, max);
  }

  lemma {:induction false} OpenWasStarted(trace: seq<Event>, n: nat, cid: string, max: int)
    requires n <= |trace| && max >= 1
    ensures var standing := StandingAt(trace, n, cid, max);
            standing.Open? ==>
              IsIssue(trace, cid, standing.issue) && standing.issue.started < n && standing.failures < max
    ensures StandingAt(trace, n, cid, max).Unknown? <==>
            forall i :: 0 <= i < n ==> !(trace[i].Started? && trace[i].cid == cid)
  {
    if n > 0 {
      OpenWasStarted(trace, n - 1, cid, max);
    }
  }

  ghost predicate StartsAreFresh(trace: seq<Event>) {
    forall i, j :: 0 <= i < j < |trace| && trace[i].Started? && trace[j].Started? ==> trace[i].cid != trace[j].cid
  }

  /** A challenge that is closed stays closed. */
  lemma {:induction false} ClosedForGood(trace: seq<Event>, n: nat, m: nat, cid: string, max: int)
    requires n <= m <= |trace| && max >= 1 && StartsAreFresh(trace)
    requires StandingAt(trace, n, cid, max).Closed?
    ensures StandingAt(trace, m, cid, max).Closed?
  {
    if n < m {
      ClosedForGood(trace, n, m - 1, cid, max);
      OpenWasStarted(trace, m - 1, cid, max);
    }
  }

  /** A failed try: another email or code, or a login verification under the challenge's key. */
  predicate IsWrongTry(e: Event, issue: Issue, cid: string) {
    || (e.Judged? && e.cid == cid && !Matches(issue, e.email, e.code))
    || (e.Probed? && e.cid == cid)
  }

  /** The wrong tries on the challenge in the trace between positions `from` and `n`. */
  function WrongTries(trace: seq<Event>, issue: Issue, cid: string, from: nat, n: nat): nat
    requires n <= |trace|
  {
    if n <= from then 0
    else
      WrongTries(trace, issue, cid, from, n - 1)
      + if IsWrongTry(trace[n - 1], issue, cid) then 1 else 0
  }
}
