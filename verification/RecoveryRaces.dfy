/** Execution recovery with its read and its write apart: the attempt that is written back is one more than the
    attempt that was read, whatever the row holds by then. */
module RecoveryRaces {
  import opened Prelude
  import opened Tables
  import opened RecoveryTheorems
  import Retry

  /** One execution, and the attempt number that each actor has read and not yet acted upon. */
  datatype RaceState = RaceState(row: TaskExecution, pending: map<nat, nat>)

  datatype RaceLabel = ReadAttempt(actor: nat) | Act(actor: nat, mishap: Mishap)

  /** What the actor decides on. */
  function Seen(r: RaceState, actor: nat): TaskExecution
    requires actor in r.pending
  {
    r.row.(attempt := r.pending[actor])
  }

  predicate RetriesAt(r: RaceState, l: RaceLabel) {
    l.Act? && l.actor in r.pending && Retries(Seen(r, l.actor), l.mishap)
  }

  function After(r: RaceState, l: RaceLabel): RaceState {
    match l
    case ReadAttempt(actor) => r.(pending := r.pending[actor := r.row.attempt])
    case Act(actor, m) =>
      if actor !in r.pending then r else
        var acted := AfterMishap(Seen(r, actor), m);
        RaceState(if RetriesAt(r, l) then acted else acted.(attempt := r.row.attempt), r.pending - {actor})
  }

  function Race(r: RaceState, ls: seq<RaceLabel>): RaceState {
    if ls == [] then r else After(Race(r, ls[..|ls| - 1]), ls[|ls| - 1])
  }

  function Retried(r: RaceState, ls: seq<RaceLabel>): nat {
    if ls == [] then 0 else
      var n := |ls| - 1;
      Retried(r, ls[..n]) + if RetriesAt(Race(r, ls[..n]), ls[n]) then 1 else 0
  }

  // ----- what survives -----

  ghost predicate Sound(r: RaceState) {
    && InBudget(r.row)
    && forall a :: a in r.pending ==> 1 <= r.pending[a] <= r.row.maxAttempts
  }

  lemma StepStaysSound(r: RaceState, l: RaceLabel)
    requires Sound(r)
    ensures Sound(After(r, l)) && After(r, l).row.maxAttempts == r.row.maxAttempts
    ensures !RetriesAt(r, l) ==> After(r, l).row.attempt == r.row.attempt
    ensures RetriesAt(r, l) ==>
              && After(r, l).row.attempt == r.pending[l.actor] + 1
              && r.pending[l.actor] < r.row.maxAttempts
  {
    if l.Act? && l.actor in r.pending { MishapEffect(Seen(r, l.actor), l.mishap); }
  }

  /** The attempt number itself never leaves its range, in any race. */
  lemma {:induction false} AttemptStaysInRange(r: RaceState, ls: seq<RaceLabel>)
    requires Sound(r)
    ensures Sound(Race(r, ls)) && Race(r, ls).row.maxAttempts == r.row.maxAttempts
  {
    if ls != [] {
      AttemptStaysInRange(r, ls[..|ls| - 1]);
      StepStaysSound(Race(r, ls[..|ls| - 1]), ls[|ls| - 1]);
    }
  }

  /** A retry raises the attempt exactly when it acts on the row's current attempt or a later one. */
  lemma RetryCountsIff(r: RaceState, l: RaceLabel)
    requires Sound(r) && RetriesAt(r, l)
    ensures After(r, l).row.attempt > r.row.attempt <==> r.pending[l.actor] >= r.row.attempt
  {
    StepStaysSound(r, l);
  }

  /** No actor acts on an attempt that is no longer the row's. */
  ghost predicate Fresh(r: RaceState, ls: seq<RaceLabel>) {
    ls != [] ==>
      var n := |ls| - 1;
      var before := Race(r, ls[..n]);
      && Fresh(r, ls[..n])
      && (ls[n].Act? && ls[n].actor in before.pending ==> before.pending[ls[n].actor] == before.row.attempt)
  }

  function Acts(r: RaceState, ls: seq<RaceLabel>): seq<Mishap> {
    if ls == [] then [] else
      var n := |ls| - 1;
      Acts(r, ls[..n]) + if ls[n].Act? && ls[n].actor in Race(r, ls[..n]).pending then [ls[n].mishap] else []
  }

  lemma OneMoreMishap(row: TaskExecution, ms: seq<Mishap>, m: Mishap)
    ensures AfterAll(row, ms + [m]) == AfterMishap(AfterAll(row, ms), m)
    ensures RetryCount(row, ms + [m]) == RetryCount(row, ms) + if Retries(AfterAll(row, ms), m) then 1 else 0
  {
    assert (ms + [m])[..|ms|] == ms;
  }

  lemma FreshStep(r: RaceState, l: RaceLabel)
    requires InBudget(r.row) && l.Act? && l.actor in r.pending && r.pending[l.actor] == r.row.attempt
    ensures After(r, l).row == AfterMishap(r.row, l.mishap)
    ensures RetriesAt(r, l) <==> Retries(r.row, l.mishap)
  {
    assert Seen(r, l.actor) == r.row;
    MishapEffect(r.row, l.mishap);
  }

  /** A race in which every actor acts on the current attempt is a sequence of mishaps, so its retries stay within the
      budget. */
  lemma {:induction false} FreshRacesKeepBudget(r: RaceState, ls: seq<RaceLabel>)
    requires InBudget(r.row) && Fresh(r, ls)
    ensures Race(r, ls).row == AfterAll(r.row, Acts(r, ls))
    ensures Retried(r, ls) == RetryCount(r.row, Acts(r, ls)) <= r.row.maxAttempts - r.row.attempt
  {
    RetryBudget(r.row, Acts(r, ls));
    if ls != [] {
      var n := |ls| - 1;
      var before, l := Race(r, ls[..n]), ls[n];
      FreshRacesKeepBudget(r, ls[..n]);
      RetryBudget(r.row, Acts(r, ls[..n]));
      assert Acts(r, ls[..n]) + [] == Acts(r, ls[..n]);
      if l.Act? && l.actor in before.pending {
        FreshStep(before, l);
        OneMoreMishap(r.row, Acts(r, ls[..n]), l.mishap);
      }
    }
  }

  // ----- when an exhausted execution is retried -----

  ghost predicate ReadEarlier(r: RaceState) {
    exists a :: a in r.pending && r.pending[a] < r.row.maxAttempts
  }

  lemma {:induction false} ExhaustedForever(r: RaceState, ls: seq<RaceLabel>)
    requires Sound(r) && r.row.attempt == r.row.maxAttempts && !ReadEarlier(r)
    ensures var after := Race(r, ls);
            Sound(after) && after.row.attempt == after.row.maxAttempts && !ReadEarlier(after)
    ensures Retried(r, ls) == 0
  {
    if ls != [] {
      var n := |ls| - 1;
      ExhaustedForever(r, ls[..n]);
      StepStaysSound(Race(r, ls[..n]), ls[n]);
    }
  }

  const TIMED_OUT: Mishap := AnError(Retry.Timeout, StreamPhase, Retry.DEFAULT_MATRIX, 0.5, 0.0)

  lemma RetryStep(r: RaceState, ls: seq<RaceLabel>, actor: nat) returns (longer: seq<RaceLabel>)
    requires Sound(Race(r, ls))
    requires actor in Race(r, ls).pending && Race(r, ls).pending[actor] < Race(r, ls).row.maxAttempts
    ensures Retried(r, longer) == Retried(r, ls) + 1
    ensures Race(r, longer) == After(Race(r, ls), Act(actor, TIMED_OUT))
  {
    longer := ls + [Act(actor, TIMED_OUT)];
    assert longer[..|ls|] == ls;
  }

  /** An execution whose budget is spent is retried again, in some race, exactly when some actor has read an earlier
      attempt and not acted yet. */
  lemma RetriedAgainIff(r: RaceState)
    requires Sound(r) && r.row.attempt == r.row.maxAttempts
    ensures (exists ls :: Retried(r, ls) > 0) <==> ReadEarlier(r)
  {
    if ReadEarlier(r) {
      var a :| a in r.pending && r.pending[a] < r.row.maxAttempts;
      assert Race(r, []) == r && Retried(r, []) == 0;
      var ls := RetryStep(r, [], a);
    } else {
      forall ls ensures Retried(r, ls) == 0 { ExhaustedForever(r, ls); }
    }
  }

  lemma ReadStep(r: RaceState, ls: seq<RaceLabel>, actor: nat) returns (longer: seq<RaceLabel>)
    ensures Retried(r, longer) == Retried(r, ls)
    ensures Race(r, longer) == Race(r, ls).(pending := Race(r, ls).pending[actor := Race(r, ls).row.attempt])
  {
    longer := ls + [ReadAttempt(actor)];
    assert longer[..|ls|] == ls;
  }

  ghost predicate HaveRead(s: RaceState, row: TaskExecution, n: nat) {
    Sound(s) && s.row == row && forall a :: 0 <= a < n ==> a in s.pending && s.pending[a] == row.attempt
  }

  /** The first n actors read the same attempt. */
  lemma {:induction false} AllRead(r: RaceState, n: nat) returns (ls: seq<RaceLabel>)
    requires Sound(r)
    ensures Retried(r, ls) == 0 && HaveRead(Race(r, ls), r.row, n)
  {
    if n == 0 {
      ls := [];
    } else {
      var before := AllRead(r, n - 1);
      ls := ReadStep(r, before, n - 1);
    }
  }

  /** The first n of those that have read retry one after the other. */
  lemma {:induction false} AllRetry(r: RaceState, read: seq<RaceLabel>, n: nat, attempt: nat, max: nat)
    returns (ls: seq<RaceLabel>)
    requires Sound(Race(r, read)) && Race(r, read).row.maxAttempts == max && attempt < max
    requires forall a :: 0 <= a < n ==> a in Race(r, read).pending && Race(r, read).pending[a] == attempt
    ensures Retried(r, ls) == Retried(r, read) + n
    ensures Sound(Race(r, ls)) && Race(r, ls).row.maxAttempts == max
    decreases n
  {
    ls := read;
    if n > 0 {
      var actor := n - 1;
      var one := RetryStep(r, read, actor);
      StepStaysSound(Race(r, read), Act(actor, TIMED_OUT));
      ls := AllRetry(r, one, n - 1, attempt, max);
    }
  }

  /** Below its last attempt an execution can be retried any number of times: the budget rests on pending that are not
      out of date. */
  lemma RetriesHaveNoBound(r: RaceState, n: nat) returns (ls: seq<RaceLabel>)
    requires Sound(r) && r.row.attempt < r.row.maxAttempts
    ensures Retried(r, ls) == n
  {
    var read := AllRead(r, n);
    ls := AllRetry(r, read, n, r.row.attempt, r.row.maxAttempts);
  }
}
