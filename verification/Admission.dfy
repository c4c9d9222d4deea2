/**
 How os_hw8 lets at most one writer and at most two readers work: a candidate looks, under a
 semaphore used as a mutex, how many places are left, and takes one or gives up. For writers the
 places left are the value of `first_writer`; for readers they are the free entries of
 `reader_pids`. `taken` lists who took a place, as `reader_pids` does.
 */
module Admission {
  import opened Prelude
  import opened Sums

  datatype Candidate = Arrived | AtCheck | Seen(left: int) | Chosen | TurnedAway | Working | Gone {
    predicate Inside() {
      AtCheck? || Seen? || Chosen? || TurnedAway?
    }

    predicate HasPlace() {
      Chosen? || Working?
    }
  }

  datatype State = State(places: nat, mutex: Option<nat>, taken: seq<nat>, candidates: seq<Candidate>)

  const WRITER_PLACES: nat := 1
  const MAX_READERS: nat := 2

  function Initial(places: nat, candidates: nat): State {
    State(places, None, [], seq(candidates, _ => Arrived))
  }

  predicate Enabled(s: State, i: nat) {
    i < |s.candidates| &&
    match s.candidates[i]
    case Arrived => s.mutex == None
    case Working => false
    case Gone => false
    case _ => true
  }

  function Next(s: State, i: nat): State
    requires Enabled(s, i)
  {
    match s.candidates[i]
    case Arrived => s.(mutex := Some(i), candidates := s.candidates[i := AtCheck])
    case AtCheck => s.(candidates := s.candidates[i := Seen(s.places - |s.taken|)])
    case Seen(left) =>
      if left <= 0 then s.(candidates := s.candidates[i := TurnedAway])
      else s.(taken := s.taken + [i], candidates := s.candidates[i := Chosen])
    case Chosen => s.(mutex := None, candidates := s.candidates[i := Working])
    case TurnedAway => s.(mutex := None, candidates := s.candidates[i := Gone])
  }

  ghost function Place(k: (), c: Candidate): int {
    if c.HasPlace() then 1 else 0
  }

  ghost predicate Inv(s: State) {
    && (forall i {:trigger s.candidates[i]} | 0 <= i < |s.candidates| ::
          (s.candidates[i].Inside() <==> s.mutex == Some(i))
          && (s.candidates[i].HasPlace() <==> i in s.taken)
          && (s.candidates[i].Seen? ==> s.candidates[i].left == s.places - |s.taken|)
          && (s.candidates[i].TurnedAway? || s.candidates[i].Gone? ==> |s.taken| == s.places))
    && (s.mutex.Some? ==> s.mutex.value < |s.candidates|)
    && (forall j | 0 <= j < |s.taken| :: s.taken[j] < |s.candidates|)
    && (forall j, k | 0 <= j < k < |s.taken| :: s.taken[j] != s.taken[k])
    && Total(Place, (), s.candidates) == |s.taken| <= s.places
  }

  lemma StepKeepsInv(s: State, i: nat)
    requires Inv(s) && Enabled(s, i)
    ensures Inv(Next(s, i))
  {
    TotalUpdate(Place, (), s.candidates, i, Next(s, i).candidates[i]);
  }

  ghost predicate Executable(s: State, schedule: seq<nat>)
    decreases |schedule|
  {
    schedule == [] || (Enabled(s, schedule[0]) && Executable(Next(s, schedule[0]), schedule[1..]))
  }

  ghost function After(s: State, schedule: seq<nat>): State
    requires Executable(s, schedule)
    decreases |schedule|
  {
    if schedule == [] then s else After(Next(s, schedule[0]), schedule[1..])
  }

  lemma {:induction false} RunKeepsInv(s: State, schedule: seq<nat>)
    requires Inv(s) && Executable(s, schedule)
    ensures Inv(After(s, schedule))
    ensures After(s, schedule).places == s.places && |After(s, schedule).candidates| == |s.candidates|
    decreases |schedule|
  {
    if schedule != [] {
      StepKeepsInv(s, schedule[0]);
      RunKeepsInv(Next(s, schedule[0]), schedule[1..]);
    }
  }

  lemma InitialInv(places: nat, candidates: nat)
    ensures Inv(Initial(places, candidates))
  {
    TotalConstant(Place, (), Initial(places, candidates).candidates, 0);
  }

  /** In every run, those who took a place are listed once each, and fit the places there are. */
  lemma NeverTooMany(places: nat, candidates: nat, schedule: seq<nat>)
    requires Executable(Initial(places, candidates), schedule)
    ensures var s := After(Initial(places, candidates), schedule);
            && |s.taken| <= places
            && (forall j, k | 0 <= j < k < |s.taken| :: s.taken[j] != s.taken[k])
            && (forall i | 0 <= i < |s.candidates| && s.candidates[i].Working? :: i in s.taken)
  {
    InitialInv(places, candidates);
    RunKeepsInv(Initial(places, candidates), schedule);
  }

  /** At most one writer works at a time. */
  lemma AtMostOneWriter(candidates: nat, schedule: seq<nat>, i: nat, j: nat)
    requires Executable(Initial(WRITER_PLACES, candidates), schedule)
    requires var s := After(Initial(WRITER_PLACES, candidates), schedule);
             i < |s.candidates| && j < |s.candidates| && s.candidates[i].Working? && s.candidates[j].Working?
    ensures i == j
  {
    NeverTooMany(WRITER_PLACES, candidates, schedule);
  }

  /** At most two readers work at a time. */
  lemma AtMostTwoReaders(candidates: nat, schedule: seq<nat>, i: nat, j: nat, k: nat)
    requires Executable(Initial(MAX_READERS, candidates), schedule)
    requires var s := After(Initial(MAX_READERS, candidates), schedule);
             && i < |s.candidates| && j < |s.candidates| && k < |s.candidates|
             && s.candidates[i].Working? && s.candidates[j].Working? && s.candidates[k].Working?
    ensures i == j || j == k || i == k
  {
    NeverTooMany(MAX_READERS, candidates, schedule);
  }

  /** When every candidate has been dealt with, as many work as there are places or candidates,
      whichever are fewer; no place is lost and the mutex is free. */
  lemma AllPlacesAreFilled(places: nat, candidates: nat, schedule: seq<nat>)
    requires Executable(Initial(places, candidates), schedule)
    requires forall i: nat :: !Enabled(After(Initial(places, candidates), schedule), i)
    ensures var s := After(Initial(places, candidates), schedule);
            && s.mutex == None
            && |s.candidates| == candidates
            && (forall i | 0 <= i < candidates :: s.candidates[i].Working? || s.candidates[i].Gone?)
            && |s.taken| == (if places < candidates then places else candidates)
  {
    InitialInv(places, candidates);
    RunKeepsInv(Initial(places, candidates), schedule);
    var s := After(Initial(places, candidates), schedule);
    assert s.mutex.Some? ==> Enabled(s, s.mutex.value);
    forall i: nat | i < candidates
      ensures s.candidates[i].Working? || s.candidates[i].Gone?
    {
      assert !Enabled(s, i);
    }
    TotalAtMost(Place, (), s.candidates, 1);
    if |s.taken| < places {
      TotalConstant(Place, (), s.candidates, 1);
    }
  }
}
