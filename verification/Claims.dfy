/**
  Who writes which column of a parallel build: the flags the leader and the
  workers share, each section under the mutex one step, and what holds over
  every interleaving of them.
*/
module Claims {
  import opened Options

  /* ---------- the sections under the mutex ---------- */

  // The columns' tape sizes, which are final, and the column the leader keeps
  // for itself besides the first.
  datatype Job = Job(blocks: seq<nat>, own: nat)

  predicate Claimable(job: Job, taken: seq<bool>, c: nat)
    requires |taken| == |job.blocks|
  {
    1 <= c < |taken| && c != job.own && !taken[c]
  }

  // The largest of the first n columns a worker may take, the earliest of equals.
  function ClaimTo(job: Job, taken: seq<bool>, n: nat): (best: Option<nat>)
    requires |taken| == |job.blocks| && n <= |taken|
    ensures best.Some? ==> best.value < n && Claimable(job, taken, best.value)
  {
    if n == 0 then None
    else
      var best := ClaimTo(job, taken, n - 1);
      if Claimable(job, taken, n - 1) && (best.None? || job.blocks[n - 1] > job.blocks[best.value])
      then Some(n - 1) else best
  }

  lemma {:induction false} ClaimIsLargest(job: Job, taken: seq<bool>, n: nat)
    requires |taken| == |job.blocks| && n <= |taken|
    ensures var best := ClaimTo(job, taken, n);
            forall c :: 0 <= c < n && Claimable(job, taken, c) ==>
              best.Some? && job.blocks[c] <= job.blocks[best.value] &&
              (c < best.value ==> job.blocks[c] < job.blocks[best.value])
  {
    if n > 0 {
      ClaimIsLargest(job, taken, n - 1);
    }
  }

  // A worker is given the largest of the columns but the first and the leader's
  // own that none has taken, the earliest of equals; none when all are taken.
  lemma ClaimIsBest(job: Job, taken: seq<bool>)
    requires |taken| == |job.blocks|
    ensures var best := ClaimTo(job, taken, |taken|);
            && (best.None? <==> forall c :: 1 <= c < |taken| && c != job.own ==> taken[c])
            && (best.Some? ==>
                  var b := best.value;
                  && 1 <= b < |taken| && b != job.own && !taken[b]
                  && forall c :: 1 <= c < |taken| && c != job.own && !taken[c] ==>
                       job.blocks[c] <= job.blocks[b] && (c < b ==> job.blocks[c] < job.blocks[b]))
  {
    ClaimIsLargest(job, taken, |taken|);
    assert forall c :: 1 <= c < |taken| && c != job.own && !taken[c] ==> Claimable(job, taken, c);
  }

  ghost function Sum(s: seq<nat>, n: nat): nat
    requires n <= |s|
  {
    if n == 0 then 0 else Sum(s, n - 1) + s[n - 1]
  }

  // The largest column, the earliest of equals, when it is as large as all
  // the others together; else the first.
  method OwnColumn(blocks: seq<nat>) returns (own: nat)
    requires blocks != []
    ensures own < |blocks|
    ensures own != 0 ==> blocks[own] * 2 >= Sum(blocks, |blocks|) && blocks[own] > blocks[0]
    ensures own != 0 ==> forall d :: 0 <= d < |blocks| ==>
              blocks[d] <= blocks[own] && (d < own ==> blocks[d] < blocks[own])
    ensures own == 0 ==>
              forall c :: 0 < c < |blocks| && blocks[c] > blocks[0] &&
                          (forall d :: 0 <= d < |blocks| ==> blocks[d] <= blocks[c]) ==>
                           blocks[c] * 2 < Sum(blocks, |blocks|)
  {
    var total, best := 0, 0;
    for c := 0 to |blocks|
      invariant total == Sum(blocks, c) && best < |blocks| && (best == 0 || best < c)
      invariant forall d :: 0 <= d < c ==> blocks[d] <= blocks[best] && (d < best ==> blocks[d] < blocks[best])
      invariant best > 0 ==> blocks[best] > blocks[0]
    {
      total := total + blocks[c];
      if blocks[c] > blocks[best] {
        best := c;
      }
    }
    return if blocks[best] * 2 < total then 0 else best;
  }

  class Shared {
    const job: Job
    var taken: seq<bool>
    var done: seq<bool>

    ghost predicate Valid()
      reads this
    {
      |taken| == |done| == |job.blocks|
    }

    constructor (job: Job)
      ensures Valid() && this.job == job
      ensures forall c :: 0 <= c < |taken| ==> !taken[c] && !done[c]
    {
      this.job := job;
      taken := seq(|job.blocks|, _ => false);
      done := seq(|job.blocks|, _ => false);
    }

    // A worker's next column, or none.
    method ClaimColumn() returns (best: Option<nat>)
      requires Valid()
      modifies this`taken
      ensures Valid() && best == ClaimTo(job, old(taken), |old(taken)|)
      ensures taken == if best.Some? then old(taken)[best.value := true] else old(taken)
      ensures best.None? <==> forall c :: 1 <= c < |taken| && c != job.own ==> old(taken)[c]
      ensures best.Some? ==>
                && 1 <= best.value && best.value != job.own && !old(taken)[best.value]
                && forall c :: 1 <= c < |taken| && c != job.own && !old(taken)[c] ==>
                     job.blocks[c] <= job.blocks[best.value] &&
                     (c < best.value ==> job.blocks[c] < job.blocks[best.value])
    {
      ClaimIsBest(job, taken);
      best := None;
      for c := 0 to |taken|
        invariant best == ClaimTo(job, taken, c) && taken == old(taken)
      {
        if c >= 1 && !(c == job.own || taken[c]) {
          if best.None? || job.blocks[c] > job.blocks[best.value] {
            best := Some(c);
          }
        }
      }
      if best.Some? {
        taken := taken[best.value := true];
      }
    }

    // The leader's turn at column c: is it the leader's to write, and is every
    // worker done?
    method TakeColumn(c: nat) returns (mine: bool, alone: bool)
      requires Valid() && c < |taken|
      modifies this`taken
      ensures Valid() && taken == old(taken)[c := true]
      ensures mine <==> c == 0 || c == job.own || !old(taken)[c]
      ensures alone <==> forall i :: c < i < |done| && i != job.own ==> done[i]
    {
      mine := c == 0 || c == job.own || !taken[c];
      taken := taken[c := true];
      alone := true;
      for i := c + 1 to |taken|
        invariant alone <==> forall k :: c < k < i && k != job.own ==> done[k]
      {
        if i != job.own && !done[i] {
          alone := false;
        }
      }
    }
  }

  /* ---------- the protocol ---------- */

  datatype Phase = Choosing | Writing(alone: bool) | Waiting
  datatype Worker = Idle | Busy(column: nat) | Gone

  // turn is the leader's column; writers[c] lists who began to write column
  // c, 0 the leader and w + 1 worker w; in order, placed counts the columns
  // that are in the index, and replayed holds those from a worker's file.
  datatype State = State(taken: seq<bool>, done: seq<bool>, turn: nat, phase: Phase, workers: seq<Worker>,
                         writers: seq<seq<nat>>, replayed: set<nat>)

  datatype Event = Claim(w: nat) | Complete(w: nat) | Take | Place

  ghost predicate Shaped(job: Job, s: State) {
    |s.taken| == |s.done| == |s.writers| == |job.blocks| && job.own < |job.blocks| && s.turn <= |s.taken|
  }

  ghost predicate Enabled(job: Job, s: State, e: Event) {
    && Shaped(job, s)
    && match e
       case Claim(w) => w < |s.workers| && s.workers[w] == Idle
       case Complete(w) => w < |s.workers| && s.workers[w].Busy? && s.workers[w].column < |s.done|
       case Take => s.turn < |s.taken| && s.phase == Choosing
       case Place => s.turn < |s.taken| && (s.phase.Writing? || (s.phase.Waiting? && s.done[s.turn]))
  }

  ghost predicate AllDoneAfter(job: Job, s: State, c: nat)
    requires |s.done| == |job.blocks|
  {
    forall i :: c < i < |s.done| && i != job.own ==> s.done[i]
  }

  ghost function Step(job: Job, s: State, e: Event): State
    requires Enabled(job, s, e)
  {
    match e
    case Claim(w) =>
      var best := ClaimTo(job, s.taken, |s.taken|);
      if best.None? then s.(workers := s.workers[w := Gone])
      else s.(taken := s.taken[best.value := true], workers := s.workers[w := Busy(best.value)],
              writers := s.writers[best.value := s.writers[best.value] + [w + 1]])
    case Complete(w) =>
      s.(done := s.done[s.workers[w].column := true], workers := s.workers[w := Idle])
    case Take =>
      var mine := s.turn == 0 || s.turn == job.own || !s.taken[s.turn];
      if mine then
        s.(taken := s.taken[s.turn := true], phase := Writing(AllDoneAfter(job, s, s.turn)),
           writers := s.writers[s.turn := s.writers[s.turn] + [0]])
      else s.(taken := s.taken[s.turn := true], phase := Waiting)
    case Place =>
      s.(turn := s.turn + 1, phase := Choosing,
         replayed := if s.phase.Waiting? then s.replayed + {s.turn} else s.replayed)
  }

  // A worker's turn: it goes when no column is left for it, and else begins the
  // largest left, which is then taken; the flags of the others stay.
  lemma ClaimStep(job: Job, s: State, w: nat)
    requires Enabled(job, s, Claim(w))
    ensures var n := Step(job, s, Claim(w));
            && (n.workers[w] == Gone <==> forall c :: 1 <= c < |s.taken| && c != job.own ==> s.taken[c])
            && (n.workers[w] == Gone ==> n == s.(workers := s.workers[w := Gone]))
            && (n.workers[w] != Gone ==>
                  && n.workers[w].Busy?
                  && var b := n.workers[w].column;
                     && 1 <= b < |s.taken| && b != job.own && !s.taken[b] && n.taken == s.taken[b := true]
                     && n.writers == s.writers[b := s.writers[b] + [w + 1]] && n.done == s.done
                     && forall c :: 1 <= c < |s.taken| && c != job.own && !s.taken[c] ==>
                          job.blocks[c] <= job.blocks[b] && (c < b ==> job.blocks[c] < job.blocks[b]))
  {
    ClaimIsBest(job, s.taken);
    hide ClaimTo;
  }

  ghost predicate Initial(job: Job, s: State) {
    && Shaped(job, s) && s.turn == 0 && s.phase == Choosing && s.replayed == {}
    && (forall c :: 0 <= c < |s.taken| ==> !s.taken[c] && !s.done[c] && s.writers[c] == [])
    && forall w :: 0 <= w < |s.workers| ==> s.workers[w] == Idle
  }

  // A column and whoever began to write it.
  ghost predicate ColumnOk(job: Job, s: State, c: nat)
    requires Shaped(job, s) && c < |s.taken|
  {
    && |s.writers[c]| <= 1 && (s.taken[c] <==> s.writers[c] != [])
    && (s.writers[c] != [] ==> s.writers[c][0] <= |s.workers|)
    // a worker's: not the leader's own, and being written or done
    && (s.writers[c] != [] && s.writers[c][0] > 0 ==>
          c > 0 && c != job.own && (s.done[c] || s.workers[s.writers[c][0] - 1] == Busy(c)))
    && (s.done[c] ==> s.writers[c] != [] && s.writers[c][0] > 0)
    // the leader's place: before it all is in, after it the leader has nothing
    && (c < s.turn ==> s.taken[c] && (c in s.replayed <==> s.writers[c][0] > 0) && (c in s.replayed ==> s.done[c]))
    && (c >= s.turn ==> c !in s.replayed)
    && (c > s.turn || (c == s.turn && !s.phase.Writing?) ==> s.writers[c] == [] || s.writers[c][0] > 0)
    && (c == s.turn && s.phase.Writing? ==> s.writers[c] == [0])
    && (c == s.turn && s.phase.Waiting? ==> s.taken[c])
  }

  ghost predicate WorkerOk(job: Job, s: State, w: nat)
    requires Shaped(job, s) && w < |s.workers|
  {
    s.workers[w].Busy? ==>
      var c := s.workers[w].column; c < |s.taken| && s.writers[c] == [w + 1] && !s.done[c]
  }

  // While the leader writes alone no worker writes, and none can begin to.
  ghost predicate AloneOk(job: Job, s: State)
    requires Shaped(job, s)
  {
    s.phase.Writing? && s.phase.alone && s.turn < |s.taken| ==>
      && (forall w :: 0 <= w < |s.workers| ==> !s.workers[w].Busy?)
      && (forall c :: 0 <= c < |s.taken| ==> !Claimable(job, s.taken, c))
  }

  ghost predicate Inv(job: Job, s: State) {
    && Shaped(job, s) && AloneOk(job, s) && (s.turn == |s.taken| ==> s.phase.Choosing?)
    && (forall c :: 0 <= c < |s.taken| ==> ColumnOk(job, s, c))
    && (forall w :: 0 <= w < |s.workers| ==> WorkerOk(job, s, w))
  }

  lemma InitialInv(job: Job, s: State)
    requires Initial(job, s)
    ensures Inv(job, s)
  {
  }

  lemma ClaimKeeps(job: Job, s: State, w: nat)
    requires Inv(job, s) && Enabled(job, s, Claim(w))
    ensures Inv(job, Step(job, s, Claim(w)))
  {
    var t := Step(job, s, Claim(w));
    var best := ClaimTo(job, s.taken, |s.taken|);
    forall c | 0 <= c < |t.taken|
      ensures ColumnOk(job, t, c)
    {
      assert ColumnOk(job, s, c);
    }
    forall v | 0 <= v < |t.workers|
      ensures WorkerOk(job, t, v)
    {
      assert WorkerOk(job, s, v);
      if best.Some? {
        assert ColumnOk(job, s, best.value);
      }
    }
  }

  lemma CompleteKeeps(job: Job, s: State, w: nat)
    requires Inv(job, s) && Enabled(job, s, Complete(w))
    ensures Inv(job, Step(job, s, Complete(w)))
  {
    var t := Step(job, s, Complete(w));
    assert WorkerOk(job, s, w);
    forall c | 0 <= c < |t.taken|
      ensures ColumnOk(job, t, c)
    {
      assert ColumnOk(job, s, c);
    }
    forall v | 0 <= v < |t.workers|
      ensures WorkerOk(job, t, v)
    {
      assert WorkerOk(job, s, v);
    }
  }

  lemma BusyIsAhead(job: Job, s: State, w: nat)
    requires Inv(job, s) && w < |s.workers|
    ensures s.workers[w].Busy? ==>
              var c := s.workers[w].column;
              s.turn <= c < |s.taken| && c > 0 && c != job.own && s.taken[c] && !s.done[c]
  {
    assert WorkerOk(job, s, w);
    if s.workers[w].Busy? {
      assert ColumnOk(job, s, s.workers[w].column);
    }
  }

  lemma TakeKeeps(job: Job, s: State)
    requires Inv(job, s) && Enabled(job, s, Take)
    ensures Inv(job, Step(job, s, Take))
  {
    var t := Step(job, s, Take);
    assert ColumnOk(job, s, s.turn);
    forall c | 0 <= c < |t.taken|
      ensures ColumnOk(job, t, c)
    {
      assert ColumnOk(job, s, c);
    }
    forall v | 0 <= v < |t.workers|
      ensures WorkerOk(job, t, v)
    {
      assert WorkerOk(job, s, v);
    }
    if t.phase.Writing? && t.phase.alone {
      forall v | 0 <= v < |t.workers|
        ensures !t.workers[v].Busy?
      {
        BusyIsAhead(job, s, v);
      }
      forall c | 0 <= c < |t.taken|
        ensures !Claimable(job, t.taken, c)
      {
        assert ColumnOk(job, s, c);
      }
    }
  }

  lemma PlaceKeeps(job: Job, s: State)
    requires Inv(job, s) && Enabled(job, s, Place)
    ensures Inv(job, Step(job, s, Place))
  {
    var t := Step(job, s, Place);
    forall c | 0 <= c < |t.taken|
      ensures ColumnOk(job, t, c)
    {
      assert ColumnOk(job, s, c);
    }
    forall v | 0 <= v < |t.workers|
      ensures WorkerOk(job, t, v)
    {
      assert WorkerOk(job, s, v);
    }
  }

  lemma StepKeeps(job: Job, s: State, e: Event)
    requires Inv(job, s) && Enabled(job, s, e)
    ensures Inv(job, Step(job, s, e))
  {
    match e {
      case Claim(w) => ClaimKeeps(job, s, w);
      case Complete(w) => CompleteKeeps(job, s, w);
      case Take => TakeKeeps(job, s);
      case Place => PlaceKeeps(job, s);
    }
  }

  /* ---------- runs ---------- */

  // Every interleaving: any enabled step after any other.
  ghost predicate IsRun(job: Job, states: seq<State>, events: seq<Event>) {
    && |states| == |events| + 1 && Initial(job, states[0])
    && forall i :: 0 <= i < |events| ==> Follows(job, states, events, i)
  }

  ghost predicate Follows(job: Job, states: seq<State>, events: seq<Event>, i: nat)
    requires i < |events| && i + 1 < |states|
  {
    Enabled(job, states[i], events[i]) && states[i + 1] == Step(job, states[i], events[i])
  }

  lemma {:induction false} RunKeeps(job: Job, states: seq<State>, events: seq<Event>, i: nat)
    requires IsRun(job, states, events) && i < |states|
    ensures Inv(job, states[i])
  {
    if i == 0 {
      InitialInv(job, states[0]);
    } else {
      RunKeeps(job, states, events, i - 1);
      assert Follows(job, states, events, i - 1);
      StepKeeps(job, states[i - 1], events[i - 1]);
    }
  }

  // Over every run: no column is written by two, a worker writes neither the
  // first nor the leader's own, the leader replays only what is done, and
  // alone it is.
  lemma ColumnsAreSafe(job: Job, states: seq<State>, events: seq<Event>, i: nat, c: nat)
    requires IsRun(job, states, events) && i < |states| && c < |job.blocks|
    ensures var s := states[i];
            && Shaped(job, s) && |s.writers[c]| <= 1
            && (c == 0 || c == job.own ==> s.writers[c] == [] || s.writers[c] == [0])
            && (c in s.replayed ==> s.done[c] && s.writers[c] != [] && s.writers[c][0] > 0)
            && (s.done[c] ==> forall w :: 0 <= w < |s.workers| ==> s.workers[w] != Busy(c))
            && (s.phase.Writing? && s.phase.alone && s.turn < |s.taken| ==>
                  (forall w :: 0 <= w < |s.workers| ==> !s.workers[w].Busy?) && !Claimable(job, s.taken, c))
  {
    RunKeeps(job, states, events, i);
    var s := states[i];
    assert ColumnOk(job, s, c);
    forall w | 0 <= w < |s.workers|
      ensures s.done[c] ==> s.workers[w] != Busy(c)
    {
      assert WorkerOk(job, s, w);
    }
  }

  // At the end every column has one writer, and is in the index.
  lemma AllWritten(job: Job, states: seq<State>, events: seq<Event>, i: nat, c: nat)
    requires IsRun(job, states, events) && i < |states| && c < |job.blocks| && states[i].turn == |job.blocks|
    ensures var s := states[i];
            Shaped(job, s) && |s.writers[c]| == 1 && (c in s.replayed <==> s.writers[c][0] > 0)
  {
    RunKeeps(job, states, events, i);
    assert ColumnOk(job, states[i], c);
  }

  // Nobody waits for ever: until the last column is in, some step can be made,
  // a waiting leader's worker among them.
  lemma SomeStep(job: Job, s: State) returns (e: Event)
    requires Inv(job, s) && s.turn < |job.blocks|
    ensures Enabled(job, s, e)
  {
    assert ColumnOk(job, s, s.turn);
    if s.phase.Choosing? {
      e := Take;
    } else if s.phase.Writing? || s.done[s.turn] {
      e := Place;
    } else {
      e := Complete(s.writers[s.turn][0] - 1);
    }
  }

  /* ---------- every run ends ---------- */

  ghost function Untaken(taken: seq<bool>, n: nat): nat
    requires n <= |taken|
  {
    if n == 0 then 0 else Untaken(taken, n - 1) + if taken[n - 1] then 0 else 1
  }

  function Ahead(w: Worker): nat { match w case Idle => 1 case Busy(_) => 2 case Gone => 0 }

  ghost function AllAhead(workers: seq<Worker>, n: nat): nat
    requires n <= |workers|
  {
    if n == 0 then 0 else AllAhead(workers, n - 1) + Ahead(workers[n - 1])
  }

  ghost function Left(s: State): int {
    2 * Untaken(s.taken, |s.taken|) + AllAhead(s.workers, |s.workers|) +
    2 * (|s.taken| - s.turn) - if s.phase.Choosing? then 0 else 1
  }

  lemma {:induction false} UntakenAfter(taken: seq<bool>, c: nat, n: nat)
    requires n <= |taken| && c < |taken|
    ensures Untaken(taken[c := true], n) == Untaken(taken, n) - if c < n && !taken[c] then 1 else 0
  {
    if n > 0 {
      UntakenAfter(taken, c, n - 1);
    }
  }

  lemma {:induction false} AheadAfter(workers: seq<Worker>, w: nat, x: Worker, n: nat)
    requires n <= |workers| && w < |workers|
    ensures AllAhead(workers[w := x], n) == AllAhead(workers, n) + if w < n then Ahead(x) - Ahead(workers[w]) else 0
  {
    if n > 0 {
      AheadAfter(workers, w, x, n - 1);
    }
  }

  // Each step leaves less to do.
  lemma StepsCountDown(job: Job, s: State, e: Event)
    requires Inv(job, s) && Enabled(job, s, e)
    ensures Left(Step(job, s, e)) < Left(s)
  {
    match e {
      case Claim(w) =>
        var best := ClaimTo(job, s.taken, |s.taken|);
        AheadAfter(s.workers, w, if best.None? then Gone else Busy(best.value), |s.workers|);
        if best.Some? {
          UntakenAfter(s.taken, best.value, |s.taken|);
        }
      case Complete(w) =>
        AheadAfter(s.workers, w, Idle, |s.workers|);
      case Take =>
        UntakenAfter(s.taken, s.turn, |s.taken|);
      case Place =>
    }
  }

  lemma {:induction false} RunIsBounded(job: Job, states: seq<State>, events: seq<Event>, i: nat)
    requires IsRun(job, states, events) && i < |states|
    ensures i + Left(states[i]) <= Left(states[0])
  {
    if i > 0 {
      RunIsBounded(job, states, events, i - 1);
      RunKeeps(job, states, events, i - 1);
      assert Follows(job, states, events, i - 1);
      StepsCountDown(job, states[i - 1], events[i - 1]);
    }
  }

  // A run is finite: no longer than what there was to do.
  lemma RunsEnd(job: Job, states: seq<State>, events: seq<Event>)
    requires IsRun(job, states, events)
    ensures |events| <= 4 * |job.blocks| + |states[0].workers|
  {
    RunIsBounded(job, states, events, |events|);
    AtFirst(states[0].taken, |states[0].taken|);
    AllIdle(states[0].workers, |states[0].workers|);
    RunKeeps(job, states, events, |events|);
    LeftIsNatural(job, states[|events|]);
  }

  lemma LeftIsNatural(job: Job, s: State)
    requires Inv(job, s)
    ensures Left(s) >= 0
  {
  }

  lemma {:induction false} AtFirst(taken: seq<bool>, n: nat)
    requires n <= |taken|
    ensures Untaken(taken, n) <= n
  {
    if n > 0 {
      AtFirst(taken, n - 1);
    }
  }

  lemma {:induction false} AllIdle(workers: seq<Worker>, n: nat)
    requires n <= |workers| && forall w :: 0 <= w < |workers| ==> workers[w] == Idle
    ensures AllAhead(workers, n) == n
  {
    if n > 0 {
      AllIdle(workers, n - 1);
    }
  }
}
