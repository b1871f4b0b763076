/** `call_once`: any number of threads, any interleaving of their atomic operations on the control word.
    A thread is one call. The wait loop is driven by the transition table; a thread parks only on a value
    that has no row, and only if the word still holds that value when it goes to sleep. */
module CallOnce {
  import opened Wrappers

  datatype Word = Init | Running | Waiter | Done

  datatype Transition = Transition(to: Word, done: bool)

  /** The table the wait loop executes. */
  function RowFor(seen: Word): Option<Transition> {
    match seen
    case Init => Some(Transition(Running, true))
    case Running => Some(Transition(Waiter, false))
    case Done => Some(Transition(Done, true))
    case Waiter => None
  }

  /** What a thread does next.
      Fast: the first load. Claim: the first compare-exchange. Look: the load of the wait loop.
      Saw(v): act on the loaded `v`. Calling: inside the callable. Publish: the exchange.
      Waking: wake everybody. */
  datatype Pc = Fast | Claim | Look | Saw(v: Word) | Parked | Calling | Publish | Waking | Returned

  /** `callers` lists the threads that entered the callable, `completions` counts its completions. */
  datatype State = State(word: Word, threads: seq<Pc>, callers: seq<nat>, completions: nat)

  datatype Action = Move(i: nat) | Spurious(i: nat)

  function At(s: State, i: nat, pc: Pc): State
    requires i < |s.threads|
  {
    s.(threads := s.threads[i := pc])
  }

  function Enter(s: State, i: nat): State
    requires i < |s.threads|
  {
    State(Running, s.threads[i := Calling], s.callers + [i], s.completions)
  }

  function AfterWake(pc: Pc): Pc {
    if pc.Parked? then Look else pc
  }

  function WakeAll(threads: seq<Pc>): seq<Pc> {
    seq(|threads|, j requires 0 <= j < |threads| => AfterWake(threads[j]))
  }

  predicate CanMove(s: State, i: nat) {
    i < |s.threads| && !s.threads[i].Parked? && !s.threads[i].Returned?
  }

  predicate Enabled(s: State, a: Action) {
    match a
    case Move(i) => CanMove(s, i)
    case Spurious(i) => i < |s.threads| && s.threads[i].Parked?
  }

  /** One turn of the wait loop's body, with `v` loaded before. */
  function ActOn(s: State, i: nat, v: Word): State
    requires i < |s.threads|
  {
    match RowFor(v)
    case None => if s.word == v then At(s, i, Parked) else At(s, i, Look)
    case Some(t) =>
      if t.to != v && s.word != v then At(s, i, Look)
      else if !t.done then At(s, i, Look).(word := t.to)
      else if v == Init then Enter(s, i)
      else At(s, i, Returned)
  }

  function Next(s: State, a: Action): State
    requires Enabled(s, a)
  {
    match a
    case Spurious(i) => At(s, i, Look)
    case Move(i) =>
      match s.threads[i]
      case Fast => At(s, i, if s.word == Done then Returned else Claim)
      case Claim => if s.word == Init then Enter(s, i) else At(s, i, Look)
      case Look => At(s, i, Saw(s.word))
      case Saw(v) => ActOn(s, i, v)
      case Calling => At(s, i, Publish).(completions := s.completions + 1)
      case Publish => At(s, i, if s.word == Waiter then Waking else Returned).(word := Done)
      case Waking => s.(threads := WakeAll(s.threads)[i := Returned])
  }

  function Begin(n: nat): State {
    State(Init, seq(n, _ => Fast), [], 0)
  }

  predicate ValidRun(s: State, run: seq<Action>)
    decreases |run|, 0
  {
    run == [] || (ValidRun(s, run[..|run| - 1]) && Enabled(Run(s, run[..|run| - 1]), run[|run| - 1]))
  }

  function Run(s: State, run: seq<Action>): (r: State)
    requires ValidRun(s, run)
    ensures |r.threads| == |s.threads|
    decreases |run|, 1
  {
    if run == [] then s else Next(Run(s, run[..|run| - 1]), run[|run| - 1])
  }

  // ---- Safety ----

  function Age(w: Word): nat {
    match w case Init => 0 case Running => 1 case Waiter => 2 case Done => 3
  }

  predicate Owning(pc: Pc) {
    pc.Calling? || pc.Publish? || pc.Waking?
  }

  /** What the control word says about thread `i`. */
  predicate Sensible(s: State, i: nat)
    requires i < |s.threads|
  {
    var pc := s.threads[i];
    && (Owning(pc) ==> s.callers == [i])
    && (pc.Saw? ==> Age(pc.v) <= Age(s.word))
    && (pc.Returned? ==> s.word == Done)
    && (pc.Parked? ==>
          || s.word == Waiter
          || (s.word == Done && |s.callers| == 1 && s.callers[0] < |s.threads| && s.threads[s.callers[0]].Waking?))
  }

  predicate Owner(s: State) {
    if s.word == Init then s.callers == [] && s.completions == 0
    else
      && |s.callers| == 1 && s.callers[0] < |s.threads|
      && var pc := s.threads[s.callers[0]];
         && s.completions == (if pc.Calling? then 0 else 1)
         && if s.word == Done then pc.Waking? || pc.Returned? else pc.Calling? || pc.Publish?
  }

  predicate Inv(s: State) {
    Owner(s) && forall i | 0 <= i < |s.threads| :: Sensible(s, i)
  }

  lemma {:induction false} ActKeepsInv(s: State, i: nat)
    requires Inv(s) && i < |s.threads| && s.threads[i].Saw?
    ensures var s' := ActOn(s, i, s.threads[i].v);
            Inv(s') && |s'.threads| == |s.threads|
  {
    var s' := ActOn(s, i, s.threads[i].v);
    assert Sensible(s, i);
    forall j | 0 <= j < |s'.threads| ensures Sensible(s', j) { assert Sensible(s, j); }
  }

  lemma {:induction false} NextKeepsInv(s: State, a: Action)
    requires Inv(s) && Enabled(s, a)
    ensures Inv(Next(s, a)) && |Next(s, a).threads| == |s.threads|
  {
    var s', i := Next(s, a), a.i;
    if s.threads[i].Saw? {
      ActKeepsInv(s, i);
    } else {
      assert Sensible(s, i);
      forall j | 0 <= j < |s'.threads| ensures Sensible(s', j) { assert Sensible(s, j); }
    }
  }

  lemma {:induction false} RunKeepsInv(n: nat, run: seq<Action>)
    requires ValidRun(Begin(n), run)
    ensures Inv(Run(Begin(n), run)) && |Run(Begin(n), run).threads| == n
    decreases |run|
  {
    if run != [] {
      RunKeepsInv(n, run[..|run| - 1]);
      NextKeepsInv(Run(Begin(n), run[..|run| - 1]), run[|run| - 1]);
    }
  }

  /** At most one thread ever enters the callable, no call returns before it has completed, and it
      completes once. */
  lemma {:induction false} CalledOnceBeforeAnyReturn(n: nat, run: seq<Action>)
    requires ValidRun(Begin(n), run)
    ensures var s := Run(Begin(n), run);
            && |s.callers| <= 1 && s.completions <= |s.callers|
            && forall i | 0 <= i < n && s.threads[i].Returned? ::
                 s.word == Done && |s.callers| == 1 && s.completions == 1
  {
    RunKeepsInv(n, run);
    var s := Run(Begin(n), run);
    forall i | 0 <= i < n ensures s.threads[i].Returned? ==> s.word == Done { assert Sensible(s, i); }
  }

  /** No wakeup is lost: a thread sleeps only while the word says somebody waits, or a wake-all is due. */
  lemma {:induction false} NoLostWakeup(n: nat, run: seq<Action>, i: nat)
    requires ValidRun(Begin(n), run) && i < n && Run(Begin(n), run).threads[i].Parked?
    ensures var s := Run(Begin(n), run);
            && |s.callers| == 1 && CanMove(s, s.callers[0])
            && (s.word == Waiter || s.threads[s.callers[0]].Waking?)
  {
    RunKeepsInv(n, run);
    assert Sensible(Run(Begin(n), run), i);
  }

  // ---- Progress: a bound on the length of every run ----

  /** Steps thread `pc` may still take while the word stays `w`; the last two count the sleepers they wake. */
  function Left(pc: Pc, w: Word, n: nat): nat {
    match pc
    case Fast => 4
    case Claim => 3
    case Look => 2
    case Saw(v) => if v == w then 1 else 3
    case Parked => 0
    case Calling => 2 * n + 3
    case Publish => 2 * n + 2
    case Waking => 2 * n + 1
    case Returned => 0
  }

  function LeftOf(threads: seq<Pc>, w: Word, k: nat): nat
    requires k <= |threads|
  {
    if k == 0 then 0 else LeftOf(threads, w, k - 1) + Left(threads[k - 1], w, |threads|)
  }

  function Reserve(w: Word, n: nat): nat {
    match w
    case Init => 3 * (4 * n + 4)
    case Running => 2 * (4 * n + 4)
    case Waiter => 4 * n + 4
    case Done => 0
  }

  function Potential(s: State): nat {
    Reserve(s.word, |s.threads|) + LeftOf(s.threads, s.word, |s.threads|)
  }

  lemma {:induction false} LeftOneChanged(threads: seq<Pc>, w: Word, i: nat, pc: Pc, k: nat)
    requires k <= |threads| && i < |threads|
    ensures LeftOf(threads[i := pc], w, k) + (if i < k then Left(threads[i], w, |threads|) else 0)
            == LeftOf(threads, w, k) + (if i < k then Left(pc, w, |threads|) else 0)
  {
    if k > 0 { LeftOneChanged(threads, w, i, pc, k - 1); }
  }

  lemma {:induction false} LeftAtOtherWord(threads: seq<Pc>, w: Word, w': Word, k: nat)
    requires k <= |threads|
    ensures LeftOf(threads, w', k) <= LeftOf(threads, w, k) + 2 * k
  {
    if k > 0 { LeftAtOtherWord(threads, w, w', k - 1); }
  }

  lemma {:induction false} LeftAfterWake(threads: seq<Pc>, w: Word, k: nat)
    requires k <= |threads|
    ensures LeftOf(WakeAll(threads), w, k) <= LeftOf(threads, w, k) + 2 * k
  {
    if k > 0 { LeftAfterWake(threads, w, k - 1); }
  }

  lemma {:induction false} WakePays(s: State, i: nat)
    requires i < |s.threads| && s.threads[i].Waking? && Enabled(s, Move(i))
    ensures Potential(Next(s, Move(i))) <= Potential(s) - 1
  {
    var n := |s.threads|;
    LeftAfterWake(s.threads, s.word, n);
    LeftOneChanged(WakeAll(s.threads), s.word, i, Returned, n);
  }

  /** Only thread `i` moves, and what it and a new word leave to be done is less; a new word also means up to two
      more steps for every thread that has loaded the old one. */
  ghost predicate Pays(s: State, s': State, i: nat)
    requires i < |s.threads|
  {
    && |s'.threads| == |s.threads| && s'.threads == s.threads[i := s'.threads[i]]
    && var n := |s.threads|;
       Reserve(s'.word, n) + Left(s'.threads[i], s.word, n) + (if s'.word == s.word then 0 else 2 * n)
       < Reserve(s.word, n) + Left(s.threads[i], s.word, n)
  }

  lemma {:induction false} SawPays(s: State, i: nat)
    requires Inv(s) && i < |s.threads| && s.threads[i].Saw?
    ensures Pays(s, ActOn(s, i, s.threads[i].v), i)
  {
    assert Sensible(s, i);
  }

  lemma {:induction false} MovePays(s: State, i: nat)
    requires Inv(s) && CanMove(s, i) && !s.threads[i].Waking?
    ensures Pays(s, Next(s, Move(i)), i)
  {
    assert Sensible(s, i);
    if s.threads[i].Saw? { SawPays(s, i); }
  }

  lemma {:induction false} NextPays(s: State, a: Action)
    requires Inv(s) && Enabled(s, a)
    ensures Potential(Next(s, a)) <= if a.Move? then Potential(s) - 1 else Potential(s) + 2
  {
    var s', i, n := Next(s, a), a.i, |s.threads|;
    if a.Move? && s.threads[i].Waking? {
      WakePays(s, i);
    } else {
      LeftOneChanged(s.threads, s.word, i, s'.threads[i], n);
      if a.Move? {
        MovePays(s, i);
        if s'.word != s.word { LeftAtOtherWord(s'.threads, s.word, s'.word, n); }
      }
    }
  }

  function Count(run: seq<Action>, spurious: bool): nat {
    if run == [] then 0
    else Count(run[..|run| - 1], spurious) + if run[|run| - 1].Spurious? == spurious then 1 else 0
  }

  lemma {:induction false} BeginPotential(n: nat, k: nat)
    requires k <= n
    ensures LeftOf(Begin(n).threads, Init, k) == 4 * k
  {
    if k > 0 { BeginPotential(n, k - 1); }
  }

  lemma {:induction false} RunPays(n: nat, run: seq<Action>)
    requires ValidRun(Begin(n), run)
    ensures Potential(Run(Begin(n), run)) + Count(run, false) <= 16 * n + 12 + 2 * Count(run, true)
    decreases |run|
  {
    if run == [] {
      BeginPotential(n, n);
    } else {
      var front := run[..|run| - 1];
      RunPays(n, front);
      RunKeepsInv(n, front);
      NextPays(Run(Begin(n), front), run[|run| - 1]);
    }
  }

  /** Whatever the scheduler does, without any fairness: `n` calls take at most 16n + 12 atomic steps, and
      two more for every wakeup out of nowhere. */
  lemma {:induction false} EveryRunIsShort(n: nat, run: seq<Action>)
    requires ValidRun(Begin(n), run)
    ensures Count(run, false) <= 16 * n + 12 + 2 * Count(run, true)
  {
    RunPays(n, run);
  }

  predicate Quiet(s: State) {
    forall i | 0 <= i < |s.threads| :: !CanMove(s, i)
  }

  /** No deadlock: when nothing can move any more every call has returned, and so, if there was a call at
      all, the callable ran exactly once. Nobody is left asleep. */
  lemma {:induction false} QuietMeansReturned(n: nat, run: seq<Action>)
    requires ValidRun(Begin(n), run)
    ensures var s := Run(Begin(n), run);
            && (Quiet(s) <==> forall i | 0 <= i < n :: s.threads[i].Returned?)
            && (Quiet(s) && n > 0 ==> s.word == Done && |s.callers| == 1 && s.completions == 1)
  {
    RunKeepsInv(n, run);
    var s := Run(Begin(n), run);
    if Quiet(s) {
      forall i | 0 <= i < n ensures s.threads[i].Returned? && s.word == Done {
        assert !CanMove(s, i) && Sensible(s, i);
        assert s.threads[i].Parked? ==> CanMove(s, s.callers[0]);
      }
      if n > 0 { assert s.threads[0].Returned?; }
    } else {
      var i :| 0 <= i < n && CanMove(s, i);
      assert !s.threads[i].Returned?;
    }
  }
}
