// The dining philosophers with trylock and back-off (SYSOP/src/threads/main.c): a machine of n
// philosopher threads and the main thread, in which any enabled thread may take the next step.
module Philosophers {

  // Where a philosopher stands in Testar and Verificar.
  datatype Pc =
    | Absent      // the thread is not created yet
    | Waiting     // at sem_wait
    | Guard       // at the test of fim
    | TryOwn      // about to try its own fork
    | TryRight    // holds its own fork, about to try the right one
    | Release     // the right fork is taken, about to put its own back
    | Backoff     // about to count the attempt
    | Eating      // holds both forks
    | PutOwn      // has eaten, about to put its own fork back
    | PutRight    // about to put the right fork back
    | Thinking    // about to count the thinking
    | Ended

  // A philosopher with its report.
  datatype Philosopher = Philosopher(pc: Pc, comeu: nat, pensou: nat, tentou: nat)

  datatype Fork = Free | Held(holder: nat)

  // Where the main thread stands.
  datatype Main =
    | Create(i: nat)    // about to create thread i
    | Fill(i: nat)      // thread i exists, its record is about to be filled in
    | Post(i: nat)      // about to post the semaphore
    | Sleep             // the dinner
    | Join(i: nat)
    | Destroy(i: nat)   // about to destroy the mutex of fork i
    | Finished

  // filled: how many records, and with them forks, have been set up.
  datatype State = State(main: Main, fim: bool, liberador: nat, filled: nat, destroyed: nat,
                         forks: seq<Fork>, phils: seq<Philosopher>)

  // The right neighbour, (p + 1) mod n.
  function Right(n: nat, p: nat): nat {
    if p + 1 == n then 0 else p + 1
  }

  function Left(n: nat, p: nat): nat
    requires p < n
  {
    if p == 0 then n - 1 else p - 1
  }

  lemma RightIsModulo(n: nat, p: nat)
    requires p < n
    ensures Right(n, p) == (p + 1) % n < n
  {
    if p + 1 < n {
      assert (p + 1) % n == p + 1;
    }
  }

  // Before anything happens; the records are fresh memory, with anything in their counters.
  predicate Initial(n: nat, s: State) {
    && s.main == Create(0) && s.fim && s.liberador == 0 && s.filled == 0 && s.destroyed == 0
    && s.forks == seq(n, _ => Free)
    && |s.phils| == n && forall p :: 0 <= p < n ==> s.phils[p].pc.Absent?
  }

  // ---------- the steps ----------

  datatype Thread = MainThread | Phil(p: nat)

  predicate Sized(n: nat, s: State) {
    |s.forks| == |s.phils| == n
  }

  predicate Enabled(n: nat, s: State, t: Thread)
    requires Sized(n, s)
  {
    match t
    case MainThread => (match s.main
      case Join(i) => i < n ==> s.phils[i].pc.Ended?
      case Finished => false
      case Create(i) => i < n
      case Fill(i) => i < n
      case Destroy(i) => i <= n
      case _ => true)
    case Phil(p) => p < n && (match s.phils[p].pc
      case Absent => false
      case Waiting => s.liberador > 0
      case Ended => false
      case _ => true)
  }

  function Apply(n: nat, s: State, t: Thread): (r: State)
    requires Sized(n, s) && Enabled(n, s, t)
    ensures Sized(n, r)
  {
    match t
    case MainThread => MainStep(n, s)
    case Phil(p) => PhilStep(n, s, p)
  }

  function MainStep(n: nat, s: State): (r: State)
    requires Sized(n, s) && Enabled(n, s, MainThread)
    ensures Sized(n, r)
  {
    match s.main
    case Create(i) => s.(main := Fill(i), phils := s.phils[i := s.phils[i].(pc := Waiting)])
    case Fill(i) =>
      s.(main := if i + 1 < n then Create(i + 1) else Post(0), filled := s.filled + 1,
         phils := s.phils[i := s.phils[i].(comeu := 0, pensou := 0, tentou := 0)])
    case Post(i) => if i < n then s.(main := Post(i + 1), liberador := s.liberador + 1) else s.(main := Sleep)
    case Sleep => s.(main := Join(0), fim := false)
    case Join(i) => if i < n then s.(main := Join(i + 1)) else s.(main := Destroy(0))
    case Destroy(i) => if i < n then s.(main := Destroy(i + 1), destroyed := s.destroyed + 1) else s.(main := Finished)
  }

  // Philosopher p goes to pc; the forks become forks.
  function Move(s: State, p: nat, w: Philosopher, forks: seq<Fork>): State
    requires p < |s.phils|
  {
    s.(phils := s.phils[p := w], forks := forks)
  }

  function PhilStep(n: nat, s: State, p: nat): (r: State)
    requires Sized(n, s) && Enabled(n, s, Phil(p))
    ensures Sized(n, r)
  {
    var w, right := s.phils[p], Right(n, p);
    match w.pc
    case Waiting => Move(s, p, w.(pc := Guard), s.forks).(liberador := s.liberador - 1)
    case Guard => Move(s, p, w.(pc := if s.fim then TryOwn else Ended), s.forks)
    case TryOwn =>
      if s.forks[p].Free? then Move(s, p, w.(pc := TryRight), s.forks[p := Held(p)])
      else Move(s, p, w.(pc := Backoff), s.forks)
    case TryRight =>
      if s.forks[right].Free? then Move(s, p, w.(pc := Eating), s.forks[right := Held(p)])
      else Move(s, p, w.(pc := Release), s.forks)
    case Release => Move(s, p, w.(pc := Backoff), s.forks[p := Free])
    case Backoff => Move(s, p, w.(pc := Guard, tentou := w.tentou + 1), s.forks)
    case Eating => Move(s, p, w.(pc := PutOwn, comeu := w.comeu + 1), s.forks)
    case PutOwn => Move(s, p, w.(pc := PutRight), s.forks[p := Free])
    case PutRight => Move(s, p, w.(pc := Thinking), s.forks[right := Free])
    case Thinking => Move(s, p, w.(pc := Guard, pensou := w.pensou + 1), s.forks)
    case _ => s
  }

  // ---------- the invariant ----------

  // The program point says which forks a philosopher holds.
  predicate HoldsOwn(pc: Pc) {
    pc.TryRight? || pc.Release? || pc.Eating? || pc.PutOwn?
  }

  predicate HoldsRight(pc: Pc) {
    pc.Eating? || pc.PutOwn? || pc.PutRight?
  }

  // Both forks are in its hands.
  predicate Eats(pc: Pc) {
    pc.Eating? || pc.PutOwn?
  }

  // Eaten, not yet thought about it.
  predicate Owes(pc: Pc) {
    pc.PutOwn? || pc.PutRight? || pc.Thinking?
  }

  predicate AtTable(pc: Pc) {
    !pc.Absent? && !pc.Waiting?
  }

  // Philosopher p holds fork f.
  predicate Holds(n: nat, s: State, p: nat, f: nat)
    requires Sized(n, s) && p < n
  {
    (f == p && HoldsOwn(s.phils[p].pc)) || (f == Right(n, p) && HoldsRight(s.phils[p].pc))
  }

  // A fork seen from the two philosophers that reach it: free when neither holds it, and otherwise
  // in the hands of exactly one.
  predicate ForkInv(n: nat, s: State, f: nat)
    requires Sized(n, s) && f < n
  {
    var own, other := HoldsOwn(s.phils[f].pc), HoldsRight(s.phils[Left(n, f)].pc);
    match s.forks[f]
    case Free => !own && !other
    case Held(h) => (h == f && own && !other) || (h == Left(n, f) && other && !own)
  }

  // A weight on program points, summed over all philosophers.
  function Total(ws: seq<Philosopher>, weight: Pc -> nat): nat {
    if ws == [] then 0 else Total(ws[..|ws| - 1], weight) + weight(ws[|ws| - 1].pc)
  }

  // How many philosophers have passed the semaphore.
  function Passed(ws: seq<Philosopher>): nat {
    Total(ws, PassedOne)
  }

  function PassedOne(pc: Pc): nat {
    if AtTable(pc) then 1 else 0
  }

  function Posted(n: nat, m: Main): nat {
    match m
    case Create(_) => 0
    case Fill(_) => 0
    case Post(i) => i
    case _ => n
  }

  function Created(n: nat, m: Main): nat {
    match m
    case Create(i) => i
    case Fill(i) => i + 1
    case _ => n
  }

  ghost predicate MainInv(n: nat, s: State)
    requires Sized(n, s)
  {
    && (match s.main
        case Create(i) => i < n && s.filled == i
        case Fill(i) => i < n && s.filled == i
        case Post(i) => i <= n && s.filled == n
        case Join(i) => i <= n && s.filled == n && forall p :: 0 <= p < i ==> s.phils[p].pc.Ended?
        case Destroy(i) => i <= n && s.filled == n && forall p :: 0 <= p < n ==> s.phils[p].pc.Ended?
        case _ => s.filled == n)
    && (s.fim <==> s.main.Create? || s.main.Fill? || s.main.Post? || s.main.Sleep?)
    && s.destroyed == (match s.main case Destroy(i) => i case Finished => n case _ => 0)
    && (s.main.Finished? ==> forall p :: 0 <= p < n ==> s.phils[p].pc.Ended?)
    && Passed(s.phils) + s.liberador == Posted(n, s.main)
    && (forall p :: 0 <= p < n ==> (s.phils[p].pc.Absent? <==> p >= Created(n, s.main)))
  }

  ghost predicate PhilInv(s: State, p: nat)
    requires p < |s.phils|
  {
    var w := s.phils[p];
    && (p < s.filled ==> w.comeu == w.pensou + (if Owes(w.pc) then 1 else 0))
    && (w.pc.Ended? ==> !s.fim)
  }

  ghost predicate Inv(n: nat, s: State) {
    && n >= 1 && Sized(n, s)
    && MainInv(n, s)
    && (forall p :: 0 <= p < n ==> PhilInv(s, p))
    && (forall f :: 0 <= f < n ==> ForkInv(n, s, f))
  }
}
