/** The timer of the breathing exercise: a 4..1 countdown through three phases. */
module Breathing {

  datatype Phase = Inale | Segure | Exale

  function NextPhase(p: Phase): Phase {
    match p
    case Inale => Segure
    case Segure => Exale
    case Exale => Inale
  }

  /** The component's state: the phase shown and the counter below it. */
  datatype Breath = Breath(phase: Phase, counter: int)

  /**
   * One interval tick: at 1 or below the phase advances and the counter
   * restarts at 4, otherwise the counter goes down by one.
   */
  function Tick(b: Breath): (r: Breath)
    ensures 1 <= b.counter <= 4 ==> 1 <= r.counter <= 4
    ensures r.phase != b.phase <==> b.counter <= 1
    ensures r.phase != b.phase ==> r.phase == NextPhase(b.phase) && r.counter == 4
    ensures r.phase == b.phase ==> r.counter == b.counter - 1
  {
    if b.counter <= 1 then Breath(NextPhase(b.phase), 4) else Breath(b.phase, b.counter - 1)
  }

  function Ticks(b: Breath, n: nat): Breath
    decreases n
  {
    if n == 0 then b else Ticks(Tick(b), n - 1)
  }

  lemma {:induction false} TicksAdd(b: Breath, m: nat, n: nat)
    ensures Ticks(b, m + n) == Ticks(Ticks(b, m), n)
    decreases m
  {
    if m > 0 {
      TicksAdd(Tick(b), m - 1, n);
    }
  }

  /** From a counter c in 1..4, c ticks reach the next phase with the counter back at 4. */
  lemma {:induction false} CountdownEndsPhase(b: Breath)
    requires 1 <= b.counter <= 4
    ensures Ticks(b, b.counter as nat) == Breath(NextPhase(b.phase), 4)
    decreases b.counter
  {
    if b.counter > 1 {
      CountdownEndsPhase(Tick(b));
      assert Ticks(b, b.counter as nat) == Ticks(Tick(b), b.counter as nat - 1);
    }
  }

  /** Twelve ticks from any phase with the counter at 4 come back to the same state. */
  lemma CycleOf12(p: Phase)
    ensures Ticks(Breath(p, 4), 12) == Breath(p, 4)
  {
    var b0 := Breath(p, 4);
    CountdownEndsPhase(b0);
    var b1 := Breath(NextPhase(p), 4);
    CountdownEndsPhase(b1);
    var b2 := Breath(NextPhase(NextPhase(p)), 4);
    CountdownEndsPhase(b2);
    TicksAdd(b0, 4, 8);
    TicksAdd(b1, 4, 4);
  }

  /** From any counter in 1..4, the initial one included, the counter stays in 1..4 forever. */
  lemma {:induction false} CounterStaysInRange(b: Breath, n: nat)
    requires 1 <= b.counter <= 4
    ensures 1 <= Ticks(b, n).counter <= 4
    decreases n
  {
    if n > 0 {
      CounterStaysInRange(Tick(b), n - 1);
    }
  }
}
