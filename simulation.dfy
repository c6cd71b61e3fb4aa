/**
 * The speed and pause state of the Greenfoot simulation thread
 * (greenfoot/core/Simulation.java).  The thread itself, the listener list and
 * the wall clock are outside the model; a fired speed-change event is counted.
 */
module Simulation {

  /** The highest speed; the slowest speed is 0. */
  const MaxSimulationSpeed: int := 100

  /** Milliseconds of delay per step for each unit of speed below the maximum. */
  const DelayPerSpeedStep: int := 4

  /** The requested speed forced into the range 0..MaxSimulationSpeed. */
  function Clamp(requested: int): (r: int)
    ensures 0 <= r <= MaxSimulationSpeed
    ensures 0 <= requested <= MaxSimulationSpeed ==> r == requested
    ensures requested < 0 ==> r == 0
    ensures requested > MaxSimulationSpeed ==> r == MaxSimulationSpeed
  {
    if requested < 0 then 0
    else if requested > MaxSimulationSpeed then MaxSimulationSpeed
    else requested
  }

  /** The delay between two steps that belongs to a speed. */
  function DelayFor(speed: int): (d: int)
    requires 0 <= speed <= MaxSimulationSpeed
    ensures 0 <= d <= MaxSimulationSpeed * DelayPerSpeedStep
    ensures d == 0 <==> speed == MaxSimulationSpeed
  {
    (MaxSimulationSpeed - speed) * DelayPerSpeedStep
  }

  /** A faster speed never has a longer delay. */
  lemma DelayFallsAsSpeedRises(s1: int, s2: int)
    requires 0 <= s1 <= s2 <= MaxSimulationSpeed
    ensures DelayFor(s2) <= DelayFor(s1)
    ensures s1 < s2 ==> DelayFor(s2) < DelayFor(s1)
  {
  }

  /** The two fields that setSpeed updates together. */
  datatype Pace = Pace(speed: int, delay: int)

  /** The delay is the one that belongs to the speed. */
  predicate Consistent(p: Pace)
  {
    0 <= p.speed <= MaxSimulationSpeed && p.delay == DelayFor(p.speed)
  }

  /** The effect of setSpeed: a change only when the clamped speed differs. */
  function AfterSetSpeed(p: Pace, requested: int): (r: Pace)
    ensures r.speed == Clamp(requested)
    ensures p.speed == Clamp(requested) ==> r == p
    ensures p.speed != Clamp(requested) ==> r.delay == DelayFor(r.speed)
  {
    var speed := Clamp(requested);
    if p.speed != speed then Pace(speed, DelayFor(speed)) else p
  }

  /** setSpeed keeps a consistent pace consistent. */
  lemma SetSpeedKeepsConsistent(p: Pace, requested: int)
    requires Consistent(p)
    ensures Consistent(AfterSetSpeed(p, requested))
  {
  }

  /** Asking for the same speed twice is the same as asking once. */
  lemma SetSpeedIdempotent(p: Pace, requested: int)
    ensures AfterSetSpeed(AfterSetSpeed(p, requested), requested) == AfterSetSpeed(p, requested)
  {
  }

  /** The pace after a series of setSpeed calls. */
  function AfterSetSpeeds(p: Pace, requests: seq<int>): (r: Pace)
    ensures |requests| > 0 ==> r.speed == Clamp(requests[|requests| - 1])
    decreases |requests|
  {
    if |requests| == 0 then p
    else AfterSetSpeed(AfterSetSpeeds(p, requests[..|requests| - 1]), requests[|requests| - 1])
  }

  /**
   * The pace of a freshly initialised simulation as the source leaves it:
   * both fields keep their Java default of 0.
   */
  const InitialPaceAsWritten: Pace := Pace(0, 0)

  /**
   * Slowest speed right after initialisation: setSpeed(0) finds the speed
   * already 0 and changes nothing, so the simulation keeps a delay of 0 (full
   * speed) although its speed reads 0, whose delay is 400.
   */
  lemma InitialPaceAsWrittenIsInconsistent()
    ensures !Consistent(InitialPaceAsWritten)
    ensures AfterSetSpeed(InitialPaceAsWritten, 0) == InitialPaceAsWritten
    ensures AfterSetSpeed(InitialPaceAsWritten, 0).delay != DelayFor(0)
  {
  }

  /** The initial pace with the delay that belongs to speed 0. */
  const InitialPace: Pace := Pace(0, DelayFor(0))

  /** From the corrected initial pace, every series of setSpeed calls keeps delay and speed in step. */
  lemma {:induction false} EveryPaceConsistent(requests: seq<int>)
    ensures Consistent(AfterSetSpeeds(InitialPace, requests))
    decreases |requests|
  {
    if |requests| > 0 {
      EveryPaceConsistent(requests[..|requests| - 1]);
      SetSpeedKeepsConsistent(AfterSetSpeeds(InitialPace, requests[..|requests| - 1]), requests[|requests| - 1]);
    }
  }

  /** The simulation object with the fields the speed and pause controls touch. */
  class Simulation {
    var paused: bool
    var speed: int
    var delay: int
    /** How many speed-change events have been fired. */
    var speedChangeEvents: nat

    /** The speed stays within its range: it starts at 0 and setSpeed clamps it. */
    ghost predicate Valid()
      reads this
    {
      0 <= speed <= MaxSimulationSpeed && 0 <= delay <= MaxSimulationSpeed * DelayPerSpeedStep
    }

    /** The delay is the one that belongs to the speed. */
    ghost predicate InStep()
      reads this
    {
      Consistent(Pace(speed, delay))
    }

    /**
     * A new simulation as initialize leaves it: paused, and speed and delay at
     * their default 0, so the delay does not belong to the speed.
     */
    constructor ()
      ensures Valid() && !InStep()
      ensures paused && Pace(speed, delay) == InitialPaceAsWritten && speedChangeEvents == 0
    {
      paused := true;
      speed := 0;
      delay := 0;
      speedChangeEvents := 0;
    }

    method SetPaused(b: bool)
      requires Valid()
      modifies this
      ensures Valid() && InStep() == old(InStep())
      ensures paused == b
      ensures speed == old(speed) && delay == old(delay) && speedChangeEvents == old(speedChangeEvents)
    {
      paused := b;
    }

    /**
     * The speed is clamped; only a different speed changes the delay and fires
     * an event, so a pace out of step stays so when the speed is asked again.
     */
    method SetSpeed(requested: int)
      requires Valid()
      modifies this
      ensures Valid()
      ensures Pace(speed, delay) == AfterSetSpeed(old(Pace(speed, delay)), requested)
      ensures old(InStep()) || old(speed) != Clamp(requested) ==> InStep()
      ensures !old(InStep()) && old(speed) == Clamp(requested) ==> !InStep()
      ensures speedChangeEvents == old(speedChangeEvents) + (if old(speed) != Clamp(requested) then 1 else 0)
      ensures paused == old(paused)
    {
      var s := requested;
      if s < 0 {
        s := 0;
      } else if s > MaxSimulationSpeed {
        s := MaxSimulationSpeed;
      }
      if speed != s {
        speed := s;
        delay := (MaxSimulationSpeed - s) * DelayPerSpeedStep;
        speedChangeEvents := speedChangeEvents + 1;
      }
    }

    function GetSpeed(): (r: int)
      requires Valid()
      reads this
      ensures 0 <= r <= MaxSimulationSpeed
      ensures InStep() ==> DelayFor(r) == delay
    {
      speed
    }
  }
}
