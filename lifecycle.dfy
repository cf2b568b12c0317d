/**
 * The server's lifecycle flags: one Java `byte` holding a STARTED bit and a
 * RUNNING bit.  Java widens the byte to an int for `|`, `&` and `~` and the
 * compound assignment narrows the result back to its low eight bits, which is
 * exactly bv8 arithmetic.
 */
module Lifecycle {

  const FLAG_STARTED: bv8 := 1
  const FLAG_RUNNING: bv8 := 2

  /** What start() stores once its listening socket is open. */
  const START_FLAGS: bv8 := FLAG_STARTED | FLAG_RUNNING

  /** isStarted */
  predicate Started(flags: bv8): (b: bool)
    ensures b <==> flags as int % 2 == 1
  {
    flags & FLAG_STARTED == FLAG_STARTED
  }

  /** isRunning, and the guard of the accept loop */
  predicate Running(flags: bv8): (b: bool)
    ensures b <==> flags as int % 4 >= 2
  {
    flags & FLAG_RUNNING == FLAG_RUNNING
  }

  /**
   * pauseClientConnections as written: `flags |= ~FLAG_RUNNING`.  It can only
   * set bits, so RUNNING keeps its value and STARTED becomes set.
   */
  function Pause(flags: bv8): (r: bv8)
    ensures r & flags == flags
    ensures Running(r) == Running(flags)
    ensures Started(r)
  {
    flags | !FLAG_RUNNING
  }

  /** resumeClientConnections: sets RUNNING when it is clear, touches nothing else. */
  function Resume(flags: bv8): (r: bv8)
    ensures Running(r)
    ensures r & !FLAG_RUNNING == flags & !FLAG_RUNNING
    ensures Running(flags) ==> r == flags
  {
    if !Running(flags) then flags | FLAG_RUNNING else flags
  }

  lemma StartFlags()
    ensures START_FLAGS == 3 && Started(START_FLAGS) && Running(START_FLAGS)
  {
  }

  /** After start, pause turns every bit on and the server still reports running. */
  lemma PauseAfterStart()
    ensures Pause(START_FLAGS) == 0xFF
    ensures Started(Pause(START_FLAGS)) && Running(Pause(START_FLAGS))
  {
  }

  lemma ResumeIdempotent(flags: bv8)
    ensures Resume(Resume(flags)) == Resume(flags)
  {
  }

  /** Neither operation ever clears STARTED. */
  lemma StartedIsPermanent(flags: bv8)
    requires Started(flags)
    ensures Started(Pause(flags)) && Started(Resume(flags))
  {
  }

  /** What pause was meant to do: clear RUNNING and nothing else. */
  function PauseIntended(flags: bv8): (r: bv8)
    ensures !Running(r)
    ensures r & !FLAG_RUNNING == flags & !FLAG_RUNNING
  {
    flags & !FLAG_RUNNING
  }

  /** The as-written pause leaves a started server admitting connections. */
  lemma PauseDoesNotStop()
    ensures Running(START_FLAGS) && Running(Pause(START_FLAGS))
  {
  }

  /** The intended pause stops the accept loop and resume undoes it exactly. */
  lemma PauseIntendedResumeRoundTrip(flags: bv8)
    requires Running(flags)
    ensures !Running(PauseIntended(flags))
    ensures Resume(PauseIntended(flags)) == flags
    ensures Started(PauseIntended(flags)) == Started(flags)
  {
  }
}
