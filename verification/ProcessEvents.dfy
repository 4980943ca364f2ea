/** What happens to a started process, as both Go clients order it. */
module ProcessEvents {

  datatype Event = Signalled | WaitStarted

  /** The one call of Wait: not made yet, parked until the process ends, or returned. */
  datatype Wait = NotStarted | Parked | Reaped

  ghost predicate SignalsBeforeWait(log: seq<Event>) {
    forall i, j | 0 <= i < j < |log| :: log[i] == WaitStarted ==> log[j] != Signalled
  }
}
