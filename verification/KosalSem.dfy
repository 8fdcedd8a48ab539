// Semaphores of count one, as the queue, the device and the bus use them.
module KosalSem {
  class Mutex {
    var taken: bool

    constructor ()
      ensures !taken
    {
      taken := false;
    }

    // An alertable wait. interrupted says whether a signal ends the wait; the
    // wait that is not interrupted comes back only when the mutex was free.
    method GetAlertable(interrupted: bool) returns (failed: bool)
      requires interrupted || !taken
      modifies this
      ensures failed == interrupted
      ensures taken == (old(taken) || !interrupted)
    {
      if !interrupted {
        taken := true;
      }
      failed := interrupted;
    }

    method Put()
      modifies this
      ensures !taken
    {
      taken := false;
    }
  }
}
