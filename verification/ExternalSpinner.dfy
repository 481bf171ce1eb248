/** The spinner process that is forked while the user waits for a session. */
module Spinners {
  /**
   What the spinner object holds, with the numbers of processes forked and of
   SIGTERM signals sent so far.  `pid` is 0 while no process is held.
   */
  datatype Spinner = Spinner(executable: string, pid: int, forks: nat, terms: nat) {

    /** `forked` is the process id that fork returns to the parent, if it is called. */
    function EnsureRunning(forked: int): Spinner {
      if executable == "" || pid != 0 then this
      else this.(pid := forked, forks := forks + 1)
    }

    function Kill(): Spinner {
      if pid != 0 then this.(pid := 0, terms := terms + 1) else this
    }

    /** Every process that was forked, except the one held, has been told to terminate. */
    predicate Balanced() {
      forks - terms == if pid != 0 then 1 else 0
    }
  }

  class ExternalSpinner {
    const executable: string
    var pid: int
    var forks: nat
    var terms: nat

    ghost function View(): Spinner
      reads this
    {
      Spinner(executable, pid, forks, terms)
    }

    constructor (executable: string)
      ensures View() == Spinner(executable, 0, 0, 0)
      ensures View().Balanced()
    {
      this.executable := executable;
      pid, forks, terms := 0, 0, 0;
    }

    method EnsureRunning(forked: int)
      modifies this
      ensures View() == old(View()).EnsureRunning(forked)
      ensures forked != 0 && old(View()).Balanced() ==> View().Balanced()
      ensures forked != 0 && executable != "" ==> pid != 0
    {
      if executable == "" || pid != 0 {
        return;
      }
      pid := forked;
      forks := forks + 1;
    }

    method Kill()
      modifies this
      ensures View() == old(View()).Kill()
      ensures old(View()).Balanced() ==> View().Balanced()
      ensures pid == 0
    {
      if pid != 0 {
        terms := terms + 1;
        pid := 0;
      }
    }
  }
}
