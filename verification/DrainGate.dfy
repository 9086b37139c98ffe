/** The drain-coordination zone of EmbeddedNode: the fields that drainMu guards, and the
    critical sections of Pin and Drain over them. `Zone` is their value; the protocol in
    DrainProtocol takes its steps with the same functions, so each method below is tied
    to the steps it performs. */
module DrainGate {
  import opened Basics

  /** Which Pin call. Any two calls have different names. */
  type PinCall = nat

  /** done: the channel is closed. inFlight: the WaitGroup counter, which the types allow
      to be negative (a Go panic). cancels: the registered cancel functions, by pin id. */
  datatype Zone = Zone(done: bool, inFlight: int, nextPinID: nat, cancels: map<nat, PinCall>) {

    function Signal(): Zone { this.(done := true) }

    function Add(): Zone { this.(inFlight := inFlight + 1) }

    function Register(p: PinCall): Zone {
      this.(nextPinID := nextPinID + 1, cancels := cancels[nextPinID + 1 := p])
    }

    function Delete(id: nat): Zone { this.(cancels := cancels - {id}) }

    function Done(): Zone { this.(inFlight := inFlight - 1) }
  }

  class DrainZone {
    var done: bool
    var inFlight: int
    var nextPinID: nat
    var cancels: map<nat, PinCall>
    // Pins whose cancel function has been called.
    var cancelled: set<PinCall>

    ghost function View(): Zone
      reads this
    {
      Zone(done, inFlight, nextPinID, cancels)
    }

    constructor ()
      ensures View() == Zone(false, 0, 0, map[]) && cancelled == {}
    {
      done, inFlight, nextPinID, cancels, cancelled := false, 0, 0, map[], {};
    }

    /** The section at the top of Pin. None is ErrPinnerShuttingDown. */
    method Enter(p: PinCall) returns (id: Option<nat>)
      modifies this
      ensures cancelled == old(cancelled)
      ensures old(done) ==> id == None && View() == old(View())
      ensures !old(done) ==> id == Some(old(nextPinID) + 1) && View() == old(View()).Add().Register(p)
      ensures id.Some? ==> id.value in cancels && cancels[id.value] == p
    {
      if done {
        return None;
      }
      inFlight := inFlight + 1;
      nextPinID := nextPinID + 1;
      cancels := cancels[nextPinID := p];
      return Some(nextPinID);
    }

    /** Pin's deferred cleanup: delete under the lock, then cancel, then Done. */
    method Leave(p: PinCall, id: nat)
      modifies this
      ensures View() == old(View()).Delete(id).Done()
      ensures cancelled == old(cancelled) + {p}
    {
      cancels := cancels - {id};
      cancelled := cancelled + {p};
      inFlight := inFlight - 1;
    }

    /** signalDone: only the first call closes the channel. */
    method SignalDone()
      modifies this
      ensures View() == old(View()).Signal() && cancelled == old(cancelled)
    {
      if !done {
        done := true;
      }
    }

    /** Drain's force-cancel section: every registered cancel function is called, in
        whatever order the map yields, and nothing is unregistered. */
    method ForceCancel() returns (pending: nat)
      modifies this`cancelled
      ensures pending == |cancels|
      ensures cancelled == old(cancelled) + cancels.Values
    {
      pending := |cancels|;
      var left := cancels.Keys;
      while left != {}
        invariant left <= cancels.Keys
        invariant cancelled == old(cancelled) + (set id | id in cancels && id !in left :: cancels[id])
        decreases left
      {
        var id :| id in left;
        cancelled := cancelled + {cancels[id]};
        left := left - {id};
      }
    }
  }
}
