/**
 * The one-shot wake-up primitive `tokio::sync::Notify`, as the bot uses it: a
 * single waiter and `notify_one`. A notification that finds no registered
 * waiter is kept as a permit, so a signal sent before the wait begins is not
 * lost; permits do not accumulate beyond one.
 */
module Notification {

  /** The state of the one waiter the bot ever registers. */
  datatype WaiterState = Idle | Waiting | Woken

  class Notify {
    var permit: bool
    var waiter: WaiterState
    /** How many times `notify_one` has been called on this object. */
    ghost var notifyCalls: nat

    /** A registered waiter never coexists with a stored permit. */
    ghost predicate Valid()
      reads this
    {
      !(permit && waiter == Waiting)
    }

    /** A wake-up is owed: the next poll of the waiter completes. */
    predicate Pending()
      reads this
    {
      permit || waiter == Woken
    }

    constructor ()
      ensures Valid() && !Pending()
      ensures !permit && waiter == Idle && notifyCalls == 0
    {
      permit := false;
      waiter := Idle;
      notifyCalls := 0;
    }

    /** `notify_one`: wake the registered waiter, or store a permit when there is none. */
    method NotifyOne()
      requires Valid()
      modifies this
      ensures Valid() && Pending()
      ensures notifyCalls == old(notifyCalls) + 1
      ensures old(waiter) == Waiting ==> waiter == Woken && permit == old(permit)
      ensures old(waiter) != Waiting ==> waiter == old(waiter) && permit
    {
      if waiter == Waiting {
        waiter := Woken;
      } else {
        permit := true;
      }
      notifyCalls := notifyCalls + 1;
    }

    /**
     * One poll of `notified().await`: completes when a wake-up is owed (consuming
     * it), otherwise registers the waiter and stays pending.
     */
    method Notified() returns (ready: bool)
      requires Valid()
      modifies this
      ensures Valid()
      ensures ready <==> old(Pending())
      ensures ready ==> waiter == Idle
      ensures !ready ==> waiter == Waiting && !permit
      ensures old(waiter) == Woken ==> permit == old(permit)
      ensures old(waiter) != Woken ==> !permit
      ensures notifyCalls == old(notifyCalls)
    {
      if waiter == Woken {
        waiter := Idle;
        ready := true;
      } else if permit {
        permit := false;
        waiter := Idle;
        ready := true;
      } else {
        waiter := Waiting;
        ready := false;
      }
    }
  }

  /** A notification sent before anyone waits is not lost: the wait that follows completes. */
  method SignalBeforeWait() returns (ready: bool)
    ensures ready
  {
    var n := new Notify();
    n.NotifyOne();
    ready := n.Notified();
  }

  /** A waiter registered before the notification is woken by it. */
  method WaitBeforeSignal() returns (first: bool, second: bool)
    ensures !first && second
  {
    var n := new Notify();
    first := n.Notified();
    n.NotifyOne();
    second := n.Notified();
  }

  /** Two notifications with nobody waiting leave one permit: only one wait completes. */
  method PermitsDoNotAccumulate() returns (first: bool, second: bool)
    ensures first && !second
  {
    var n := new Notify();
    n.NotifyOne();
    n.NotifyOne();
    first := n.Notified();
    second := n.Notified();
  }
}
