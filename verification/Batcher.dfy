/** pkg/util/sync/batcher.go: a map whose contents are released some time after the last write. */
module Batcher {
  import opened Common

  /** A time.Timer: not set, running, or run out. */
  datatype Timer = NoTimer | Armed | Fired

  /** The state of a BatchWriter. `flushes` counts the expired timers whose callback is still
      blocked on the unbuffered flush channel. */
  datatype Batch<K, V> = Batch(timer: Timer, flushes: nat, entries: map<K, V>) {

    /** Writes the entry and restarts the timer. A timer that has run out cannot be stopped:
        its flush stays pending. */
    function Store(key: K, value: V): Batch<K, V> {
      Batch(Armed, flushes, entries[key := value])
    }

    /** The timer runs out. */
    function Fire(): Batch<K, V>
      requires timer == Armed
    {
      Batch(Fired, flushes + 1, entries)
    }

    /** A flush is received and the map is reset. */
    function Drain(): Batch<K, V>
      requires 0 < flushes
    {
      Batch(timer, flushes - 1, map[])
    }

    /** Whatever is stored will be released: a timer is running or a flush is waiting. */
    predicate Live() {
      entries != map[] ==> timer == Armed || 0 < flushes
    }
  }

  class BatchWriter<K(==), V> {
    var timer: Timer
    var flushes: nat
    var closed: bool
    var entries: map<K, V>

    ghost function State(): Batch<K, V>
      reads this
    {
      Batch(timer, flushes, entries)
    }

    constructor ()
      ensures State() == Batch(NoTimer, 0, map[]) && !closed
    {
      timer, flushes, closed, entries := NoTimer, 0, false, map[];
    }

    method Load(key: K) returns (value: Option<V>)
      ensures value == if key in entries then Some(entries[key]) else None
    {
      if key in entries {
        return Some(entries[key]);
      }
      return None;
    }

    method CancelUnfiredTimer()
      modifies this`timer
      ensures timer == NoTimer
    {
      if timer != NoTimer {
        timer := NoTimer;
      }
    }

    method DispatchAfterTimeout()
      modifies this`timer
      ensures timer == Armed
    {
      timer := Armed;
    }

    method Store(key: K, value: V)
      modifies this
      ensures State() == old(State()).Store(key, value) && closed == old(closed)
      ensures entries == old(entries)[key := value] && timer == Armed && flushes == old(flushes)
      ensures State().Live()
    {
      CancelUnfiredTimer();
      entries := entries[key := value];
      DispatchAfterTimeout();
    }

    /** The callback of the timer: it waits until its flush is received. */
    method TimerFires()
      requires timer == Armed
      modifies this
      ensures State() == old(State()).Fire() && closed == old(closed)
      ensures timer == Fired && flushes == old(flushes) + 1 && entries == old(entries)
      ensures State().Live()
    {
      timer := Fired;
      flushes := flushes + 1;
    }

    method Close()
      modifies this`closed
      ensures closed
    {
      closed := true;
    }

    /** Hands out the map and resets it; false once closed. It blocks until there is a flush or
        the channel is closed. */
    method ProcessBatch() returns (ok: bool, batch: map<K, V>)
      requires closed || 0 < flushes
      modifies this
      ensures ok == !old(closed) && closed == old(closed)
      ensures ok ==> batch == old(entries) && State() == old(State()).Drain()
      ensures ok ==> entries == map[] && timer == old(timer) && flushes == old(flushes) - 1
      ensures !ok ==> batch == map[] && State() == old(State())
      ensures old(State()).Live() ==> State().Live()
    {
      if closed {
        return false, map[];
      }
      flushes := flushes - 1;
      batch := entries;
      entries := map[];
      return true, batch;
    }
  }
}
