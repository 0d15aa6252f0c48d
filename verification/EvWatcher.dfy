/** The watchers of libev, as far as timers and pending events are concerned. */
module EvWatcher {

  const MINPRI: int := -2
  const MAXPRI: int := 2
  const NUMPRI: nat := MAXPRI - MINPRI + 1

  /** struct ev_timer with the fields of struct ev_watcher it begins with: active is its heap
      slot or 0, pending its place in the pending queue of its priority, counted from 1, or 0. */
  class Watcher {
    var active: nat
    var pending: nat
    const priority: int
    var at: real
    var repeat: real

    constructor (priority: int, after: real, repeat: real)
      requires MINPRI <= priority <= MAXPRI
      ensures this.priority == priority && at == after && this.repeat == repeat && active == 0 && pending == 0
    {
      this.priority, at, this.repeat, active, pending := priority, after, repeat, 0, 0;
    }
  }

  /** ABSPRI. */
  function Pri(w: Watcher): int { w.priority - MINPRI }
}
