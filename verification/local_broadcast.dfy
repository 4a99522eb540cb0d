/**
 * `LocalBroadcast`: an in-process "latest event" cell the location service
 * writes and both view models observe.
 */
module LocalBroadcast {
  import opened Geo

  /** The six events; `Idle` is the initial one. */
  datatype BroadcastAction =
    | Idle
    | LocationUpdated(location: Location)
    | DistanceUpdated(distance: int)
    | ServiceStarted
    | ServiceStopped
    | Destination

  /** The cell: only the latest action is held. */
  datatype LocalBroadcast = LocalBroadcast(events: BroadcastAction)

  function Initial(): (b: LocalBroadcast)
    ensures b.events == Idle
  {
    LocalBroadcast(Idle)
  }

  /** `send(action)`: the cell now holds `action`. */
  function Send(b: LocalBroadcast, action: BroadcastAction): LocalBroadcast {
    LocalBroadcast(action)
  }

  /** Sending a sequence of actions in order. */
  function SendAll(b: LocalBroadcast, actions: seq<BroadcastAction>): LocalBroadcast
    decreases |actions|
  {
    if actions == [] then b else SendAll(Send(b, actions[0]), actions[1..])
  }

  /** After a run of sends the cell holds the last one; earlier sends and the prior state leave no trace. */
  lemma {:induction false} LatestWins(b: LocalBroadcast, actions: seq<BroadcastAction>)
    ensures actions == [] ==> SendAll(b, actions) == b
    ensures actions != [] ==> SendAll(b, actions).events == actions[|actions| - 1]
    decreases |actions|
  {
    if |actions| > 1 {
      LatestWins(Send(b, actions[0]), actions[1..]);
    }
  }

  /** The action type has exactly six variants. */
  lemma SixVariants(a: BroadcastAction)
    ensures a.Idle? || a.LocationUpdated? || a.DistanceUpdated? || a.ServiceStarted? || a.ServiceStopped? || a.Destination?
  {
  }
}
