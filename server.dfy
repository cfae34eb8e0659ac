/** The coordination server (server.py): the shared state that every device's poll reads and
    writes, and the answer a poll gets. The five store keys of the original become fields of one
    `Store` object; `time.time()` becomes a `now` parameter in integer ticks, and the configured
    heartbeat interval is a constant in the same ticks. */
module Server {

  import opened Wrappers
  import Catalog

  /** A device serial number. */
  type Id = string

  /** The `type` field of a poll: only "camera" and "controller" change the answer. */
  datatype Role = Camera | Controller | Other

  /** `heartbeat_interval` of a reply: the configured interval, or a tenth of it. */
  datatype Interval = Full | Tenth

  /** The fields of a poll reply: `update_options`, `configuration` and `fire` are present only
      when they are set. */
  datatype Reply<P> = Reply(interval: Interval, updateOptions: bool, configuration: Option<P>, fire: bool)

  // ---------------------------------------------------------------------------------------------
  // Liveness

  /** The devices whose last poll lies strictly within three heartbeat intervals before `now`. */
  function Alive(heartbeats: map<Id, int>, now: int, interval: int): (alive: set<Id>)
    ensures forall d :: d in alive <==> d in heartbeats && now < heartbeats[d] + 3 * interval
  {
    set d | d in heartbeats && heartbeats[d] > now - interval * 3
  }

  /** A poll at time `t` keeps its device alive exactly for the queries made before
      `t + 3 * interval`, and does not change whether any other device is alive. */
  lemma TouchedIsAlive(heartbeats: map<Id, int>, id: Id, t: int, now: int, interval: int, other: Id)
    requires other != id
    ensures id in Alive(heartbeats[id := t], now, interval) <==> now < t + 3 * interval
    ensures other in Alive(heartbeats[id := t], now, interval) <==> other in Alive(heartbeats, now, interval)
  {
  }

  // ---------------------------------------------------------------------------------------------
  // Configuration assignment and acknowledgment

  /** Every target device mapped to the same payload: the snapshot form of an assignment. */
  function Snapshot<P>(targets: set<Id>, payload: P): map<Id, P>
  {
    map d | d in targets :: payload
  }

  /** Every target device marked as not yet configured. */
  function Unacknowledged(targets: set<Id>): map<Id, bool>
  {
    map d | d in targets :: false
  }

  /** The assignment of `payload` to every device alive at `now`, with no acknowledgments yet,
      built one heartbeat entry at a time. */
  method SnapshotAlive<P>(heartbeats: map<Id, int>, now: int, interval: int, payload: P)
    returns (configuration: map<Id, P>, configured: map<Id, bool>)
    ensures configuration == Snapshot(Alive(heartbeats, now, interval), payload)
    ensures configured == Unacknowledged(Alive(heartbeats, now, interval))
  {
    var cutoff := now - interval * 3;
    ghost var alive := Alive(heartbeats, now, interval);
    configuration := map[];
    configured := map[];
    var todo := heartbeats.Keys;
    while todo != {}
      invariant todo <= heartbeats.Keys
      invariant configuration.Keys == alive - todo
      invariant configured.Keys == alive - todo
      invariant forall d :: d in configuration ==> configuration[d] == payload
      invariant forall d :: d in configured ==> !configured[d]
      decreases |todo|
    {
      var d :| d in todo;
      if heartbeats[d] > cutoff {
        configuration := configuration[d := payload];
        configured := configured[d := false];
      }
      todo := todo - {d};
    }
    assert configuration == Snapshot(alive, payload);
    assert configured == Unacknowledged(alive);
  }

  /** The payload still to be pushed to `id`: assigned and not yet acknowledged. */
  function PendingFor<P>(configuration: map<Id, P>, configured: map<Id, bool>, id: Id): Option<P>
    requires configuration.Keys <= configured.Keys
  {
    if id in configuration && !configured[id] then Some(configuration[id]) else None
  }

  /** Acknowledgments for `ids`, one after the other (`configured[id] = True` each time). */
  function AckEach(configured: map<Id, bool>, ids: seq<Id>): map<Id, bool>
    decreases ids
  {
    if ids == [] then configured else AckEach(configured[ids[0] := true], ids[1..])
  }

  lemma {:induction false} AckEachMarks(configured: map<Id, bool>, ids: seq<Id>, d: Id)
    ensures d in ids ==> d in AckEach(configured, ids) && AckEach(configured, ids)[d]
    ensures d !in ids ==> (d in AckEach(configured, ids) <==> d in configured)
    ensures d !in ids && d in configured ==> AckEach(configured, ids)[d] == configured[d]
    decreases ids
  {
    if ids != [] {
      AckEachMarks(configured[ids[0] := true], ids[1..], d);
    }
  }

  /** Acknowledging is idempotent: replaying the same acknowledgments changes nothing more. */
  lemma AckEachIdempotent(configured: map<Id, bool>, ids: seq<Id>)
    ensures AckEach(AckEach(configured, ids), ids) == AckEach(configured, ids)
  {
    var once := AckEach(configured, ids);
    var twice := AckEach(once, ids);
    forall d
      ensures (d in twice <==> d in once) && (d in once ==> twice[d] == once[d])
    {
      AckEachMarks(configured, ids, d);
      AckEachMarks(once, ids, d);
    }
    assert twice.Keys == once.Keys;
  }

  /** An explicit assignment followed by a poll gives every targeted device exactly its own
      payload and every other device nothing. */
  lemma AssignThenPending<P>(assignment: map<Id, P>, id: Id)
    ensures PendingFor(assignment, Unacknowledged(assignment.Keys), id)
      == if id in assignment then Some(assignment[id]) else None
  {
  }

  /** Once every targeted device has acknowledged, in any order and with repetitions, no device
      has a configuration pending. */
  lemma AssignThenAckAll<P>(assignment: map<Id, P>, ids: seq<Id>, id: Id)
    requires forall d :: d in assignment ==> d in ids
    ensures assignment.Keys <= AckEach(Unacknowledged(assignment.Keys), ids).Keys
    ensures PendingFor(assignment, AckEach(Unacknowledged(assignment.Keys), ids), id) == None
  {
    forall d | d in assignment
      ensures d in AckEach(Unacknowledged(assignment.Keys), ids) && AckEach(Unacknowledged(assignment.Keys), ids)[d]
    {
      AckEachMarks(Unacknowledged(assignment.Keys), ids, d);
    }
  }

  // ---------------------------------------------------------------------------------------------
  // The answer to a poll

  /** The reply to a poll by device `id` of role `role`, in priority order: a camera that has not
      yet reported its options is asked for them; otherwise a pending configuration is pushed;
      otherwise a controller is told to fire if the fire flag is set, and polls ten times as often. */
  function Decide<P>(id: Id, role: Role, optionsReceived: map<Id, bool>, configuration: map<Id, P>,
                     configured: map<Id, bool>, fire: bool): (r: Reply<P>)
    requires configuration.Keys <= configured.Keys
    ensures r.updateOptions <==> role == Camera && id !in optionsReceived
    ensures r.configuration == if r.updateOptions then None else PendingFor(configuration, configured, id)
    ensures r.fire <==> role == Controller && fire && PendingFor(configuration, configured, id).None?
    ensures r.interval == Tenth <==> role == Controller && r.configuration.None?
    ensures r.updateOptions ==> r.configuration.None? && !r.fire
    ensures r.configuration.Some? ==> !r.fire
  {
    if role == Camera && id !in optionsReceived then
      Reply(Full, true, None, false)
    else if id in configuration && !configured[id] then
      Reply(Full, false, Some(configuration[id]), false)
    else if role == Controller then
      Reply(Tenth, false, None, fire)
    else
      Reply(Full, false, None, false)
  }

  /** A camera that has never reported its options is asked for them and gets no configuration,
      even when one is pending for it. */
  lemma OptionsBeforeConfiguration<P>(id: Id, optionsReceived: map<Id, bool>, configuration: map<Id, P>,
                                      configured: map<Id, bool>, fire: bool)
    requires configuration.Keys <= configured.Keys
    requires id !in optionsReceived
    requires PendingFor(configuration, configured, id).Some?
    ensures Decide(id, Camera, optionsReceived, configuration, configured, fire)
      == Reply(Full, true, None, false)
  {
  }

  /** The fire flag is delivered once: the controller poll that sees it set gets `fire`, the flag is
      cleared (`fire && !reply.fire`), and the next controller poll gets no `fire`. */
  lemma FireIsOneShot<P>(first: Id, second: Id, optionsReceived: map<Id, bool>, configuration: map<Id, P>,
                         configured: map<Id, bool>)
    requires configuration.Keys <= configured.Keys
    requires PendingFor(configuration, configured, first).None?
    ensures var r := Decide(first, Controller, optionsReceived, configuration, configured, true);
      r.fire && !Decide(second, Controller, optionsReceived, configuration, configured, true && !r.fire).fire
  {
  }

  /** Acknowledging a device that has no assignment adds an entry to `configured` but changes no
      reply to any poll. */
  lemma AckUnassignedInvisible<P>(id: Id, poller: Id, role: Role, optionsReceived: map<Id, bool>,
                                  configuration: map<Id, P>, configured: map<Id, bool>, fire: bool)
    requires configuration.Keys <= configured.Keys
    requires id !in configuration
    ensures Decide(poller, role, optionsReceived, configuration, configured[id := true], fire)
      == Decide(poller, role, optionsReceived, configuration, configured, fire)
  {
  }

  // ---------------------------------------------------------------------------------------------
  // The store

  /** The shared state. A key missing from the original store reads as an empty map (or `false`
      for the fire flag), except the options catalog, whose absence marks the first report. */
  class Store<P> {
    /** `config.heartbeat`, in ticks. */
    const interval: int
    var heartbeats: map<Id, int>
    var options: Option<Catalog.Schema>
    var optionsReceived: map<Id, bool>
    var configuration: map<Id, P>
    var configured: map<Id, bool>
    var fire: bool

    /** Every assigned device has an acknowledgment entry, so the poll's `configured[id]` lookup
        never fails. */
    ghost predicate Valid()
      reads this
    {
      configuration.Keys <= configured.Keys
    }

    constructor (interval: int)
      ensures Valid() && this.interval == interval
      ensures heartbeats == map[] && options == None && optionsReceived == map[]
      ensures configuration == map[] && configured == map[] && !fire
    {
      this.interval := interval;
      heartbeats := map[];
      options := None;
      optionsReceived := map[];
      configuration := map[];
      configured := map[];
      fire := false;
    }

    /** Records `now` as the last-seen time of `id`. */
    method UpdateHeartbeat(id: Id, now: int)
      modifies this`heartbeats
      ensures heartbeats == old(heartbeats)[id := now]
    {
      heartbeats := heartbeats[id := now];
    }

    /** GET /heartbeat: the alive devices, each once. */
    method AliveDevices(now: int) returns (devices: seq<Id>)
      ensures forall d :: d in devices <==> d in Alive(heartbeats, now, interval)
      ensures forall i, j :: 0 <= i < j < |devices| ==> devices[i] != devices[j]
    {
      devices := [];
      var todo := heartbeats.Keys;
      while todo != {}
        invariant todo <= heartbeats.Keys
        invariant forall d :: d in devices <==> d in heartbeats && d !in todo && heartbeats[d] > now - interval * 3
        invariant forall i, j :: 0 <= i < j < |devices| ==> devices[i] != devices[j]
        decreases |todo|
      {
        var d :| d in todo;
        if heartbeats[d] > now - interval * 3 {
          devices := devices + [d];
        }
        todo := todo - {d};
      }
    }

    /** POST /heartbeat: records the poll, answers it, and clears the fire flag when the answer
        carries `fire`. */
    method Heartbeat(id: Id, role: Role, now: int) returns (reply: Reply<P>)
      requires Valid()
      modifies this`heartbeats, this`fire
      ensures Valid()
      ensures heartbeats == old(heartbeats)[id := now]
      ensures reply == Decide(id, role, optionsReceived, configuration, configured, old(fire))
      ensures fire == (old(fire) && !reply.fire)
    {
      UpdateHeartbeat(id, now);
      reply := Decide(id, role, optionsReceived, configuration, configured, fire);
      if reply.fire {
        fire := false;
      }
    }

    /** POST /fire. */
    method Fire()
      modifies this`fire
      ensures fire
    {
      fire := true;
    }

    /** POST /configuration_complete: marks `id` as configured, whether or not it was assigned. */
    method UpdateConfigured(id: Id)
      requires Valid()
      modifies this`configured
      ensures Valid()
      ensures configured == old(configured)[id := true]
    {
      configured := configured[id := true];
    }

    /** POST /camera/options. The first report becomes the catalog as it is, without marking its
        camera as reported; every later report shrinks the catalog and marks its camera. A report
        the catalog cannot absorb (see Catalog.Merge) raises, and nothing is written (`accepted` false). */
    method UpdateOptions(id: Id, report: Catalog.Schema) returns (accepted: bool)
      modifies this`options, this`optionsReceived
      ensures old(options).None? ==>
        accepted && options == Some(report) && optionsReceived == old(optionsReceived)
      ensures old(options).Some? ==>
        var merged := Catalog.Merge(old(options).value, report);
        && accepted == merged.Some?
        && (accepted ==> options == merged && optionsReceived == old(optionsReceived)[id := true])
        && (!accepted ==> options == old(options) && optionsReceived == old(optionsReceived))
    {
      if options.None? {
        options := Some(report);
        return true;
      }
      var merged := Catalog.MergeReport(options.value, report);
      if merged.None? {
        return false;
      }
      options := merged;
      optionsReceived := optionsReceived[id := true];
      return true;
    }

    /** POST /capture/configure: assigns `payload` to every device alive now, replacing the previous
        assignment and its acknowledgments, and answers the number of devices it assigned. */
    method ConfigureAlive(payload: P, now: int) returns (count: nat)
      modifies this`configuration, this`configured
      ensures Valid()
      ensures configuration == Snapshot(Alive(heartbeats, now, interval), payload)
      ensures configured == Unacknowledged(Alive(heartbeats, now, interval))
      ensures count == |Alive(heartbeats, now, interval)|
    {
      ghost var alive := Alive(heartbeats, now, interval);
      configuration, configured := SnapshotAlive(heartbeats, now, interval, payload);
      assert configured.Keys == alive;
      count := |configured.Keys|;
    }

    /** POST /capture/configure_all: assigns each device of `assignment` its own payload, replacing
        the previous assignment and its acknowledgments. */
    method ConfigureExplicit(assignment: map<Id, P>)
      modifies this`configuration, this`configured
      ensures Valid()
      ensures configuration == assignment
      ensures configured == Unacknowledged(assignment.Keys)
    {
      var newConfiguration: map<Id, P> := map[];
      var newConfigured: map<Id, bool> := map[];
      var todo := assignment.Keys;
      while todo != {}
        invariant todo <= assignment.Keys
        invariant newConfiguration.Keys == assignment.Keys - todo
        invariant newConfigured.Keys == assignment.Keys - todo
        invariant forall d :: d in newConfiguration ==> newConfiguration[d] == assignment[d]
        invariant forall d :: d in newConfigured ==> !newConfigured[d]
        decreases |todo|
      {
        var d :| d in todo;
        newConfiguration := newConfiguration[d := assignment[d]];
        newConfigured := newConfigured[d := false];
        todo := todo - {d};
      }
      configuration := newConfiguration;
      configured := newConfigured;
      assert configured == Unacknowledged(assignment.Keys);
    }
  }
}
