/**
 The data memory module (src/data_memory/mod.rs): shards this peer stores, shards it is still
 handing out, known locations of shards, and the sessions in which data is collected back.

 `Step` is the specification of one turn of the event loop; class `InitializedDataMemory`
 performs the same turns by updating its maps.  Besides the messages it sends, a turn records
 when a session is opened and when shards are passed to the decoder.
 */
module DataMemory {
  import opened Types
  import opened ReedSolomon

  datatype FullShardId = Full(id: Vid, sid: Sid)

  datatype RecollectionError = UnknownDataId | NotEnoughShards

  datatype OutEvent =
    | Initialized
    | PreparedServiceResponse(id: Vid)
    | ServeShardRequest(full: FullShardId, peer: PeerId)
    | ServeShardResponse(full: FullShardId, shard: Option<Bytes>)
    | AssignedStoreSuccess(full: FullShardId)
    | DistributionSufficient(id: Vid)
    | DistributionFull(id: Vid)
    | AssignedResponse(full: FullShardId, shard: Option<Bytes>)
    | AssignedRequest(full: FullShardId, peer: PeerId)
    | ListDistributed(list: map<Vid, map<Sid, PeerId>>)
    | RecollectResponse(response: Result<(Vid, Bytes), RecollectionError>)

  /** Incoming events; the last two are the arms of the memory bus. */
  datatype InEvent =
    | PrepareService(id: Vid, data: Bytes)
    | StorageRequestTx(id: Vid, author: PeerId)
    | ServedShard(full: FullShardId, shard: Option<Bytes>)
    | ServeRequested(full: FullShardId)
    | StoreConfirmed(full: FullShardId, location: PeerId)
    | AssignedRequested(full: FullShardId)
    | AssignedShard(full: FullShardId, shard: Option<Bytes>)
    | ListRequested
    /** `order` is the order in which the map of known locations happens to be iterated. */
    | RecollectRequest(id: Vid, order: seq<Sid>)
    | PeerShardsActualized(peer: PeerId, ids: seq<Vid>)
    | BusRead(id: Vid)
    | BusWrite(id: Vid, value: Bytes)

  datatype Action =
    | Emit(out: OutEvent)
    | Opened(id: Vid)
    | Decoding(id: Vid, shards: map<Sid, Bytes>)

  type Log = seq<Action>

  datatype Config = Config(code: Code, localId: PeerId, distribution: map<PeerId, Sid>) {
    ghost predicate Valid() { code.Valid() }

    /** Enough rows to decode from; all that the handlers need of the code. */
    predicate Wide() { K <= code.Total() }

    function Assigned(): Option<Sid> {
      if localId in distribution then Some(distribution[localId]) else None
    }
  }

  type Nested<T> = map<Vid, map<Sid, T>>

  /** `entry(id).or_default()` */
  function At<T>(m: Nested<T>, id: Vid): map<Sid, T> {
    if id in m then m[id] else map[]
  }

  function Insert<T>(m: Nested<T>, id: Vid, sid: Sid, value: T): Nested<T> {
    m[id := At(m, id)[sid := value]]
  }

  function Get<T>(m: Nested<T>, full: FullShardId): Option<T> {
    if full.id in m && full.sid in m[full.id] then Some(m[full.id][full.sid]) else None
  }

  datatype State = State(
    localStorage: Nested<Bytes>,
    toDistribute: Nested<Bytes>,
    assembled: Nested<Bytes>,
    locations: Nested<PeerId>,
    stopped: bool)

  const INITIAL: State := State(map[], map[], map[], map[], false)

  datatype Effect = Effect(state: State, actions: Log) {
    function After(log: Log): Effect { Effect(state, log + actions) }
  }

  // ---------- handlers ----------

  function Prepared(cfg: Config, s: State, id: Vid, data: Bytes): Effect
    requires cfg.code.IsData(data)
  {
    Effect(s.(toDistribute := s.toDistribute[id := cfg.code.Encoded(data)]), [Emit(PreparedServiceResponse(id))])
  }

  /** `handle_serve_shard_response` */
  function Stored(s: State, full: FullShardId, shard: Option<Bytes>): Effect {
    match shard
    case None => Effect(s, [])
    case Some(value) =>
      Effect(s.(localStorage := Insert(s.localStorage, full.id, full.sid, value)), [Emit(AssignedStoreSuccess(full))])
  }

  function Pulled(cfg: Config, s: State, id: Vid, author: PeerId): Effect {
    match cfg.Assigned()
    case None => Effect(s, [])
    case Some(sid) =>
      if author == cfg.localId then
        Stored(s, Full(id, sid), Get(s.toDistribute, Full(id, sid)))
      else
        Effect(s, [Emit(ServeShardRequest(Full(id, sid), author))])
  }

  /** `observe_new_location` */
  function Observed(s: State, full: FullShardId, location: PeerId): State {
    s.(toDistribute := if full.id in s.toDistribute
                       then s.toDistribute[full.id := s.toDistribute[full.id] - {full.sid}]
                       else s.toDistribute,
       locations := Insert(s.locations, full.id, full.sid, location))
  }

  function Confirmed(cfg: Config, s: State, full: FullShardId, location: PeerId): Effect {
    var s' := Observed(s, full, location);
    var known := |s'.locations[full.id]|;
    Effect(
      if known == cfg.code.Total() then s'.(toDistribute := s'.toDistribute - {full.id}) else s',
      Reports(cfg, full.id, known))
  }

  function Reports(cfg: Config, id: Vid, known: nat): (log: Log)
    ensures forall i :: 0 <= i < |log| ==>
      log[i] == Emit(DistributionSufficient(id)) || log[i] == Emit(DistributionFull(id))
  {
    (if known == K then [Emit(DistributionSufficient(id))] else []) +
    (if known == cfg.code.Total() then [Emit(DistributionFull(id))] else [])
  }

  /** `handle_assigned_response` */
  function Collected(cfg: Config, s: State, full: FullShardId, shard: Option<Bytes>): Effect
    requires cfg.Wide()
  {
    if shard.None? || full.id !in s.assembled || full.sid in s.assembled[full.id] then
      Effect(s, [])
    else
      var received: map<Sid, Bytes> := s.assembled[full.id][full.sid := shard.value];
      if |received| >= K then
        Effect(s.(assembled := s.assembled - {full.id}),
               [Decoding(full.id, received)] + Answer(full.id, cfg.code.Decoded(received)))
      else
        Effect(s.(assembled := s.assembled[full.id := received]), [])
  }

  function Answer(id: Vid, decoded: Result<Bytes, Error>): Log {
    match decoded
    case Ok(data) => [Emit(RecollectResponse(Ok((id, data))))]
    case Err(_) => []
  }

  /** Ask the owners of `id` one after the other; a shard stored here is taken directly. */
  function Asked(cfg: Config, s: State, id: Vid, known: map<Sid, PeerId>, order: seq<Sid>): Effect
    requires cfg.Wide()
  {
    if order == [] then
      Effect(s, [])
    else
      var before := Asked(cfg, s, id, known, order[..|order| - 1]);
      var sid := order[|order| - 1];
      var now := AskOne(cfg, before.state, Full(id, sid), known);
      Effect(now.state, before.actions + now.actions)
  }

  function AskOne(cfg: Config, s: State, full: FullShardId, known: map<Sid, PeerId>): Effect
    requires cfg.Wide()
  {
    if full.sid !in known then
      Effect(s, [])
    else if known[full.sid] == cfg.localId then
      Collected(cfg, s, full, Get(s.localStorage, full))
    else
      Effect(s, [Emit(AssignedRequest(full, known[full.sid]))])
  }

  function Recollected(cfg: Config, s: State, id: Vid, order: seq<Sid>): Effect
    requires cfg.Wide()
  {
    if id !in s.locations then
      Effect(s, [Emit(RecollectResponse(Err(UnknownDataId)))])
    else if |s.locations[id]| < K then
      Effect(s, [Emit(RecollectResponse(Err(NotEnoughShards)))])
    else if id in s.assembled then
      Effect(s, [])
    else
      var asked := Asked(cfg, s.(assembled := s.assembled[id := map[]]), id, s.locations[id], order);
      Effect(asked.state, [Opened(id)] + asked.actions)
  }

  /** A collection starts for `id` when it is asked for, known well enough and not yet under way. */
  predicate Starts(s: State, id: Vid) {
    !s.stopped && K <= |At(s.locations, id)| && id !in s.assembled
  }

  /** Collecting changes nothing but the open sessions. */
  lemma {:induction false} AskedKeeps(cfg: Config, s: State, id: Vid, known: map<Sid, PeerId>, order: seq<Sid>)
    requires cfg.Wide()
    ensures var t := Asked(cfg, s, id, known, order).state; t == s.(assembled := t.assembled)
  {
    if order != [] {
      AskedKeeps(cfg, s, id, known, order[..|order| - 1]);
    }
  }

  lemma RecollectedKeeps(cfg: Config, s: State, id: Vid, order: seq<Sid>)
    requires cfg.Wide()
    ensures var t := Recollected(cfg, s, id, order).state; t == s.(assembled := t.assembled)
  {
    if id in s.locations {
      AskedKeeps(cfg, s.(assembled := s.assembled[id := map[]]), id, s.locations[id], order);
    }
  }

  function Actualized(cfg: Config, s: State, peer: PeerId, ids: seq<Vid>): Effect {
    if peer !in cfg.distribution then
      Effect(s.(stopped := true), [])
    else
      Effect(s.(locations := Located(s.locations, ids, cfg.distribution[peer], peer)), [])
  }

  /** Shard `sid` of each of `ids` is at `peer`. */
  function Located(locations: Nested<PeerId>, ids: seq<Vid>, sid: Sid, peer: PeerId): Nested<PeerId> {
    if ids == [] then
      locations
    else
      Insert(Located(locations, ids[..|ids| - 1], sid, peer), ids[|ids| - 1], sid, peer)
  }

  function Written(cfg: Config, s: State, id: Vid, shard: Bytes): Effect {
    match cfg.Assigned()
    case None => Effect(s, [])
    case Some(sid) => Effect(s.(localStorage := Insert(s.localStorage, id, sid, shard)), [])
  }

  function Distributed(s: State): map<Vid, map<Sid, PeerId>> {
    map id | id in s.locations && |s.locations[id]| >= K :: s.locations[id]
  }

  /** The bus answers a read with the first of the stored shards, in map order. */
  ghost predicate ReadAnswer(s: State, id: Vid, r: Option<Bytes>) {
    if id !in s.localStorage || s.localStorage[id] == map[] then
      r == None
    else
      r.Some? && exists sid :: sid in s.localStorage[id] && s.localStorage[id][sid] == r.value
  }

  /** Only shards with the id assigned to this peer are stored, and none by an unassigned peer. */
  ghost predicate OwnOnly(cfg: Config, s: State) {
    forall id, sid :: id in s.localStorage && sid in s.localStorage[id] ==> cfg.Assigned() == Some(sid)
  }

  /** This peer's shard of each data id it stores. */
  function OwnShards(cfg: Config, s: State): map<Vid, Bytes> {
    match cfg.Assigned()
    case None => map[]
    case Some(sid) => map id | id in s.localStorage && sid in s.localStorage[id] :: s.localStorage[id][sid]
  }

  /** With only own shards stored, "the first shard" of an id is not a matter of order. */
  lemma ReadsOwnShard(cfg: Config, s: State, id: Vid, r: Option<Bytes>)
    requires OwnOnly(cfg, s)
    ensures ReadAnswer(s, id, r) <==> r == if id in OwnShards(cfg, s) then Some(OwnShards(cfg, s)[id]) else None
  {
    if id in s.localStorage && s.localStorage[id] != map[] {
      assert s.localStorage[id].Keys != {};
      var sid :| sid in s.localStorage[id];
      assert cfg.Assigned() == Some(sid);
      forall other | other in s.localStorage[id]
        ensures other == sid
      {
        assert cfg.Assigned() == Some(other);
      }
    }
  }

  ghost predicate Fits(cfg: Config, ev: InEvent) {
    ev.PrepareService? ==> cfg.code.IsData(ev.data)
  }

  /** One turn of the event loop. */
  function Step(cfg: Config, s: State, ev: InEvent): Effect
    requires cfg.Wide() && Fits(cfg, ev)
  {
    if s.stopped then Effect(s, []) else
    match ev
    case PrepareService(id, data) => Prepared(cfg, s, id, data)
    case StorageRequestTx(id, author) => Pulled(cfg, s, id, author)
    case ServedShard(full, shard) => Stored(s, full, shard)
    case ServeRequested(full) => Effect(s, [Emit(ServeShardResponse(full, Get(s.toDistribute, full)))])
    case StoreConfirmed(full, location) => Confirmed(cfg, s, full, location)
    case AssignedRequested(full) => Effect(s, [Emit(AssignedResponse(full, Get(s.localStorage, full)))])
    case AssignedShard(full, shard) => Collected(cfg, s, full, shard)
    case ListRequested => Effect(s, [Emit(ListDistributed(Distributed(s)))])
    case RecollectRequest(id, order) => Recollected(cfg, s, id, order)
    case PeerShardsActualized(peer, ids) => Actualized(cfg, s, peer, ids)
    case BusRead(_) => Effect(s, [])
    case BusWrite(id, shard) => Written(cfg, s, id, shard)
  }

  ghost predicate AllFit(cfg: Config, events: seq<InEvent>) {
    forall i :: 0 <= i < |events| ==> Fits(cfg, events[i])
  }

  /** A whole run. */
  function Run(cfg: Config, s: State, events: seq<InEvent>): Effect
    requires cfg.Wide() && AllFit(cfg, events)
  {
    if events == [] then
      Effect(s, [])
    else
      var before := Run(cfg, s, events[..|events| - 1]);
      var now := Step(cfg, before.state, events[|events| - 1]);
      Effect(now.state, before.actions + now.actions)
  }

  lemma RunSnoc(cfg: Config, s: State, events: seq<InEvent>, ev: InEvent)
    requires cfg.Wide() && AllFit(cfg, events) && Fits(cfg, ev)
    ensures AllFit(cfg, events + [ev])
    ensures var before := Run(cfg, s, events);
      Run(cfg, s, events + [ev]) == Step(cfg, before.state, ev).After(before.actions)
  {
    assert (events + [ev])[..|events|] == events;
  }

  /** The same with what was logged before. */
  lemma RunThen(cfg: Config, s: State, log: Log, events: seq<InEvent>, ev: InEvent, before: Effect, after: Effect)
    requires cfg.Wide() && AllFit(cfg, events) && Fits(cfg, ev)
    requires before == Run(cfg, s, events).After(log) && after == Step(cfg, before.state, ev).After(before.actions)
    ensures AllFit(cfg, events + [ev]) && after == Run(cfg, s, events + [ev]).After(log)
  {
    RunSnoc(cfg, s, events, ev);
    AfterAfter(log, Run(cfg, s, events), Step(cfg, before.state, ev));
  }

  lemma AfterAfter(log: Log, e: Effect, f: Effect)
    ensures f.After(e.After(log).actions) == f.After(e.actions).After(log)
  {
    assert log + e.actions + f.actions == log + (e.actions + f.actions);
  }

  // ---------- initialisation ----------

  /** A list of assignments collected into a map; a later assignment of a peer wins. */
  function Collect(distribution: seq<(PeerId, Sid)>): map<PeerId, Sid> {
    if distribution == [] then
      map[]
    else
      var (peer, sid) := distribution[|distribution| - 1];
      Collect(distribution[..|distribution| - 1])[peer := sid]
  }

  /** A peer has the last of the assignments made to it. */
  lemma {:induction false} CollectKeepsLast(distribution: seq<(PeerId, Sid)>, i: nat)
    requires i < |distribution|
    requires forall j :: i < j < |distribution| ==> distribution[j].0 != distribution[i].0
    ensures distribution[i].0 in Collect(distribution) && Collect(distribution)[distribution[i].0] == distribution[i].1
  {
    var rest := distribution[..|distribution| - 1];
    if i < |rest| {
      assert forall j :: i < j < |rest| ==> rest[j] == distribution[j];
      CollectKeepsLast(rest, i);
    }
  }

  lemma {:induction false} CollectAssigns(distribution: seq<(PeerId, Sid)>, peer: PeerId)
    ensures peer in Collect(distribution) <==> exists i :: 0 <= i < |distribution| && distribution[i].0 == peer
  {
    if distribution != [] {
      var rest := distribution[..|distribution| - 1];
      CollectAssigns(rest, peer);
      assert forall i :: 0 <= i < |rest| ==> rest[i] == distribution[i];
    }
  }

  function AllSids(n: nat): (ids: set<Sid>)
    ensures forall i: Sid :: i in ids <==> i < n
    ensures |ids| == n
  {
    if n == 0 then {} else AllSids(n - 1) + {n - 1}
  }

  predicate VerifyDistribution(code: Code, distribution: map<PeerId, Sid>) {
    distribution.Values == AllSids(code.Total())
  }

  // ---------- the event loop's state, updated in place ----------

  class InitializedDataMemory {
    var localStorage: Nested<Bytes>
    var toDistribute: Nested<Bytes>
    var currentlyAssembled: Nested<Bytes>
    var dataKnownLocations: Nested<PeerId>
    var stopped: bool
    /** What was sent to `connection.output`, among notes of opened sessions and decodings. */
    var log: Log
    const code: Code
    const localId: PeerId
    const distribution: map<PeerId, Sid>

    ghost function Cfg(): Config { Config(code, localId, distribution) }

    ghost function View(): State
      reads this
    {
      State(localStorage, toDistribute, currentlyAssembled, dataKnownLocations, stopped)
    }

    ghost predicate Valid()
      reads this
    {
      code.Valid() && !stopped
    }

    constructor (code: Code, localId: PeerId, distribution: map<PeerId, Sid>)
      requires code.Valid()
      ensures Valid() && View() == INITIAL && log == []
      ensures Cfg() == Config(code, localId, distribution)
    {
      this.code, this.localId, this.distribution := code, localId, distribution;
      localStorage, toDistribute, currentlyAssembled, dataKnownLocations := map[], map[], map[], map[];
      stopped, log := false, [];
    }

    method Send(out: OutEvent)
      modifies this`log
      ensures log == old(log) + [Emit(out)]
    {
      log := log + [Emit(out)];
    }

    /** `HashMap::insert` under `entry(id).or_default()` for the local storage; returns the old value. */
    method StoreShard(full: FullShardId, data: Bytes) returns (was: Option<Bytes>)
      modifies this`localStorage
      ensures localStorage == Insert(old(localStorage), full.id, full.sid, data)
      ensures was == Get(old(localStorage), full)
    {
      was := Get(localStorage, full);
      localStorage := Insert(localStorage, full.id, full.sid, data);
    }

    method OnPrepareService(id: Vid, data: Bytes)
      requires Valid() && code.IsData(data)
      modifies this
      ensures Valid() && Effect(View(), log) == Prepared(Cfg(), old(View()), id, data).After(old(log))
    {
      var shards := Encode(code, data);
      toDistribute := toDistribute[id := shards];
      Send(PreparedServiceResponse(id));
    }

    method HandleServeShardResponse(full: FullShardId, shard: Option<Bytes>)
      requires Valid()
      modifies this
      ensures Valid() && Effect(View(), log) == Stored(old(View()), full, shard).After(old(log))
    {
      if shard.Some? {
        var _ := StoreShard(full, shard.value);
        Send(AssignedStoreSuccess(full));
      }
    }

    method OnStorageRequestTx(id: Vid, author: PeerId)
      requires Valid()
      modifies this
      ensures Valid() && Effect(View(), log) == Pulled(Cfg(), old(View()), id, author).After(old(log))
    {
      if localId !in distribution {
        return;
      }
      var full := Full(id, distribution[localId]);
      if author == localId {
        // as if the shard had just been served to this peer
        HandleServeShardResponse(full, Get(toDistribute, full));
      } else {
        Send(ServeShardRequest(full, author));
      }
    }

    method OnServeRequested(full: FullShardId)
      requires Valid()
      modifies this
      ensures Valid() && Effect(View(), log) == Step(Cfg(), old(View()), ServeRequested(full)).After(old(log))
    {
      Send(ServeShardResponse(full, Get(toDistribute, full)));
    }

    method ObserveNewLocation(full: FullShardId, location: PeerId)
      modifies this`toDistribute, this`dataKnownLocations
      ensures View() == Observed(old(View()), full, location)
    {
      if full.id in toDistribute {
        toDistribute := toDistribute[full.id := toDistribute[full.id] - {full.sid}];
      }
      dataKnownLocations := Insert(dataKnownLocations, full.id, full.sid, location);
    }

    method OnStoreConfirmed(full: FullShardId, location: PeerId)
      requires Valid()
      modifies this
      ensures Valid() && Effect(View(), log) == Confirmed(Cfg(), old(View()), full, location).After(old(log))
    {
      ObserveNewLocation(full, location);
      var known := |dataKnownLocations[full.id]|;
      if known == K {
        Send(DistributionSufficient(full.id));
      }
      if known == code.Total() {
        toDistribute := toDistribute - {full.id};
        Send(DistributionFull(full.id));
      }
    }

    method OnAssignedRequested(full: FullShardId)
      requires Valid()
      modifies this
      ensures Valid() && Effect(View(), log) == Step(Cfg(), old(View()), AssignedRequested(full)).After(old(log))
    {
      Send(AssignedResponse(full, Get(localStorage, full)));
    }

    method OnListRequested()
      requires Valid()
      modifies this
      ensures Valid() && Effect(View(), log) == Step(Cfg(), old(View()), ListRequested).After(old(log))
    {
      Send(ListDistributed(map id | id in dataKnownLocations && |dataKnownLocations[id]| >= K :: dataKnownLocations[id]));
    }

    method HandleAssignedResponse(full: FullShardId, shard: Option<Bytes>)
      requires Valid()
      modifies this
      ensures Valid() && Effect(View(), log) == Collected(Cfg(), old(View()), full, shard).After(old(log))
    {
      if shard.None? || full.id !in currentlyAssembled {
        return;
      }
      if full.sid in currentlyAssembled[full.id] {
        return;
      }
      var shards: map<Sid, Bytes> := currentlyAssembled[full.id][full.sid := shard.value];
      currentlyAssembled := currentlyAssembled[full.id := shards];
      if |shards| >= K {
        currentlyAssembled := currentlyAssembled - {full.id};
        log := log + [Decoding(full.id, shards)];
        var data := Decode(code, shards);
        if data.Ok? {
          Send(RecollectResponse(Ok((full.id, data.value))));
        }
      }
    }

    method AskOwner(full: FullShardId, known: map<Sid, PeerId>)
      requires Valid() && full.sid in known
      modifies this
      ensures Valid() && Effect(View(), log) == AskOne(Cfg(), old(View()), full, known).After(old(log))
    {
      if known[full.sid] == localId {
        // as if the shard had just arrived from a peer
        HandleAssignedResponse(full, Get(localStorage, full));
      } else {
        Send(AssignedRequest(full, known[full.sid]));
      }
    }

    method AskOwners(id: Vid, known: map<Sid, PeerId>) returns (ghost order: seq<Sid>)
      requires Valid()
      modifies this
      ensures Valid() && Effect(View(), log) == Asked(Cfg(), old(View()), id, known, order).After(old(log))
      ensures (forall sid :: sid in order <==> sid in known) && |order| == |known|
    {
      order := [];
      var left := known.Keys;
      while left != {}
        invariant Valid() && left <= known.Keys
        invariant Effect(View(), log) == Asked(Cfg(), old(View()), id, known, order).After(old(log))
        invariant forall sid :: sid in order <==> sid in known.Keys - left
        invariant |order| == |known| - |left|
        decreases |left|
      {
        var sid :| sid in left;
        left := left - {sid};
        AskOwner(Full(id, sid), known);
        assert (order + [sid])[..|order|] == order;
        order := order + [sid];
      }
    }

    /** The owners are asked in an order chosen by the map; each known location is visited once. */
    method OnRecollectRequest(id: Vid) returns (ghost order: seq<Sid>)
      requires Valid()
      modifies this
      ensures Valid() && Effect(View(), log) == Recollected(Cfg(), old(View()), id, order).After(old(log))
      ensures id in old(dataKnownLocations) && K <= |old(dataKnownLocations)[id]| && id !in old(currentlyAssembled) ==>
        (forall sid :: sid in order <==> sid in old(dataKnownLocations)[id]) && |order| == |old(dataKnownLocations)[id]|
    {
      order := [];
      if id !in dataKnownLocations {
        Send(RecollectResponse(Err(UnknownDataId)));
      } else if |dataKnownLocations[id]| < K {
        Send(RecollectResponse(Err(NotEnoughShards)));
      } else if id !in currentlyAssembled {
        currentlyAssembled := currentlyAssembled[id := map[]];
        log := log + [Opened(id)];
        order := AskOwners(id, dataKnownLocations[id]);
      }
    }

    method OnPeerShardsActualized(peer: PeerId, ids: seq<Vid>)
      requires Valid()
      modifies this`dataKnownLocations, this`stopped
      ensures Effect(View(), log) == Actualized(Cfg(), old(View()), peer, ids).After(old(log))
    {
      if peer !in distribution {
        // the loop returns here: the module is over
        stopped := true;
        return;
      }
      for i := 0 to |ids|
        invariant stopped == old(stopped)
        invariant dataKnownLocations == Located(old(dataKnownLocations), ids[..i], distribution[peer], peer)
      {
        assert ids[..i + 1][..i] == ids[..i];
        dataKnownLocations := Insert(dataKnownLocations, ids[i], distribution[peer], peer);
      }
      assert ids[..|ids|] == ids;
    }

    method OnBusRead(id: Vid) returns (r: Option<Bytes>)
      ensures ReadAnswer(View(), id, r)
    {
      if id !in localStorage || localStorage[id] == map[] {
        return None;
      }
      assert localStorage[id].Keys != {};
      var sid :| sid in localStorage[id];
      r := Some(localStorage[id][sid]);
    }

    method OnBusWrite(id: Vid, shard: Bytes)
      requires Valid()
      modifies this
      ensures Valid() && Effect(View(), log) == Written(Cfg(), old(View()), id, shard).After(old(log))
    {
      if localId in distribution {
        var _ := StoreShard(Full(id, distribution[localId]), shard);
      }
    }

    /** One turn of the event loop; `done` is the event with the order in which the map was iterated. */
    method Handle(ev: InEvent) returns (answer: Option<Bytes>, ghost done: InEvent)
      requires Valid() && Fits(Cfg(), ev)
      modifies this
      ensures Same(ev, done) && Effect(View(), log) == Step(Cfg(), old(View()), done).After(old(log))
      ensures ev.RecollectRequest? && Starts(old(View()), ev.id) ==> Visits(done.order, old(dataKnownLocations)[ev.id])
      ensures ev.BusRead? ==> ReadAnswer(View(), ev.id, answer)
    {
      answer, done := None, ev;
      match ev {
        case PrepareService(id, data) => OnPrepareService(id, data);
        case StorageRequestTx(id, author) => OnStorageRequestTx(id, author);
        case ServedShard(full, shard) => HandleServeShardResponse(full, shard);
        case ServeRequested(full) => OnServeRequested(full);
        case StoreConfirmed(full, location) => OnStoreConfirmed(full, location);
        case AssignedRequested(full) => OnAssignedRequested(full);
        case AssignedShard(full, shard) => HandleAssignedResponse(full, shard);
        case ListRequested => OnListRequested();
        case RecollectRequest(id, _) =>
          ghost var order := OnRecollectRequest(id);
          done := RecollectRequest(id, order);
        case PeerShardsActualized(peer, ids) => OnPeerShardsActualized(peer, ids);
        case BusRead(id) => answer := OnBusRead(id);
        case BusWrite(id, shard) => OnBusWrite(id, shard);
      }
    }

    /** The event loop, until it ends itself or the events do. */
    method Loop(events: seq<InEvent>) returns (ghost done: seq<InEvent>)
      requires Valid() && AllFit(Cfg(), events)
      modifies this
      ensures |done| < |events| ==> stopped
      ensures AllSame(events, done) && AllFit(Cfg(), done)
      ensures Effect(View(), log) == Run(Cfg(), old(View()), done).After(old(log))
    {
      done := [];
      var i := 0;
      while i < |events| && !stopped
        invariant |done| == i <= |events|
        invariant AllSame(events, done) && AllFit(Cfg(), done)
        invariant Effect(View(), log) == Run(Cfg(), old(View()), done).After(old(log))
      {
        ghost var before := Effect(View(), log);
        var answer;
        ghost var ev;
        answer, ev := Handle(events[i]);
        RunThen(Cfg(), old(View()), old(log), done, ev, before, Effect(View(), log));
        done := done + [ev];
        i := i + 1;
      }
    }
  }

  /** The same event, but for the order in which a map is iterated. */
  predicate Same(ev: InEvent, done: InEvent) {
    if ev.RecollectRequest? then done.RecollectRequest? && done.id == ev.id else done == ev
  }

  ghost predicate AllSame(events: seq<InEvent>, done: seq<InEvent>) {
    |done| <= |events| && forall i :: 0 <= i < |done| ==> Same(events[i], done[i])
  }

  /** Every known location once. */
  ghost predicate Visits(order: seq<Sid>, known: map<Sid, PeerId>) {
    (forall sid :: sid in order <==> sid in known) && |order| == |known|
  }

  /** `UninitializedDataMemory::run` on an `Initialize` event. */
  method Initialize(code: Code, localId: PeerId, distribution: seq<(PeerId, Sid)>)
      returns (memory: InitializedDataMemory?)
    requires code.Valid()
    ensures memory != null <==> VerifyDistribution(code, Collect(distribution))
    ensures memory != null ==> fresh(memory) && memory.Valid() && memory.View() == INITIAL
    ensures memory != null ==> memory.Cfg() == Config(code, localId, Collect(distribution))
    ensures memory != null ==> memory.log == [Emit(Initialized)]
  {
    var collected: map<PeerId, Sid> := map[];
    for i := 0 to |distribution|
      invariant collected == Collect(distribution[..i])
    {
      var (peer, sid) := distribution[i];
      collected := collected[peer := sid];
      assert distribution[..i + 1][..i] == distribution[..i];
    }
    assert distribution[..|distribution|] == distribution;
    if !VerifyDistribution(code, collected) {
      return null;
    }
    memory := new InitializedDataMemory(code, localId, collected);
    memory.Send(Initialized);
  }
}
