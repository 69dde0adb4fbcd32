/**
 The network behaviour (src/behaviour/mod.rs): it routes events between the data memory and the
 network, remembers which request a response belongs to, and keeps the channels of peers that
 wait for an answer, several of them under one request when they ask for the same shard.
 */
module Behaviour {
  import opened Types
  import D = DataMemory
  import ReedSolomon

  type RequestId = nat
  type Channel = nat

  datatype Request = ServeShard(full: D.FullShardId) | GetShard(full: D.FullShardId)

  datatype Response = Served(shard: Option<Bytes>) | Got(shard: Option<Bytes>)

  datatype Waiter = Waiter(requestId: RequestId, channel: Channel)

  datatype Answer = Answer(request: Request, waiter: Waiter, response: Response)

  datatype Outgoing = Outgoing(request: Request, to: PeerId)

  /** What the behaviour puts to consensus on behalf of the data memory, and what it tells the user. */
  datatype Transaction = StorageRequest(id: Vid) | Stored(full: D.FullShardId)

  datatype UserEvent =
    | StorageInitialized
    | PutConfirmed(id: Vid)
    | ListStoredResponse(list: map<Vid, map<Sid, PeerId>>)
    | GetResponse(response: Result<(Vid, Bytes), D.RecollectionError>)

  /** `made` and `answers` are what was sent to the network module, `scheduled` to consensus, `shown` to the user. */
  datatype State = State(
    pending: map<RequestId, Request>,
    processed: map<Request, seq<Waiter>>,
    made: seq<Outgoing>,
    answers: seq<Answer>,
    scheduled: seq<Transaction>,
    shown: seq<UserEvent>)

  const INITIAL: State := State(map[], map[], [], [], [], [])

  function Waiting(b: State, request: Request): seq<Waiter> {
    if request in b.processed then b.processed[request] else []
  }

  function AnswerAll(request: Request, waiters: seq<Waiter>, response: Response): seq<Answer> {
    if waiters == [] then [] else
    AnswerAll(request, waiters[..|waiters| - 1], response) + [Answer(request, waiters[|waiters| - 1], response)]
  }

  /** Every channel waiting under the request gets the response. */
  function Respond(b: State, request: Request, response: Response): State {
    b.(processed := b.processed - {request}, answers := b.answers + AnswerAll(request, Waiting(b, request), response))
  }

  /** An event from the data memory. */
  function MemoryOutput(b: State, out: D.OutEvent): State {
    match out
    case ServeShardRequest(full, peer) => b.(made := b.made + [Outgoing(ServeShard(full), peer)])
    case AssignedRequest(full, peer) => b.(made := b.made + [Outgoing(GetShard(full), peer)])
    case ServeShardResponse(full, shard) => Respond(b, ServeShard(full), Served(shard))
    case AssignedResponse(full, shard) => Respond(b, GetShard(full), Got(shard))
    case PreparedServiceResponse(id) => b.(scheduled := b.scheduled + [StorageRequest(id)])
    case AssignedStoreSuccess(full) => b.(scheduled := b.scheduled + [Stored(full)])
    case Initialized => b.(shown := b.shown + [StorageInitialized])
    case DistributionSufficient(_) => b
    case DistributionFull(id) => b.(shown := b.shown + [PutConfirmed(id)])
    case ListDistributed(list) => b.(shown := b.shown + [ListStoredResponse(list)])
    case RecollectResponse(response) => b.(shown := b.shown + [GetResponse(response)])
  }

  /** What the data memory is asked for a request of a peer. */
  function EventFor(request: Request): D.InEvent {
    match request
    case ServeShard(full) => D.ServeRequested(full)
    case GetShard(full) => D.AssignedRequested(full)
  }

  function Incoming(b: State, request: Request, waiter: Waiter): State {
    b.(processed := b.processed[request := Waiting(b, request) + [waiter]])
  }

  /** A response is passed on if it fits a request made under that id; the id stays pending. */
  function ResponseEvents(b: State, id: RequestId, response: Response): seq<D.InEvent> {
    if id !in b.pending then [] else
    match (b.pending[id], response)
    case (GetShard(full), Got(shard)) => [D.AssignedShard(full, shard)]
    case (ServeShard(full), Served(shard)) => [D.ServedShard(full, shard)]
    case _ => []
  }

  // ---------- the behaviour's state, updated in place ----------

  class NetworkBehaviour {
    var pendingResponse: map<RequestId, Request>
    var processedRequests: map<Request, seq<Waiter>>
    var connectedPeers: set<PeerId>
    /** sent to `request_response.input` */
    var made: seq<Outgoing>
    var answers: seq<Answer>
    /** sent to `consensus.input` and `user_interaction.output` */
    var scheduled: seq<Transaction>
    var shown: seq<UserEvent>
    /** sent to `data_memory.input` */
    var toMemory: seq<D.InEvent>

    ghost function View(): State
      reads this
    {
      State(pendingResponse, processedRequests, made, answers, scheduled, shown)
    }

    constructor ()
      ensures View() == INITIAL && toMemory == [] && connectedPeers == {}
    {
      pendingResponse, processedRequests, connectedPeers := map[], map[], {};
      made, answers, scheduled, shown, toMemory := [], [], [], [], [];
    }

    method RespondAll(request: Request, response: Response)
      modifies this`processedRequests, this`answers
      ensures View() == Respond(old(View()), request, response)
    {
      var waiting := if request in processedRequests then processedRequests[request] else [];
      processedRequests := processedRequests - {request};
      for i := 0 to |waiting|
        invariant processedRequests == old(processedRequests) - {request}
        invariant answers == old(answers) + AnswerAll(request, waiting[..i], response)
      {
        assert waiting[..i + 1][..i] == waiting[..i];
        answers := answers + [Answer(request, waiting[i], response)];
      }
      assert waiting[..|waiting|] == waiting;
    }

    method OnMemoryOutput(out: D.OutEvent)
      modifies this`processedRequests, this`answers, this`made, this`scheduled, this`shown
      ensures View() == MemoryOutput(old(View()), out)
    {
      match out {
        case ServeShardRequest(full, peer) => made := made + [Outgoing(ServeShard(full), peer)];
        case AssignedRequest(full, peer) => made := made + [Outgoing(GetShard(full), peer)];
        case ServeShardResponse(full, shard) => RespondAll(ServeShard(full), Served(shard));
        case AssignedResponse(full, shard) => RespondAll(GetShard(full), Got(shard));
        case PreparedServiceResponse(id) => scheduled := scheduled + [StorageRequest(id)];
        case AssignedStoreSuccess(full) => scheduled := scheduled + [Stored(full)];
        case Initialized => shown := shown + [StorageInitialized];
        case DistributionSufficient(_) =>
        case DistributionFull(id) => shown := shown + [PutConfirmed(id)];
        case ListDistributed(list) => shown := shown + [ListStoredResponse(list)];
        case RecollectResponse(response) => shown := shown + [GetResponse(response)];
      }
    }

    method OnIncomingRequest(request: Request, waiter: Waiter)
      modifies this`processedRequests, this`toMemory
      ensures View() == Incoming(old(View()), request, waiter)
      ensures toMemory == old(toMemory) + [EventFor(request)]
    {
      toMemory := toMemory + [EventFor(request)];
      var waiting := if request in processedRequests then processedRequests[request] else [];
      processedRequests := processedRequests[request := waiting + [waiter]];
    }

    method OnAssignedRequestId(id: RequestId, request: Request)
      modifies this`pendingResponse
      ensures View() == old(View()).(pending := old(pendingResponse)[id := request])
    {
      pendingResponse := pendingResponse[id := request];
    }

    method OnResponse(id: RequestId, response: Response)
      modifies this`toMemory
      ensures toMemory == old(toMemory) + ResponseEvents(View(), id, response)
    {
      if id in pendingResponse {
        match (pendingResponse[id], response) {
          case (GetShard(full), Got(shard)) => toMemory := toMemory + [D.AssignedShard(full, shard)];
          case (ServeShard(full), Served(shard)) => toMemory := toMemory + [D.ServedShard(full, shard)];
          case _ =>
        }
      }
    }

    /** On `KnownPeersResponse`: known and connected peers numbered from 0 in the order of a hash set. */
    method BuildDistribution(known: seq<PeerId>) returns (distribution: seq<(PeerId, Sid)>)
      ensures Numbers(distribution, (set p | p in known) + connectedPeers)
    {
      var peers := (set p | p in known) + connectedPeers;
      ghost var all := peers;
      distribution := [];
      while peers != {}
        invariant peers <= all
        invariant Numbers(distribution, all - peers)
        decreases |peers|
      {
        var p :| p in peers;
        NumberOne(distribution, all - peers, p);
        distribution := distribution + [(p, |distribution|)];
        assert all - (peers - {p}) == (all - peers) + {p};
        peers := peers - {p};
      }
      assert all - {} == all;
    }
  }

  // ---------- the distribution ----------

  /** The list numbers each of `peers` once, in some order. */
  ghost predicate Numbers(distribution: seq<(PeerId, Sid)>, peers: set<PeerId>) {
    && (forall i :: 0 <= i < |distribution| ==> distribution[i].1 == i)
    && (forall i, j :: 0 <= i < j < |distribution| ==> distribution[i].0 != distribution[j].0)
    && (forall i :: 0 <= i < |distribution| ==> distribution[i].0 in peers)
    && |distribution| == |peers|
  }

  lemma NumberOne(distribution: seq<(PeerId, Sid)>, peers: set<PeerId>, p: PeerId)
    requires Numbers(distribution, peers) && p !in peers
    ensures Numbers(distribution + [(p, |distribution|)], peers + {p})
  {
  }

  /** Collected into a map, the list sends its peers to their numbers. */
  lemma {:induction false} CollectNumbers(distribution: seq<(PeerId, Sid)>)
    requires forall i :: 0 <= i < |distribution| ==> distribution[i].1 == i
    requires forall i, j :: 0 <= i < j < |distribution| ==> distribution[i].0 != distribution[j].0
    ensures forall i :: 0 <= i < |distribution| ==>
      distribution[i].0 in D.Collect(distribution) && D.Collect(distribution)[distribution[i].0] == i
    ensures forall p :: p in D.Collect(distribution) ==>
      D.Collect(distribution)[p] < |distribution| && distribution[D.Collect(distribution)[p]].0 == p
  {
    if distribution != [] {
      var rest := distribution[..|distribution| - 1];
      CollectNumbers(rest);
      var (last, sid) := distribution[|distribution| - 1];
      forall i | 0 <= i < |distribution|
        ensures distribution[i].0 in D.Collect(distribution) && D.Collect(distribution)[distribution[i].0] == i
      {
        assert i < |rest| ==> rest[i] == distribution[i];
      }
    }
  }

  ghost predicate Bijection(m: map<PeerId, Sid>, peers: set<PeerId>, n: nat) {
    && m.Keys == peers
    && (forall p :: p in m ==> m[p] < n)
    && (forall p, q :: p in m && q in m && m[p] == m[q] ==> p == q)
    && m.Values == D.AllSids(n)
  }

  lemma NumbersIsBijection(distribution: seq<(PeerId, Sid)>, peers: set<PeerId>)
    requires Numbers(distribution, peers)
    ensures Bijection(D.Collect(distribution), peers, |peers|)
  {
    CollectNumbers(distribution);
    var m := D.Collect(distribution);
    assert m.Keys <= peers;
    forall i: Sid | i in D.AllSids(|peers|)
      ensures i in m.Values
    {
      assert m[distribution[i].0] == i;
    }
    assert m.Values == D.AllSids(|peers|);
    ValuesSize(m);
    ReedSolomon.SubsetSize(m.Keys, peers);
    ReedSolomon.SubsetEqual(m.Keys, peers);
  }

  lemma {:induction false} ValuesSize(m: map<PeerId, Sid>)
    ensures |m.Values| <= |m.Keys|
    decreases |m|
  {
    if m.Keys != {} {
      var p :| p in m.Keys;
      var rest := m - {p};
      assert rest.Keys == m.Keys - {p};
      ValuesSize(rest);
      assert m.Values == rest.Values + {m[p]};
    }
  }

  /**
   The distribution built from known and connected peers is accepted exactly when their number is
   the total number of shards, and then assigns each shard id to one of them.
   */
  lemma AcceptedIff(code: ReedSolomon.Code, distribution: seq<(PeerId, Sid)>, peers: set<PeerId>)
    requires Numbers(distribution, peers)
    ensures D.VerifyDistribution(code, D.Collect(distribution)) <==> |peers| == code.Total()
    ensures Bijection(D.Collect(distribution), peers, |peers|)
  {
    NumbersIsBijection(distribution, peers);
    assert |D.AllSids(|peers|)| == |peers|;
    assert |D.AllSids(code.Total())| == code.Total();
  }
}
