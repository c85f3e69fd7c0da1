/**
  The packaged copy of `GodotEnvironment` (godot_interface): `reset` takes
  only the render flag and always draws the episode seed, the receive loop
  keeps packets longer than 4 bytes until one is shorter than 4096, and `step`
  keeps the lists `regions` and `misc` read from agent 0.
 */
module PackageEnvironment {
  import opened Bytes
  import opened Stream
  import opened Protocol
  import opened Lifecycle

  const RecvBufferSize: nat := 4096
  const SeedBound: int := 1000000

  // ------------------------------------------------------------- receiving

  /** A packet the loop keeps: longer than 4 bytes. */
  predicate Kept(packet: seq<byte>)
  {
    4 < |packet|
  }

  /** A packet that ends the loop: kept, and shorter than the receive buffer. */
  predicate Final(packet: seq<byte>)
  {
    Kept(packet) && |packet| < RecvBufferSize
  }

  /** The kept packets among `ps`, in order. */
  function KeptPackets(ps: seq<seq<byte>>): (r: seq<seq<byte>>)
  {
    if ps == [] then [] else (if Kept(ps[0]) then [ps[0]] else []) + KeptPackets(ps[1..])
  }

  /** Exactly the packets longer than 4 bytes are kept. */
  lemma {:induction false} KeptPacketsAreTheLongOnes(ps: seq<seq<byte>>)
    ensures forall i | 0 <= i < |KeptPackets(ps)| :: Kept(KeptPackets(ps)[i])
    ensures forall p | p in KeptPackets(ps) :: p in ps
    ensures forall p | p in ps && Kept(p) :: p in KeptPackets(ps)
    decreases |ps|
  {
    if ps != [] {
      KeptPacketsAreTheLongOnes(ps[1..]);
      var head := if Kept(ps[0]) then [ps[0]] else [];
      assert KeptPackets(ps) == head + KeptPackets(ps[1..]);
      assert forall p | p in ps :: p == ps[0] || p in ps[1..];
    }
  }

  /** Keeping distributes over concatenation, so the kept packets stay in the order received. */
  lemma {:induction false} KeptPacketsAppend(a: seq<seq<byte>>, b: seq<seq<byte>>)
    ensures KeptPackets(a + b) == KeptPackets(a) + KeptPackets(b)
    decreases |a|
  {
    if a == [] {
      assert a + b == b;
    } else {
      assert (a + b)[0] == a[0] && (a + b)[1..] == a[1..] + b;
      KeptPacketsAppend(a[1..], b);
    }
  }

  /**
    The loop of `_wait_and_receive_states_data`: packets of 4 bytes or fewer
    are dropped, longer ones appended, and the loop stops after appending one
    shorter than 4096 bytes. Once the peer has closed, every receive is empty
    and the loop never ends (None).
   */
  function LengthHeuristic(packets: seq<seq<byte>>, total: seq<byte>): (r: Option<seq<byte>>)
    decreases |packets|
  {
    if packets == [] then None
    else
      var p := packets[0];
      var total := if Kept(p) then total + p else total;
      if Final(p) then Some(total) else LengthHeuristic(packets[1..], total)
  }

  /** How many packets that loop receives before it returns; all of them when it never does. */
  function LengthHeuristicReads(packets: seq<seq<byte>>): (n: nat)
    ensures n <= |packets|
    decreases |packets|
  {
    if packets == [] then 0 else if Final(packets[0]) then 1 else 1 + LengthHeuristicReads(packets[1..])
  }

  lemma KeptPacketsUncons(packets: seq<seq<byte>>, i: nat)
    requires i < |packets|
    ensures Flatten(KeptPackets(packets[..i + 1])) ==
            (if Kept(packets[0]) then packets[0] else []) + Flatten(KeptPackets(packets[1..][..i]))
  {
    var ps := packets[..i + 1];
    assert ps[0] == packets[0] && ps[1..] == packets[1..][..i];
    if Kept(packets[0]) {
      FlattenAppend([packets[0]], KeptPackets(packets[1..][..i]));
      assert Flatten([packets[0]]) == packets[0] + Flatten([]);
    } else {
      assert KeptPackets(ps) == KeptPackets(packets[1..][..i]);
    }
  }

  /**
    When packet i is the first final one, the loop returns the kept packets up
    to and including it, concatenated in order.
   */
  lemma {:induction false} LengthHeuristicStopsAtFirstFinal(packets: seq<seq<byte>>, total: seq<byte>, i: nat)
    requires i < |packets| && Final(packets[i])
    requires forall j | 0 <= j < i :: !Final(packets[j])
    ensures LengthHeuristic(packets, total) == Some(total + Flatten(KeptPackets(packets[..i + 1])))
    decreases i
  {
    var p := packets[0];
    var next := if Kept(p) then total + p else total;
    KeptPacketsUncons(packets, i);
    if i == 0 {
      assert Flatten(KeptPackets(packets[1..][..0])) == [];
      assert Final(p) && Kept(p);
      assert LengthHeuristic(packets, total) == Some(total + p);
      assert p + [] == p;
    } else {
      var rest := packets[1..];
      assert !Final(p);
      assert forall j | 0 <= j < i - 1 :: !Final(rest[j]) by {
        forall j | 0 <= j < i - 1 ensures !Final(rest[j]) {
          assert rest[j] == packets[j + 1];
        }
      }
      LengthHeuristicStopsAtFirstFinal(rest, next, i - 1);
      assert LengthHeuristic(packets, total) == LengthHeuristic(rest, next);
      assert next + Flatten(KeptPackets(rest[..i])) ==
             total + ((if Kept(p) then p else []) + Flatten(KeptPackets(rest[..i])));
    }
  }

  /** When packet i is the first final one, the loop reads no packet after it. */
  lemma {:induction false} LengthHeuristicReadsToFirstFinal(packets: seq<seq<byte>>, i: nat)
    requires i < |packets| && Final(packets[i])
    requires forall j | 0 <= j < i :: !Final(packets[j])
    ensures LengthHeuristicReads(packets) == i + 1
    decreases i
  {
    if i > 0 {
      assert !Final(packets[0]);
      var rest := packets[1..];
      assert forall j | 0 <= j < i - 1 :: !Final(rest[j]) by {
        forall j | 0 <= j < i - 1 ensures !Final(rest[j]) {
          assert rest[j] == packets[j + 1];
        }
      }
      LengthHeuristicReadsToFirstFinal(rest, i - 1);
    }
  }

  /** Without a final packet the loop never returns, having read every packet. */
  lemma {:induction false} LengthHeuristicWithoutFinal(packets: seq<seq<byte>>, total: seq<byte>)
    requires forall j | 0 <= j < |packets| :: !Final(packets[j])
    ensures LengthHeuristic(packets, total) == None
    ensures LengthHeuristicReads(packets) == |packets|
    decreases |packets|
  {
    if packets != [] {
      var p := packets[0];
      assert !Final(p);
      LengthHeuristicWithoutFinal(packets[1..], if Kept(p) then total + p else total);
    }
  }

  /**
    The bytes a peer sends do not decide the message: ten bytes arriving
    together are received whole, but split three and seven, the first three
    are dropped.
   */
  lemma LengthHeuristicDependsOnChunking()
    ensures LengthHeuristic(Packets([[1, 2, 3, 4, 5, 6, 7, 8, 9, 10]], RecvBufferSize), []) ==
            Some([1, 2, 3, 4, 5, 6, 7, 8, 9, 10])
    ensures LengthHeuristic(Packets([[1, 2, 3], [4, 5, 6, 7, 8, 9, 10]], RecvBufferSize), []) ==
            Some([4, 5, 6, 7, 8, 9, 10])
  {
    var whole: seq<byte> := [1, 2, 3, 4, 5, 6, 7, 8, 9, 10];
    var tail: seq<byte> := [4, 5, 6, 7, 8, 9, 10];
    assert Final(whole) && !Kept([1, 2, 3]) && Final(tail);
    assert [] + whole == whole && [] + tail == tail;
    assert LengthHeuristic([whole], []) == Some(whole);
    assert LengthHeuristic([[1, 2, 3], tail], []) == LengthHeuristic([tail], []);
    assert LengthHeuristic([tail], []) == Some(tail);
    assert Packets([[1, 2, 3, 4, 5, 6, 7, 8, 9, 10]], RecvBufferSize) == [[1, 2, 3, 4, 5, 6, 7, 8, 9, 10]];
    assert Packets([[1, 2, 3], [4, 5, 6, 7, 8, 9, 10]], RecvBufferSize) == [[1, 2, 3], [4, 5, 6, 7, 8, 9, 10]] by {
      assert RecvFrom([[1, 2, 3], [4, 5, 6, 7, 8, 9, 10]], RecvBufferSize) == ([1, 2, 3], [[4, 5, 6, 7, 8, 9, 10]]);
      assert Packets([[4, 5, 6, 7, 8, 9, 10]], RecvBufferSize) == [[4, 5, 6, 7, 8, 9, 10]];
    }
  }

  /** `_get_environment_state` on what the connection still holds: receive, then decode. */
  function ReceiveEnvData(codec: JsonCodec, pending: seq<seq<byte>>): (r: Result<EnvData>)
    requires NonEmptyChunks(pending)
  {
    match LengthHeuristic(Packets(pending, RecvBufferSize), [])
    case None => Err(NeverReturns)
    case Some(bytes) =>
      match codec.format(bytes)
      case None => Err(DecodeError)
      case Some(envData) => Ok(envData)
  }

  /** What that receive leaves on the connection: the chunks after the packets its loop read. */
  function ReceiveRest(pending: seq<seq<byte>>): (rest: seq<seq<byte>>)
    requires NonEmptyChunks(pending)
    ensures NonEmptyChunks(rest)
  {
    PendingAfter(pending, RecvBufferSize, LengthHeuristicReads(Packets(pending, RecvBufferSize)))
  }

  /**
    A receive that ends at the first final packet consumes the packets up to
    it, the dropped short ones included, and leaves the packets after it on the
    connection, where they begin the next response.
   */
  lemma ReceiveLeavesTheRest(pending: seq<seq<byte>>, i: nat)
    requires NonEmptyChunks(pending)
    requires i < |Packets(pending, RecvBufferSize)| && Final(Packets(pending, RecvBufferSize)[i])
    requires forall j | 0 <= j < i :: !Final(Packets(pending, RecvBufferSize)[j])
    ensures Packets(ReceiveRest(pending), RecvBufferSize) == Packets(pending, RecvBufferSize)[i + 1..]
    ensures Flatten(pending) == Flatten(Packets(pending, RecvBufferSize)[..i + 1]) + Flatten(ReceiveRest(pending))
  {
    var ps := Packets(pending, RecvBufferSize);
    LengthHeuristicReadsToFirstFinal(ps, i);
    var n := LengthHeuristicReads(ps);
    PendingAfterRest(pending, RecvBufferSize, n);
  }

  /** A receive that never returns has drained the connection. */
  lemma ReceiveWithoutFinalDrains(pending: seq<seq<byte>>)
    requires NonEmptyChunks(pending)
    requires forall j | 0 <= j < |Packets(pending, RecvBufferSize)| :: !Final(Packets(pending, RecvBufferSize)[j])
    ensures ReceiveRest(pending) == []
  {
    var ps := Packets(pending, RecvBufferSize);
    LengthHeuristicWithoutFinal(ps, []);
    PendingAfterRest(pending, RecvBufferSize, |ps|);
    NoPacketsNoPending(ReceiveRest(pending), RecvBufferSize);
  }

  // --------------------------------------------------------------- metrics

  /** The `metrics` dictionary of this copy: the lists `regions` and `misc`. */
  datatype Metrics = Metrics(regions: seq<Json>, misc: seq<Json>)

  /** As `__init__` and `reset` set it. */
  const EmptyMetrics := Metrics([], [])

  /**
    The metric bookkeeping of `step` on agent 0's metrics: the metrics
    afterwards, and false when it raises KeyError (`region` or `misc` missing;
    a missing `misc` is noticed after `region` was appended).
   */
  function UpdateMetrics(m: Metrics, data: map<string, Json>): (r: (Metrics, bool))
    ensures r.1 <==> "region" in data && "misc" in data
    ensures "region" !in data ==> r.0 == m
    ensures "region" in data ==> r.0.regions == m.regions + [data["region"]]
    ensures r.0.misc == m.misc + (if "region" in data && "misc" in data && Truthy(data["misc"]) then [data["misc"]] else [])
  {
    if "region" !in data then (m, false)
    else
      var m' := m.(regions := m.regions + [data["region"]]);
      if "misc" !in data then (m', false)
      else if Truthy(data["misc"]) then (m'.(misc := m.misc + [data["misc"]]), true)
      else (m', true)
  }

  /** The values stored under `key` that are truthy, in order. */
  function TruthyColumn(ds: seq<map<string, Json>>, key: string): (column: seq<Json>)
  {
    if ds == [] then []
    else (if key in ds[0] && Truthy(ds[0][key]) then [ds[0][key]] else []) + TruthyColumn(ds[1..], key)
  }

  /** The metrics after a run of steps, None when one of them raises KeyError. */
  function AccumulateMetrics(m: Metrics, ds: seq<map<string, Json>>): (r: Option<Metrics>)
    decreases |ds|
  {
    if ds == [] then Some(m)
    else
      var (next, ok) := UpdateMetrics(m, ds[0]);
      if ok then AccumulateMetrics(next, ds[1..]) else None
  }

  /** Every step appends its region; `misc` only when truthy. */
  lemma {:induction false} EpisodeMetricsAccumulate(m: Metrics, ds: seq<map<string, Json>>)
    requires forall i | 0 <= i < |ds| :: "region" in ds[i] && "misc" in ds[i]
    ensures AccumulateMetrics(m, ds) ==
            Some(Metrics(m.regions + Column(ds, "region"), m.misc + TruthyColumn(ds, "misc")))
    decreases |ds|
  {
    if ds != [] {
      var (next, ok) := UpdateMetrics(m, ds[0]);
      EpisodeMetricsAccumulate(next, ds[1..]);
      assert ok;
      assert next.regions + Column(ds[1..], "region") == m.regions + Column(ds, "region");
      assert next.misc + TruthyColumn(ds[1..], "misc") == m.misc + TruthyColumn(ds, "misc");
    } else {
      assert m.regions + Column(ds, "region") == m.regions && m.misc + TruthyColumn(ds, "misc") == m.misc;
    }
  }

  // ------------------------------------------------------------------ step

  /**
    What `step` makes of the received environment data: the split views with
    per-frame rewards, or the exception it raises; and the metrics afterwards.
   */
  function StepOutcome(received: Result<EnvData>, m: Metrics): (r: (Result<StepOutput>, Metrics))
    ensures r.0.Ok? <==>
              received.Ok? && received.value.agents != [] && received.value.agents[0].metrics.Some? &&
              "region" in received.value.agents[0].metrics.value && "misc" in received.value.agents[0].metrics.value &&
              received.value.nFrames != 0
    ensures r.0.Ok? ==>
              var e := received.value;
              r.0.value.states == StatesView(e.agents) &&
              r.0.value.rewards == PerFrameAll(RewardsView(e.agents), e.nFrames) &&
              r.0.value.done == e.done && r.0.value.nFrames == e.nFrames
    ensures received.Ok? && received.value.agents != [] && received.value.agents[0].metrics.Some? ==>
              r.1 == UpdateMetrics(m, received.value.agents[0].metrics.value).0
    ensures !(received.Ok? && received.value.agents != [] && received.value.agents[0].metrics.Some?) ==> r.1 == m
    ensures received.Err? ==> r.0 == Err(received.failure)
    ensures received.Ok? && received.value.agents == [] ==> r.0 == Err(IndexError)
    ensures received.Ok? && received.value.agents != [] && received.value.agents[0].metrics.None? ==>
              r.0 == Err(KeyError("metrics"))
  {
    match received
    case Err(f) => (Err(f), m)
    case Ok(e) =>
      if e.agents == [] then (Err(IndexError), m)
      else if e.agents[0].metrics.None? then (Err(KeyError("metrics")), m)
      else
        var data := e.agents[0].metrics.value;
        var (next, ok) := UpdateMetrics(m, data);
        if !ok then (Err(KeyError(if "region" in data then "misc" else "region")), next)
        else if e.nFrames == 0 then (Err(ZeroDivisionError), next)
        else (Ok(StepOutput(StatesView(e.agents), PerFrameAll(RewardsView(e.agents), e.nFrames), e.done, e.nFrames)), next)
  }

  // ----------------------------------------------------------------- class

  class GodotEnvironment {
    const session: Session
    const codec: JsonCodec
    const godotPathStr: string
    const envPathStr: string
    var seed: int
    /** The successive values `random_generator.randint(low=0, high=1e6)` returns. */
    var generator: nat -> int
    var drawn: nat
    var metrics: Metrics

    ghost predicate Valid()
      reads this, session, session.Repr()
    {
      session.Valid() && forall i: nat :: 0 <= generator(i) < SeedBound
    }

    /** `__init__`, with the discovered paths and the generator of `seed` given. */
    constructor (host: Json, port: Json, godotPath: string, envPath: string, seed: int,
                 generator: nat -> int, codec: JsonCodec)
      requires forall i: nat :: 0 <= generator(i) < SeedBound
      ensures Valid() && fresh(session) && fresh(session.Repr())
      ensures session.host == host && session.port == port
      ensures session.socket == None && session.clientSocket == null && session.godotProcess == None
      ensures !session.isGodotLaunched && session.isRendering && session.trace == []
      ensures godotPathStr == godotPath && envPathStr == envPath && this.codec == codec
      ensures this.seed == seed && this.generator == generator && drawn == 0
      ensures metrics == EmptyMetrics
    {
      session := new Session(host, port);
      this.codec := codec;
      godotPathStr, envPathStr := godotPath, envPath;
      this.seed, this.generator, drawn := seed, generator, 0;
      metrics := EmptyMetrics;
    }

    /** `set_seed`: a generator seeded afresh. */
    method SetSeed(seed: int, generator: nat -> int)
      requires Valid() && forall i: nat :: 0 <= generator(i) < SeedBound
      modifies this`seed, this`generator, this`drawn
      ensures Valid()
      ensures this.seed == seed && this.generator == generator && drawn == 0
    {
      this.seed, this.generator, drawn := seed, generator, 0;
    }

    /**
      `_create_request`: an initialization always carries a fresh draw as
      seed; the actions are converted in place first.
     */
    method CreateRequest(initialization: bool, termination: bool, actions: array?<AgentAction>)
      returns (request: Request)
      requires Valid()
      requires !initialization && !termination ==> actions != null
      modifies this`drawn, if actions != null then {actions} else {}
      ensures Valid()
      ensures drawn == old(drawn) + (if initialization then 1 else 0)
      ensures !initialization && !termination ==>
                forall i | 0 <= i < actions.Length :: actions[i] == NormalizeAction(old(actions[i]))
      ensures (initialization || termination) && actions != null ==> actions[..] == old(actions[..])
      ensures request == MakeRequest(initialization, termination, session.isRendering, generator(old(drawn)), None,
                                     if !initialization && !termination then actions[..] else [],
                                     ActionsDataKey)
      ensures initialization ==> 0 <= request["seed"].i < SeedBound
    {
      var seedValue := generator(drawn);
      if initialization {
        drawn := drawn + 1;
      }
      var formatted: seq<AgentAction> := [];
      if !initialization && !termination {
        var same := FormatActionsData(actions);
        formatted := same[..];
      }
      request := MakeRequest(initialization, termination, session.isRendering, seedValue, None, formatted, ActionsDataKey);
    }

    /** `_wait_and_receive_states_data`: keeps packets longer than 4 bytes until one is shorter than 4096. */
    method WaitAndReceiveStatesData() returns (data: Option<seq<byte>>)
      requires Valid() && session.clientSocket != null
      modifies session.clientSocket
      ensures Valid()
      ensures data == LengthHeuristic(Packets(old(session.clientSocket.pending), RecvBufferSize), [])
      ensures session.clientSocket.pending == ReceiveRest(old(session.clientSocket.pending))
    {
      var sock := session.clientSocket;
      var total: seq<byte> := [];
      var isDataReceived := false;
      ghost var received: nat := 0;
      while !isDataReceived
        invariant sock.Valid() && Valid()
        invariant LengthHeuristic(Packets(old(sock.pending), RecvBufferSize), []) ==
                  if isDataReceived then Some(total) else LengthHeuristic(Packets(sock.pending, RecvBufferSize), total)
        invariant LengthHeuristicReads(Packets(old(sock.pending), RecvBufferSize)) ==
                  received + if isDataReceived then 0 else LengthHeuristicReads(Packets(sock.pending, RecvBufferSize))
        invariant sock.pending == PendingAfter(old(sock.pending), RecvBufferSize, received)
        decreases |sock.Remaining()|, !isDataReceived
      {
        ghost var before := sock.pending;
        var packet := sock.Recv(RecvBufferSize);
        if packet == [] {
          // from here on every receive is empty: the source never leaves the loop
          assert Packets(before, RecvBufferSize) == [];
          return None;
        }
        assert Packets(before, RecvBufferSize) == [packet] + Packets(sock.pending, RecvBufferSize);
        PendingAfterStep(old(sock.pending), RecvBufferSize, received);
        received := received + 1;
        if 4 < |packet| {
          total := total + packet;
          if |packet| < RecvBufferSize {
            isDataReceived := true;
          }
        }
      }
      return Some(total);
    }

    /** `_get_environment_state`. */
    method GetEnvironmentState() returns (r: Result<EnvData>)
      requires Valid() && session.clientSocket != null
      modifies session.clientSocket
      ensures Valid()
      ensures r == ReceiveEnvData(codec, old(session.clientSocket.pending))
      ensures session.clientSocket.pending == ReceiveRest(old(session.clientSocket.pending))
    {
      var data := WaitAndReceiveStatesData();
      if data.None? {
        return Err(NeverReturns);
      }
      var envData := codec.format(data.value);
      if envData.None? {
        return Err(DecodeError);
      }
      return Ok(envData.value);
    }

    /**
      `reset` up to its request: tear down on a render change, launch if
      needed, connect if there is no socket, and send the initialization
      request with a drawn seed.
     */
    method PrepareAndRequest(render: bool, peer: seq<seq<byte>>)
      requires Valid() && NonEmptyChunks(peer)
      modifies this`drawn, session
      ensures Valid() && session.Ready() && session.isRendering == render
      ensures fresh(session.Repr() - old(session.Repr()))
      ensures drawn == old(drawn) + 1
      ensures session.trace ==
                old(session.trace) +
                PrepareEvents(old(session.isRendering), old(session.isGodotLaunched), old(session.socket).Some?,
                              render, session.host, session.port, LaunchCommand(godotPathStr, envPathStr, render)) +
                [Event.Send(InitRequest(render, old(generator(drawn)), None, ActionsDataKey))]
      ensures (render != old(session.isRendering) && old(session.isGodotLaunched)) || old(session.socket).None? ==>
                fresh(session.clientSocket) && session.clientSocket.pending == peer
      ensures !((render != old(session.isRendering) && old(session.isGodotLaunched)) || old(session.socket).None?) ==>
                session.clientSocket == old(session.clientSocket)
      ensures session.host == old(session.host) && session.port == old(session.port)
    {
      session.PrepareForReset(render, godotPathStr, envPathStr, peer);
      var request := CreateRequest(true, false, null);
      session.Send(request);
    }

    /**
      `reset`: prepare the session, send one initialization request, and
      return the agents of the response; the metrics start afresh.
     */
    method Reset(render: bool, peer: seq<seq<byte>>) returns (r: Result<seq<AgentDatum>>)
      requires Valid() && NonEmptyChunks(peer)
      modifies this`drawn, this`metrics, session.Repr()
      ensures Valid() && session.Ready() && session.isRendering == render
      ensures fresh(session.Repr() - old(session.Repr()))
      ensures drawn == old(drawn) + 1
      ensures session.trace ==
                old(session.trace) +
                PrepareEvents(old(session.isRendering), old(session.isGodotLaunched), old(session.socket).Some?,
                              render, session.host, session.port, LaunchCommand(godotPathStr, envPathStr, render)) +
                [Event.Send(InitRequest(render, old(generator(drawn)), None, ActionsDataKey))]
      ensures var reconnected := (render != old(session.isRendering) && old(session.isGodotLaunched)) ||
                                 old(session.socket).None?;
              r == AgentsOf(if reconnected then ReceiveEnvData(codec, peer)
                            else ReceiveEnvData(codec, old(session.clientSocket.pending))) &&
              session.clientSocket.pending == ReceiveRest(if reconnected then peer else old(session.clientSocket.pending))
      ensures session.host == old(session.host) && session.port == old(session.port)
      ensures r.Ok? ==> metrics == EmptyMetrics
      ensures r.Err? ==> metrics == old(metrics)
    {
      PrepareAndRequest(render, peer);
      var envData := GetEnvironmentState();
      r := AgentsOf(envData);
      if envData.Ok? {
        metrics := EmptyMetrics;
      }
    }

    /**
      `step`: send the actions, receive the response, split it, record agent
      0's metrics and divide every reward by `n_frames`. `done` is handed back
      and the connection stays open.
     */
    method Step(actions: array<AgentAction>) returns (r: Result<StepOutput>)
      requires Valid() && session.clientSocket != null
      modifies this`drawn, this`metrics, session, session.clientSocket, actions
      ensures Valid() && drawn == old(drawn)
      ensures forall i | 0 <= i < actions.Length :: actions[i] == NormalizeAction(old(actions[i]))
      ensures session.trace == old(session.trace) + [Event.Send(ActionRequest(session.isRendering, actions[..], ActionsDataKey))]
      ensures session.socket == old(session.socket) && session.clientSocket == old(session.clientSocket)
      ensures session.isGodotLaunched == old(session.isGodotLaunched) && session.isRendering == old(session.isRendering)
      ensures session.godotProcess == old(session.godotProcess)
      ensures session.host == old(session.host) && session.port == old(session.port)
      ensures (r, metrics) == StepOutcome(ReceiveEnvData(codec, old(session.clientSocket.pending)), old(metrics))
      ensures session.clientSocket.pending == ReceiveRest(old(session.clientSocket.pending))
    {
      var request := CreateRequest(false, false, actions);
      session.Send(request);
      var received := GetEnvironmentState();
      r := ProcessResponse(received);
    }

    /** The part of `step` after the receive: split, metrics, per-frame rewards. */
    method ProcessResponse(received: Result<EnvData>) returns (r: Result<StepOutput>)
      modifies this`metrics
      ensures (r, metrics) == StepOutcome(received, old(metrics))
    {
      if received.Err? {
        return Err(received.failure);
      }
      var e := received.value;
      var states, rewardsData := SplitEnvData(e.agents);
      if e.agents == [] {
        return Err(IndexError);
      }
      if e.agents[0].metrics.None? {
        return Err(KeyError("metrics"));
      }
      var data := e.agents[0].metrics.value;
      var update := UpdateMetrics(metrics, data);
      metrics := update.0;
      if !update.1 {
        return Err(KeyError(if "region" in data then "misc" else "region"));
      }
      var rewards := new NamedReward[|rewardsData|](i requires 0 <= i < |rewardsData| => rewardsData[i]);
      var scaled := ScaleRewards(rewards, e.nFrames);
      if !scaled {
        return Err(ZeroDivisionError);
      }
      assert rewards[..] == PerFrameAll(rewardsData, e.nFrames);
      return Ok(StepOutput(states, rewards[..], e.done, e.nFrames));
    }
  }
}
