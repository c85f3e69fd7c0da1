/**
  The build copy of `GodotEnvironment` (build/lib/godot_interface): `reset`
  takes an optional seed and optional parameters, the receive loop appends
  packets until the buffer parses as JSON, and `step` keeps four metric lists
  read from agent 0.
 */
module BuildLibEnvironment {
  import opened Bytes
  import opened Stream
  import opened Protocol
  import opened Lifecycle

  const RecvBufferSize: nat := 4096

  /** `randint(low=0, high=1e6)` draws below this bound. */
  const SeedBound: int := 1000000

  // ------------------------------------------------------------- receiving

  /**
    The loop of `_wait_and_receive_states_data`: receive a packet, append it,
    stop as soon as the buffer parses. Once the peer has closed, every receive
    is empty and the loop never ends (None).
   */
  function JsonUntilValid(packets: seq<seq<byte>>, buffer: seq<byte>, parses: seq<byte> -> bool): (r: Option<seq<byte>>)
    decreases |packets|
  {
    var total := if packets == [] then buffer else buffer + packets[0];
    if parses(total) then Some(total)
    else if packets == [] then None
    else JsonUntilValid(packets[1..], total, parses)
  }

  lemma FlattenUncons(packets: seq<seq<byte>>, i: nat)
    requires 1 <= i <= |packets|
    ensures Flatten(packets[..i]) == packets[0] + Flatten(packets[1..][..i - 1])
  {
    assert packets[..i][1..] == packets[1..][..i - 1];
  }

  /**
    What the loop returns is the shortest run of whole packets, from the start,
    whose concatenation parses; it returns at all only if some run parses.
   */
  lemma {:induction false} JsonUntilValidIsShortest(packets: seq<seq<byte>>, buffer: seq<byte>, parses: seq<byte> -> bool)
    requires packets != []
    ensures JsonUntilValid(packets, buffer, parses).Some? <==>
            exists i | 1 <= i <= |packets| :: parses(buffer + Flatten(packets[..i]))
    ensures JsonUntilValid(packets, buffer, parses).Some? ==>
            exists i | 1 <= i <= |packets| ::
              JsonUntilValid(packets, buffer, parses).value == buffer + Flatten(packets[..i]) &&
              parses(buffer + Flatten(packets[..i])) &&
              forall j | 1 <= j < i :: !parses(buffer + Flatten(packets[..j]))
    decreases |packets|
  {
    var total := buffer + packets[0];
    FlattenUncons(packets, 1);
    assert buffer + Flatten(packets[..1]) == total;
    if parses(total) {
      assert JsonUntilValid(packets, buffer, parses) == Some(total);
    } else if |packets| == 1 {
      assert JsonUntilValid(packets, buffer, parses) == None;
    } else {
      var rest := packets[1..];
      assert JsonUntilValid(packets, buffer, parses) == JsonUntilValid(rest, total, parses);
      JsonUntilValidIsShortest(rest, total, parses);
      forall i | 1 <= i <= |rest|
        ensures total + Flatten(rest[..i]) == buffer + Flatten(packets[..i + 1])
      {
        FlattenUncons(packets, i + 1);
      }
      if exists i | 1 <= i <= |packets| :: parses(buffer + Flatten(packets[..i])) {
        var i :| 1 <= i <= |packets| && parses(buffer + Flatten(packets[..i]));
        assert i != 1;
        assert parses(total + Flatten(rest[..i - 1]));
      }
      if JsonUntilValid(rest, total, parses).Some? {
        var k :| 1 <= k <= |rest| &&
                 JsonUntilValid(rest, total, parses).value == total + Flatten(rest[..k]) &&
                 parses(total + Flatten(rest[..k])) &&
                 forall j | 1 <= j < k :: !parses(total + Flatten(rest[..j]));
        forall j | 1 <= j < k + 1
          ensures !parses(buffer + Flatten(packets[..j]))
        {
          if j > 1 {
            assert !parses(total + Flatten(rest[..j - 1]));
          }
        }
        assert parses(buffer + Flatten(packets[..k + 1]));
      }
    }
  }

  /** How many packets that loop receives before it returns; all of them when it never does. */
  function JsonUntilValidReads(packets: seq<seq<byte>>, buffer: seq<byte>, parses: seq<byte> -> bool): (n: nat)
    ensures n <= |packets|
    decreases |packets|
  {
    if packets == [] then 0
    else if parses(buffer + packets[0]) then 1
    else 1 + JsonUntilValidReads(packets[1..], buffer + packets[0], parses)
  }

  /**
    The loop consumes exactly the packets whose bytes it returns: the document
    is the buffer followed by the first n packets read, and a loop that never
    returns has read every packet.
   */
  lemma {:induction false} JsonUntilValidReadsWhatItReturns(packets: seq<seq<byte>>, buffer: seq<byte>,
                                                            parses: seq<byte> -> bool)
    ensures var n := JsonUntilValidReads(packets, buffer, parses);
            match JsonUntilValid(packets, buffer, parses)
            case Some(v) => v == buffer + Flatten(packets[..n])
            case None => n == |packets|
    decreases |packets|
  {
    var n := JsonUntilValidReads(packets, buffer, parses);
    if packets == [] {
      assert packets[..n] == [];
      assert buffer + [] == buffer;
    } else {
      var total := buffer + packets[0];
      FlattenUncons(packets, n);
      if parses(total) {
        assert n == 1 && packets[1..][..0] == [];
        assert packets[0] + [] == packets[0];
      } else {
        JsonUntilValidReadsWhatItReturns(packets[1..], total, parses);
        assert JsonUntilValid(packets, buffer, parses) == JsonUntilValid(packets[1..], total, parses);
      }
    }
  }

  /** The same bytes, chunked differently, can yield a different message: "1" is JSON, and so is "12". */
  lemma JsonUntilValidDependsOnChunking()
    ensures var parses := (b: seq<byte>) => b == [0x31] || b == [0x31, 0x32];
            JsonUntilValid(Packets([[0x31, 0x32]], RecvBufferSize), [], parses) == Some([0x31, 0x32]) &&
            JsonUntilValid(Packets([[0x31], [0x32]], RecvBufferSize), [], parses) == Some([0x31])
    ensures var parses := (b: seq<byte>) => b == [0x31] || b == [0x31, 0x32];
            ReceiveRest(parses, [[0x31, 0x32]]) == [] && ReceiveRest(parses, [[0x31], [0x32]]) == [[0x32]]
  {
    var parses := (b: seq<byte>) => b == [0x31] || b == [0x31, 0x32];
    assert Packets([[0x31, 0x32]], RecvBufferSize) == [[0x31, 0x32]];
    assert Packets([[0x31], [0x32]], RecvBufferSize) == [[0x31], [0x32]] by {
      assert RecvFrom([[0x31], [0x32]], RecvBufferSize) == ([0x31], [[0x32]]);
      assert Packets([[0x32]], RecvBufferSize) == [[0x32]];
    }
    assert JsonUntilValidReads([[0x31], [0x32]], [], parses) == 1 by {
      assert [] + [0x31] == [0x31 as byte];
    }
    assert PendingAfter([[0x31], [0x32]], RecvBufferSize, 1) == [[0x32]] by {
      assert RecvFrom([[0x31], [0x32]], RecvBufferSize) == ([0x31], [[0x32]]);
    }
    assert JsonUntilValidReads([[0x31, 0x32]], [], parses) == 1 by {
      assert [] + [0x31, 0x32] == [0x31 as byte, 0x32];
    }
    assert PendingAfter([[0x31, 0x32]], RecvBufferSize, 1) == [] by {
      assert RecvFrom([[0x31, 0x32]], RecvBufferSize) == ([0x31, 0x32], []);
    }
  }

  /** `_get_environment_state` on what the connection still holds: receive, then decode. */
  function ReceiveEnvData(codec: JsonCodec, pending: seq<seq<byte>>): (r: Result<EnvData>)
    requires NonEmptyChunks(pending)
  {
    match JsonUntilValid(Packets(pending, RecvBufferSize), [], codec.parses)
    case None => Err(NeverReturns)
    case Some(bytes) =>
      match codec.format(bytes)
      case None => Err(DecodeError)
      case Some(envData) => Ok(envData)
  }

  /** What that receive leaves on the connection: the chunks after the packets its loop read. */
  function ReceiveRest(parses: seq<byte> -> bool, pending: seq<seq<byte>>): (rest: seq<seq<byte>>)
    requires NonEmptyChunks(pending)
    ensures NonEmptyChunks(rest)
  {
    PendingAfter(pending, RecvBufferSize, JsonUntilValidReads(Packets(pending, RecvBufferSize), [], parses))
  }

  /**
    A receive consumes exactly the document it returns: the bytes after it stay
    on the connection and begin the next response. A loop that never returns
    has drained the connection.
   */
  lemma ReceiveConsumesTheDocument(parses: seq<byte> -> bool, pending: seq<seq<byte>>)
    requires NonEmptyChunks(pending)
    ensures match JsonUntilValid(Packets(pending, RecvBufferSize), [], parses)
            case Some(v) => Flatten(pending) == v + Flatten(ReceiveRest(parses, pending))
            case None => ReceiveRest(parses, pending) == []
  {
    var ps := Packets(pending, RecvBufferSize);
    var n := JsonUntilValidReads(ps, [], parses);
    JsonUntilValidReadsWhatItReturns(ps, [], parses);
    PendingAfterRest(pending, RecvBufferSize, n);
    NoPacketsNoPending(ReceiveRest(parses, pending), RecvBufferSize);
    assert [] + Flatten(ps[..n]) == Flatten(ps[..n]);
  }

  // --------------------------------------------------------------- metrics

  /** The `metrics` dictionary: lists `regions`, `misc`, `search_score` and the `search_data` value. */
  datatype Metrics = Metrics(regions: seq<Json>, misc: seq<Json>, searchScore: Option<seq<Json>>,
                             searchData: Option<Json>)

  /** As `__init__` sets it: no `search_score` or `search_data` key yet. */
  const ConstructedMetrics := Metrics([], [], None, None)

  /** As `reset` sets it. */
  const EpisodeMetrics := Metrics([], [], Some([]), Some(Object(map[])))

  /**
    The metric bookkeeping of `step` on agent 0's metrics: the metrics
    afterwards, and false when it raises KeyError on the way (no `region`, or
    a `search_score` to append before any `reset` created that list).
   */
  function UpdateMetrics(m: Metrics, data: map<string, Json>): (r: (Metrics, bool))
    ensures !r.1 <==> "region" !in data || ("search_score" in data && m.searchScore.None?)
    ensures "region" !in data ==> r.0 == m
    ensures "region" in data ==> r.0.regions == m.regions + [data["region"]]
    ensures "region" in data ==> r.0.misc == m.misc + (if "misc" in data then [data["misc"]] else [])
    ensures r.1 ==> r.0.searchScore == if "search_score" in data then Some(m.searchScore.value + [data["search_score"]])
                                       else m.searchScore
    ensures r.1 ==> r.0.searchData == if "search_data" in data then Some(data["search_data"]) else m.searchData
    ensures !r.1 ==> r.0.searchScore == m.searchScore && r.0.searchData == m.searchData
  {
    if "region" !in data then (m, false)
    else
      var m := m.(regions := m.regions + [data["region"]]);
      var m := if "misc" in data then m.(misc := m.misc + [data["misc"]]) else m;
      if "search_score" in data && m.searchScore.None? then (m, false)
      else
        var m := if "search_score" in data then m.(searchScore := Some(m.searchScore.value + [data["search_score"]])) else m;
        var m := if "search_data" in data then m.(searchData := Some(data["search_data"])) else m;
        (m, true)
  }

  /** The last value stored under `key`, or `default` when none has it. */
  function Latest(ds: seq<map<string, Json>>, key: string, default: Json): (latest: Json)
  {
    if ds == [] then default else Latest(ds[1..], key, if key in ds[0] then ds[0][key] else default)
  }

  /** The metrics after a run of steps, None when one of them raises KeyError. */
  function AccumulateMetrics(m: Metrics, ds: seq<map<string, Json>>): (r: Option<Metrics>)
    decreases |ds|
  {
    if ds == [] then Some(m)
    else
      var (next, ok) := UpdateMetrics(m, ds[0]);
      if ok then AccumulateMetrics(next, ds[1..]) else None
  }

  /**
    Over an episode begun by `reset`, every step appends its region, appends
    `misc` and `search_score` only when present, and `search_data` holds the
    last one received.
   */
  lemma {:induction false} EpisodeMetricsAccumulate(m: Metrics, ds: seq<map<string, Json>>)
    requires m.searchScore.Some? && m.searchData.Some?
    requires forall i | 0 <= i < |ds| :: "region" in ds[i]
    ensures AccumulateMetrics(m, ds) ==
            Some(Metrics(m.regions + Column(ds, "region"), m.misc + Column(ds, "misc"),
                         Some(m.searchScore.value + Column(ds, "search_score")),
                         Some(Latest(ds, "search_data", m.searchData.value))))
    decreases |ds|
  {
    if ds != [] {
      var (next, ok) := UpdateMetrics(m, ds[0]);
      EpisodeMetricsAccumulate(next, ds[1..]);
      var d := ds[0];
      assert ok && next.searchScore.Some? && next.searchData.Some?;
      assert next.regions + Column(ds[1..], "region") == m.regions + Column(ds, "region");
      assert next.misc + Column(ds[1..], "misc") == m.misc + Column(ds, "misc");
      assert next.searchScore.value + Column(ds[1..], "search_score") ==
             m.searchScore.value + Column(ds, "search_score");
      assert Latest(ds[1..], "search_data", next.searchData.value) == Latest(ds, "search_data", m.searchData.value);
    } else {
      assert m.regions + Column(ds, "region") == m.regions && m.misc + Column(ds, "misc") == m.misc;
      assert m.searchScore.value + Column(ds, "search_score") == m.searchScore.value;
    }
  }

  // ------------------------------------------------------------------ step

  /**
    What `step` makes of the received environment data: the split views with
    per-frame rewards, or the exception it raises; and the metrics afterwards.
   */
  function StepOutcome(received: Result<EnvData>, m: Metrics): (r: (Result<StepOutput>, Metrics))
    ensures r.0.Ok? <==>
              received.Ok? && received.value.agents != [] && received.value.agents[0].metrics.Some? &&
              UpdateMetrics(m, received.value.agents[0].metrics.value).1 && received.value.nFrames != 0
    ensures r.0.Ok? ==>
              var e := received.value;
              r.0.value.states == StatesView(e.agents) &&
              r.0.value.rewards == PerFrameAll(RewardsView(e.agents), e.nFrames) &&
              r.0.value.done == e.done && r.0.value.nFrames == e.nFrames
    ensures received.Ok? && received.value.agents != [] && received.value.agents[0].metrics.Some? ==>
              r.1 == UpdateMetrics(m, received.value.agents[0].metrics.value).0
    ensures !(received.Ok? && received.value.agents != [] && received.value.agents[0].metrics.Some?) ==> r.1 == m
    ensures received.Err? ==> r.0 == Err(received.failure)
    ensures received.Ok? && received.value.agents == [] ==> r.0 == Err(IndexError)
    ensures received.Ok? && received.value.agents != [] && received.value.agents[0].metrics.None? ==>
              r.0 == Err(KeyError("metrics"))
  {
    match received
    case Err(f) => (Err(f), m)
    case Ok(e) =>
      if e.agents == [] then (Err(IndexError), m)
      else if e.agents[0].metrics.None? then (Err(KeyError("metrics")), m)
      else
        var data := e.agents[0].metrics.value;
        var (next, ok) := UpdateMetrics(m, data);
        if !ok then (Err(KeyError(if "region" in data then "search_score" else "region")), next)
        else if e.nFrames == 0 then (Err(ZeroDivisionError), next)
        else (Ok(StepOutput(StatesView(e.agents), PerFrameAll(RewardsView(e.agents), e.nFrames), e.done, e.nFrames)), next)
  }

  // ----------------------------------------------------------------- class

  class GodotEnvironment {
    /** The socket, process and render state. */
    const session: Session
    const codec: JsonCodec
    const godotPathStr: string
    const envPathStr: string
    var seed: int
    /** The successive values `random_generator.randint(low=0, high=1e6)` returns. */
    var generator: nat -> int
    /** How many of them have been drawn. */
    var drawn: nat
    var metrics: Metrics

    ghost predicate Valid()
      reads this, session, session.Repr()
    {
      session.Valid() && forall i: nat :: 0 <= generator(i) < SeedBound
    }

    /** `__init__`, with the discovered paths and the generator of `seed` given. */
    constructor (host: Json, port: Json, godotPath: string, envPath: string, seed: int,
                 generator: nat -> int, codec: JsonCodec)
      requires forall i: nat :: 0 <= generator(i) < SeedBound
      ensures Valid() && fresh(session) && fresh(session.Repr())
      ensures session.host == host && session.port == port
      ensures session.socket == None && session.clientSocket == null && session.godotProcess == None
      ensures !session.isGodotLaunched && session.isRendering && session.trace == []
      ensures godotPathStr == godotPath && envPathStr == envPath && this.codec == codec
      ensures this.seed == seed && this.generator == generator && drawn == 0
      ensures metrics == ConstructedMetrics
    {
      session := new Session(host, port);
      this.codec := codec;
      godotPathStr, envPathStr := godotPath, envPath;
      this.seed, this.generator, drawn := seed, generator, 0;
      metrics := ConstructedMetrics;
    }

    /** `set_seed`: a generator seeded afresh. */
    method SetSeed(seed: int, generator: nat -> int)
      requires Valid() && forall i: nat :: 0 <= generator(i) < SeedBound
      modifies this`seed, this`generator, this`drawn
      ensures Valid()
      ensures this.seed == seed && this.generator == generator && drawn == 0
    {
      this.seed, this.generator, drawn := seed, generator, 0;
    }

    /** `random_generator.randint(low=0, high=1e6)`. */
    method RandInt() returns (v: int)
      requires Valid()
      modifies this`drawn
      ensures Valid()
      ensures drawn == old(drawn) + 1 && v == generator(old(drawn))
      ensures 0 <= v < SeedBound
    {
      v := generator(drawn);
      drawn := drawn + 1;
    }

    /**
      `_create_request`: the seed is the caller's when given and a fresh draw
      otherwise; the actions are converted in place first.
     */
    method CreateRequest(initialization: bool, termination: bool, actions: array?<AgentAction>,
                         seed: Option<int>, params: Option<map<string, Json>>) returns (request: Request)
      requires Valid()
      requires !initialization && !termination ==> actions != null
      modifies this`drawn, if actions != null then {actions} else {}
      ensures Valid()
      ensures drawn == old(drawn) + (if initialization && seed.None? then 1 else 0)
      ensures !initialization && !termination ==>
                forall i | 0 <= i < actions.Length :: actions[i] == NormalizeAction(old(actions[i]))
      ensures (initialization || termination) && actions != null ==> actions[..] == old(actions[..])
      ensures request == MakeRequest(initialization, termination, session.isRendering,
                                     if seed.Some? then seed.value else generator(old(drawn)), params,
                                     if !initialization && !termination then actions[..] else [],
                                     ActionsDataKey)
      ensures initialization && seed.None? ==> 0 <= request["seed"].i < SeedBound
    {
      var seedValue := 0;
      if initialization {
        if seed.None? {
          seedValue := RandInt();
        } else {
          seedValue := seed.value;
        }
      }
      var formatted: seq<AgentAction> := [];
      if !initialization && !termination {
        var same := FormatActionsData(actions);
        formatted := same[..];
      }
      request := MakeRequest(initialization, termination, session.isRendering, seedValue, params, formatted, ActionsDataKey);
    }

    /** `_wait_and_receive_states_data`: appends packets until the buffer parses as JSON. */
    method WaitAndReceiveStatesData() returns (data: Option<seq<byte>>)
      requires Valid() && session.clientSocket != null
      modifies session.clientSocket
      ensures Valid()
      ensures data == JsonUntilValid(Packets(old(session.clientSocket.pending), RecvBufferSize), [], codec.parses)
      ensures session.clientSocket.pending == ReceiveRest(codec.parses, old(session.clientSocket.pending))
    {
      var sock := session.clientSocket;
      var total: seq<byte> := [];
      ghost var received: nat := 0;
      while true
        invariant sock.Valid() && Valid()
        invariant JsonUntilValid(Packets(old(sock.pending), RecvBufferSize), [], codec.parses) ==
                  JsonUntilValid(Packets(sock.pending, RecvBufferSize), total, codec.parses)
        invariant JsonUntilValidReads(Packets(old(sock.pending), RecvBufferSize), [], codec.parses) ==
                  received + JsonUntilValidReads(Packets(sock.pending, RecvBufferSize), total, codec.parses)
        invariant sock.pending == PendingAfter(old(sock.pending), RecvBufferSize, received)
        decreases |sock.Remaining()|
      {
        ghost var before := sock.pending;
        ghost var oldTotal := total;
        var packet := sock.Recv(RecvBufferSize);
        total := total + packet;
        if before == [] {
          assert packet == [] && total == oldTotal && Packets(before, RecvBufferSize) == [];
        } else {
          assert Packets(before, RecvBufferSize) == [packet] + Packets(sock.pending, RecvBufferSize);
          PendingAfterStep(old(sock.pending), RecvBufferSize, received);
          received := received + 1;
        }
        if codec.parses(total) {
          return Some(total);
        }
        if packet == [] {
          // from here on every receive is empty: the source never leaves the loop
          return None;
        }
      }
    }

    /** `_get_environment_state`. */
    method GetEnvironmentState() returns (r: Result<EnvData>)
      requires Valid() && session.clientSocket != null
      modifies session.clientSocket
      ensures Valid()
      ensures r == ReceiveEnvData(codec, old(session.clientSocket.pending))
      ensures session.clientSocket.pending == ReceiveRest(codec.parses, old(session.clientSocket.pending))
    {
      var data := WaitAndReceiveStatesData();
      if data.None? {
        return Err(NeverReturns);
      }
      var envData := codec.format(data.value);
      if envData.None? {
        return Err(DecodeError);
      }
      return Ok(envData.value);
    }

    /**
      `reset` up to its request: tear down on a render change, launch if
      needed, connect if there is no socket, and send the initialization
      request.
     */
    method PrepareAndRequest(render: bool, seed: Option<int>, params: Option<map<string, Json>>, peer: seq<seq<byte>>)
      requires Valid() && NonEmptyChunks(peer)
      modifies this`drawn, session
      ensures Valid() && session.Ready() && session.isRendering == render
      ensures fresh(session.Repr() - old(session.Repr()))
      ensures drawn == old(drawn) + (if seed.None? then 1 else 0)
      ensures session.trace ==
                old(session.trace) +
                PrepareEvents(old(session.isRendering), old(session.isGodotLaunched), old(session.socket).Some?,
                              render, session.host, session.port, LaunchCommand(godotPathStr, envPathStr, render)) +
                [Event.Send(InitRequest(render, if seed.Some? then seed.value else old(generator(drawn)), params,
                                        ActionsDataKey))]
      ensures (render != old(session.isRendering) && old(session.isGodotLaunched)) || old(session.socket).None? ==>
                fresh(session.clientSocket) && session.clientSocket.pending == peer
      ensures !((render != old(session.isRendering) && old(session.isGodotLaunched)) || old(session.socket).None?) ==>
                session.clientSocket == old(session.clientSocket)
      ensures session.host == old(session.host) && session.port == old(session.port)
    {
      session.PrepareForReset(render, godotPathStr, envPathStr, peer);
      var request := CreateRequest(true, false, null, seed, params);
      session.Send(request);
    }

    /**
      `reset`: prepare the session, send one initialization request, and
      return the agents of the response; the metrics start afresh.
     */
    method Reset(render: bool, seed: Option<int>, params: Option<map<string, Json>>, peer: seq<seq<byte>>)
      returns (r: Result<seq<AgentDatum>>)
      requires Valid() && NonEmptyChunks(peer)
      modifies this`drawn, this`metrics, session.Repr()
      ensures Valid() && session.Ready() && session.isRendering == render
      ensures fresh(session.Repr() - old(session.Repr()))
      ensures drawn == old(drawn) + (if seed.None? then 1 else 0)
      ensures session.trace ==
                old(session.trace) +
                PrepareEvents(old(session.isRendering), old(session.isGodotLaunched), old(session.socket).Some?,
                              render, session.host, session.port, LaunchCommand(godotPathStr, envPathStr, render)) +
                [Event.Send(InitRequest(render, if seed.Some? then seed.value else old(generator(drawn)), params,
                                        ActionsDataKey))]
      ensures var reconnected := (render != old(session.isRendering) && old(session.isGodotLaunched)) ||
                                 old(session.socket).None?;
              r == AgentsOf(if reconnected then ReceiveEnvData(codec, peer)
                            else ReceiveEnvData(codec, old(session.clientSocket.pending))) &&
              session.clientSocket.pending ==
                ReceiveRest(codec.parses, if reconnected then peer else old(session.clientSocket.pending))
      ensures session.host == old(session.host) && session.port == old(session.port)
      ensures r.Ok? ==> metrics == EpisodeMetrics
      ensures r.Err? ==> metrics == old(metrics)
    {
      PrepareAndRequest(render, seed, params, peer);
      var envData := GetEnvironmentState();
      r := AgentsOf(envData);
      if envData.Ok? {
        metrics := EpisodeMetrics;
      }
    }

    /**
      `step`: send the actions, receive the response, split it, record agent
      0's metrics and divide every reward by `n_frames`. `done` is handed back
      and the connection stays open.
     */
    method Step(actions: array<AgentAction>) returns (r: Result<StepOutput>)
      requires Valid() && session.clientSocket != null
      modifies this`drawn, this`metrics, session, session.clientSocket, actions
      ensures Valid() && drawn == old(drawn)
      ensures forall i | 0 <= i < actions.Length :: actions[i] == NormalizeAction(old(actions[i]))
      ensures session.trace == old(session.trace) + [Event.Send(ActionRequest(session.isRendering, actions[..], ActionsDataKey))]
      ensures session.socket == old(session.socket) && session.clientSocket == old(session.clientSocket)
      ensures session.isGodotLaunched == old(session.isGodotLaunched) && session.isRendering == old(session.isRendering)
      ensures session.godotProcess == old(session.godotProcess)
      ensures session.host == old(session.host) && session.port == old(session.port)
      ensures (r, metrics) == StepOutcome(ReceiveEnvData(codec, old(session.clientSocket.pending)), old(metrics))
      ensures session.clientSocket.pending == ReceiveRest(codec.parses, old(session.clientSocket.pending))
    {
      var request := CreateRequest(false, false, actions, None, None);
      session.Send(request);
      var received := GetEnvironmentState();
      r := ProcessResponse(received);
    }

    /** The part of `step` after the receive: split, metrics, per-frame rewards. */
    method ProcessResponse(received: Result<EnvData>) returns (r: Result<StepOutput>)
      modifies this`metrics
      ensures (r, metrics) == StepOutcome(received, old(metrics))
    {
      if received.Err? {
        return Err(received.failure);
      }
      var e := received.value;
      var states, rewardsData := SplitEnvData(e.agents);
      if e.agents == [] {
        return Err(IndexError);
      }
      if e.agents[0].metrics.None? {
        return Err(KeyError("metrics"));
      }
      var data := e.agents[0].metrics.value;
      var update := UpdateMetrics(metrics, data);
      metrics := update.0;
      if !update.1 {
        return Err(KeyError(if "region" in data then "search_score" else "region"));
      }
      var rewards := new NamedReward[|rewardsData|](i requires 0 <= i < |rewardsData| => rewardsData[i]);
      var scaled := ScaleRewards(rewards, e.nFrames);
      if !scaled {
        return Err(ZeroDivisionError);
      }
      assert rewards[..] == PerFrameAll(rewardsData, e.nFrames);
      return Ok(StepOutput(states, rewards[..], e.done, e.nFrames));
    }
  }
}
