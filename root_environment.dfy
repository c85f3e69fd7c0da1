/**
  The root copy of `GodotEnvironment`: configured from a parameter
  dictionary, it sends actions under `agents_data`, takes the first received
  packet longer than 4 characters as the whole response, rewrites its paths
  through `utils.get_path` when it launches, and keeps no metrics.
 */
module RootEnvironment {
  import opened Bytes
  import opened Stream
  import opened Protocol
  import opened Lifecycle

  const RecvBufferSize: nat := 10000
  const SeedBound: int := 1000000

  // ---------------------------------------------------------- configuration

  /** The attributes `set_params_from_dict` assigns, as the dictionary holds them. */
  datatype Config = Config(host: Json, port: Json, godotPath: Json, envPath: Json, agentNames: Json,
                           stateMin: Json, stateMax: Json, displayActions: Json, displayStates: Json,
                           verbose: Json, seed: Json)

  /** `params.get(key, default)`. */
  function Get(params: map<string, Json>, key: string, default: Json): (value: Json)
  {
    if key in params then params[key] else default
  }

  const DefaultHost: Json := Str("127.0.0.1")
  const DefaultPort: Json := Number(4242.0)
  const DefaultStateMin: Json := Array([Number(0.0), Number(0.0)])
  const DefaultStateMax: Json := Array([Number(1000.0), Number(1000.0)])

  /**
    The configuration every key of which is absent from the dictionary;
    `defaultSeed` is the `np.random.randint(0, 1e5)` draw made for the call.
   */
  function DefaultConfig(defaultSeed: Json): (c: Config)
  {
    Config(DefaultHost, DefaultPort, Str(""), Str(""), Array([]), DefaultStateMin, DefaultStateMax,
           Bool(false), Bool(false), Bool(false), defaultSeed)
  }

  /** `set_params_from_dict` as written: `state_max` is looked up under "state min". */
  function ConfigFromDictAsWritten(params: map<string, Json>, defaultSeed: Json): (c: Config)
  {
    Config(Get(params, "host", DefaultHost), Get(params, "port", DefaultPort),
           Get(params, "godot path", Str("")), Get(params, "environment path", Str("")),
           Get(params, "agent names", Array([])),
           Get(params, "state min", DefaultStateMin), Get(params, "state min", DefaultStateMax),
           Get(params, "display actions", Bool(false)), Get(params, "display states", Bool(false)),
           Get(params, "verbose", Bool(false)), Get(params, "seed", defaultSeed))
  }

  /** As written, a "state max" entry is never read, and a "state min" entry sets both bounds. */
  lemma AsWrittenStateMaxIgnoresItsKey(params: map<string, Json>, defaultSeed: Json, v: Json)
    requires "state max" !in params
    ensures ConfigFromDictAsWritten(params["state max" := v], defaultSeed) == ConfigFromDictAsWritten(params, defaultSeed)
    ensures ConfigFromDictAsWritten(map["state min" := v], defaultSeed).stateMax == v
  {
    var with := params["state max" := v];
    assert forall k | k != "state max" :: (k in with <==> k in params) && (k in params ==> with[k] == params[k]);
  }

  /**
    `set_params_from_dict` as evidently intended: every attribute takes the
    dictionary's value under its own key, or its default.
   */
  function ConfigFromDict(params: map<string, Json>, defaultSeed: Json): (c: Config)
    ensures "state max" in params ==> c.stateMax == params["state max"]
    ensures "state max" !in params ==> c.stateMax == DefaultStateMax
    ensures c.stateMin == Get(params, "state min", DefaultStateMin)
  {
    Config(Get(params, "host", DefaultHost), Get(params, "port", DefaultPort),
           Get(params, "godot path", Str("")), Get(params, "environment path", Str("")),
           Get(params, "agent names", Array([])),
           Get(params, "state min", DefaultStateMin), Get(params, "state max", DefaultStateMax),
           Get(params, "display actions", Bool(false)), Get(params, "display states", Bool(false)),
           Get(params, "verbose", Bool(false)), Get(params, "seed", defaultSeed))
  }

  /** An empty dictionary gives every default. */
  lemma ConfigFromEmptyDict(defaultSeed: Json)
    ensures ConfigFromDict(map[], defaultSeed) == DefaultConfig(defaultSeed)
    ensures ConfigFromDict(map[], defaultSeed).host == Str("127.0.0.1")
    ensures ConfigFromDict(map[], defaultSeed).port == Number(4242.0)
  {
  }

  /**
    The two readings agree except on `state_max`, and agree there too exactly
    when the dictionary gives both bounds the same value or gives neither.
   */
  lemma ConfigReadingsDiffer(params: map<string, Json>, defaultSeed: Json)
    ensures ConfigFromDictAsWritten(params, defaultSeed) ==
            ConfigFromDict(params, defaultSeed).(stateMax := Get(params, "state min", DefaultStateMax))
    ensures ConfigFromDictAsWritten(params, defaultSeed) == ConfigFromDict(params, defaultSeed) <==>
            Get(params, "state min", DefaultStateMax) == Get(params, "state max", DefaultStateMax)
  {
  }

  /** Giving one key a value changes that attribute alone; shown for the bound the written code misreads. */
  lemma StateMaxFromItsKey(params: map<string, Json>, defaultSeed: Json, v: Json)
    ensures ConfigFromDict(params["state max" := v], defaultSeed) == ConfigFromDict(params, defaultSeed).(stateMax := v)
  {
    var with := params["state max" := v];
    assert forall k | k != "state max" :: (k in with <==> k in params) && (k in params ==> with[k] == params[k]);
  }

  // ------------------------------------------------------------- receiving

  /**
    The loop of `_wait_and_receive_states_data`: the first packet longer than
    4 characters is the response; shorter ones are dropped and nothing is
    concatenated. Once the peer has closed, every receive is empty and the loop
    never ends (None).
   */
  function FirstLongPacket(packets: seq<seq<byte>>): (r: Option<seq<byte>>)
    decreases |packets|
  {
    if packets == [] then None
    else if |packets[0]| > 4 then Some(packets[0])
    else FirstLongPacket(packets[1..])
  }

  /** How many packets that loop receives before it returns; all of them when it never does. */
  function FirstLongPacketReads(packets: seq<seq<byte>>): (n: nat)
    ensures n <= |packets|
    decreases |packets|
  {
    if packets == [] then 0 else if |packets[0]| > 4 then 1 else 1 + FirstLongPacketReads(packets[1..])
  }

  /** When packet i is the first one longer than 4, it is the response, alone, and the last packet read. */
  lemma {:induction false} FirstLongPacketIsFirst(packets: seq<seq<byte>>, i: nat)
    requires i < |packets| && |packets[i]| > 4
    requires forall j | 0 <= j < i :: |packets[j]| <= 4
    ensures FirstLongPacket(packets) == Some(packets[i])
    ensures FirstLongPacketReads(packets) == i + 1
    decreases i
  {
    if i > 0 {
      assert |packets[0]| <= 4;
      var rest := packets[1..];
      assert forall j | 0 <= j < i - 1 :: |rest[j]| <= 4 by {
        forall j | 0 <= j < i - 1 ensures |rest[j]| <= 4 {
          assert rest[j] == packets[j + 1];
        }
      }
      FirstLongPacketIsFirst(rest, i - 1);
    }
  }

  /** Without a packet longer than 4 the loop never returns, having read every packet. */
  lemma {:induction false} FirstLongPacketWithoutOne(packets: seq<seq<byte>>)
    requires forall j | 0 <= j < |packets| :: |packets[j]| <= 4
    ensures FirstLongPacket(packets) == None
    ensures FirstLongPacketReads(packets) == |packets|
    decreases |packets|
  {
    if packets != [] {
      assert |packets[0]| <= 4;
      FirstLongPacketWithoutOne(packets[1..]);
    }
  }

  /** A response is never longer than one receive buffer: a longer message is cut at 10000 bytes. */
  lemma ResponseFitsOneBuffer(pending: seq<seq<byte>>)
    requires NonEmptyChunks(pending)
    ensures FirstLongPacket(Packets(pending, RecvBufferSize)).Some? ==>
              |FirstLongPacket(Packets(pending, RecvBufferSize)).value| <= RecvBufferSize
    ensures FirstLongPacket(Packets(pending, RecvBufferSize)).Some? ==>
              FirstLongPacket(Packets(pending, RecvBufferSize)).value in Packets(pending, RecvBufferSize)
  {
    var ps := Packets(pending, RecvBufferSize);
    PacketsCoverStream(pending, RecvBufferSize);
    FirstLongPacketIsMember(ps);
  }

  lemma {:induction false} FirstLongPacketIsMember(packets: seq<seq<byte>>)
    ensures FirstLongPacket(packets).Some? ==> FirstLongPacket(packets).value in packets
    decreases |packets|
  {
    if packets != [] && |packets[0]| <= 4 {
      FirstLongPacketIsMember(packets[1..]);
      assert forall p | p in packets[1..] :: p in packets;
    }
  }

  /**
    The same ten bytes arriving in two halves yield only the first half, and
    the second half is left on the connection, where the next receive takes it
    for the next response.
   */
  lemma FirstLongPacketDependsOnChunking()
    ensures FirstLongPacket(Packets([[1, 2, 3, 4, 5, 6, 7, 8, 9, 10]], RecvBufferSize)) ==
            Some([1, 2, 3, 4, 5, 6, 7, 8, 9, 10])
    ensures FirstLongPacket(Packets([[1, 2, 3, 4, 5], [6, 7, 8, 9, 10]], RecvBufferSize)) ==
            Some([1, 2, 3, 4, 5])
    ensures ReceiveRest([[1, 2, 3, 4, 5], [6, 7, 8, 9, 10]]) == [[6, 7, 8, 9, 10]]
  {
    assert PendingAfter([[1, 2, 3, 4, 5], [6, 7, 8, 9, 10]], RecvBufferSize, 1) == [[6, 7, 8, 9, 10]] by {
      assert RecvFrom([[1, 2, 3, 4, 5], [6, 7, 8, 9, 10]], RecvBufferSize) == ([1, 2, 3, 4, 5], [[6, 7, 8, 9, 10]]);
    }
    assert Packets([[1, 2, 3, 4, 5, 6, 7, 8, 9, 10]], RecvBufferSize) == [[1, 2, 3, 4, 5, 6, 7, 8, 9, 10]];
    assert Packets([[1, 2, 3, 4, 5], [6, 7, 8, 9, 10]], RecvBufferSize) == [[1, 2, 3, 4, 5], [6, 7, 8, 9, 10]] by {
      assert RecvFrom([[1, 2, 3, 4, 5], [6, 7, 8, 9, 10]], RecvBufferSize) == ([1, 2, 3, 4, 5], [[6, 7, 8, 9, 10]]);
      assert Packets([[6, 7, 8, 9, 10]], RecvBufferSize) == [[6, 7, 8, 9, 10]];
    }
  }

  /** `_get_environment_state` on what the connection still holds: receive, then decode. */
  function ReceiveEnvData(codec: JsonCodec, pending: seq<seq<byte>>): (r: Result<EnvData>)
    requires NonEmptyChunks(pending)
  {
    match FirstLongPacket(Packets(pending, RecvBufferSize))
    case None => Err(NeverReturns)
    case Some(bytes) =>
      match codec.format(bytes)
      case None => Err(DecodeError)
      case Some(envData) => Ok(envData)
  }

  /** What that receive leaves on the connection: the chunks after the packets its loop read. */
  function ReceiveRest(pending: seq<seq<byte>>): (rest: seq<seq<byte>>)
    requires NonEmptyChunks(pending)
    ensures NonEmptyChunks(rest)
  {
    PendingAfter(pending, RecvBufferSize, FirstLongPacketReads(Packets(pending, RecvBufferSize)))
  }

  /**
    A receive that returns packet i consumes the packets up to it, the dropped
    short ones included, and leaves everything after it on the connection,
    where it begins the next response.
   */
  lemma ReceiveLeavesTheRest(pending: seq<seq<byte>>, i: nat)
    requires NonEmptyChunks(pending)
    requires i < |Packets(pending, RecvBufferSize)| && |Packets(pending, RecvBufferSize)[i]| > 4
    requires forall j | 0 <= j < i :: |Packets(pending, RecvBufferSize)[j]| <= 4
    ensures Packets(ReceiveRest(pending), RecvBufferSize) == Packets(pending, RecvBufferSize)[i + 1..]
    ensures Flatten(pending) == Flatten(Packets(pending, RecvBufferSize)[..i + 1]) + Flatten(ReceiveRest(pending))
  {
    var ps := Packets(pending, RecvBufferSize);
    FirstLongPacketIsFirst(ps, i);
    var n := FirstLongPacketReads(ps);
    PendingAfterRest(pending, RecvBufferSize, n);
  }

  /** A receive that never returns has drained the connection. */
  lemma ReceiveWithoutLongPacketDrains(pending: seq<seq<byte>>)
    requires NonEmptyChunks(pending)
    requires forall j | 0 <= j < |Packets(pending, RecvBufferSize)| :: |Packets(pending, RecvBufferSize)[j]| <= 4
    ensures ReceiveRest(pending) == []
  {
    var ps := Packets(pending, RecvBufferSize);
    FirstLongPacketWithoutOne(ps);
    PendingAfterRest(pending, RecvBufferSize, |ps|);
    NoPacketsNoPending(ReceiveRest(pending), RecvBufferSize);
  }

  /**
    What `step` makes of the received environment data: the split views with
    per-frame rewards, or the exception it raises.
   */
  function StepOutcome(received: Result<EnvData>): (r: Result<StepOutput>)
    ensures r.Ok? <==> received.Ok? && (received.value.nFrames != 0 || received.value.agents == [])
    ensures r.Ok? ==>
              var e := received.value;
              r.value.states == StatesView(e.agents) &&
              r.value.rewards == PerFrameAll(RewardsView(e.agents), e.nFrames) &&
              r.value.done == e.done && r.value.nFrames == e.nFrames
    ensures received.Err? ==> r == Err(received.failure)
    ensures received.Ok? && !r.Ok? ==> r == Err(ZeroDivisionError)
  {
    match received
    case Err(f) => Err(f)
    case Ok(e) =>
      if e.nFrames == 0 && e.agents != [] then Err(ZeroDivisionError)
      else Ok(StepOutput(StatesView(e.agents), PerFrameAll(RewardsView(e.agents), e.nFrames), e.done, e.nFrames))
  }

  // ----------------------------------------------------------------- class

  class GodotEnvironment {
    const session: Session
    const codec: JsonCodec
    /** `utils.get_path(path, add_absolute)`, a filesystem-dependent rewriting not modelled here. */
    const getPath: (Json, bool) -> string
    var config: Config
    /** The successive values `random_generator.randint(low=0, high=1e6)` returns. */
    var generator: nat -> int
    var drawn: nat

    ghost predicate Valid()
      reads this, session, session.Repr()
    {
      session.Valid() && session.host == config.host && session.port == config.port &&
      forall i: nat :: 0 <= generator(i) < SeedBound
    }

    /**
      `__init__`: the configuration read from `params`, then the generator of
      its seed (`set_other_params`).
     */
    constructor (params: map<string, Json>, defaultSeed: Json, generator: nat -> int, codec: JsonCodec,
                 getPath: (Json, bool) -> string)
      requires forall i: nat :: 0 <= generator(i) < SeedBound
      ensures Valid() && fresh(session) && fresh(session.Repr())
      ensures config == ConfigFromDict(params, defaultSeed)
      ensures session.socket == None && session.clientSocket == null && session.godotProcess == None
      ensures !session.isGodotLaunched && session.isRendering && session.trace == []
      ensures this.generator == generator && drawn == 0 && this.codec == codec && this.getPath == getPath
    {
      var c := ConfigFromDict(params, defaultSeed);
      session := new Session(c.host, c.port);
      config := c;
      this.generator, drawn := generator, 0;
      this.codec, this.getPath := codec, getPath;
    }

    /** `set_params_from_dict` on a constructed environment. */
    method SetParamsFromDict(params: map<string, Json>, defaultSeed: Json)
      requires Valid()
      modifies this`config, session
      ensures Valid()
      ensures config == ConfigFromDict(params, defaultSeed)
      ensures session.host == config.host && session.port == config.port
      ensures session.socket == old(session.socket) && session.clientSocket == old(session.clientSocket)
      ensures session.godotProcess == old(session.godotProcess) && session.trace == old(session.trace)
      ensures session.isGodotLaunched == old(session.isGodotLaunched) && session.isRendering == old(session.isRendering)
    {
      config := ConfigFromDict(params, defaultSeed);
      session.host, session.port := config.host, config.port;
    }

    /**
      `_create_request`: an initialization always carries a fresh draw as
      seed; the actions travel under `agents_data`, converted in place first.
     */
    method CreateRequest(initialization: bool, termination: bool, actions: array?<AgentAction>)
      returns (request: Request)
      requires Valid()
      requires !initialization && !termination ==> actions != null
      modifies this`drawn, if actions != null then {actions} else {}
      ensures Valid()
      ensures drawn == old(drawn) + (if initialization then 1 else 0)
      ensures !initialization && !termination ==>
                forall i | 0 <= i < actions.Length :: actions[i] == NormalizeAction(old(actions[i]))
      ensures (initialization || termination) && actions != null ==> actions[..] == old(actions[..])
      ensures request == MakeRequest(initialization, termination, session.isRendering, generator(old(drawn)), None,
                                     if !initialization && !termination then actions[..] else [],
                                     AgentsDataKey)
      ensures initialization ==> 0 <= request["seed"].i < SeedBound
    {
      var seedValue := generator(drawn);
      if initialization {
        drawn := drawn + 1;
      }
      var formatted: seq<AgentAction> := [];
      if !initialization && !termination {
        var same := FormatActionsData(actions);
        formatted := same[..];
      }
      request := MakeRequest(initialization, termination, session.isRendering, seedValue, None, formatted, AgentsDataKey);
    }

    /** `_wait_and_receive_states_data`: the first packet longer than 4 characters. */
    method WaitAndReceiveStatesData() returns (data: Option<seq<byte>>)
      requires Valid() && session.clientSocket != null
      modifies session.clientSocket
      ensures Valid()
      ensures data == FirstLongPacket(Packets(old(session.clientSocket.pending), RecvBufferSize))
      ensures session.clientSocket.pending == ReceiveRest(old(session.clientSocket.pending))
    {
      var sock := session.clientSocket;
      var condition := false;
      var statesData: seq<byte> := [];
      ghost var received: nat := 0;
      while !condition
        invariant sock.Valid() && Valid()
        invariant FirstLongPacket(Packets(old(sock.pending), RecvBufferSize)) ==
                  if condition then Some(statesData) else FirstLongPacket(Packets(sock.pending, RecvBufferSize))
        invariant FirstLongPacketReads(Packets(old(sock.pending), RecvBufferSize)) ==
                  received + if condition then 0 else FirstLongPacketReads(Packets(sock.pending, RecvBufferSize))
        invariant sock.pending == PendingAfter(old(sock.pending), RecvBufferSize, received)
        decreases |sock.Remaining()|, !condition
      {
        ghost var before := sock.pending;
        statesData := sock.Recv(RecvBufferSize);
        if statesData == [] {
          // from here on every receive is empty: the source never leaves the loop
          assert Packets(before, RecvBufferSize) == [];
          return None;
        }
        assert Packets(before, RecvBufferSize) == [statesData] + Packets(sock.pending, RecvBufferSize);
        PendingAfterStep(old(sock.pending), RecvBufferSize, received);
        received := received + 1;
        if |statesData| > 4 {
          condition := true;
        }
      }
      return Some(statesData);
    }

    /** `_get_environment_state`. */
    method GetEnvironmentState() returns (r: Result<EnvData>)
      requires Valid() && session.clientSocket != null
      modifies session.clientSocket
      ensures Valid()
      ensures r == ReceiveEnvData(codec, old(session.clientSocket.pending))
      ensures session.clientSocket.pending == ReceiveRest(old(session.clientSocket.pending))
    {
      var data := WaitAndReceiveStatesData();
      if data.None? {
        return Err(NeverReturns);
      }
      var envData := codec.format(data.value);
      if envData.None? {
        return Err(DecodeError);
      }
      return Ok(envData.value);
    }

    /**
      `_launch_simulation_if_needed` of this copy: before spawning, both paths
      are rewritten through `get_path`, the simulator's as an absolute path.
     */
    method LaunchSimulationIfNeeded()
      requires Valid()
      modifies this`config, session
      ensures Valid() && session.Repr() == old(session.Repr()) && session.isGodotLaunched
      ensures old(session.isGodotLaunched) ==>
                config == old(config) && session.godotProcess == old(session.godotProcess) &&
                session.trace == old(session.trace)
      ensures !old(session.isGodotLaunched) ==>
                var command := LaunchCommand(getPath(old(config.godotPath), true), getPath(old(config.envPath), false),
                                             session.isRendering);
                config == old(config).(godotPath := Str(getPath(old(config.godotPath), true)),
                                       envPath := Str(getPath(old(config.envPath), false))) &&
                session.godotProcess == Some(Process(command)) &&
                session.trace == old(session.trace) + [Spawn(command)]
      ensures session.socket == old(session.socket) && session.clientSocket == old(session.clientSocket)
      ensures session.isRendering == old(session.isRendering)
    {
      if !session.isGodotLaunched {
        var godotPath := getPath(config.godotPath, true);
        var envPath := getPath(config.envPath, false);
        config := config.(godotPath := Str(godotPath), envPath := Str(envPath));
        session.LaunchSimulationIfNeeded(godotPath, envPath);
      }
    }

    /** The start of `reset`: the render change, then the launch. */
    method ChangeRenderAndLaunch(render: bool, peer: seq<seq<byte>>)
      requires Valid() && NonEmptyChunks(peer)
      modifies this`config, session
      ensures Valid() && session.isGodotLaunched && session.isRendering == render
      ensures fresh(session.Repr() - old(session.Repr()))
      ensures var teardown := render != old(session.isRendering) && old(session.isGodotLaunched);
              var spawned := teardown || !old(session.isGodotLaunched);
              (config == if spawned then old(config).(godotPath := Str(getPath(old(config.godotPath), true)),
                                                      envPath := Str(getPath(old(config.envPath), false)))
                         else old(config)) &&
              session.socket.Some? == (old(session.socket).Some? && !teardown) &&
              (session.socket.Some? ==> session.clientSocket == old(session.clientSocket)) &&
              session.trace ==
                old(session.trace) +
                (if teardown then (if old(session.socket).Some? then [] else [Bind(session.host, session.port), Listen, Accept])
                                  + [Event.Send(TerminationRequest(old(session.isRendering))), CloseListener, Wait]
                 else []) +
                (if spawned then [Spawn(LaunchCommand(getPath(old(config.godotPath), true), getPath(old(config.envPath), false), render))]
                 else [])
    {
      session.ChangeRenderTypeIfNeeded(render, peer);
      LaunchSimulationIfNeeded();
    }

    /** The part of `reset` before its request: render change, launch, connection. */
    method PrepareForReset(render: bool, peer: seq<seq<byte>>)
      requires Valid() && NonEmptyChunks(peer)
      modifies this`config, session
      ensures Valid() && session.Ready() && session.isRendering == render
      ensures fresh(session.Repr() - old(session.Repr()))
      ensures var spawned := (render != old(session.isRendering) && old(session.isGodotLaunched)) ||
                             !old(session.isGodotLaunched);
              config == if spawned then old(config).(godotPath := Str(getPath(old(config.godotPath), true)),
                                                     envPath := Str(getPath(old(config.envPath), false)))
                        else old(config)
      ensures session.trace ==
                old(session.trace) +
                PrepareEvents(old(session.isRendering), old(session.isGodotLaunched), old(session.socket).Some?,
                              render, session.host, session.port,
                              LaunchCommand(getPath(old(config.godotPath), true), getPath(old(config.envPath), false), render))
      ensures (render != old(session.isRendering) && old(session.isGodotLaunched)) || old(session.socket).None? ==>
                fresh(session.clientSocket) && session.clientSocket.pending == peer
      ensures !((render != old(session.isRendering) && old(session.isGodotLaunched)) || old(session.socket).None?) ==>
                session.clientSocket == old(session.clientSocket)
    {
      ghost var teardown := render != session.isRendering && session.isGodotLaunched;
      ghost var hadSocket := session.socket.Some?;
      ChangeRenderAndLaunch(render, peer);
      ghost var afterLaunch := session.trace;
      session.ConnectIfNeeded(peer);
      assert session.trace == afterLaunch + (if teardown || !hadSocket then [Bind(session.host, session.port), Listen, Accept] else []);
    }

    /**
      `reset` up to its request: prepare the session and send one
      initialization request with a drawn seed.
     */
    method PrepareAndRequest(render: bool, peer: seq<seq<byte>>)
      requires Valid() && NonEmptyChunks(peer)
      modifies this`drawn, this`config, session
      ensures Valid() && session.Ready() && session.isRendering == render
      ensures fresh(session.Repr() - old(session.Repr()))
      ensures drawn == old(drawn) + 1
      ensures session.trace ==
                old(session.trace) +
                PrepareEvents(old(session.isRendering), old(session.isGodotLaunched), old(session.socket).Some?,
                              render, session.host, session.port,
                              LaunchCommand(getPath(old(config.godotPath), true), getPath(old(config.envPath), false), render)) +
                [Event.Send(InitRequest(render, old(generator(drawn)), None, AgentsDataKey))]
      ensures (render != old(session.isRendering) && old(session.isGodotLaunched)) || old(session.socket).None? ==>
                fresh(session.clientSocket) && session.clientSocket.pending == peer
      ensures !((render != old(session.isRendering) && old(session.isGodotLaunched)) || old(session.socket).None?) ==>
                session.clientSocket == old(session.clientSocket)
      ensures var spawned := (render != old(session.isRendering) && old(session.isGodotLaunched)) ||
                             !old(session.isGodotLaunched);
              config == if spawned then old(config).(godotPath := Str(getPath(old(config.godotPath), true)),
                                                     envPath := Str(getPath(old(config.envPath), false)))
                        else old(config)
    {
      PrepareForReset(render, peer);
      var request := CreateRequest(true, false, null);
      session.Send(request);
    }

    /**
      `reset`: prepare the session, send one initialization request with a
      drawn seed and return `agents_data` of the response.
     */
    method Reset(render: bool, peer: seq<seq<byte>>) returns (r: Result<seq<AgentDatum>>)
      requires Valid() && NonEmptyChunks(peer)
      modifies this`drawn, this`config, session.Repr()
      ensures Valid() && session.Ready() && session.isRendering == render
      ensures fresh(session.Repr() - old(session.Repr()))
      ensures drawn == old(drawn) + 1
      ensures session.trace ==
                old(session.trace) +
                PrepareEvents(old(session.isRendering), old(session.isGodotLaunched), old(session.socket).Some?,
                              render, session.host, session.port,
                              LaunchCommand(getPath(old(config.godotPath), true), getPath(old(config.envPath), false), render)) +
                [Event.Send(InitRequest(render, old(generator(drawn)), None, AgentsDataKey))]
      ensures var reconnected := (render != old(session.isRendering) && old(session.isGodotLaunched)) ||
                                 old(session.socket).None?;
              r == AgentsOf(if reconnected then ReceiveEnvData(codec, peer)
                            else ReceiveEnvData(codec, old(session.clientSocket.pending))) &&
              session.clientSocket.pending == ReceiveRest(if reconnected then peer else old(session.clientSocket.pending))
      ensures var spawned := (render != old(session.isRendering) && old(session.isGodotLaunched)) ||
                             !old(session.isGodotLaunched);
              config == if spawned then old(config).(godotPath := Str(getPath(old(config.godotPath), true)),
                                                     envPath := Str(getPath(old(config.envPath), false)))
                        else old(config)
    {
      PrepareAndRequest(render, peer);
      var envData := GetEnvironmentState();
      r := AgentsOf(envData);
    }

    /**
      `step`: send the actions under `agents_data`, receive the response,
      split it and divide every reward by `n_frames`. `done` is handed back and
      the connection stays open.
     */
    method Step(actions: array<AgentAction>) returns (r: Result<StepOutput>)
      requires Valid() && session.clientSocket != null
      modifies this`drawn, session, session.clientSocket, actions
      ensures Valid() && drawn == old(drawn)
      ensures forall i | 0 <= i < actions.Length :: actions[i] == NormalizeAction(old(actions[i]))
      ensures session.trace == old(session.trace) + [Event.Send(ActionRequest(session.isRendering, actions[..], AgentsDataKey))]
      ensures session.socket == old(session.socket) && session.clientSocket == old(session.clientSocket)
      ensures session.isGodotLaunched == old(session.isGodotLaunched) && session.isRendering == old(session.isRendering)
      ensures session.godotProcess == old(session.godotProcess)
      ensures r == StepOutcome(ReceiveEnvData(codec, old(session.clientSocket.pending)))
      ensures session.clientSocket.pending == ReceiveRest(old(session.clientSocket.pending))
    {
      var request := CreateRequest(false, false, actions);
      session.Send(request);
      var received := GetEnvironmentState();
      r := ProcessResponse(received);
    }
  }

  /** The part of `step` after the receive: split, then per-frame rewards. */
  method ProcessResponse(received: Result<EnvData>) returns (r: Result<StepOutput>)
    ensures r == StepOutcome(received)
  {
    if received.Err? {
      return Err(received.failure);
    }
    var e := received.value;
    var states, rewardsData := SplitEnvData(e.agents);
    var rewards := new NamedReward[|rewardsData|](i requires 0 <= i < |rewardsData| => rewardsData[i]);
    var scaled := ScaleRewards(rewards, e.nFrames);
    if !scaled {
      return Err(ZeroDivisionError);
    }
    assert rewards[..] == PerFrameAll(rewardsData, e.nFrames);
    return Ok(StepOutput(states, rewards[..], e.done, e.nFrames));
  }
}
