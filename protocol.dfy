/**
  The values exchanged with the simulation: JSON documents, the per-agent
  actions the caller hands to `step`, the request dictionaries built by
  `_create_request`, the decoded environment data, the two views that
  `_split_env_data` derives from it, the per-frame reward scaling of `step`,
  the command line `_launch_simulation_if_needed` spawns, and the external
  events a session causes (spawning, binding, accepting, sending, waiting).
 */
module Protocol {
  import opened Bytes

  datatype Json =
    | Null
    | Bool(b: bool)
    | Number(n: real)
    | Str(s: string)
    | Array(items: seq<Json>)
    | Object(fields: map<string, Json>)

  /** Python's truth value of a decoded JSON value (`if value:`). */
  predicate Truthy(j: Json)
  {
    match j
    case Null => false
    case Bool(b) => b
    case Number(n) => n != 0.0
    case Str(s) => s != ""
    case Array(items) => items != []
    case Object(fields) => fields != map[]
  }

  /** The values stored under `key` in those dictionaries that have it, in order. */
  function Column(ds: seq<map<string, Json>>, key: string): (column: seq<Json>)
  {
    if ds == [] then [] else (if key in ds[0] then [ds[0][key]] else []) + Column(ds[1..], key)
  }

  // ---------------------------------------------------------------- actions

  /** An action as the caller may give it: a Python int, a numpy integer, or anything else. */
  datatype ActionValue = PyInt(i: int) | NumpyInt(n: int) | Other(value: Json)

  /** One entry of `actions_data`: `{"name": ..., "action": ...}`. */
  datatype AgentAction = AgentAction(name: string, action: ActionValue)

  /** The integer an action stands for, when it is an integer of either kind. */
  function IntegerOf(v: ActionValue): (n: Option<int>)
  {
    match v
    case PyInt(i) => Some(i)
    case NumpyInt(n) => Some(n)
    case Other(_) => None
  }

  /** The conversion `_format_actions_data` applies to one entry: numpy integers become ints. */
  function NormalizeAction(a: AgentAction): (r: AgentAction)
    ensures r.name == a.name
    ensures IntegerOf(r.action) == IntegerOf(a.action)
    ensures !r.action.NumpyInt?
    ensures !a.action.NumpyInt? ==> r == a
  {
    if a.action.NumpyInt? then a.(action := PyInt(a.action.n)) else a
  }

  /** `_format_actions_data`: converts every entry in place and hands back the same list. */
  method FormatActionsData(actions: array<AgentAction>) returns (same: array<AgentAction>)
    modifies actions
    ensures same == actions
    ensures forall i | 0 <= i < actions.Length :: actions[i] == NormalizeAction(old(actions[i]))
  {
    var n := 0;
    while n < actions.Length
      invariant 0 <= n <= actions.Length
      invariant forall i | 0 <= i < n :: actions[i] == NormalizeAction(old(actions[i]))
      invariant forall i | n <= i < actions.Length :: actions[i] == old(actions[i])
    {
      if actions[n].action.NumpyInt? {
        actions[n] := actions[n].(action := PyInt(actions[n].action.n));
      }
      n := n + 1;
    }
    same := actions;
  }

  // --------------------------------------------------------------- requests

  /** A value stored under one key of a request dictionary. */
  datatype Value =
    | Flag(b: bool)
    | Int(i: int)
    | Params(params: map<string, Json>)
    | Actions(actions: seq<AgentAction>)

  /** The request dictionary, before `json.dumps` turns it into bytes. */
  type Request = map<string, Value>

  /** The key the per-agent actions travel under: `"actions_data"` in the packaged copies, `"agents_data"` in the root one. */
  datatype ActionsKey = ActionsDataKey | AgentsDataKey
  {
    function Name(): (name: string)
    {
      match this
      case ActionsDataKey => "actions_data"
      case AgentsDataKey => "agents_data"
    }
  }

  /**
    The dictionary `_create_request` builds, given the seed it settled on (used
    only for an initialization), the optional parameters and the formatted actions.
   */
  function MakeRequest(initialization: bool, termination: bool, render: bool, seed: int,
                       params: Option<map<string, Json>>, actions: seq<AgentAction>,
                       key: ActionsKey): (r: Request)
    ensures "initialization" in r && r["initialization"] == Flag(initialization)
    ensures "termination" in r && r["termination"] == Flag(termination)
    ensures "render" in r && r["render"] == Flag(render)
    ensures "seed" in r <==> initialization
    ensures "seed" in r ==> r["seed"] == Int(seed)
    ensures "params" in r <==> initialization && params.Some?
    ensures "params" in r ==> r["params"] == Params(params.value)
    ensures key.Name() in r <==> !initialization && !termination
    ensures key.Name() in r ==> r[key.Name()] == Actions(actions)
    ensures r.Keys <= {"initialization", "seed", "params", "termination", "render", key.Name()}
  {
    var r := map["initialization" := Flag(initialization)];
    var r := if initialization then r["seed" := Int(seed)] else r;
    var r := if initialization && params.Some? then r["params" := Params(params.value)] else r;
    var r := r["termination" := Flag(termination)]["render" := Flag(render)];
    if !initialization && !termination then r[key.Name() := Actions(actions)] else r
  }

  /** The request `close` sends: the same in every copy, whatever key the copy uses for actions. */
  function TerminationRequest(render: bool): (r: Request)
    ensures r.Keys == {"initialization", "termination", "render"}
    ensures r["initialization"] == Flag(false) && r["termination"] == Flag(true)
    ensures r["render"] == Flag(render)
  {
    map["initialization" := Flag(false), "termination" := Flag(true), "render" := Flag(render)]
  }

  /** The request `step` sends (the seed argument is unused when not initializing). */
  function ActionRequest(render: bool, actions: seq<AgentAction>, key: ActionsKey): (request: Request)
  {
    MakeRequest(false, false, render, 0, None, actions, key)
  }

  /** The request `reset` sends. */
  function InitRequest(render: bool, seed: int, params: Option<map<string, Json>>, key: ActionsKey): (request: Request)
  {
    MakeRequest(true, false, render, seed, params, [], key)
  }

  lemma TerminationRequestOfEveryVariant(render: bool, seed: int, params: Option<map<string, Json>>,
                                         actions: seq<AgentAction>, key: ActionsKey)
    ensures MakeRequest(false, true, render, seed, params, actions, key) == TerminationRequest(render)
  {
    var r := MakeRequest(false, true, render, seed, params, actions, key);
    assert r.Keys == {"initialization", "termination", "render"};
  }

  // ------------------------------------------------------------- responses

  /** One entry of the agent list in a response. */
  datatype AgentDatum = AgentDatum(name: string, state: Json, reward: real,
                                   metrics: Option<map<string, Json>>)

  /** A decoded response: the agent list, `n_frames` and `done`. */
  datatype EnvData = EnvData(agents: seq<AgentDatum>, nFrames: int, done: bool)

  /**
    What `json.loads` and `_format_states_data` do with received bytes: whether
    they parse as JSON, and the environment data they decode to (None when the
    document lacks the expected shape).
   */
  datatype JsonCodec = JsonCodec(parses: seq<byte> -> bool, format: seq<byte> -> Option<EnvData>)

  datatype NamedState = NamedState(name: string, state: Json)

  datatype NamedReward = NamedReward(name: string, reward: real)

  function StatesView(agents: seq<AgentDatum>): (r: seq<NamedState>)
    ensures |r| == |agents|
    ensures forall i | 0 <= i < |r| :: r[i].name == agents[i].name && r[i].state == agents[i].state
  {
    seq(|agents|, i requires 0 <= i < |agents| => NamedState(agents[i].name, agents[i].state))
  }

  function RewardsView(agents: seq<AgentDatum>): (r: seq<NamedReward>)
    ensures |r| == |agents|
    ensures forall i | 0 <= i < |r| :: r[i].name == agents[i].name && r[i].reward == agents[i].reward
  {
    seq(|agents|, i requires 0 <= i < |agents| => NamedReward(agents[i].name, agents[i].reward))
  }

  /** `_split_env_data`: one state entry and one reward entry per agent, in the order received. */
  method SplitEnvData(envData: seq<AgentDatum>) returns (states: seq<NamedState>, rewards: seq<NamedReward>)
    ensures states == StatesView(envData)
    ensures rewards == RewardsView(envData)
  {
    states, rewards := [], [];
    for n := 0 to |envData|
      invariant states == StatesView(envData[..n])
      invariant rewards == RewardsView(envData[..n])
    {
      states := states + [NamedState(envData[n].name, envData[n].state)];
      rewards := rewards + [NamedReward(envData[n].name, envData[n].reward)];
    }
    assert envData[..|envData|] == envData;
  }

  /** A reward received for n frames, expressed per frame. */
  function PerFrame(r: NamedReward, nFrames: int): (s: NamedReward)
    requires nFrames != 0
    ensures s.name == r.name && s.reward * nFrames as real == r.reward
  {
    r.(reward := r.reward / nFrames as real)
  }

  /**
    The loop of `step` that divides every reward by `n_frames` in place; false
    when Python's division raises ZeroDivisionError (a zero frame count with at
    least one agent), in which case nothing has been changed.
   */
  method ScaleRewards(rewards: array<NamedReward>, nFrames: int) returns (ok: bool)
    modifies rewards
    ensures ok <==> nFrames != 0 || rewards.Length == 0
    ensures ok ==> forall i | 0 <= i < rewards.Length :: nFrames != 0 && rewards[i] == PerFrame(old(rewards[i]), nFrames)
    ensures !ok ==> rewards[..] == old(rewards[..])
  {
    var n := 0;
    while n < rewards.Length
      invariant 0 <= n <= rewards.Length
      invariant n > 0 ==> nFrames != 0
      invariant forall i | 0 <= i < n :: nFrames != 0 && rewards[i] == PerFrame(old(rewards[i]), nFrames)
      invariant forall i | n <= i < rewards.Length :: rewards[i] == old(rewards[i])
    {
      if nFrames == 0 {
        return false;
      }
      rewards[n] := PerFrame(rewards[n], nFrames);
      n := n + 1;
    }
    return true;
  }

  /** The result `step` returns: states, rewards, `done` and `n_frames`. */
  datatype StepOutput = StepOutput(states: seq<NamedState>, rewards: seq<NamedReward>, done: bool, nFrames: int)

  /** Every reward of a response, per frame (nothing to divide when there is no agent). */
  function PerFrameAll(rewards: seq<NamedReward>, nFrames: int): (r: seq<NamedReward>)
    requires nFrames != 0 || rewards == []
    ensures |r| == |rewards|
    ensures forall i | 0 <= i < |r| :: r[i].name == rewards[i].name && r[i].reward * nFrames as real == rewards[i].reward
  {
    seq(|rewards|, i requires 0 <= i < |rewards| => PerFrame(rewards[i], nFrames))
  }

  /** Why a call does not come back with a value: the exception Python raises, or a loop that never ends. */
  datatype Failure =
    | NeverReturns        // a receive loop that keeps reading a closed connection
    | DecodeError         // json.loads or _format_states_data raises
    | IndexError          // the agent list is empty where agent 0 is read
    | KeyError(key: string)
    | ZeroDivisionError   // n_frames is 0 and there is a reward to divide
    | OSError             // bind on a socket that is already bound

  datatype Result<T> = Ok(value: T) | Err(failure: Failure)

  /** The agent list `reset` returns from a decoded response, or the failure on the way. */
  function AgentsOf(received: Result<EnvData>): (r: Result<seq<AgentDatum>>)
  {
    match received
    case Ok(e) => Ok(e.agents)
    case Err(f) => Err(f)
  }

  // ---------------------------------------------------------------- process

  const MainPackFlag: string := " --main-pack "
  const HeadlessFlags: string := " --disable-render-loop --no-window"

  /** The shell command `_launch_simulation_if_needed` spawns. */
  function LaunchCommand(godotPath: string, envPath: string, rendering: bool): (cmd: string)
    ensures godotPath + MainPackFlag + envPath <= cmd
    ensures |cmd| == |godotPath + MainPackFlag + envPath| + (if rendering then 0 else |HeadlessFlags|)
    ensures !rendering ==> cmd[|godotPath + MainPackFlag + envPath|..] == HeadlessFlags
  {
    var command := godotPath + MainPackFlag + envPath;
    if !rendering then command + HeadlessFlags else command
  }

  /** The handle `subprocess.Popen` returns, identified by its command line. */
  datatype Process = Process(command: string)

  /** What the listening socket has been through: created, or bound and listening. */
  datatype Listener = Unbound | Listening

  /** The external effects of a session, in the order they happen. */
  datatype Event =
    | Spawn(command: string)
    | Bind(host: Json, port: Json)
    | Listen
    | Accept
    | Send(request: Request)
    | CloseListener
    | Wait
}
