# godot_interface: the client side of a Godot simulation session, in Dafny

`GodotEnvironment` is the Python side of a reinforcement-learning link to a
Godot game. It spawns the simulator as a subprocess, listens on a TCP socket
until the simulator connects, and sends JSON requests:

- an initialization request from `reset`;
- an action request from `step`;
- a termination request from `close`.

It reads back JSON responses that carry every agent's state and reward, a frame
count `n_frames`, and a `done` flag.

The repository holds three diverging copies of the class:

- `build/lib/godot_interface` (module `BuildLibEnvironment`);
- `godot_interface` (module `PackageEnvironment`);
- the root file (module `RootEnvironment`).

The copies differ in several ways:

- how they decide a response is complete;
- which key carries the actions (`actions_data`, or `agents_data` in the root copy);
- how the seed is chosen (the build copy's `reset` also takes a seed and `params`);
- which metrics are kept (none in the root copy);
- under which key `reset` reads the response (`states_data`, or `agents_data` in the root copy).

The root copy also reads its configuration from a dictionary
(`set_params_from_dict`), and rewrites its paths through `get_path` when it
launches the simulator. Each copy is modelled as it is written, except that
`reset` uses the corrected render change and the root configuration uses the
corrected `state_max` key (see Findings); the code as written for both is
modelled beside the correction.

The modules:

- `Bytes`: the byte type, concatenation of packets, and the 4-byte big-endian length.
- `Stream`: the accepted connection as a class.
  - Its field `pending` holds the chunks the simulator sent that have not been read yet.
  - `Recv(k)` returns at most `k` bytes of the oldest chunk.
  - Once everything is read, it returns the empty packet.
  - `Packets` lists what successive receives return.
- `Framing`: `recvall` and `recv_msg`, the length-prefixed framing. The packaged copy and the build copy share them word for word.
- `Protocol`: the values on the wire.
  - JSON values, actions and their in-place conversion.
  - Request dictionaries.
  - Decoded responses, split into state and reward views.
  - Per-frame reward scaling.
  - The spawn command line.
  - The events a session causes.
- `Lifecycle`: the `Session` class, shared by all three copies, whose lifecycle code is the same.
  - Fields: `socket`, `client_socket`, `godot_process`, `is_godot_launched` and `is_rendering`.
  - Methods: `_initialize_socket`, `_wait_for_connection`, `_end_connection`, `close`, `_launch_simulation_if_needed` and `_change_render_type_if_needed`.
  - Spawning, binding, listening, accepting, sending, closing the listener and waiting are appended to a ghost `trace`.
- `BuildLibEnvironment`, `PackageEnvironment`, `RootEnvironment`: one `GodotEnvironment` class per copy. Each has its own receive loop, request construction, `reset`, `step` and metrics. The root copy also has `set_params_from_dict`.

The receive loops are methods over the connection. Each is proved equal to a
function of the packets the connection will deliver:

- `JsonUntilValid`: keep appending until the buffer parses.
- `LengthHeuristic`: keep packets longer than 4 bytes, and stop after one shorter than 4096.
- `FirstLongPacket`: take the first packet longer than 4 bytes.

Each loop also has a count of the packets it reads (`JsonUntilValidReads`,
`LengthHeuristicReads`, `FirstLongPacketReads`). `ReceiveRest` is what the
connection holds after the loop: the chunks after those packets
(`Stream.PendingAfter`). Lemmas then say what those functions return, and what a
receive leaves behind for the next response. `step` and `reset` are proved
against `StepOutcome`, `ReceiveEnvData` and `ReceiveRest`, and the session trace
against `PrepareEvents`.

## Model

| member | source | states |
|---|---|---|
| Bytes.BigEndianUInt32 | build/lib/godot_interface/GodotEnvironment.py:19 | four bytes decode to a value below 2^32 |
| Bytes.EncodeUInt32 | build/lib/godot_interface/GodotEnvironment.py:19 | a value below 2^32 encodes to exactly four bytes |
| Bytes.DecodeEncodeUInt32 | build/lib/godot_interface/GodotEnvironment.py:19 | decoding the encoding of a length gives back the length |
| Bytes.EncodeDecodeUInt32 | build/lib/godot_interface/GodotEnvironment.py:19 | encoding the decoded value of four bytes gives back the same bytes |
| Stream.RecvFrom | build/lib/godot_interface/GodotEnvironment.py:27 | a receive returns at most `bufsize` bytes, a prefix of what is left; what remains is the rest of the stream; it is empty only at the end of the stream (or for a zero size) |
| Stream.PacketsCoverStream | build/lib/godot_interface/GodotEnvironment.py:244 | repeated receives return every byte of the stream in order, each packet non-empty and at most `bufsize` long |
| Stream.PendingAfterPackets | build/lib/godot_interface/GodotEnvironment.py:244 | after n receives the connection delivers exactly the packets that follow the first n |
| Stream.PendingAfterRest | build/lib/godot_interface/GodotEnvironment.py:244 | after n receives the connection holds exactly the bytes the first n packets did not return |
| Stream.Connection.Recv | build/lib/godot_interface/GodotEnvironment.py:27 | the packet and the new pending chunks are those of one receive |
| Framing.RecvAll | build/lib/godot_interface/GodotEnvironment.py:23-31 | returns exactly the next n bytes of the stream and consumes exactly them, or None (the stream fully read) when it ends first |
| Framing.RecvMsg | build/lib/godot_interface/GodotEnvironment.py:13-21 | returns None when fewer than 4 bytes are left; otherwise the body of the big-endian length L, or None if the stream ends first; on success exactly 4+L bytes are consumed |
| Framing.ReadFrameOfEncoded | build/lib/godot_interface/GodotEnvironment.py:13-21 | a frame written as length prefix plus body is read back as that body, whatever follows |
| Framing.ReadFrameIsEncoded | build/lib/godot_interface/GodotEnvironment.py:13-21 | whatever is read as a message was sent as length prefix plus body |
| Framing.RecvMsgIgnoresChunking | godot_interface/GodotEnvironment.py:13-31 | two connections carrying the same bytes in different chunks read the same message |
| Protocol.NormalizeAction | build/lib/godot_interface/GodotEnvironment.py:328-331 | the name and the integer value are kept, no numpy integer remains, and any other action is unchanged |
| Protocol.FormatActionsData | build/lib/godot_interface/GodotEnvironment.py:322-333 | converts every entry in place and returns the same list |
| Protocol.MakeRequest | build/lib/godot_interface/GodotEnvironment.py:301-320 | `initialization`, `termination` and `render` are always present; `seed` iff initializing; `params` iff initializing with parameters; the actions key iff neither flag is set; no other key |
| Protocol.TerminationRequest | build/lib/godot_interface/GodotEnvironment.py:192 | the termination request holds exactly the three flags, with termination set |
| Protocol.TerminationRequestOfEveryVariant | build/lib/godot_interface/GodotEnvironment.py:301-320 | a termination request is the same whatever seed, parameters, actions or key name are passed |
| Protocol.StatesView | build/lib/godot_interface/GodotEnvironment.py:354-361 | one state entry per agent, same order, names and states |
| Protocol.RewardsView | build/lib/godot_interface/GodotEnvironment.py:354-361 | one reward entry per agent, same order, names and rewards |
| Protocol.SplitEnvData | build/lib/godot_interface/GodotEnvironment.py:347-361 | the loop builds exactly the state view and the reward view |
| Protocol.PerFrame | build/lib/godot_interface/GodotEnvironment.py:174 | the per-frame reward times `n_frames` is the received reward; the name is kept |
| Protocol.PerFrameAll | build/lib/godot_interface/GodotEnvironment.py:172-174 | same length and names; every reward times `n_frames` is the received one |
| Protocol.ScaleRewards | build/lib/godot_interface/GodotEnvironment.py:172-174 | succeeds iff `n_frames` is non-zero or there is no reward; then every reward is divided in place; otherwise nothing changes |
| Protocol.LaunchCommand | build/lib/godot_interface/GodotEnvironment.py:379-381 | the command starts with `<godot> --main-pack <env>` and has the headless flags appended iff not rendering |
| Lifecycle.Session.constructor | build/lib/godot_interface/GodotEnvironment.py:48-58 | no socket, no connection, no process, not launched, rendering |
| Lifecycle.Session.InitializeSocket | build/lib/godot_interface/GodotEnvironment.py:207-208 | a fresh unbound socket; nothing else changes |
| Lifecycle.Session.WaitForConnection | build/lib/godot_interface/GodotEnvironment.py:210-220 | succeeds iff the socket is unbound; then it listens with a fresh connection and records bind, listen, accept; otherwise nothing changes |
| Lifecycle.Session.EndConnection | build/lib/godot_interface/GodotEnvironment.py:222-226 | the listener is closed and both sockets are forgotten |
| Lifecycle.Session.Send | build/lib/godot_interface/GodotEnvironment.py:193 | the request is recorded as sent; nothing else changes |
| Lifecycle.Session.Close | build/lib/godot_interface/GodotEnvironment.py:188-198 | sends the termination request, closes, waits, and leaves no sockets and nothing launched |
| Lifecycle.Session.LaunchSimulationIfNeeded | build/lib/godot_interface/GodotEnvironment.py:369-383 | no-op when launched; otherwise spawns the launch command for the current render flag and is launched |
| Lifecycle.Session.ChangeRenderTypeAsWritten | build/lib/godot_interface/GodotEnvironment.py:385-398 | as written: fails (OSError) exactly on a render change of a launched simulation whose socket exists, and then changes nothing; otherwise renders as asked, and on a render change of a launched simulation binds, listens and accepts, then sends the termination request, closes the listener and waits, leaving no socket and nothing launched; with no render change or nothing launched it changes nothing else; process, host and port are kept |
| Lifecycle.Session.ChangeRenderTypeIfNeeded | build/lib/godot_interface/GodotEnvironment.py:385-398 | tears down (termination sent, sockets gone, waited, not launched) only on a render change of a launched simulation; afterwards renders as asked |
| Lifecycle.Session.ConnectIfNeeded | build/lib/godot_interface/GodotEnvironment.py:112-116 | afterwards connected; a new connection and bind/listen/accept only when there was no socket |
| Lifecycle.Session.PrepareForReset | build/lib/godot_interface/GodotEnvironment.py:106-116 | connected to a launched simulation that renders as asked; the events are those of `PrepareEvents`; a process is spawned exactly on a teardown or when none was launched |
| Lifecycle.SecondResetWithOtherRenderAsWritten | build/lib/godot_interface/GodotEnvironment.py:392-397 | as written, a second reset with another render flag fails |
| Lifecycle.SecondResetWithOtherRender | build/lib/godot_interface/GodotEnvironment.py:392-398 | corrected, it closes the rendering simulation and spawns a headless one, with exactly these events |
| BuildLibEnvironment.JsonUntilValidIsShortest | build/lib/godot_interface/GodotEnvironment.py:240-254 | for a non-empty packet list: the loop returns iff some run of whole packets parses, and then returns the shortest such run, concatenated in order |
| BuildLibEnvironment.JsonUntilValidReadsWhatItReturns | build/lib/godot_interface/GodotEnvironment.py:240-254 | the document returned is exactly the bytes of the packets the loop read; a loop that never returns has read every packet |
| BuildLibEnvironment.ReceiveConsumesTheDocument | build/lib/godot_interface/GodotEnvironment.py:240-254 | a receive consumes exactly the document it returns, and the bytes after it stay on the connection; a receive that never returns has drained the connection |
| BuildLibEnvironment.JsonUntilValidDependsOnChunking | build/lib/godot_interface/GodotEnvironment.py:242-254 | the same bytes in other chunks can yield a different, shorter document, and the rest (`"2"`) then stays on the connection to begin the next response |
| BuildLibEnvironment.UpdateMetrics | build/lib/godot_interface/GodotEnvironment.py:161-168 | raises KeyError iff `region` is missing or `search_score` has no list; `region` is always appended; `misc` and `search_score` only when present; `search_data` is overwritten when present; on KeyError `search_score` and `search_data` are unchanged |
| BuildLibEnvironment.EpisodeMetricsAccumulate | build/lib/godot_interface/GodotEnvironment.py:161-168 | over an episode: the regions of every step, the `misc` and `search_score` values present, and the last `search_data` |
| BuildLibEnvironment.StepOutcome | build/lib/godot_interface/GodotEnvironment.py:151-186 | succeeds iff the response was received, has an agent 0 with metrics whose update raises no KeyError, and `n_frames` is non-zero; then the states and per-frame rewards keep agent order and `done` and `n_frames` pass through; the metrics are those of `UpdateMetrics` whenever agent 0 has metrics (also when `n_frames` is 0), and are unchanged otherwise; a receive failure, no agent (IndexError) and no metrics (KeyError) are each reported as such |
| BuildLibEnvironment.GodotEnvironment.constructor | build/lib/godot_interface/GodotEnvironment.py:34-75 | a fresh session; the given paths, seed and generator; metrics with empty `regions` and `misc` |
| BuildLibEnvironment.GodotEnvironment.SetSeed | build/lib/godot_interface/GodotEnvironment.py:77-79 | the seed and a fresh generator |
| BuildLibEnvironment.GodotEnvironment.RandInt | build/lib/godot_interface/GodotEnvironment.py:308 | the next draw of the generator, in [0, 1000000) |
| BuildLibEnvironment.GodotEnvironment.CreateRequest | build/lib/godot_interface/GodotEnvironment.py:277-320 | the request of `MakeRequest`; the seed is the caller's when given, else the next draw (in range); the actions are converted in place |
| BuildLibEnvironment.GodotEnvironment.WaitAndReceiveStatesData | build/lib/godot_interface/GodotEnvironment.py:234-260 | returns what `JsonUntilValid` gives on the packets the connection delivers, and leaves on the connection exactly `ReceiveRest`, the chunks after the packets read |
| BuildLibEnvironment.GodotEnvironment.GetEnvironmentState | build/lib/godot_interface/GodotEnvironment.py:262-269 | receives and decodes as `ReceiveEnvData` says, and leaves `ReceiveRest` on the connection |
| BuildLibEnvironment.GodotEnvironment.PrepareAndRequest | build/lib/godot_interface/GodotEnvironment.py:106-120 | prepares the session and sends one initialization request carrying the chosen seed and parameters; host and port are kept |
| BuildLibEnvironment.GodotEnvironment.Reset | build/lib/godot_interface/GodotEnvironment.py:87-135 | connected and launched, rendering as asked, same host and port; the trace is `PrepareEvents` then the initialization request; the result is the agents received on the current connection, which then holds `ReceiveRest`; the metrics are reset on success |
| BuildLibEnvironment.GodotEnvironment.Step | build/lib/godot_interface/GodotEnvironment.py:137-186 | sends one action request with the converted actions; keeps the same socket, connection object, process, host and port (also on `done`); returns `StepOutcome` of the response and leaves `ReceiveRest` on the connection for the next one |
| BuildLibEnvironment.GodotEnvironment.ProcessResponse | build/lib/godot_interface/GodotEnvironment.py:154-186 | split, metrics and scaling give exactly `StepOutcome` |
| PackageEnvironment.KeptPacketsAreTheLongOnes | godot_interface/GodotEnvironment.py:225-226 | every packet kept is longer than 4 bytes and was received, and every received packet longer than 4 bytes is kept |
| PackageEnvironment.KeptPacketsAppend | godot_interface/GodotEnvironment.py:222-226 | keeping distributes over concatenation, so the kept packets stay in the order received |
| PackageEnvironment.LengthHeuristicReadsToFirstFinal | godot_interface/GodotEnvironment.py:222-228 | when packet i is the first final one, the loop reads exactly i+1 packets |
| PackageEnvironment.LengthHeuristicStopsAtFirstFinal | godot_interface/GodotEnvironment.py:222-228 | when packet i is the first longer than 4 and shorter than 4096, the result is the packets longer than 4 up to i, concatenated in order |
| PackageEnvironment.LengthHeuristicWithoutFinal | godot_interface/GodotEnvironment.py:222-228 | without such a packet the loop never returns, having read every packet |
| PackageEnvironment.ReceiveLeavesTheRest | godot_interface/GodotEnvironment.py:222-228 | a receive that ends at the first final packet consumes the packets up to it, the dropped short ones included; the connection then delivers exactly the packets after it |
| PackageEnvironment.ReceiveWithoutFinalDrains | godot_interface/GodotEnvironment.py:222-228 | a receive that never returns has drained the connection |
| PackageEnvironment.LengthHeuristicDependsOnChunking | godot_interface/GodotEnvironment.py:224-226 | ten bytes in one chunk are received whole, but split 3+7 only the last seven are |
| PackageEnvironment.UpdateMetrics | godot_interface/GodotEnvironment.py:152-155 | KeyError iff `region` or `misc` is missing; `region` is appended whenever present (also before the KeyError on `misc`); `misc` becomes the old list plus the value exactly when both keys are present and the value is truthy |
| PackageEnvironment.EpisodeMetricsAccumulate | godot_interface/GodotEnvironment.py:152-155 | over an episode: every region, and exactly the truthy `misc` values, in order |
| PackageEnvironment.StepOutcome | godot_interface/GodotEnvironment.py:141-173 | succeeds iff the response was received, agent 0 has metrics with `region` and `misc`, and `n_frames` is non-zero; then the states and per-frame rewards keep agent order and `done` and `n_frames` pass through; the metrics are those of `UpdateMetrics` whenever agent 0 has metrics, and are unchanged otherwise; a receive failure, no agent (IndexError) and no metrics (KeyError) are each reported as such |
| PackageEnvironment.GodotEnvironment.constructor | godot_interface/GodotEnvironment.py:34-75 | a fresh session; the given paths, seed and generator; empty metrics |
| PackageEnvironment.GodotEnvironment.SetSeed | godot_interface/GodotEnvironment.py:77-79 | the seed and a fresh generator |
| PackageEnvironment.GodotEnvironment.CreateRequest | godot_interface/GodotEnvironment.py:245-267 | the request of `MakeRequest` under `actions_data`; an initialization always carries the next draw (in range); the actions are converted in place |
| PackageEnvironment.GodotEnvironment.WaitAndReceiveStatesData | godot_interface/GodotEnvironment.py:213-232 | returns what `LengthHeuristic` gives on the packets the connection delivers, and leaves on the connection exactly `ReceiveRest`, the chunks after the packets read (dropped ones included) |
| PackageEnvironment.GodotEnvironment.GetEnvironmentState | godot_interface/GodotEnvironment.py:234-241 | receives and decodes as `ReceiveEnvData` says, and leaves `ReceiveRest` on the connection |
| PackageEnvironment.GodotEnvironment.PrepareAndRequest | godot_interface/GodotEnvironment.py:97-112 | prepares the session and sends one initialization request carrying the next draw; host and port are kept |
| PackageEnvironment.GodotEnvironment.Reset | godot_interface/GodotEnvironment.py:83-125 | connected and launched, rendering as asked, same host and port; the trace is `PrepareEvents` then the initialization request; the result is the agents received, and the connection then holds `ReceiveRest`; the metrics are emptied on success |
| PackageEnvironment.GodotEnvironment.Step | godot_interface/GodotEnvironment.py:127-173 | sends one action request; keeps the same socket, connection object, process, host and port; returns `StepOutcome` of the response and leaves `ReceiveRest` on the connection for the next one |
| PackageEnvironment.GodotEnvironment.ProcessResponse | godot_interface/GodotEnvironment.py:146-173 | split, metrics and scaling give exactly `StepOutcome` |
| RootEnvironment.AsWrittenStateMaxIgnoresItsKey | GodotEnvironment.py:46-47 | as written, a `state max` entry is never read, and a `state min` entry sets `state_max` too |
| RootEnvironment.ConfigFromDict | GodotEnvironment.py:40-51 | `state_max` comes from its own key or its default; `state_min` from its own key or its default |
| RootEnvironment.ConfigFromEmptyDict | GodotEnvironment.py:40-51 | an empty dictionary gives every default (host `127.0.0.1`, port 4242, ...) |
| RootEnvironment.ConfigReadingsDiffer | GodotEnvironment.py:46-47 | the written and the corrected readings differ only in `state_max`, and agree iff both keys give the same value |
| RootEnvironment.StateMaxFromItsKey | GodotEnvironment.py:47 | in the corrected reading, giving `state max` a value changes `state_max` alone |
| RootEnvironment.FirstLongPacketIsFirst | GodotEnvironment.py:209-215 | the response is the first packet longer than 4 bytes, alone, and the last packet read |
| RootEnvironment.FirstLongPacketWithoutOne | GodotEnvironment.py:209-215 | without such a packet the loop never returns, having read every packet |
| RootEnvironment.ReceiveLeavesTheRest | GodotEnvironment.py:209-215 | a receive that returns packet i consumes the packets up to it, the dropped short ones included; the connection then delivers exactly the packets after it |
| RootEnvironment.ReceiveWithoutLongPacketDrains | GodotEnvironment.py:209-215 | a receive that never returns has drained the connection |
| RootEnvironment.FirstLongPacketIsMember | GodotEnvironment.py:210-214 | the response is one of the received packets, never a concatenation |
| RootEnvironment.ResponseFitsOneBuffer | GodotEnvironment.py:210 | a response is at most 10000 bytes: a longer message is cut |
| RootEnvironment.FirstLongPacketDependsOnChunking | GodotEnvironment.py:209-215 | ten bytes split 5+5 yield only the first five, and the last five stay on the connection to begin the next response |
| RootEnvironment.StepOutcome | GodotEnvironment.py:110-132 | succeeds iff the response was received and `n_frames` is non-zero or there is no agent; then the states and per-frame rewards keep agent order and `done` and `n_frames` pass through |
| RootEnvironment.ProcessResponse | GodotEnvironment.py:115-132 | split and scaling give exactly `StepOutcome` |
| RootEnvironment.GodotEnvironment.constructor | GodotEnvironment.py:11-38 | the configuration read from the dictionary, a fresh session on its host and port, and the generator of its seed |
| RootEnvironment.GodotEnvironment.SetParamsFromDict | GodotEnvironment.py:40-51 | the configuration read from the dictionary; the session uses its host and port |
| RootEnvironment.GodotEnvironment.CreateRequest | GodotEnvironment.py:169-187 | the request of `MakeRequest` under `agents_data`; an initialization always carries the next draw (in range) |
| RootEnvironment.GodotEnvironment.WaitAndReceiveStatesData | GodotEnvironment.py:201-215 | returns what `FirstLongPacket` gives on the packets the connection delivers, and leaves on the connection exactly `ReceiveRest`, the chunks after the packets read |
| RootEnvironment.GodotEnvironment.GetEnvironmentState | GodotEnvironment.py:229-236 | receives and decodes as `ReceiveEnvData` says, and leaves `ReceiveRest` on the connection |
| RootEnvironment.GodotEnvironment.LaunchSimulationIfNeeded | GodotEnvironment.py:257-267 | no-op when launched; otherwise both paths are rewritten through `get_path` (the simulator's as absolute) and the command built from them is spawned |
| RootEnvironment.GodotEnvironment.ChangeRenderAndLaunch | GodotEnvironment.py:72-75 | the render change, then the launch, with their events and the rewritten paths |
| RootEnvironment.GodotEnvironment.PrepareForReset | GodotEnvironment.py:72-81 | connected to a launched simulation that renders as asked; the events are those of `PrepareEvents` with the rewritten paths |
| RootEnvironment.GodotEnvironment.PrepareAndRequest | GodotEnvironment.py:72-85 | prepares the session and sends one initialization request carrying the next draw; the configuration has its paths rewritten exactly when a simulation is spawned, and is otherwise unchanged |
| RootEnvironment.GodotEnvironment.Reset | GodotEnvironment.py:58-94 | connected and launched, rendering as asked; the trace is `PrepareEvents` then one initialization request; the result is `agents_data` received on the current connection, which then holds `ReceiveRest`; the configuration has its paths rewritten exactly when a simulation is spawned, and is otherwise unchanged |
| RootEnvironment.GodotEnvironment.Step | GodotEnvironment.py:96-132 | sends one action request under `agents_data`; keeps the same socket, connection object and process; returns `StepOutcome` of the response and leaves `ReceiveRest` on the connection for the next one |

## Left out

- Sockets, the subprocess and the operating system. `bind`, `listen`, `accept`, `sendall`, `Popen` and `wait` become trace events. Blocking, timeouts, `SO_REUSEADDR` and address errors other than binding a bound socket are not modelled.
- Receive loops that the source never leaves are returned as `None` (`NeverReturns`). This happens once the peer has closed and every `recv` returns empty.
- The peer's bytes are a parameter (`peer`, the chunks a new connection will deliver). Which bytes the simulator sends is not modelled.
- `json.dumps`, `json.loads`, `.decode()` and `ast.literal_eval` are represented by `JsonCodec`.
  - `parses` says whether bytes decode and parse.
  - `format` gives the decoded response, or None when `_format_states_data` raises on it.
  - Request dictionaries are not serialised, so key order and encoding are out.
- The root copy's receive loop measures decoded characters. The model measures bytes, which is the same for ASCII.
- Rewards are reals, not floats. The model divides exactly, and a float division by zero is the `ZeroDivisionError` case.
- `np.random.RandomState` is a sequence of draws given with its seed (`generator`). The default seed drawn at definition time is a parameter.
- `scale_states_data` and `scale_state` are numpy arithmetic whose calls are commented out.
- `print` and the `verbose`/`display_*` flags, and the `__main__` block of the build copy.
- `utils.py` and `godot_interface/utils.py` are not part of this model. The discovered simulator and package paths are constructor parameters, and `get_path` is an uninterpreted function (`getPath`).
- The constructor arguments `agent_names`, `state_min`, `state_max` and `max_rec_bits` of the packaged copies are stored but never used by the modelled core.
- The root copy's `set_other_params` is folded into its constructor and `SetParamsFromDict` leaves the generator alone; the generator of the configured seed is a constructor parameter.
- RootEnvironment.GodotEnvironment.SetParamsFromDict: this reads the configuration with the corrected `ConfigFromDict`, which takes `state_max` from `"state max"` where line 47 reads `"state min"` (see Findings); the code as written is `ConfigFromDictAsWritten`. The default seed is a parameter, since `np.random.randint(0, 1e5)` is drawn anew at each call.
- BuildLibEnvironment.GodotEnvironment.Reset: the result when the response has no `states_data` key is folded into `DecodeError`, because `_format_states_data` already indexes that key.
- BuildLibEnvironment.StepOutcome: a response that decodes but lacks `n_frames`, `done`, or an agent's `name`, `state` or `reward` cannot be represented, because `EnvData` and `AgentDatum` always carry those fields. The KeyError `step` raises on such a response is not modelled. With `n_frames` missing, that KeyError comes after `region` was appended. `reset` accepts such a response.
- PackageEnvironment.StepOutcome: the same incomplete responses, and the KeyError `step` raises on them, are not modelled.
- RootEnvironment.StepOutcome: the same incomplete responses, and the KeyError `step` raises on them, are not modelled.
- BuildLibEnvironment.GodotEnvironment.Step: calling `step` before any `reset` raises AttributeError on the None `client_socket` in the source. The model requires a connection instead.
- PackageEnvironment.GodotEnvironment.Step: the same misuse is excluded by the requirement of a connection.
- RootEnvironment.GodotEnvironment.Step: the same misuse is excluded by the requirement of a connection.
- Lifecycle.Session.Close: `close` before any `reset`, or a second `close`, raises AttributeError on the None `client_socket` in the source. The model requires a connection and a process instead.
- Lifecycle.Session.ChangeRenderTypeIfNeeded: this is the corrected render change (see Findings). `reset` in all three copies uses it. The code as written is `ChangeRenderTypeAsWritten`. The members that carry the correction are `Lifecycle.Session.PrepareForReset`, `BuildLibEnvironment.GodotEnvironment.PrepareAndRequest`, `PackageEnvironment.GodotEnvironment.PrepareAndRequest`, `RootEnvironment.GodotEnvironment.PrepareAndRequest`, the three `Reset` methods, and `RootEnvironment.GodotEnvironment.ChangeRenderAndLaunch` and `RootEnvironment.GodotEnvironment.PrepareForReset`.
- Lifecycle.Session.PrepareForReset: uses the corrected render change, not the one as written (see Findings).
- RootEnvironment.GodotEnvironment.ChangeRenderAndLaunch: uses the corrected render change, not the one as written (see Findings).
- RootEnvironment.GodotEnvironment.constructor: this reads the configuration with the corrected `ConfigFromDict` (see Findings). The code as written is `ConfigFromDictAsWritten`.

## Findings

| source | as written | input that shows it | evidently intended | confidence | as-written member | corrected member |
|---|---|---|---|---|---|---|
| build/lib/godot_interface/GodotEnvironment.py:393-395 (also godot_interface/GodotEnvironment.py:338-340, GodotEnvironment.py:250-252) | on a render change of a launched simulation, `_wait_for_connection` (bind, listen, accept) is called even when `self.socket` already exists | `reset(True)` then `reset(False)`: the first reset leaves the socket bound, so the second binds it again and Python raises OSError | wait for a connection only when the socket had to be created, as `reset` does, then close | high, not executed | Lifecycle.SecondResetWithOtherRenderAsWritten | Lifecycle.SecondResetWithOtherRender |
| GodotEnvironment.py:47 | `state_max` is read from the key `"state min"` | `{"state max": [5, 5]}` leaves `state_max` at `[1000, 1000]`, and `{"state min": [5, 5]}` sets both bounds to `[5, 5]` | read `state_max` from `"state max"` | high, not executed | RootEnvironment.AsWrittenStateMaxIgnoresItsKey | RootEnvironment.StateMaxFromItsKey |
