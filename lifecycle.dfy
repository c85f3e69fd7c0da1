/**
  The process-and-connection life cycle of `GodotEnvironment`. The three
  copies of the class share these members word for word: `_initialize_socket`,
  `_wait_for_connection`, `_end_connection`, `close`,
  `_change_render_type_if_needed`, and (up to the path rewriting of the root
  copy, which lives in that copy's module) `_launch_simulation_if_needed`.
  Sockets and the subprocess are not modelled; what they do is recorded as
  events in a ghost trace.
 */
module Lifecycle {
  import opened Bytes
  import opened Stream
  import opened Protocol

  /**
    What `reset` does to the outside world before it sends its initialization
    request: the teardown of a render change (accepting a connection first when
    there was no socket), the spawn of a simulation that is not running, and the
    connection to it when there is no socket.
   */
  ghost function PrepareEvents(wasRendering: bool, wasLaunched: bool, hadSocket: bool, render: bool,
                               host: Json, port: Json, command: string): (events: seq<Event>)
  {
    var teardown := render != wasRendering && wasLaunched;
    var connect := [Bind(host, port), Listen, Accept];
    (if teardown then (if hadSocket then [] else connect) + [Send(TerminationRequest(wasRendering)), CloseListener, Wait]
     else [])
    + (if teardown || !wasLaunched then [Spawn(command)] else [])
    + (if teardown || !hadSocket then connect else [])
  }

  class Session {
    var host: Json
    var port: Json
    /** The listening socket, or None. */
    var socket: Option<Listener>
    /** The accepted connection, or null. */
    var clientSocket: Connection?
    var godotProcess: Option<Process>
    var isGodotLaunched: bool
    var isRendering: bool
    /** Everything the session has done to the outside world, oldest first. */
    ghost var trace: seq<Event>

    ghost function Repr(): (objects: set<object>)
      reads this
    {
      {this} + (if clientSocket != null then {clientSocket} else {})
    }

    /**
      The connection is there exactly when the socket listens; a launched
      simulation has a process handle.
     */
    ghost predicate Consistent()
      reads this, Repr()
    {
      (clientSocket != null <==> socket.Some? && socket.value.Listening?) &&
      (clientSocket != null ==> clientSocket.Valid()) &&
      (isGodotLaunched ==> godotProcess.Some?)
    }

    /** Between two calls of the class, a socket is never left created but unbound. */
    ghost predicate Valid()
      reads this, Repr()
    {
      Consistent() && (socket.Some? ==> socket.value.Listening?)
    }

    /** Connected to a launched simulation: the state `reset` leaves behind. */
    ghost predicate Ready()
      reads this, Repr()
    {
      Valid() && isGodotLaunched && clientSocket != null
    }

    constructor (host: Json, port: Json)
      ensures Valid() && fresh(Repr())
      ensures this.host == host && this.port == port
      ensures socket == None && clientSocket == null && godotProcess == None
      ensures !isGodotLaunched && isRendering
      ensures trace == []
    {
      this.host, this.port := host, port;
      socket, clientSocket, godotProcess := None, null, None;
      isGodotLaunched, isRendering := false, true;
      trace := [];
    }

    /** `_initialize_socket`: a new, unbound socket. */
    method InitializeSocket()
      requires Valid() && socket == None
      modifies this
      ensures Consistent() && Repr() == old(Repr())
      ensures socket == Some(Unbound)
      ensures clientSocket == old(clientSocket) && godotProcess == old(godotProcess)
      ensures isGodotLaunched == old(isGodotLaunched) && isRendering == old(isRendering)
      ensures host == old(host) && port == old(port) && trace == old(trace)
    {
      socket := Some(Unbound);
    }

    /**
      `_wait_for_connection`: bind, listen, and accept the one connection on
      which the simulation will send `peer`. Binding a socket that is already
      bound raises OSError in Python: then `ok` is false and nothing changes.
     */
    method WaitForConnection(peer: seq<seq<byte>>) returns (ok: bool)
      requires Consistent() && socket.Some?
      requires NonEmptyChunks(peer)
      modifies this
      ensures Valid() && fresh(Repr() - old(Repr()))
      ensures ok <==> old(socket) == Some(Unbound)
      ensures ok ==> socket == Some(Listening) && fresh(clientSocket) && clientSocket.pending == peer
      ensures ok ==> trace == old(trace) + [Bind(host, port), Listen, Accept]
      ensures !ok ==> socket == old(socket) && clientSocket == old(clientSocket) && trace == old(trace)
      ensures godotProcess == old(godotProcess)
      ensures isGodotLaunched == old(isGodotLaunched) && isRendering == old(isRendering)
      ensures host == old(host) && port == old(port)
    {
      if socket.value.Listening? {
        return false;
      }
      trace := trace + [Bind(host, port), Listen, Accept];
      socket := Some(Listening);
      clientSocket := new Connection(peer);
      return true;
    }

    /** `_end_connection`: closes the listening socket and forgets both sockets. */
    method EndConnection()
      requires Valid() && socket.Some?
      modifies this
      ensures Valid() && Repr() == {this}
      ensures socket == None && clientSocket == null
      ensures trace == old(trace) + [CloseListener]
      ensures godotProcess == old(godotProcess)
      ensures isGodotLaunched == old(isGodotLaunched) && isRendering == old(isRendering)
      ensures host == old(host) && port == old(port)
    {
      trace := trace + [CloseListener];
      socket, clientSocket := None, null;
    }

    /** `sendall` on the accepted connection. */
    method Send(request: Request)
      requires Valid() && clientSocket != null
      modifies this
      ensures Valid() && Repr() == old(Repr())
      ensures trace == old(trace) + [Event.Send(request)]
      ensures socket == old(socket) && clientSocket == old(clientSocket)
      ensures godotProcess == old(godotProcess)
      ensures isGodotLaunched == old(isGodotLaunched) && isRendering == old(isRendering)
      ensures host == old(host) && port == old(port)
    {
      trace := trace + [Event.Send(request)];
    }

    /**
      `close`: sends the termination request, drops the connection, waits for
      the simulation to exit and records that it is no longer launched.
     */
    method Close()
      requires Valid() && clientSocket != null && godotProcess.Some?
      modifies this
      ensures Valid() && Repr() == {this}
      ensures trace == old(trace) + [Event.Send(TerminationRequest(isRendering)), CloseListener, Wait]
      ensures socket == None && clientSocket == null && !isGodotLaunched
      ensures godotProcess == old(godotProcess) && isRendering == old(isRendering)
      ensures host == old(host) && port == old(port)
    {
      Send(TerminationRequest(isRendering));
      EndConnection();
      trace := trace + [Wait];
      isGodotLaunched := false;
    }

    /**
      `_launch_simulation_if_needed` with the paths it reads: spawns
      `<godot> --main-pack <env>`, headless when not rendering, unless a
      simulation is already launched.
     */
    method LaunchSimulationIfNeeded(godotPath: string, envPath: string)
      requires Valid()
      modifies this
      ensures Valid() && Repr() == old(Repr())
      ensures isGodotLaunched
      ensures old(isGodotLaunched) ==> godotProcess == old(godotProcess) && trace == old(trace)
      ensures !old(isGodotLaunched) ==>
                godotProcess == Some(Process(LaunchCommand(godotPath, envPath, isRendering))) &&
                trace == old(trace) + [Spawn(LaunchCommand(godotPath, envPath, isRendering))]
      ensures socket == old(socket) && clientSocket == old(clientSocket)
      ensures isRendering == old(isRendering) && host == old(host) && port == old(port)
    {
      if !isGodotLaunched {
        var command := LaunchCommand(godotPath, envPath, isRendering);
        trace := trace + [Spawn(command)];
        godotProcess := Some(Process(command));
        isGodotLaunched := true;
      }
    }

    /**
      `_change_render_type_if_needed` as the source writes it: on a render
      change of a launched simulation it calls `_wait_for_connection` whether or
      not the socket already exists, so a session that is connected, the state
      every `reset` leaves, raises OSError on the second bind (`ok` false, and
      nothing changes). Compare `ChangeRenderTypeIfNeeded`.
     */
    method ChangeRenderTypeAsWritten(render: bool, peer: seq<seq<byte>>) returns (ok: bool)
      requires Valid() && NonEmptyChunks(peer)
      modifies this
      ensures Valid() && fresh(Repr() - old(Repr()))
      ensures ok <==> !(render != old(isRendering) && old(isGodotLaunched) && old(socket).Some?)
      ensures !ok ==> socket == old(socket) && clientSocket == old(clientSocket) &&
                      isRendering == old(isRendering) && isGodotLaunched && trace == old(trace)
      ensures ok ==> isRendering == render
      ensures ok && render != old(isRendering) && old(isGodotLaunched) ==>
                socket == None && clientSocket == null && !isGodotLaunched &&
                trace == old(trace) + [Bind(host, port), Listen, Accept]
                                    + [Event.Send(TerminationRequest(old(isRendering))), CloseListener, Wait]
      ensures render == old(isRendering) || !old(isGodotLaunched) ==>
                ok && socket == old(socket) && clientSocket == old(clientSocket) &&
                isGodotLaunched == old(isGodotLaunched) && trace == old(trace)
      ensures godotProcess == old(godotProcess) && host == old(host) && port == old(port)
    {
      if render != isRendering && isGodotLaunched {
        if socket == None {
          InitializeSocket();
        }
        ok := WaitForConnection(peer);
        if !ok {
          return false;
        }
        Close();
      }
      isRendering := render;
      return true;
    }

    /**
      `_change_render_type_if_needed` as evidently intended: the connection is
      awaited only when there is no socket yet (as `reset` does), then the
      running simulation is closed. Afterwards the session renders as asked.
     */
    method ChangeRenderTypeIfNeeded(render: bool, peer: seq<seq<byte>>)
      requires Valid() && NonEmptyChunks(peer)
      modifies this
      ensures Valid() && fresh(Repr() - old(Repr()))
      ensures isRendering == render
      ensures render == old(isRendering) || !old(isGodotLaunched) ==>
                socket == old(socket) && clientSocket == old(clientSocket) &&
                isGodotLaunched == old(isGodotLaunched) && trace == old(trace)
      ensures render != old(isRendering) && old(isGodotLaunched) ==>
                socket == None && clientSocket == null && !isGodotLaunched &&
                trace == old(trace) + (if old(socket) == None then [Bind(host, port), Listen, Accept] else [])
                                    + [Event.Send(TerminationRequest(old(isRendering))), CloseListener, Wait]
      ensures godotProcess == old(godotProcess) && host == old(host) && port == old(port)
    {
      if render != isRendering && isGodotLaunched {
        if socket == None {
          InitializeSocket();
          var ok := WaitForConnection(peer);
          assert ok;
        }
        Close();
      }
      isRendering := render;
    }

    /** The `if self.socket is None` block of `reset`: create the socket and accept a connection. */
    method ConnectIfNeeded(peer: seq<seq<byte>>)
      requires Valid() && NonEmptyChunks(peer)
      modifies this
      ensures Valid() && fresh(Repr() - old(Repr()))
      ensures clientSocket != null && socket == Some(Listening)
      ensures old(socket).Some? ==> clientSocket == old(clientSocket) && trace == old(trace)
      ensures old(socket) == None ==>
                fresh(clientSocket) && clientSocket.pending == peer &&
                trace == old(trace) + [Bind(host, port), Listen, Accept]
      ensures godotProcess == old(godotProcess)
      ensures isGodotLaunched == old(isGodotLaunched) && isRendering == old(isRendering)
      ensures host == old(host) && port == old(port)
    {
      if socket == None {
        InitializeSocket();
        var ok := WaitForConnection(peer);
        assert ok;
      }
    }

    /**
      The part of `reset` before its request: the render change, the launch,
      and the connection when there is no socket. A new connection (whenever
      the socket had to be made) is the one on which the simulation sends `peer`.
     */
    method PrepareForReset(render: bool, godotPath: string, envPath: string, peer: seq<seq<byte>>)
      requires Valid() && NonEmptyChunks(peer)
      modifies this
      ensures Ready() && isRendering == render && fresh(Repr() - old(Repr()))
      ensures trace == old(trace) + PrepareEvents(old(isRendering), old(isGodotLaunched), old(socket).Some?, render,
                                                  host, port, LaunchCommand(godotPath, envPath, render))
      ensures (render != old(isRendering) && old(isGodotLaunched)) || old(socket).None? ==>
                fresh(clientSocket) && clientSocket.pending == peer
      ensures !((render != old(isRendering) && old(isGodotLaunched)) || old(socket).None?) ==>
                clientSocket == old(clientSocket)
      ensures godotProcess == if (render != old(isRendering) && old(isGodotLaunched)) || !old(isGodotLaunched)
                              then Some(Process(LaunchCommand(godotPath, envPath, render))) else old(godotProcess)
      ensures host == old(host) && port == old(port)
    {
      ghost var before := trace;
      ghost var teardown := render != isRendering && isGodotLaunched;
      ghost var hadSocket := socket.Some?;
      ghost var wasLaunched := isGodotLaunched;
      ghost var connect := [Bind(host, port), Listen, Accept];
      ghost var closing := [Event.Send(TerminationRequest(isRendering)), CloseListener, Wait];
      ChangeRenderTypeIfNeeded(render, peer);
      ghost var afterChange := trace;
      assert afterChange == before + (if teardown then (if hadSocket then [] else connect) + closing else []);
      assert isGodotLaunched == (wasLaunched && !teardown);
      assert socket.Some? == (hadSocket && !teardown);
      LaunchSimulationIfNeeded(godotPath, envPath);
      ghost var afterLaunch := trace;
      assert afterLaunch == afterChange + (if teardown || !wasLaunched then [Spawn(LaunchCommand(godotPath, envPath, render))] else []);
      ConnectIfNeeded(peer);
      assert trace == afterLaunch + (if teardown || !hadSocket then connect else []);
    }
  }

  /**
    Two `reset`s with different render flags, as the source is written: the
    first leaves the session connected, so the render change of the second
    binds a bound socket and raises OSError.
   */
  method SecondResetWithOtherRenderAsWritten(godotPath: string, envPath: string, peer: seq<seq<byte>>)
    returns (ok: bool)
    requires NonEmptyChunks(peer)
    ensures !ok
  {
    var session := new Session(Str("127.0.0.1"), Number(4242.0));
    session.PrepareForReset(true, godotPath, envPath, peer);
    ok := session.ChangeRenderTypeAsWritten(false, peer);
  }

  /**
    The same two `reset`s with the corrected render change: the rendering
    simulation is closed and a headless one is spawned in its place.
   */
  method SecondResetWithOtherRender(godotPath: string, envPath: string, peer: seq<seq<byte>>)
    returns (process: Option<Process>, ghost events: seq<Event>)
    requires NonEmptyChunks(peer)
    ensures process == Some(Process(godotPath + MainPackFlag + envPath + HeadlessFlags))
    ensures events == [Spawn(godotPath + MainPackFlag + envPath), Bind(Str("127.0.0.1"), Number(4242.0)), Listen, Accept,
                       Event.Send(TerminationRequest(true)), CloseListener, Wait,
                       Spawn(godotPath + MainPackFlag + envPath + HeadlessFlags),
                       Bind(Str("127.0.0.1"), Number(4242.0)), Listen, Accept]
  {
    var session := new Session(Str("127.0.0.1"), Number(4242.0));
    session.PrepareForReset(true, godotPath, envPath, peer);
    session.PrepareForReset(false, godotPath, envPath, peer);
    process, events := session.godotProcess, session.trace;
  }
}
