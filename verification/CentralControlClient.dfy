/** `CentralControlClient` with the fields its methods set. The sockets, intervals and timeouts it
    creates are fields of the model's runtime; every method moves the whole as `RelayControl` says. */
module ControlClient {
  import opened RelayControl
  import opened Sequences

  class CentralControlClient {
    const config: Config
    var ws: Option<nat>
    var generation: nat
    var intentionalClose: bool
    var backoff: nat
    var authenticated: bool
    var busSupported: bool
    var lastError: Option<Verdict>
    var heartbeatTimer: Option<nat>
    var awaitingPong: bool
    var reconnectTimer: Option<nat>
    // the runtime
    var sockets: map<nat, Phase>
    var intervals: set<nat>
    var timeouts: map<nat, real>
    var nextTimer: nat
    var tokenFetches: set<nat>
    var capture: seq<Note>

    ghost function LinkState(): Link
      reads this`ws, this`generation, this`intentionalClose, this`authenticated, this`busSupported, this`lastError, this`backoff
    {
      Link(ws, generation, intentionalClose, authenticated, busSupported, lastError, backoff)
    }

    ghost function HandleState(): Handles
      reads this`heartbeatTimer, this`awaitingPong, this`reconnectTimer
    {
      Handles(heartbeatTimer, awaitingPong, reconnectTimer)
    }

    ghost function WorldState(): World
      reads this`sockets, this`intervals, this`timeouts, this`nextTimer, this`tokenFetches
    {
      World(sockets, intervals, timeouts, nextTimer, tokenFetches)
    }

    ghost function State(): Client
      reads this
    {
      Client(LinkState(), HandleState(), WorldState(), capture)
    }

    constructor (config: Config)
      ensures this.config == config && State() == Initial
    {
      this.config := config;
      ws, generation, intentionalClose, backoff := None, 0, false, INITIAL_BACKOFF;
      authenticated, busSupported, lastError := false, false, None;
      heartbeatTimer, awaitingPong, reconnectTimer := None, false, None;
      sockets, intervals, timeouts, nextTimer, tokenFetches, capture := map[], {}, map[], 0, {}, [];
    }

    method CloseSocket(socket: Option<nat>)
      modifies this`sockets
      ensures sockets == Shut(old(WorldState()), socket).sockets
    {
      if socket.Some? && socket.value in sockets && Live(sockets[socket.value]) {
        sockets := sockets[socket.value := Closing];
      }
    }

    method StopHeartbeat()
      modifies this`heartbeatTimer, this`intervals
      ensures heartbeatTimer == None && intervals == old(intervals) - Held(old(heartbeatTimer))
    {
      if heartbeatTimer.Some? {
        intervals := intervals - {heartbeatTimer.value};
        heartbeatTimer := None;
      }
    }

    method BeginHeartbeat()
      modifies this`heartbeatTimer, this`awaitingPong, this`intervals, this`nextTimer
      ensures HandleState() == StartHeartbeat(old(State())).handles
      ensures WorldState() == StartHeartbeat(old(State())).world
    {
      StopHeartbeat();
      awaitingPong := false;
      heartbeatTimer := Some(nextTimer);
      intervals := intervals + {nextTimer};
      nextTimer := nextTimer + 1;
    }

    method CleanUp()
      modifies this`heartbeatTimer, this`awaitingPong, this`reconnectTimer, this`intervals, this`timeouts
      ensures HandleState() == Handles(None, false, None)
      ensures intervals == old(intervals) - Held(old(heartbeatTimer)) && timeouts == old(timeouts) - Held(old(reconnectTimer))
    {
      StopHeartbeat();
      awaitingPong := false;
      if reconnectTimer.Some? {
        timeouts := timeouts - {reconnectTimer.value};
        reconnectTimer := None;
      }
    }

    /** `cleanup()` and `ws?.close()`. */
    method LetGo()
      modifies this`heartbeatTimer, this`awaitingPong, this`reconnectTimer, this`intervals, this`timeouts, this`sockets
      ensures HandleState() == Handles(None, false, None)
      ensures WorldState() == Shut(Cleanup(old(State())).world, ws)
    {
      CleanUp();
      CloseSocket(ws);
    }

    method Schedule(jitter: real)
      requires 0.0 <= jitter < 1.0
      modifies this`reconnectTimer, this`timeouts, this`nextTimer
      ensures HandleState() == ScheduleReconnect(old(State()), jitter).handles
      ensures WorldState() == ScheduleReconnect(old(State()), jitter).world
    {
      timeouts := timeouts[nextTimer := Delay(backoff, jitter)];
      reconnectTimer := Some(nextTimer);
      nextTimer := nextTimer + 1;
    }

    method Dial(cause: Cause)
      modifies this
      ensures State() == DoConnect(old(State()), cause)
    {
      ghost var next := DoConnect(State(), cause);
      LetGo();
      assert HandleState() == next.handles;
      generation := generation + 1;
      authenticated := false;
      busSupported := false;
      lastError := None;
      ws := Some(generation);
      sockets := sockets[generation := Connecting];
      capture := capture + [Dialled(generation, cause)];
    }

    method Connect()
      modifies this
      ensures State() == DoConnectCall(old(State()))
    {
      if ws.Some? && ws.value in sockets && Live(sockets[ws.value]) {
        return;
      }
      intentionalClose := false;
      Dial(ByConnect);
    }

    method RedialWithFreshToken()
      modifies this
      ensures State() == DoRedial(old(State()))
    {
      if intentionalClose {
        return;
      }
      if ws.Some? && ws.value in sockets && sockets[ws.value].Open? {
        return;
      }
      if lastError.None? || lastError.value.code != "LICENSE_EXPIRED" {
        return;
      }
      lastError := None;
      backoff := INITIAL_BACKOFF;
      Dial(ByFreshToken);
    }

    method Close()
      modifies this
      ensures State() == DoClose(old(State()))
    {
      ghost var next := DoClose(State());
      LetGo();
      assert HandleState() == next.handles && WorldState() == next.world;
      generation := generation + 1;
      authenticated := false;
      intentionalClose := true;
      ws := None;
    }

    method SocketOpened(dial: nat)
      requires Applies(State(), SocketOpens(dial))
      modifies this
      ensures State() == DoOpen(old(State()), dial)
    {
      sockets := sockets[dial := Open];
      if dial != generation || intentionalClose {
        return;
      }
      ws := Some(dial);
      tokenFetches := tokenFetches + {dial};
    }

    /** Writes only to an open socket. */
    method Send(frame: Frame)
      modifies this`capture
      ensures State() == SendJson(old(State()), frame)
    {
      if ws.Some? && ws.value in sockets && sockets[ws.value].Open? {
        capture := capture + [Tx(ws.value, frame)];
      }
    }

    method Welcomed(bus: bool)
      modifies this`authenticated, this`busSupported, this`backoff, this`heartbeatTimer, this`awaitingPong, this`intervals, this`nextTimer
      ensures LinkState() == old(LinkState()).(authenticated := true, busSupported := bus, backoff := INITIAL_BACKOFF)
      ensures HandleState() == StartHeartbeat(old(State())).handles
      ensures WorldState() == StartHeartbeat(old(State())).world
    {
      authenticated := true;
      busSupported := bus;
      backoff := INITIAL_BACKOFF;
      BeginHeartbeat();
    }

    method HandleTextMessage(dial: nat, msg: Text)
      requires dial == generation && !msg.Unreadable?
      modifies this
      ensures State() == HandleText(old(State()), dial, msg)
    {
      awaitingPong := false;
      match msg {
      case Welcome(bus) =>
        Welcomed(bus);
      case Error(verdict) =>
        lastError := Some(verdict);
      case _ =>
      }
      capture := capture + [Rx(dial, msg)];
    }

    method TextArrived(dial: nat, msg: Text)
      requires Applies(State(), TextArrives(dial, msg))
      modifies this
      ensures State() == DoText(old(State()), dial, msg)
    {
      if dial != generation || intentionalClose || msg.Unreadable? {
        return;
      }
      HandleTextMessage(dial, msg);
    }

    method BinaryArrived(dial: nat)
      requires Applies(State(), BinaryArrives(dial))
      modifies this
      ensures State() == DoBinary(old(State()), dial)
    {
      if dial != generation || intentionalClose {
        return;
      }
      lastError := Some(Verdict("PROTOCOL_VIOLATION", false));
      CloseSocket(Some(dial));
    }

    /** What the close handler does to the timers: all stopped, and a reconnect armed unless the
        last error was terminal. */
    method ForgetSocket(jitter: real)
      requires 0.0 <= jitter < 1.0
      modifies this`heartbeatTimer, this`awaitingPong, this`reconnectTimer, this`intervals, this`timeouts, this`nextTimer
      ensures var calm := Cleanup(old(State()));
              var next := if config.autoReconnect && !Terminal(LinkState()) then ScheduleReconnect(calm, jitter) else calm;
              HandleState() == next.handles && WorldState() == next.world
    {
      CleanUp();
      assert HandleState() == Cleanup(old(State())).handles && WorldState() == Cleanup(old(State())).world;
      var terminal := lastError.Some? && !lastError.value.retryable;
      if config.autoReconnect && !terminal {
        Schedule(jitter);
      }
    }

    method DropSocket(jitter: real)
      requires 0.0 <= jitter < 1.0
      modifies this
      ensures State() == Drop(config, old(State()), jitter)
    {
      ghost var next := Drop(config, State(), jitter);
      ForgetSocket(jitter);
      assert HandleState() == next.handles && WorldState() == next.world;
      authenticated := false;
      busSupported := false;
      ws := None;
    }

    method SocketClosed(dial: nat, jitter: real)
      requires Applies(State(), SocketCloses(dial, jitter))
      modifies this
      ensures State() == DoSocketClose(config, old(State()), dial, jitter)
    {
      sockets := sockets[dial := Closed];
      if dial == generation && !intentionalClose {
        DropSocket(jitter);
      }
    }

    /** `sendHello` after its wait. */
    method TokenArrived(dial: nat, token: Token)
      requires Applies(State(), TokenArrives(dial, token))
      modifies this
      ensures State() == DoToken(config, old(State()), dial, token)
    {
      tokenFetches := tokenFetches - {dial};
      if dial != generation || intentionalClose {
        return;
      }
      if !token.Fetched? {
        CloseSocket(ws);
        return;
      }
      if !config.hasKeypair {
        intentionalClose := true;
        CloseSocket(ws);
        return;
      }
      Send(Hello);
    }

    method Heartbeat()
      modifies this
      ensures State() == DoHeartbeat(old(State()))
    {
      if ws.None? || ws.value !in sockets || !sockets[ws.value].Open? {
        return;
      }
      if awaitingPong {
        CloseSocket(ws);
        return;
      }
      awaitingPong := true;
      Send(Ping);
    }

    method ReconnectFired(timer: nat)
      requires Applies(State(), ReconnectFires(timer))
      modifies this
      ensures State() == DoFire(old(State()), timer)
    {
      timeouts := timeouts - {timer};
      backoff := if backoff * 2 < MAX_BACKOFF then backoff * 2 else MAX_BACKOFF;
      Dial(ByTimer);
    }

    method LinkStateNow() returns (link: BusLink)
      ensures link == BusLinkState(State())
    {
      if ws.None? || ws.value !in sockets || !sockets[ws.value].Open? || !authenticated {
        return Offline;
      }
      link := if busSupported then Ready else Unsupported;
    }

    method SendBusFrame() returns (written: bool)
      modifies this`capture
      ensures State() == Step(config, old(State()), SendBus)
      ensures written <==> BusLinkState(old(State())) == Ready
    {
      var link := LinkStateNow();
      written := link == Ready;
      if written {
        Send(Bus);
      }
    }

    method SocketStep(e: Event)
      requires Applies(State(), e)
      requires e.SocketOpens? || e.TextArrives? || e.BinaryArrives? || e.SocketCloses? || e.TokenArrives?
      modifies this
      ensures State() == Step(config, old(State()), e)
    {
      match e {
        case SocketOpens(dial) => SocketOpened(dial);
        case TextArrives(dial, msg) => TextArrived(dial, msg);
        case BinaryArrives(dial) => BinaryArrived(dial);
        case SocketCloses(dial, jitter) => SocketClosed(dial, jitter);
        case TokenArrives(dial, token) => TokenArrived(dial, token);
      }
    }

    method Perform(e: Event)
      requires Applies(State(), e)
      modifies this
      ensures State() == Step(config, old(State()), e)
    {
      match e {
        case Connect => Connect();
        case RedialWithFreshToken => RedialWithFreshToken();
        case Close => Close();
        case HeartbeatTick(_) => Heartbeat();
        case ReconnectFires(timer) => ReconnectFired(timer);
        case SendBus =>
          var written := SendBusFrame();
        case _ => SocketStep(e);
      }
    }

    /** One interval, one timeout, the backoff the capture accounts for, and a reconnect pending
        exactly when the client is without a socket it did not give up and nothing forbids one. */
    ghost predicate Sound()
      reads this
    {
      && |intervals| <= 1 && |timeouts.Keys| <= 1
      && backoff == BackoffAfter(TimerDials(capture))
      && (ws.None? && 0 < generation && !intentionalClose ==>
            (timeouts.Keys != {} <==> config.autoReconnect && (lastError.Some? ==> lastError.value.retryable)))
      && (intentionalClose && StaysShut(config) ==>
            timeouts.Keys == {} && forall d | d in sockets :: !Live(sockets[d]))
    }
  }

  /** Every event of the run happens where it can. */
  ghost predicate Possible(config: Config, events: seq<Event>) {
    forall k | 0 <= k < |events| :: Applies(Run(config, events[..k]), events[k])
  }

  lemma PossibleSoFar(config: Config, events: seq<Event>)
    requires Possible(config, events) && events != []
    ensures Possible(config, events[..|events| - 1]) && Applies(Run(config, events[..|events| - 1]), events[|events| - 1])
    ensures Run(config, events) == Step(config, Run(config, events[..|events| - 1]), events[|events| - 1])
  {
    var n := |events| - 1;
    forall k | 0 <= k < n ensures Applies(Run(config, events[..n][..k]), events[..n][k]) {
      assert events[..n][..k] == events[..k];
    }
  }

  /** The object through a whole run. */
  method Replay(config: Config, events: seq<Event>) returns (client: CentralControlClient)
    requires Possible(config, events)
    ensures fresh(client) && client.config == config && client.State() == Run(config, events)
  {
    if events == [] {
      client := new CentralControlClient(config);
    } else {
      PossibleSoFar(config, events);
      client := Replay(config, events[..|events| - 1]);
      client.Perform(events[|events| - 1]);
    }
  }

  lemma ReplayedIsSound(client: CentralControlClient, events: seq<Event>)
    requires client.State() == Run(client.config, events)
    ensures client.Sound()
  {
    var s := Run(client.config, events);
    assert client.LinkState() == s.link && client.HandleState() == s.handles && client.WorldState() == s.world;
    OneOfEach(client.config, events);
    BackoffLaw(client.config, events);
    RunKeepsInv(client.config, events);
    if s.link.ws.None? && 0 < s.link.generation {
      ReconnectIsArmedIff(client.config, events);
    }
  }
}
