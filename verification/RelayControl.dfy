/** The relay control client as states and atomic steps: one reconnecting socket, its heartbeat
    and its backoff. Socket events may belong to any dial ever made; timers fire only while armed.
    Callbacks handed to the client are taken not to call back into it. */
module RelayControl {

  import opened Sequences

  /** What the options fix for the client's lifetime. */
  datatype Config = Config(autoReconnect: bool, hasKeypair: bool)

  /** A `WebSocket`'s ready state. */
  datatype Phase = Connecting | Open | Closing | Closed

  /** The relay's last `error` frame. */
  datatype Verdict = Verdict(code: string, retryable: bool)

  /** A text frame, parsed or refused. `Other` is every verb that only reaches a callback. */
  datatype Text =
    | Unreadable
    | Welcome(bus: bool)
    | Error(verdict: Verdict)
    | Pong
    | Other

  datatype Frame = Hello | Ping | Bus

  datatype Token = Fetched | Empty | Threw

  datatype Cause = ByConnect | ByFreshToken | ByTimer

  /** What a capture of the client would show: dials, frames accepted, frames written. */
  datatype Note =
    | Dialled(dial: nat, cause: Cause)
    | Rx(dial: nat, msg: Text)
    | Tx(dial: nat, frame: Frame)

  /** A socket is named by the generation that dialled it. */
  datatype Link = Link(ws: Option<nat>, generation: nat, intentionalClose: bool, authenticated: bool,
                       busSupported: bool, lastError: Option<Verdict>, backoff: nat)

  /** The two timer handles the client holds. */
  datatype Handles = Handles(heartbeat: Option<nat>, awaitingPong: bool, reconnect: Option<nat>)

  /** The runtime around the client: sockets, running intervals, armed timeouts with their delays,
      and the dials whose token fetch is still out. */
  datatype World = World(sockets: map<nat, Phase>, beats: set<nat>, armed: map<nat, real>, nextTimer: nat, hellos: set<nat>)

  datatype Client = Client(link: Link, handles: Handles, world: World, log: seq<Note>)

  const INITIAL_BACKOFF: nat := 1000
  const MAX_BACKOFF: nat := 30000

  const Initial := Client(Link(None, 0, false, false, false, None, INITIAL_BACKOFF),
                          Handles(None, false, None), World(map[], {}, map[], 0, {}), [])

  datatype Event =
    | Connect
    | RedialWithFreshToken
    | Close
    | SocketOpens(dial: nat)
    | TextArrives(dial: nat, msg: Text)
    | BinaryArrives(dial: nat)
    | SocketCloses(dial: nat, jitter: real)
    | TokenArrives(dial: nat, token: Token)
    | HeartbeatTick(beat: nat)
    | ReconnectFires(timer: nat)
    | SendBus

  // ---------------------------------------------------------------- the steps

  predicate Live(p: Phase) {
    p.Connecting? || p.Open?
  }

  /** The guard every socket listener starts with. */
  predicate Listening(l: Link, dial: nat) {
    dial == l.generation && !l.intentionalClose
  }

  predicate Terminal(l: Link) {
    l.lastError.Some? && !l.lastError.value.retryable
  }

  predicate SocketOpen(c: Client) {
    c.link.ws.Some? && c.link.ws.value in c.world.sockets && c.world.sockets[c.link.ws.value].Open?
  }

  /** `ws?.close()`. */
  function Shut(w: World, ws: Option<nat>): World {
    if ws.Some? && ws.value in w.sockets && Live(w.sockets[ws.value]) then w.(sockets := w.sockets[ws.value := Closing]) else w
  }

  function Held(h: Option<nat>): set<nat> {
    if h.Some? then {h.value} else {}
  }

  /** Stops the heartbeat and disarms the reconnect. */
  function Cleanup(c: Client): Client {
    c.(handles := Handles(None, false, None),
       world := c.world.(beats := c.world.beats - Held(c.handles.heartbeat), armed := c.world.armed - Held(c.handles.reconnect)))
  }

  /** Stops the running heartbeat, if any, and starts a new one. */
  function StartHeartbeat(c: Client): Client {
    c.(handles := c.handles.(heartbeat := Some(c.world.nextTimer), awaitingPong := false),
       world := c.world.(beats := c.world.beats - Held(c.handles.heartbeat) + {c.world.nextTimer}, nextTimer := c.world.nextTimer + 1))
  }

  /** Equal jitter: uniform over the upper half of the backoff. */
  function Delay(backoff: nat, jitter: real): (delay: real)
    requires 0.0 <= jitter < 1.0
    ensures 0 < backoff ==> backoff as real / 2.0 <= delay < backoff as real
  {
    var half := backoff as real / 2.0;
    half + jitter * half
  }

  function ScheduleReconnect(c: Client, jitter: real): Client
    requires 0.0 <= jitter < 1.0
  {
    c.(handles := c.handles.(reconnect := Some(c.world.nextTimer)),
       world := c.world.(armed := c.world.armed[c.world.nextTimer := Delay(c.link.backoff, jitter)], nextTimer := c.world.nextTimer + 1))
  }

  function DoConnect(c: Client, cause: Cause): Client {
    var dial := c.link.generation + 1;
    var d := Cleanup(c);
    var w := Shut(d.world, d.link.ws);
    Client(Link(Some(dial), dial, d.link.intentionalClose, false, false, None, d.link.backoff),
           d.handles, w.(sockets := w.sockets[dial := Connecting]), d.log + [Dialled(dial, cause)])
  }

  function DoConnectCall(c: Client): Client {
    if c.link.ws.Some? && c.link.ws.value in c.world.sockets && Live(c.world.sockets[c.link.ws.value]) then c
    else DoConnect(c.(link := c.link.(intentionalClose := false)), ByConnect)
  }

  function DoRedial(c: Client): Client {
    if c.link.intentionalClose || SocketOpen(c) || c.link.lastError.None? || c.link.lastError.value.code != "LICENSE_EXPIRED" then c
    else DoConnect(c.(link := c.link.(lastError := None, backoff := INITIAL_BACKOFF)), ByFreshToken)
  }

  function DoClose(c: Client): Client {
    var d := Cleanup(c);
    d.(link := d.link.(generation := d.link.generation + 1, authenticated := false, intentionalClose := true, ws := None),
       world := Shut(d.world, d.link.ws))
  }

  function DoOpen(c: Client, dial: nat): Client {
    var d := c.(world := c.world.(sockets := c.world.sockets[dial := Open]));
    if !Listening(c.link, dial) then d
    else d.(link := d.link.(ws := Some(dial)), world := d.world.(hellos := d.world.hellos + {dial}))
  }

  function SendJson(c: Client, frame: Frame): Client {
    if SocketOpen(c) then c.(log := c.log + [Tx(c.link.ws.value, frame)]) else c
  }

  function HandleText(c: Client, dial: nat, msg: Text): Client {
    var d := c.(handles := c.handles.(awaitingPong := false), log := c.log + [Rx(dial, msg)]);
    match msg
    case Welcome(bus) => StartHeartbeat(d.(link := d.link.(authenticated := true, busSupported := bus, backoff := INITIAL_BACKOFF)))
    case Error(verdict) => d.(link := d.link.(lastError := Some(verdict)))
    case _ => d
  }

  function DoText(c: Client, dial: nat, msg: Text): Client {
    if !Listening(c.link, dial) || msg.Unreadable? then c else HandleText(c, dial, msg)
  }

  function DoBinary(c: Client, dial: nat): Client {
    if !Listening(c.link, dial) then c
    else c.(link := c.link.(lastError := Some(Verdict("PROTOCOL_VIOLATION", false))), world := Shut(c.world, Some(dial)))
  }

  /** The current socket is gone: forget it, and arm a reconnect unless something forbids one. */
  function Drop(cfg: Config, c: Client, jitter: real): Client
    requires 0.0 <= jitter < 1.0
  {
    var d := Cleanup(c.(link := c.link.(authenticated := false, busSupported := false, ws := None)));
    if cfg.autoReconnect && !Terminal(d.link) then ScheduleReconnect(d, jitter) else d
  }

  function DoSocketClose(cfg: Config, c: Client, dial: nat, jitter: real): Client
    requires 0.0 <= jitter < 1.0
  {
    var d := c.(world := c.world.(sockets := c.world.sockets[dial := Closed]));
    if !Listening(c.link, dial) then d else Drop(cfg, d, jitter)
  }

  /** `sendHello` after its wait. */
  function DoToken(cfg: Config, c: Client, dial: nat, token: Token): Client {
    var d := c.(world := c.world.(hellos := c.world.hellos - {dial}));
    if !Listening(c.link, dial) then d
    else if !token.Fetched? then d.(world := Shut(d.world, d.link.ws))
    else if !cfg.hasKeypair then d.(link := d.link.(intentionalClose := true), world := Shut(d.world, d.link.ws))
    else SendJson(d, Hello)
  }

  function DoHeartbeat(c: Client): Client {
    if !SocketOpen(c) then c
    else if c.handles.awaitingPong then c.(world := Shut(c.world, c.link.ws))
    else SendJson(c.(handles := c.handles.(awaitingPong := true)), Ping)
  }

  function DoFire(c: Client, timer: nat): Client {
    var doubled := c.link.backoff * 2;
    DoConnect(c.(link := c.link.(backoff := if doubled < MAX_BACKOFF then doubled else MAX_BACKOFF),
                 world := c.world.(armed := c.world.armed - {timer})),
              ByTimer)
  }

  datatype BusLink = Ready | Offline | Unsupported

  function BusLinkState(c: Client): BusLink {
    if !SocketOpen(c) || !c.link.authenticated then Offline else if c.link.busSupported then Ready else Unsupported
  }

  predicate Applies(c: Client, e: Event) {
    match e
    case Connect | RedialWithFreshToken | Close | SendBus => true
    case SocketOpens(d) => d in c.world.sockets && c.world.sockets[d].Connecting?
    case TextArrives(d, _) => d in c.world.sockets && (c.world.sockets[d].Open? || c.world.sockets[d].Closing?)
    case BinaryArrives(d) => d in c.world.sockets && (c.world.sockets[d].Open? || c.world.sockets[d].Closing?)
    case SocketCloses(d, jitter) => d in c.world.sockets && !c.world.sockets[d].Closed? && 0.0 <= jitter < 1.0
    case TokenArrives(d, _) => d in c.world.hellos
    case HeartbeatTick(h) => h in c.world.beats
    case ReconnectFires(t) => t in c.world.armed
  }

  function Step(cfg: Config, c: Client, e: Event): Client {
    if !Applies(c, e) then c else
    match e
    case Connect => DoConnectCall(c)
    case RedialWithFreshToken => DoRedial(c)
    case Close => DoClose(c)
    case SocketOpens(d) => DoOpen(c, d)
    case TextArrives(d, msg) => DoText(c, d, msg)
    case BinaryArrives(d) => DoBinary(c, d)
    case SocketCloses(d, jitter) => DoSocketClose(cfg, c, d, jitter)
    case TokenArrives(d, token) => DoToken(cfg, c, d, token)
    case HeartbeatTick(_) => DoHeartbeat(c)
    case ReconnectFires(t) => DoFire(c, t)
    case SendBus => if BusLinkState(c).Ready? then SendJson(c, Bus) else c
  }

  function Run(cfg: Config, events: seq<Event>): Client {
    if events == [] then Initial else Step(cfg, Run(cfg, events[..|events| - 1]), events[|events| - 1])
  }

  // ---------------------------------------------------------------- reading a capture

  /** Timer-driven dials since the last welcome or fresh-token redial. */
  function TimerDials(log: seq<Note>): nat {
    if log == [] then 0
    else match log[|log| - 1]
      case Dialled(_, ByTimer) => TimerDials(log[..|log| - 1]) + 1
      case Dialled(_, ByFreshToken) => 0
      case Rx(_, Welcome(_)) => 0
      case _ => TimerDials(log[..|log| - 1])
  }

  function Pow2(k: nat): nat {
    if k == 0 then 1 else 2 * Pow2(k - 1)
  }

  function BackoffAfter(k: nat): nat {
    if INITIAL_BACKOFF * Pow2(k) < MAX_BACKOFF then INITIAL_BACKOFF * Pow2(k) else MAX_BACKOFF
  }

  /** The last `welcome` of this dial, and whether it advertised the bus. */
  function LastWelcome(log: seq<Note>, dial: nat): Option<bool> {
    if log == [] then None
    else match log[|log| - 1]
      case Rx(d, Welcome(bus)) => if d == dial then Some(bus) else LastWelcome(log[..|log| - 1], dial)
      case _ => LastWelcome(log[..|log| - 1], dial)
  }

  /** A ping went out on this dial and nothing the schema accepts has come back since. */
  ghost predicate Unanswered(log: seq<Note>, dial: nat) {
    exists i :: 0 <= i < |log| && log[i] == Tx(dial, Ping) && forall j | i < j < |log| :: !(log[j].Rx? && log[j].dial == dial)
  }

  ghost predicate HelloAtMostOnce(log: seq<Note>) {
    forall i, j | 0 <= i < j < |log| && log[i].Tx? && log[i].frame.Hello? :: log[j] != log[i]
  }

  /** Every bus frame went out on a dial whose latest welcome had advertised the bus. */
  ghost predicate BusOnlyWhereOffered(log: seq<Note>) {
    forall i | 0 <= i < |log| && log[i].Tx? && log[i].frame.Bus? :: LastWelcome(log[..i], log[i].dial) == Some(true)
  }

  // ---------------------------------------------------------------- what every step keeps

  /** Whether closing on purpose is final: a client that reconnects but has no keypair can set
      `intentionalClose` with a timeout already armed. */
  predicate StaysShut(cfg: Config) {
    cfg.hasKeypair || !cfg.autoReconnect
  }

  /** The socket the client holds is the current dial's, and the only one still live. */
  ghost predicate SocketInv(cfg: Config, l: Link, w: World) {
    && (l.ws.Some? ==> l.ws.value == l.generation && l.generation in w.sockets)
    && (forall d | d in w.sockets :: 1 <= d <= l.generation)
    && (forall d | d in w.sockets && Live(w.sockets[d]) :: l.ws == Some(d))
    && (l.ws.Some? && w.sockets[l.generation].Closed? ==> l.intentionalClose)
    && (l.generation in w.sockets && !w.sockets[l.generation].Closed? ==> l.ws.Some?)
    && (l.ws.Some? && l.intentionalClose && StaysShut(cfg) ==> !Live(w.sockets[l.generation]))
    && (l.authenticated ==> l.ws.Some?)
  }

  /** The handles are all there is: no interval or timeout runs without one. */
  ghost predicate TimerInv(cfg: Config, l: Link, h: Handles, w: World) {
    && w.beats == Held(h.heartbeat)
    && w.armed.Keys == Held(h.reconnect)
    && (h.heartbeat.Some? ==> l.ws.Some?)
    && (h.reconnect.Some? ==> l.ws.None? && !Terminal(l) && cfg.autoReconnect && (l.intentionalClose ==> !StaysShut(cfg)))
    && (forall t | t in w.armed :: l.backoff as real / 2.0 <= w.armed[t] < l.backoff as real)
    && (l.ws.None? && h.reconnect.None? ==> l.generation == 0 || l.intentionalClose || Terminal(l) || !cfg.autoReconnect)
    && 0 < l.backoff
  }

  /** The flags agree with the capture. */
  ghost predicate LogInv(c: Client) {
    && (forall n | n in c.log :: n.dial <= c.link.generation)
    && c.link.backoff == BackoffAfter(TimerDials(c.log))
    && (c.link.ws.Some? ==> c.link.authenticated == LastWelcome(c.log, c.link.generation).Some?)
    && (c.link.ws.Some? ==> c.link.busSupported == (LastWelcome(c.log, c.link.generation) == Some(true)))
    && (c.link.ws.Some? ==> c.handles.awaitingPong == Unanswered(c.log, c.link.generation))
  }

  ghost predicate HelloInv(c: Client) {
    && HelloAtMostOnce(c.log)
    && (forall d | d in c.world.hellos :: d <= c.link.generation && Tx(d, Hello) !in c.log
                                        && d in c.world.sockets && !c.world.sockets[d].Connecting?)
    && (forall d | d in c.world.sockets && c.world.sockets[d].Connecting? :: Tx(d, Hello) !in c.log)
  }

  ghost predicate Inv(cfg: Config, c: Client) {
    SafeInv(cfg, c) && LogInv(c) && HelloInv(c) && BusOnlyWhereOffered(c.log)
  }

  ghost predicate SafeInv(cfg: Config, c: Client) {
    SocketInv(cfg, c.link, c.world) && TimerInv(cfg, c.link, c.handles, c.world)
  }

  lemma DialIsSafe(cfg: Config, c: Client, cause: Cause)
    requires c.world.beats == Held(c.handles.heartbeat) && c.world.armed.Keys <= Held(c.handles.reconnect)
    requires forall d | d in c.world.sockets :: 1 <= d <= c.link.generation && (Live(c.world.sockets[d]) ==> c.link.ws == Some(d))
    requires 0 < c.link.backoff && (c.link.intentionalClose ==> !StaysShut(cfg))
    ensures SafeInv(cfg, DoConnect(c, cause))
  {
  }

  lemma CallsKeepSafe(cfg: Config, c: Client, e: Event)
    requires SafeInv(cfg, c) && (e.Connect? || e.RedialWithFreshToken? || e.ReconnectFires?)
    ensures SafeInv(cfg, Step(cfg, c, e))
  {
    var next := Step(cfg, c, e);
    if next != c {
      match e
      case Connect => DialIsSafe(cfg, c.(link := c.link.(intentionalClose := false)), ByConnect);
      case RedialWithFreshToken => DialIsSafe(cfg, c.(link := c.link.(lastError := None, backoff := INITIAL_BACKOFF)), ByFreshToken);
      case ReconnectFires(t) =>
        DialIsSafe(cfg, c.(link := c.link.(backoff := if c.link.backoff * 2 < MAX_BACKOFF then c.link.backoff * 2 else MAX_BACKOFF),
                           world := c.world.(armed := c.world.armed - {t})), ByTimer);
      case _ =>
    }
  }

  lemma SocketEventsKeepSafe(cfg: Config, c: Client, e: Event)
    requires SafeInv(cfg, c) && (e.SocketOpens? || e.TextArrives? || e.BinaryArrives?)
    ensures SafeInv(cfg, Step(cfg, c, e))
  {
  }

  lemma SocketCloseKeepsSafe(cfg: Config, c: Client, dial: nat, jitter: real)
    requires SafeInv(cfg, c)
    ensures SafeInv(cfg, Step(cfg, c, SocketCloses(dial, jitter)))
  {
    var next := Step(cfg, c, SocketCloses(dial, jitter));
    assert SocketInv(cfg, next.link, next.world);
    assert next.world.beats == Held(next.handles.heartbeat);
  }

  lemma CloseKeepsSafe(cfg: Config, c: Client)
    requires SafeInv(cfg, c)
    ensures SafeInv(cfg, DoClose(c))
  {
  }

  lemma OwnStepsKeepSafe(cfg: Config, c: Client, e: Event)
    requires SafeInv(cfg, c) && (e.TokenArrives? || e.HeartbeatTick? || e.SendBus?)
    ensures SafeInv(cfg, Step(cfg, c, e))
  {
  }

  lemma StepKeepsSafe(cfg: Config, c: Client, e: Event)
    requires SafeInv(cfg, c)
    ensures SafeInv(cfg, Step(cfg, c, e))
  {
    match e
    case SocketCloses(d, jitter) => SocketCloseKeepsSafe(cfg, c, d, jitter);
    case SocketOpens(_) | TextArrives(_, _) | BinaryArrives(_) => SocketEventsKeepSafe(cfg, c, e);
    case Close => CloseKeepsSafe(cfg, c);
    case TokenArrives(_, _) | HeartbeatTick(_) | SendBus => OwnStepsKeepSafe(cfg, c, e);
    case _ => CallsKeepSafe(cfg, c, e);
  }

  lemma LogGrows(log: seq<Note>, n: Note)
    ensures TimerDials(log + [n]) == (match n
                                      case Dialled(_, ByTimer) => TimerDials(log) + 1
                                      case Dialled(_, ByFreshToken) => 0
                                      case Rx(_, Welcome(_)) => 0
                                      case _ => TimerDials(log))
    ensures forall d :: LastWelcome(log + [n], d) == if n.Rx? && n.msg.Welcome? && n.dial == d then Some(n.msg.bus) else LastWelcome(log, d)
    ensures forall d :: Unanswered(log + [n], d) == (n == Tx(d, Ping) || (Unanswered(log, d) && !(n.Rx? && n.dial == d)))
  {
    var more := log + [n];
    assert more[..|log|] == log;
    forall d ensures Unanswered(more, d) == (n == Tx(d, Ping) || (Unanswered(log, d) && !(n.Rx? && n.dial == d))) {
      if Unanswered(log, d) && !(n.Rx? && n.dial == d) {
        var i :| 0 <= i < |log| && log[i] == Tx(d, Ping) && forall j | i < j < |log| :: !(log[j].Rx? && log[j].dial == d);
        assert more[i] == Tx(d, Ping);
      }
      if n == Tx(d, Ping) {
        assert more[|log|] == Tx(d, Ping);
      }
      if Unanswered(more, d) && n != Tx(d, Ping) {
        var i :| 0 <= i < |more| && more[i] == Tx(d, Ping) && forall j | i < j < |more| :: !(more[j].Rx? && more[j].dial == d);
        assert log[i] == Tx(d, Ping) && more[|log|] == n;
        assert forall j | i < j < |log| :: more[j] == log[j];
      }
    }
  }

  lemma {:induction false} NothingYet(log: seq<Note>, dial: nat)
    requires forall n | n in log :: n.dial < dial
    ensures LastWelcome(log, dial) == None && !Unanswered(log, dial)
  {
    if log != [] {
      assert forall n | n in log[..|log| - 1] :: n in log;
      assert log[|log| - 1] in log;
      NothingYet(log[..|log| - 1], dial);
    }
  }

  lemma BackoffDoubles(k: nat)
    ensures BackoffAfter(k + 1) == if BackoffAfter(k) * 2 < MAX_BACKOFF then BackoffAfter(k) * 2 else MAX_BACKOFF
  {
  }

  /** A dial, once the cause has set the backoff. */
  lemma DialKeepsLog(c: Client, cause: Cause)
    requires forall n | n in c.log :: n.dial <= c.link.generation
    requires c.link.backoff == BackoffAfter(TimerDials(c.log + [Dialled(c.link.generation + 1, cause)]))
    ensures LogInv(DoConnect(c, cause))
  {
    LogGrows(c.log, Dialled(c.link.generation + 1, cause));
    NothingYet(c.log, c.link.generation + 1);
  }

  lemma ConnectKeepsLog(c: Client)
    requires LogInv(c)
    ensures LogInv(DoConnectCall(c))
  {
    LogGrows(c.log, Dialled(c.link.generation + 1, ByConnect));
    DialKeepsLog(c.(link := c.link.(intentionalClose := false)), ByConnect);
  }

  lemma RedialKeepsLog(c: Client)
    requires LogInv(c)
    ensures LogInv(DoRedial(c))
  {
    if DoRedial(c) != c {
      LogGrows(c.log, Dialled(c.link.generation + 1, ByFreshToken));
      DialKeepsLog(c.(link := c.link.(lastError := None, backoff := INITIAL_BACKOFF)), ByFreshToken);
    }
  }

  lemma FireKeepsLog(c: Client, timer: nat)
    requires LogInv(c)
    ensures LogInv(DoFire(c, timer))
  {
    LogGrows(c.log, Dialled(c.link.generation + 1, ByTimer));
    BackoffDoubles(TimerDials(c.log));
    DialKeepsLog(c.(link := c.link.(backoff := if c.link.backoff * 2 < MAX_BACKOFF then c.link.backoff * 2 else MAX_BACKOFF),
                    world := c.world.(armed := c.world.armed - {timer})), ByTimer);
  }

  lemma TextKeepsLog(c: Client, dial: nat, msg: Text)
    requires LogInv(c) && c.link.ws == Some(dial) && dial == c.link.generation
    ensures LogInv(HandleText(c, dial, msg))
  {
    LogGrows(c.log, Rx(dial, msg));
  }

  lemma WritesKeepLog(cfg: Config, c: Client, e: Event)
    requires SafeInv(cfg, c) && LogInv(c) && (e.TokenArrives? || e.HeartbeatTick? || e.SendBus?)
    ensures LogInv(Step(cfg, c, e))
  {
    match e
    case TokenArrives(_, _) => LogGrows(c.log, Tx(c.link.generation, Hello));
    case HeartbeatTick(_) => LogGrows(c.log, Tx(c.link.generation, Ping));
    case _ => LogGrows(c.log, Tx(c.link.generation, Bus));
  }

  lemma StepKeepsLog(cfg: Config, c: Client, e: Event)
    requires SafeInv(cfg, c) && LogInv(c)
    ensures LogInv(Step(cfg, c, e))
  {
    match e
    case TextArrives(d, msg) =>
      if Applies(c, e) && Listening(c.link, d) {
        TextKeepsLog(c, d, msg);
      }
    case Connect => ConnectKeepsLog(c);
    case RedialWithFreshToken => RedialKeepsLog(c);
    case ReconnectFires(t) => FireKeepsLog(c, t);
    case TokenArrives(_, _) | HeartbeatTick(_) | SendBus => WritesKeepLog(cfg, c, e);
    case _ =>
  }

  lemma HelloUnlessTx(log: seq<Note>, n: Note)
    ensures forall d :: Tx(d, Hello) in log + [n] <==> Tx(d, Hello) in log || n == Tx(d, Hello)
    ensures HelloAtMostOnce(log) && n !in log ==> HelloAtMostOnce(log + [n])
    ensures HelloAtMostOnce(log) && !(n.Tx? && n.frame.Hello?) ==> HelloAtMostOnce(log + [n])
  {
    assert (log + [n])[..|log|] == log && n in log + [n];
    assert forall m | m in log :: m in (log + [n])[..|log|];
  }

  lemma DialKeepsHello(c: Client, cause: Cause)
    requires HelloInv(c) && forall n | n in c.log :: n.dial <= c.link.generation
    requires forall d | d in c.world.sockets :: d <= c.link.generation
    ensures HelloInv(DoConnect(c, cause))
  {
    HelloUnlessTx(c.log, Dialled(c.link.generation + 1, cause));
  }

  lemma CallsKeepHello(cfg: Config, c: Client, e: Event)
    requires SafeInv(cfg, c) && LogInv(c) && HelloInv(c) && (e.Connect? || e.RedialWithFreshToken? || e.ReconnectFires?)
    ensures HelloInv(Step(cfg, c, e))
  {
    var next := Step(cfg, c, e);
    if next != c {
      match e
      case Connect => DialKeepsHello(c.(link := c.link.(intentionalClose := false)), ByConnect);
      case RedialWithFreshToken => DialKeepsHello(c.(link := c.link.(lastError := None, backoff := INITIAL_BACKOFF)), ByFreshToken);
      case ReconnectFires(t) =>
        DialKeepsHello(c.(link := c.link.(backoff := if c.link.backoff * 2 < MAX_BACKOFF then c.link.backoff * 2 else MAX_BACKOFF),
                          world := c.world.(armed := c.world.armed - {t})), ByTimer);
      case _ =>
    }
  }

  lemma TokenKeepsHello(cfg: Config, c: Client, dial: nat, token: Token)
    requires SafeInv(cfg, c) && LogInv(c) && HelloInv(c)
    ensures HelloInv(Step(cfg, c, TokenArrives(dial, token)))
  {
    HelloUnlessTx(c.log, Tx(dial, Hello));
  }

  lemma TextKeepsHello(cfg: Config, c: Client, dial: nat, msg: Text)
    requires HelloInv(c)
    ensures HelloInv(Step(cfg, c, TextArrives(dial, msg)))
  {
    HelloUnlessTx(c.log, Rx(dial, msg));
  }

  lemma WritesKeepHello(cfg: Config, c: Client, e: Event)
    requires HelloInv(c) && (e.HeartbeatTick? || e.SendBus?)
    ensures HelloInv(Step(cfg, c, e))
  {
    if c.link.ws.Some? {
      HelloUnlessTx(c.log, Tx(c.link.ws.value, if e.SendBus? then Bus else Ping));
    }
  }

  /** Closing sockets and dropping fetches cannot make a hello repeat. */
  lemma HelloFrame(c: Client, d: Client)
    requires HelloInv(c) && d.log == c.log && d.link.generation >= c.link.generation
    requires d.world.hellos <= c.world.hellos && d.world.sockets.Keys == c.world.sockets.Keys
    requires forall k | k in d.world.sockets && d.world.sockets[k].Connecting? :: c.world.sockets[k].Connecting?
    ensures HelloInv(d)
  {
  }

  lemma ClosingKeepsHello(cfg: Config, c: Client, e: Event)
    requires HelloInv(c) && (e.SocketCloses? || e.BinaryArrives? || e.Close?)
    ensures HelloInv(Step(cfg, c, e))
  {
    HelloFrame(c, Step(cfg, c, e));
  }

  lemma OpenKeepsHello(cfg: Config, c: Client, dial: nat)
    requires HelloInv(c) && SafeInv(cfg, c)
    ensures HelloInv(Step(cfg, c, SocketOpens(dial)))
  {
    assert Step(cfg, c, SocketOpens(dial)).log == c.log;
  }

  lemma StepKeepsHello(cfg: Config, c: Client, e: Event)
    requires SafeInv(cfg, c) && LogInv(c) && HelloInv(c)
    ensures HelloInv(Step(cfg, c, e))
  {
    match e
    case Connect | RedialWithFreshToken | ReconnectFires(_) => CallsKeepHello(cfg, c, e);
    case TokenArrives(d, token) => TokenKeepsHello(cfg, c, d, token);
    case TextArrives(d, msg) => TextKeepsHello(cfg, c, d, msg);
    case HeartbeatTick(_) | SendBus => WritesKeepHello(cfg, c, e);
    case SocketOpens(d) => OpenKeepsHello(cfg, c, d);
    case _ => ClosingKeepsHello(cfg, c, e);
  }

  lemma BusUnlessTx(log: seq<Note>, n: Note)
    requires BusOnlyWhereOffered(log)
    requires n.Tx? && n.frame.Bus? ==> LastWelcome(log, n.dial) == Some(true)
    ensures BusOnlyWhereOffered(log + [n])
  {
    assert (log + [n])[..|log|] == log;
    assert forall i | 0 <= i < |log| :: (log + [n])[..i] == log[..i];
  }

  lemma CallsKeepBus(cfg: Config, c: Client, e: Event)
    requires BusOnlyWhereOffered(c.log) && (e.Connect? || e.RedialWithFreshToken? || e.ReconnectFires?)
    ensures BusOnlyWhereOffered(Step(cfg, c, e).log)
  {
    var cause := if e.Connect? then ByConnect else if e.RedialWithFreshToken? then ByFreshToken else ByTimer;
    BusUnlessTx(c.log, Dialled(c.link.generation + 1, cause));
  }

  lemma WritesKeepBus(cfg: Config, c: Client, e: Event)
    requires SafeInv(cfg, c) && LogInv(c) && BusOnlyWhereOffered(c.log)
    requires e.TokenArrives? || e.HeartbeatTick? || e.SendBus?
    ensures BusOnlyWhereOffered(Step(cfg, c, e).log)
  {
    match e
    case TokenArrives(_, _) => BusUnlessTx(c.log, Tx(c.link.generation, Hello));
    case HeartbeatTick(_) => BusUnlessTx(c.log, Tx(c.link.generation, Ping));
    case _ =>
      if BusLinkState(c).Ready? {
        BusUnlessTx(c.log, Tx(c.link.generation, Bus));
      }
  }

  lemma StepKeepsBus(cfg: Config, c: Client, e: Event)
    requires SafeInv(cfg, c) && LogInv(c) && BusOnlyWhereOffered(c.log)
    ensures BusOnlyWhereOffered(Step(cfg, c, e).log)
  {
    match e
    case Connect | RedialWithFreshToken | ReconnectFires(_) => CallsKeepBus(cfg, c, e);
    case TextArrives(d, msg) => BusUnlessTx(c.log, Rx(d, msg));
    case TokenArrives(_, _) | HeartbeatTick(_) | SendBus => WritesKeepBus(cfg, c, e);
    case _ =>
  }

  lemma {:induction false} RunKeepsInv(cfg: Config, events: seq<Event>)
    ensures Inv(cfg, Run(cfg, events))
  {
    if events == [] {
      assert Pow2(0) == 1;
    } else {
      var n := |events| - 1;
      var before := Run(cfg, events[..n]);
      RunKeepsInv(cfg, events[..n]);
      StepKeepsSafe(cfg, before, events[n]);
      StepKeepsLog(cfg, before, events[n]);
      StepKeepsHello(cfg, before, events[n]);
      StepKeepsBus(cfg, before, events[n]);
    }
  }

  // ---------------------------------------------------------------- the promises

  predicate OfSocket(e: Event, dial: nat) {
    || e == SocketOpens(dial) || (e.TextArrives? && e.dial == dial) || e == BinaryArrives(dial)
    || (e.SocketCloses? && e.dial == dial) || (e.TokenArrives? && e.dial == dial)
  }

  /** No event of an earlier dial's socket, nor its late token, changes the client, its timers or
      what it has sent; nor does any socket event after a deliberate close. */
  lemma StaleSocketsAreDeaf(cfg: Config, c: Client, e: Event, dial: nat)
    requires OfSocket(e, dial) && !Listening(c.link, dial)
    ensures var d := Step(cfg, c, e);
            && d.link == c.link && d.handles == c.handles && d.log == c.log
            && d.world.beats == c.world.beats && d.world.armed == c.world.armed
            && (forall k | k in c.world.sockets && k != dial :: k in d.world.sockets && d.world.sockets[k] == c.world.sockets[k])
  {
  }

  lemma AtMostOne<T>(s: set<T>, x: T)
    requires s <= {x}
    ensures |s| <= 1
  {
    if x in s {
      assert s == {x};
    } else {
      assert s == {};
    }
  }

  /** One heartbeat, one timeout, one live socket; the timeout only while there is no socket, and
      due within its half of the backoff. */
  lemma OneOfEach(cfg: Config, events: seq<Event>)
    ensures var c := Run(cfg, events);
            && |c.world.beats| <= 1 && |c.world.armed.Keys| <= 1
            && (c.world.armed.Keys != {} ==> c.link.ws.None?)
            && (forall t | t in c.world.armed :: c.link.backoff as real / 2.0 <= c.world.armed[t] < c.link.backoff as real)
            && (forall j, k | j in c.world.sockets && k in c.world.sockets && Live(c.world.sockets[j]) && Live(c.world.sockets[k]) :: j == k)
  {
    RunKeepsInv(cfg, events);
    var c := Run(cfg, events);
    AtMostOne(c.world.beats, if c.handles.heartbeat.Some? then c.handles.heartbeat.value else 0);
    AtMostOne(c.world.armed.Keys, if c.handles.reconnect.Some? then c.handles.reconnect.value else 0);
  }

  /** `1000 * 2^k` capped at 30 seconds, where `k` counts timer-driven dials since the last welcome
      or fresh-token redial. */
  lemma BackoffLaw(cfg: Config, events: seq<Event>)
    ensures Run(cfg, events).link.backoff == BackoffAfter(TimerDials(Run(cfg, events).log))
  {
    RunKeepsInv(cfg, events);
  }

  /** With no socket held and none given up on purpose, a reconnect is on its way exactly when
      nothing forbids one; a client shut on purpose has none, where closing is final. */
  lemma ReconnectIsArmedIff(cfg: Config, events: seq<Event>)
    requires Run(cfg, events).link.ws.None? && Run(cfg, events).link.generation > 0
    ensures var c := Run(cfg, events);
            && (!c.link.intentionalClose ==> (c.world.armed.Keys != {} <==> cfg.autoReconnect && !Terminal(c.link)))
            && (c.link.intentionalClose && StaysShut(cfg) ==> c.world.armed.Keys == {})
  {
    RunKeepsInv(cfg, events);
    var c := Run(cfg, events);
    if c.handles.reconnect.Some? {
      assert c.handles.reconnect.value in c.world.armed.Keys;
    }
  }

  /** A held socket is never a dead end: its close event is still to come, or the close was meant. */
  lemma HeldSocketStillReports(cfg: Config, events: seq<Event>)
    requires Run(cfg, events).link.ws.Some? && !Run(cfg, events).link.intentionalClose
    ensures var c := Run(cfg, events); Applies(c, SocketCloses(c.link.generation, 0.0)) && Listening(c.link, c.link.ws.value)
  {
    RunKeepsInv(cfg, events);
  }

  ghost predicate Down(c: Client) {
    Terminal(c.link) && c.link.ws.None?
  }

  lemma RunNext(cfg: Config, events: seq<Event>, e: Event)
    ensures Run(cfg, events + [e]) == Step(cfg, Run(cfg, events), e)
  {
    assert (events + [e])[..|events|] == events;
  }

  lemma DownStep(cfg: Config, c: Client, e: Event)
    requires Inv(cfg, c) && Down(c) && !e.Connect? && !e.RedialWithFreshToken?
    ensures Down(Step(cfg, c, e)) && Step(cfg, c, e).log == c.log
  {
  }

  /** After a non-retryable verdict has brought the socket down, nothing but `connect` or
      `redialWithFreshToken` dials, sends or receives again. */
  lemma {:induction false} TerminalStaysDown(cfg: Config, events: seq<Event>, more: seq<Event>)
    requires Down(Run(cfg, events)) && forall e | e in more :: !e.Connect? && !e.RedialWithFreshToken?
    ensures Down(Run(cfg, events + more)) && Run(cfg, events + more).log == Run(cfg, events).log
  {
    if more == [] {
      assert events + more == events;
    } else {
      var n := |more| - 1;
      TerminalStaysDown(cfg, events, more[..n]);
      RunKeepsInv(cfg, events + more[..n]);
      assert more[n] in more;
      assert events + more == (events + more[..n]) + [more[n]];
      RunNext(cfg, events + more[..n], more[n]);
      DownStep(cfg, Run(cfg, events + more[..n]), more[n]);
    }
  }

  /** The dials of a capture. */
  function Dials(log: seq<Note>): seq<Note> {
    if log == [] then []
    else Dials(log[..|log| - 1]) + (if log[|log| - 1].Dialled? then [log[|log| - 1]] else [])
  }

  lemma DialsMore(log: seq<Note>, n: Note)
    ensures Dials(log + [n]) == if n.Dialled? then Dials(log) + [n] else Dials(log)
  {
    DropLast(log, n);
  }

  /** The two callers' verbs that dial. */
  predicate Asks(e: Event) {
    e.Connect? || e.RedialWithFreshToken?
  }

  /** A later, retryable error frame. */
  predicate Overrules(e: Event) {
    e.TextArrives? && e.msg.Error? && e.msg.verdict.retryable
  }

  lemma UnaskedDials(cfg: Config, c: Client, e: Event)
    requires !Asks(e) && !(e.ReconnectFires? && Applies(c, e))
    ensures Dials(Step(cfg, c, e).log) == Dials(c.log)
  {
    match e
    case TextArrives(dial, msg) => DialsMore(c.log, Rx(dial, msg));
    case TokenArrives(_, _) => if SocketOpen(c) { DialsMore(c.log, Tx(c.link.ws.value, Hello)); }
    case HeartbeatTick(_) => if SocketOpen(c) { DialsMore(c.log, Tx(c.link.ws.value, Ping)); }
    case SendBus => if SocketOpen(c) { DialsMore(c.log, Tx(c.link.ws.value, Bus)); }
    case _ =>
  }

  lemma TerminalStep(cfg: Config, c: Client, e: Event)
    requires Inv(cfg, c) && Terminal(c.link) && !Asks(e) && !Overrules(e)
    ensures Terminal(Step(cfg, c, e).link) && !(e.ReconnectFires? && Applies(c, e))
  {
  }

  /** From the moment a non-retryable verdict is in, its socket still closing or not, nothing but
      `connect`, `redialWithFreshToken` or a later retryable error frame leads to another dial. */
  lemma {:induction false} TerminalDialsNothing(cfg: Config, events: seq<Event>, more: seq<Event>)
    requires Terminal(Run(cfg, events).link) && forall e | e in more :: !Asks(e) && !Overrules(e)
    ensures Terminal(Run(cfg, events + more).link)
    ensures Dials(Run(cfg, events + more).log) == Dials(Run(cfg, events).log)
  {
    if more == [] {
      Nothing(events);
    } else {
      var n := |more| - 1;
      TerminalDialsNothing(cfg, events, more[..n]);
      var before := Run(cfg, events + more[..n]);
      RunKeepsInv(cfg, events + more[..n]);
      assert more[n] in more;
      Snoc(more);
      Assoc(events, more[..n], [more[n]]);
      RunNext(cfg, events + more[..n], more[n]);
      TerminalStep(cfg, before, more[n]);
      UnaskedDials(cfg, before, more[n]);
    }
  }

  /** The current socket can still deliver, and its close would be followed by a reconnect. */
  predicate CanBeOverruled(cfg: Config, c: Client) {
    cfg.autoReconnect && c.link.ws.Some? && !c.link.intentionalClose
  }

  /** Never to dial again unasked. */
  ghost predicate Final(cfg: Config, c: Client) {
    !cfg.autoReconnect || (Terminal(c.link) && (c.link.ws.None? || c.link.intentionalClose))
  }

  lemma FinalStep(cfg: Config, c: Client, e: Event)
    requires Inv(cfg, c) && Final(cfg, c) && !Asks(e)
    ensures Final(cfg, Step(cfg, c, e)) && !(e.ReconnectFires? && Applies(c, e))
  {
  }

  lemma {:induction false} FinalRun(cfg: Config, events: seq<Event>, more: seq<Event>)
    requires Final(cfg, Run(cfg, events)) && forall e | e in more :: !Asks(e)
    ensures Final(cfg, Run(cfg, events + more))
    ensures Dials(Run(cfg, events + more).log) == Dials(Run(cfg, events).log)
  {
    if more == [] {
      Nothing(events);
    } else {
      var n := |more| - 1;
      FinalRun(cfg, events, more[..n]);
      var before := Run(cfg, events + more[..n]);
      RunKeepsInv(cfg, events + more[..n]);
      assert more[n] in more;
      Snoc(more);
      Assoc(events, more[..n], [more[n]]);
      RunNext(cfg, events + more[..n], more[n]);
      FinalStep(cfg, before, more[n]);
      UnaskedDials(cfg, before, more[n]);
    }
  }

  const RETRYABLE := Error(Verdict("", true))

  lemma RetryableOverrules(cfg: Config, c: Client, dial: nat)
    requires Applies(c, TextArrives(dial, RETRYABLE)) && Listening(c.link, dial)
    ensures Step(cfg, c, TextArrives(dial, RETRYABLE)).link == c.link.(lastError := Some(RETRYABLE.verdict))
    ensures Step(cfg, c, TextArrives(dial, RETRYABLE)).world == c.world
  {
  }

  lemma CloseArms(cfg: Config, c: Client, dial: nat)
    requires Applies(c, SocketCloses(dial, 0.0)) && Listening(c.link, dial) && cfg.autoReconnect && !Terminal(c.link)
    ensures Applies(Step(cfg, c, SocketCloses(dial, 0.0)), ReconnectFires(c.world.nextTimer))
  {
  }

  lemma TimerDialsOnce(cfg: Config, c: Client, timer: nat)
    requires Applies(c, ReconnectFires(timer))
    ensures Dials(Step(cfg, c, ReconnectFires(timer)).log) == Dials(c.log) + [Dialled(c.link.generation + 1, ByTimer)]
  {
    DialsMore(c.log, Dialled(c.link.generation + 1, ByTimer));
  }

  /** A retryable error frame on the socket still held, its close, and the timer. */
  lemma OverruledDials(cfg: Config, events: seq<Event>) returns (more: seq<Event>)
    requires CanBeOverruled(cfg, Run(cfg, events))
    requires Applies(Run(cfg, events), TextArrives(Run(cfg, events).link.generation, RETRYABLE))
    ensures forall e | e in more :: !Asks(e)
    ensures Dials(Run(cfg, events + more).log) != Dials(Run(cfg, events).log)
  {
    var c := Run(cfg, events);
    var e0, e1 := TextArrives(c.link.generation, RETRYABLE), SocketCloses(c.link.generation, 0.0);
    RetryableOverrules(cfg, c, c.link.generation);
    UnaskedDials(cfg, c, e0);
    var overruled := Step(cfg, c, e0);
    CloseArms(cfg, overruled, c.link.generation);
    UnaskedDials(cfg, overruled, e1);
    var e2 := ReconnectFires(overruled.world.nextTimer);
    TimerDialsOnce(cfg, Step(cfg, overruled, e1), e2.timer);
    RunThree(cfg, events, e0, e1, e2);
    more := [e0, e1, e2];
  }

  lemma RunThree(cfg: Config, events: seq<Event>, e0: Event, e1: Event, e2: Event)
    ensures Run(cfg, events + [e0, e1, e2]) == Step(cfg, Step(cfg, Step(cfg, Run(cfg, events), e0), e1), e2)
  {
    RunNext(cfg, events, e0);
    RunNext(cfg, events + [e0], e1);
    RunNext(cfg, events + [e0] + [e1], e2);
    assert events + [e0, e1, e2] == events + [e0] + [e1] + [e2];
  }

  /** A terminal verdict is final, whatever arrives unasked, exactly when no socket is left that could
      bring a later verdict, or the client does not reconnect, or it has been closed on purpose. */
  lemma TerminalIsFinalIff(cfg: Config, events: seq<Event>)
    requires Terminal(Run(cfg, events).link)
    ensures (forall more | forall e | e in more :: !Asks(e) ::
               Dials(Run(cfg, events + more).log) == Dials(Run(cfg, events).log))
            <==> !CanBeOverruled(cfg, Run(cfg, events))
  {
    var c := Run(cfg, events);
    if !CanBeOverruled(cfg, c) {
      forall more | forall e | e in more :: !Asks(e)
        ensures Dials(Run(cfg, events + more).log) == Dials(Run(cfg, events).log)
      {
        FinalRun(cfg, events, more);
      }
    } else {
      RunKeepsInv(cfg, events);
      var g := c.link.generation;
      if c.world.sockets[g].Connecting? {
        RunNext(cfg, events, SocketOpens(g));
        UnaskedDials(cfg, c, SocketOpens(g));
        var more := OverruledDials(cfg, events + [SocketOpens(g)]);
        Assoc(events, [SocketOpens(g)], more);
        assert forall e | e in [SocketOpens(g)] + more :: !Asks(e);
      } else {
        var more := OverruledDials(cfg, events);
      }
    }
  }

  /** The bus is ready exactly when the held socket is open and the current dial's last welcome
      advertised it. */
  lemma BusReadyIff(cfg: Config, events: seq<Event>)
    ensures var c := Run(cfg, events);
            BusLinkState(c) == Ready <==> SocketOpen(c) && LastWelcome(c.log, c.link.generation) == Some(true)
  {
    RunKeepsInv(cfg, events);
  }

  /** A tick closes an open socket exactly when the last ping on it is unanswered, and otherwise
      pings. */
  lemma HeartbeatClosesIff(cfg: Config, events: seq<Event>, beat: nat)
    requires beat in Run(cfg, events).world.beats && SocketOpen(Run(cfg, events))
    ensures var c := Run(cfg, events);
            var d := Step(cfg, c, HeartbeatTick(beat));
            var dial := c.link.generation;
            if Unanswered(c.log, dial) then dial in d.world.sockets && d.world.sockets[dial] == Closing && d.log == c.log
            else d.world == c.world && d.log == c.log + [Tx(dial, Ping)]
  {
    RunKeepsInv(cfg, events);
  }

  /** At most one hello per dial, and bus frames only where the bus was offered. */
  lemma FramesSentAreDue(cfg: Config, events: seq<Event>)
    ensures HelloAtMostOnce(Run(cfg, events).log) && BusOnlyWhereOffered(Run(cfg, events).log)
  {
    RunKeepsInv(cfg, events);
  }

  /** No socket live, no timeout armed. */
  ghost predicate Quiet(c: Client) {
    c.world.armed.Keys == {} && forall d | d in c.world.sockets :: !Live(c.world.sockets[d])
  }

  const FailClosedLate: seq<Event> :=
    [Connect, SocketOpens(1), SocketCloses(1, 0.0), TokenArrives(1, Fetched)]

  lemma FailClosedLateRuns(cfg: Config)
    requires !StaysShut(cfg)
    ensures Run(cfg, FailClosedLate).link.intentionalClose && Run(cfg, FailClosedLate).world.armed.Keys == {0}
  {
    var e := FailClosedLate;
    assert e[..1] == [] + [Connect] && e[..2] == e[..1] + [SocketOpens(1)];
    assert e[..3] == e[..2] + [SocketCloses(1, 0.0)] && e == e[..3] + [TokenArrives(1, Fetched)];
    RunNext(cfg, [], Connect);
    RunNext(cfg, e[..1], SocketOpens(1));
    RunNext(cfg, e[..2], SocketCloses(1, 0.0));
    RunNext(cfg, e[..3], TokenArrives(1, Fetched));
    assert Run(cfg, e[..1]).world == World(map[1 := Connecting], {}, map[], 0, {});
    assert Run(cfg, e[..2]).world == World(map[1 := Open], {}, map[], 0, {1});
    assert Run(cfg, e[..3]).world.armed.Keys == {0};
  }

  /** A client that has closed on purpose stays quiet, on every run, exactly when it has a keypair
      or does not reconnect: the missing keypair may be noticed after the socket has gone and the
      timeout is armed. */
  lemma ClosedIsQuietIff(cfg: Config)
    ensures (forall events :: Run(cfg, events).link.intentionalClose ==> Quiet(Run(cfg, events)))
            <==> cfg.hasKeypair || !cfg.autoReconnect
  {
    if StaysShut(cfg) {
      forall events | Run(cfg, events).link.intentionalClose ensures Quiet(Run(cfg, events)) {
        RunKeepsInv(cfg, events);
      }
    } else {
      FailClosedLateRuns(cfg);
      assert !Quiet(Run(cfg, FailClosedLate));
    }
  }
}
