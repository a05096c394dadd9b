/**
  The Android client's session and relay state (MainActivity.kt): the activity's
  three observable fields, the state the `DragArea` and `ButtonRow` composables
  remember, and the frames handed to each socket.

  Each callback or handler is a transition on `State` (`OpenStep`, `DragStep`, ...);
  the class `MainActivity` performs the same updates in place and is proved against
  them. Sockets are identified by the order of their creation; what a socket was asked
  to send is recorded in `sent` in the order the sends were launched, which is not
  claimed to be the order on the wire.
 */
module App {
  import opened Wrappers

  /** `ConnectionStatus`. `Clicked` is declared by the source but never assigned. */
  datatype ConnectionStatus = Connected | Disconnected | Waiting | Clicked

  /** `AuthStatus`; `NoAuth` is the source's `NONE`. */
  datatype AuthStatus = NoAuth | Forbidden | Authorized

  /** The five buttons of `ButtonRow` that go through `sendMouseEvent`. */
  datatype Button = Back | Enter | LeftClick | MiddleClick | RightClick

  /**
    The literal each button sends. None starts like the prefix-dispatched frames, so the
    server's equality tests, not its prefix tests, see it.
   */
  function Tag(b: Button): (t: string)
    ensures |t| >= 4
    ensures !("API_KEY" <= t) && !("DRAG" <= t) && !("KEYBOARD" <= t)
  {
    var t := match b
      case Back => "BACK"
      case Enter => "ENTER"
      case LeftClick => "LEFT_CLICK"
      case MiddleClick => "MIDDLE_CLICK"
      case RightClick => "RIGHT_CLICK";
    assert t[0] in "BELMR";
    t
  }

  /** One `dragAmount` of a drag gesture, as the text Kotlin renders for its two floats. */
  datatype Delta = Delta(x: string, y: string)

  /** The frames the client builds. */
  datatype Frame =
    | ApiKey(token: string)
    | Drag(delta: Delta)
    | KeyboardInput(key: string)
    | Command(button: Button)

  /** The key the text field sends when its text gets shorter. */
  const BackspaceKey := "287762808832"

  /**
    The text of a frame as it is handed to `WebSocket.send`: each kind of frame carries
    its own prefix, and the key of a keyboard frame follows its prefix unchanged.
   */
  function Wire(f: Frame): (w: string)
    ensures f.ApiKey? ==> "API_KEY" <= w
    ensures f.Drag? ==> "DRAG " <= w && !("API_KEY" <= w)
    ensures f.KeyboardInput? ==> "KEYBOARD_INPUT " <= w && w[|"KEYBOARD_INPUT "|..] == f.key
    ensures f.Command? ==> w == Tag(f.button)
  {
    match f
    case ApiKey(t) => "API_KEY " + t
    case Drag(d) => var w := "DRAG " + d.x + " " + d.y; assert w[0] == 'D'; w
    case KeyboardInput(k) => "KEYBOARD_INPUT " + k
    case Command(b) => Tag(b)
  }

  /** A socket, named by the number of sockets created before it. */
  type SocketId = nat

  /** A frame some socket was asked to send. */
  datatype Sent = Sent(socket: SocketId, frame: Frame)

  /** A `close(code, reason)` request on some socket. */
  datatype Closure = Closure(socket: SocketId, code: int, reason: string)

  /**
    Everything the client's behaviour depends on or produces. `dragged` stands for the
    running sums `dragX` / `dragY`: the deltas folded into them, in order.
   */
  datatype State = State(
    token: string,
    webSocket: Option<SocketId>,
    connectionStatus: ConnectionStatus,
    authStatus: AuthStatus,
    created: nat,
    dragged: seq<Delta>,
    lastDragTimestamp: int,
    inputText: string,
    sent: seq<Sent>,
    closed: seq<Closure>)

  /** Every socket the state mentions has been created. */
  predicate Valid(c: State) {
    && (c.webSocket.Some? ==> c.webSocket.value < c.created)
    && (forall i :: 0 <= i < |c.sent| ==> c.sent[i].socket < c.created)
    && (forall i :: 0 <= i < |c.closed| ==> c.closed[i].socket < c.created)
  }

  /** `initializeWebSocket`: a new socket replaces the handle; the old one is neither closed nor forgotten by its listener. */
  function NewSocketStep(c: State): (r: State)
    ensures r.webSocket == Some(c.created) && r.created == c.created + 1
    ensures Valid(c) ==> Valid(r)
    // the new handle is not a socket anything was ever sent on or closed
    ensures Valid(c) ==> forall i :: 0 <= i < |c.sent| ==> c.sent[i].socket != r.webSocket.value
    ensures Valid(c) ==> forall i :: 0 <= i < |c.closed| ==> c.closed[i].socket != r.webSocket.value
    ensures r.(webSocket := c.webSocket, created := c.created) == c
  {
    c.(webSocket := Some(c.created), created := c.created + 1)
  }

  /** `onCreate`: the initial field values, then `initializeWebSocket`. */
  function Launch(token: string): (r: State)
    ensures Valid(r) && r.token == token && r.webSocket == Some(0) && r.created == 1
    ensures r.connectionStatus == Disconnected && r.authStatus == NoAuth
    ensures r.sent == [] && r.closed == [] && r.inputText == [] && r.lastDragTimestamp == 0
  {
    NewSocketStep(State(token, None, Disconnected, NoAuth, 0, [], 0, "", [], []))
  }

  /** `webSocket?.send(f)`: sent on the current handle, or dropped when there is none. */
  function SendOnHandle(c: State, f: Frame): (r: State)
    ensures c.webSocket.None? ==> r == c
    ensures c.webSocket.Some? ==> r.sent == c.sent + [Sent(c.webSocket.value, f)]
    ensures r.(sent := c.sent) == c
    ensures Valid(c) ==> Valid(r)
  {
    if c.webSocket.Some? then c.(sent := c.sent + [Sent(c.webSocket.value, f)]) else c
  }

  /** `onOpen` of a socket's listener: CONNECTED, and the credential frame on that same socket. */
  function OpenStep(c: State, ws: SocketId): (r: State)
    ensures r.connectionStatus == Connected
    ensures r.sent == c.sent + [Sent(ws, ApiKey(c.token))]
    ensures r.(connectionStatus := c.connectionStatus, sent := c.sent) == c
    ensures Valid(c) && ws < c.created ==> Valid(r)
  {
    c.(connectionStatus := Connected, sent := c.sent + [Sent(ws, ApiKey(c.token))])
  }

  /** `onMessage`: only the two literals of the auth vocabulary matter. */
  function MessageStep(c: State, ws: SocketId, text: string): (r: State)
    ensures text == "FORBIDDEN" ==> r.authStatus == Forbidden
    ensures text == "AUTHORIZED" ==> r.authStatus == Authorized
    ensures text != "FORBIDDEN" && text != "AUTHORIZED" ==> r == c
    ensures r.(authStatus := c.authStatus) == c
  {
    if text == "FORBIDDEN" then c.(authStatus := Forbidden)
    else if text == "AUTHORIZED" then c.(authStatus := Authorized)
    else c
  }

  /** `onFailure`, `onClosing` and `onClosed`, whichever socket they come from. */
  function DisconnectStep(c: State): (r: State)
    ensures r.connectionStatus == Disconnected
    ensures r.(connectionStatus := c.connectionStatus) == c
  {
    c.(connectionStatus := Disconnected)
  }

  /** The reconnect button: WAITING, NONE, and a fresh socket; the previous socket is not closed. */
  function ReconnectStep(c: State): (r: State)
    ensures r.connectionStatus == Waiting && r.authStatus == NoAuth
    ensures r.webSocket == Some(c.created) && r.created == c.created + 1
    ensures r.sent == c.sent && r.closed == c.closed
    ensures Valid(c) ==> Valid(r)
    ensures Valid(c) && c.webSocket.Some? ==> r.webSocket != c.webSocket
    ensures r.(connectionStatus := c.connectionStatus, authStatus := c.authStatus, webSocket := c.webSocket, created := c.created) == c
  {
    NewSocketStep(c.(connectionStatus := Waiting, authStatus := NoAuth))
  }

  /** `onDestroy`: `webSocket.value?.close(1000, "Activity Destroyed")`. */
  function DestroyStep(c: State): (r: State)
    ensures c.webSocket.None? ==> r == c
    ensures c.webSocket.Some? ==> r.closed == c.closed + [Closure(c.webSocket.value, 1000, "Activity Destroyed")]
    ensures r.(closed := c.closed) == c
    ensures Valid(c) ==> Valid(r)
  {
    if c.webSocket.Some? then c.(closed := c.closed + [Closure(c.webSocket.value, 1000, "Activity Destroyed")]) else c
  }

  /**
    Whether a drag event at time `now` gets through the gate and the throttle: only on an
    existing handle, and at least 11 ms after the last emitted DRAG frame.
   */
  predicate DragPasses(c: State, now: int): (p: bool)
    ensures p ==> c.webSocket.Some? && c.connectionStatus == Connected && now >= c.lastDragTimestamp + 11
  {
    c.webSocket.Some? && c.connectionStatus == Connected && now - c.lastDragTimestamp > 10
  }

  /**
    The `detectDragGestures` handler. The delta is always folded into `dragX` / `dragY`;
    a DRAG frame, carrying this event's delta alone, goes out only when the throttle passes.
   */
  function DragStep(c: State, d: Delta, now: int): (r: State)
    ensures r.dragged == c.dragged + [d]
    ensures DragPasses(c, now) ==> r.sent == c.sent + [Sent(c.webSocket.value, Drag(d))] && r.lastDragTimestamp == now
    ensures !DragPasses(c, now) ==> r.sent == c.sent && r.lastDragTimestamp == c.lastDragTimestamp
    ensures r.(dragged := c.dragged, sent := c.sent, lastDragTimestamp := c.lastDragTimestamp) == c
    ensures Valid(c) ==> Valid(r)
  {
    var c' := c.(dragged := c.dragged + [d]);
    if c.webSocket.Some? && c.connectionStatus == Connected then
      if now - c.lastDragTimestamp > 10 then SendOnHandle(c'.(lastDragTimestamp := now), Drag(d))
      else c'
    else c'
  }

  /**
    The text field's `onValueChange`: the field takes the new text; a shorter text sends
    the backspace key, a longer one sends its last character, an equally long one nothing.
   */
  function TextChangeStep(c: State, newText: string): (r: State)
    ensures r.inputText == newText
    ensures |newText| == |c.inputText| || c.webSocket.None? ==> r.sent == c.sent
    ensures |newText| < |c.inputText| && c.webSocket.Some? ==>
              r.sent == c.sent + [Sent(c.webSocket.value, KeyboardInput(BackspaceKey))]
    ensures |newText| > |c.inputText| && c.webSocket.Some? ==>
              r.sent == c.sent + [Sent(c.webSocket.value, KeyboardInput([newText[|newText| - 1]]))]
    ensures r.(inputText := c.inputText, sent := c.sent) == c
    ensures Valid(c) ==> Valid(r)
  {
    var lastText := c.inputText;
    var c' := c.(inputText := newText);
    if |lastText| > |newText| then SendOnHandle(c', KeyboardInput(BackspaceKey))
    else if |lastText| < |newText| then SendOnHandle(c', KeyboardInput([newText[|newText| - 1]]))
    else c'
  }

  /** `sendMouseEvent(webSocket, tag)` from one of the five buttons: no connection check, only the null check. */
  function ClickStep(c: State, b: Button): (r: State)
    ensures c.webSocket.Some? ==> r.sent == c.sent + [Sent(c.webSocket.value, Command(b))]
    ensures c.webSocket.None? ==> r == c
    ensures r.(sent := c.sent) == c
    ensures Valid(c) ==> Valid(r)
  {
    SendOnHandle(c, Command(b))
  }

  /** The events that reach the client: socket callbacks and user input. Times are `System.currentTimeMillis()` values. */
  datatype Event =
    | Open(ws: SocketId)
    | Message(ws: SocketId, text: string)
    | Failure(ws: SocketId)
    | Closing(ws: SocketId, code: int, reason: string)
    | Closed(ws: SocketId, code: int, reason: string)
    | ReconnectClick
    | Destroy
    | DragMoved(delta: Delta, now: int)
    | TextChanged(text: string)
    | ButtonClicked(button: Button)

  /** The deltas of the DRAG frames among some sends. */
  function DragDeltas(sent: seq<Sent>): (ds: seq<Delta>)
    decreases |sent|
  {
    if sent == [] then []
    else (if sent[0].frame.Drag? then [sent[0].frame.delta] else []) + DragDeltas(sent[1..])
  }

  /** The deltas of the drag events among some events. */
  function InputDeltas(es: seq<Event>): (ds: seq<Delta>)
    decreases |es|
  {
    if es == [] then []
    else (if es[0].DragMoved? then [es[0].delta] else []) + InputDeltas(es[1..])
  }

  /** One event, dispatched to its handler. */
  function Apply(c: State, e: Event): (r: State)
    // the outbox and the close log only grow
    ensures c.sent <= r.sent && c.closed <= r.closed
    // only the activity's destruction closes a socket
    ensures !e.Destroy? ==> r.closed == c.closed
    // each event sends at most one DRAG frame, carrying that event's own delta
    ensures DragDeltas(r.sent[|c.sent|..]) == (if e.DragMoved? && DragPasses(c, e.now) then [e.delta] else [])
    // the throttle timestamp moves only to the time of an emitted frame, more than 10 ms later
    ensures if e.DragMoved? && DragPasses(c, e.now)
            then r.lastDragTimestamp == e.now && e.now > c.lastDragTimestamp + 10
            else r.lastDragTimestamp == c.lastDragTimestamp
    ensures Valid(c) && (e.Open? ==> e.ws < c.created) ==> Valid(r)
  {
    var r := match e
      case Open(ws) => OpenStep(c, ws)
      case Message(ws, text) => MessageStep(c, ws, text)
      case Failure(_) => DisconnectStep(c)
      case Closing(_, _, _) => DisconnectStep(c)
      case Closed(_, _, _) => DisconnectStep(c)
      case ReconnectClick => ReconnectStep(c)
      case Destroy => DestroyStep(c)
      case DragMoved(d, now) => DragStep(c, d, now)
      case TextChanged(t) => TextChangeStep(c, t)
      case ButtonClicked(b) => ClickStep(c, b);
    assert r.sent[|c.sent|..] == [] || |r.sent| == |c.sent| + 1;
    assert |r.sent| == |c.sent| + 1 ==> r.sent[|c.sent|..] == [r.sent[|c.sent|]];
    r
  }

  /** A whole history of events, in order. Frames and closes, once recorded, are never withdrawn. */
  function Run(c: State, es: seq<Event>): (r: State)
    ensures c.sent <= r.sent && c.closed <= r.closed
    decreases |es|
  {
    if es == [] then c else Run(Apply(c, es[0]), es[1..])
  }

  /** Running `a` then `b` is running `a + b`. */
  lemma {:induction false} RunAppend(c: State, a: seq<Event>, b: seq<Event>)
    ensures Run(c, a + b) == Run(Run(c, a), b)
    decreases |a|
  {
    if a == [] {
      assert a + b == b;
    } else {
      assert (a + b)[0] == a[0];
      assert (a + b)[1..] == a[1..] + b;
      RunAppend(Apply(c, a[0]), a[1..], b);
    }
  }

  /** A single button click is one `ClickStep`. */
  lemma RunClick(c: State, b: Button)
    ensures Run(c, [ButtonClicked(b)]) == ClickStep(c, b)
  {
    assert [ButtonClicked(b)][1..] == [];
  }

  lemma {:induction false} DragDeltasAppend(a: seq<Sent>, b: seq<Sent>)
    ensures DragDeltas(a + b) == DragDeltas(a) + DragDeltas(b)
    decreases |a|
  {
    if a == [] {
      assert a + b == b;
    } else {
      var head := if a[0].frame.Drag? then [a[0].frame.delta] else [];
      assert (a + b)[0] == a[0];
      assert (a + b)[1..] == a[1..] + b;
      assert DragDeltas(a + b) == head + DragDeltas(a[1..] + b);
      DragDeltasAppend(a[1..], b);
      assert DragDeltas(a) == head + DragDeltas(a[1..]);
      assert head + (DragDeltas(a[1..]) + DragDeltas(b)) == (head + DragDeltas(a[1..])) + DragDeltas(b);
    }
  }

  /** No event but the activity's destruction closes a socket; in particular a reconnect never closes the old one. */
  lemma {:induction false} OnlyDestroyCloses(c: State, es: seq<Event>)
    requires forall i :: 0 <= i < |es| ==> !es[i].Destroy?
    ensures Run(c, es).closed == c.closed
    decreases |es|
  {
    if es != [] {
      OnlyDestroyCloses(Apply(c, es[0]), es[1..]);
    }
  }

  /** The frames sent during `es` split into those of the first event and those of the rest. */
  lemma NewSentSplit(c: State, es: seq<Event>)
    requires es != []
    ensures var c1 := Apply(c, es[0]); var r := Run(c, es);
      r.sent[|c.sent|..] == c1.sent[|c.sent|..] + r.sent[|c1.sent|..]
  {
  }

  /**
    The drag throttle over any history: every DRAG frame moves the timestamp on by more
    than 10 ms, so `k` frames push it at least `11 * k` ms past where it started; and the
    timestamp never passes the latest drag time. Hence between times `t0` and `T` at most
    `(T - t0) / 11` DRAG frames go out.
   */
  lemma {:induction false} DragThrottle(c: State, es: seq<Event>, T: int)
    requires c.lastDragTimestamp <= T
    requires forall i :: 0 <= i < |es| && es[i].DragMoved? ==> es[i].now <= T
    ensures var r := Run(c, es);
      && c.lastDragTimestamp + 11 * |DragDeltas(r.sent[|c.sent|..])| <= r.lastDragTimestamp <= T
    decreases |es|
  {
    if es != [] {
      var c1 := Apply(c, es[0]);
      var r := Run(c, es);
      assert es[0].DragMoved? ==> es[0].now <= T;
      assert forall i :: 0 <= i < |es[1..]| && es[1..][i].DragMoved? ==> es[1..][i].now <= T by {
        forall i | 0 <= i < |es[1..]| ensures es[1..][i] == es[i + 1] { }
      }
      DragThrottle(c1, es[1..], T);
      NewSentSplit(c, es);
      DragDeltasAppend(c1.sent[|c.sent|..], r.sent[|c1.sent|..]);
    } else {
      assert c.sent[|c.sent|..] == [];
    }
  }

  /** `a` is `b` with some elements left out. */
  predicate IsSubsequence<T(==)>(a: seq<T>, b: seq<T>)
    decreases |b|
  {
    if a == [] then true
    else if b == [] then false
    else (a[0] == b[0] && IsSubsequence(a[1..], b[1..])) || IsSubsequence(a, b[1..])
  }

  /**
    The DRAG frames of any history carry the deltas of drag events, one event each, in
    order: a throttled-out delta is dropped, never folded into a later frame.
   */
  lemma {:induction false} DragFramesAreInputDeltas(c: State, es: seq<Event>)
    ensures IsSubsequence(DragDeltas(Run(c, es).sent[|c.sent|..]), InputDeltas(es))
    decreases |es|
  {
    if es == [] {
      assert c.sent[|c.sent|..] == [];
    } else {
      var c1 := Apply(c, es[0]);
      var r := Run(c, es);
      DragFramesAreInputDeltas(c1, es[1..]);
      NewSentSplit(c, es);
      DragDeltasAppend(c1.sent[|c.sent|..], r.sent[|c1.sent|..]);
      var later := DragDeltas(r.sent[|c1.sent|..]);
      var rest := InputDeltas(es[1..]);
      if es[0].DragMoved? {
        assert InputDeltas(es) == [es[0].delta] + rest;
        SubsequenceStep(es[0].delta, DragPasses(c, es[0].now), later, rest);
      } else {
        assert InputDeltas(es) == rest;
        assert DragDeltas(r.sent[|c.sent|..]) == [] + later;
        assert [] + later == later;
      }
    }
  }

  /** One more element in front of the longer sequence, kept by the shorter one or not. */
  lemma SubsequenceStep<T>(x: T, kept: bool, a: seq<T>, b: seq<T>)
    requires IsSubsequence(a, b)
    ensures IsSubsequence((if kept then [x] else []) + a, [x] + b)
  {
    assert ([x] + b)[1..] == b;
    if kept {
      assert ([x] + a)[0] == x;
      assert ([x] + a)[1..] == a;
    } else {
      assert [] + a == a;
    }
  }

  /**
    After a reconnect the handle names a new socket, but the old one was never closed and
    its listener still writes the shared status: its `onOpen` marks the client CONNECTED
    and sends the credential frame on the old socket, its `onMessage` still sets the auth
    status, and its `onClosed` marks the client DISCONNECTED even while the new socket is open.
   */
  lemma StaleSocketStillDrivesStatus(c: State)
    requires Valid(c) && c.webSocket.Some?
    ensures var stale := c.webSocket.value;
      var r := ReconnectStep(c);
      var current := r.webSocket.value;
      && current != stale && r.closed == c.closed
      && Apply(r, Open(stale)).connectionStatus == Connected
      && Apply(r, Open(stale)).sent == c.sent + [Sent(stale, ApiKey(c.token))]
      && Apply(r, Message(stale, "AUTHORIZED")).authStatus == Authorized
      && Apply(r, Message(stale, "FORBIDDEN")).authStatus == Forbidden
      && var reopened := Apply(r, Open(current));
      && Apply(reopened, Closed(stale, 1000, "")).connectionStatus == Disconnected
      && Apply(reopened, Closed(stale, 1000, "")).webSocket == Some(current)
  {
  }

  /** The activity's state, with the composables' remembered state and the sockets' outboxes, updated in place. */
  class MainActivity {
    const token: string
    var webSocket: Option<SocketId>
    var connectionStatus: ConnectionStatus
    var authStatus: AuthStatus
    var created: nat
    var dragged: seq<Delta>
    var lastDragTimestamp: int
    var inputText: string
    var sent: seq<Sent>
    var closed: seq<Closure>

    function Snapshot(): State
      reads this
    {
      State(token, webSocket, connectionStatus, authStatus, created, dragged, lastDragTimestamp, inputText, sent, closed)
    }

    /** `onCreate`: the initial field values, then `initializeWebSocket()`. */
    constructor (token: string)
      ensures Snapshot() == Launch(token)
    {
      this.token := token;
      webSocket := None;
      connectionStatus := Disconnected;
      authStatus := NoAuth;
      created := 0;
      dragged := [];
      lastDragTimestamp := 0;
      inputText := "";
      sent := [];
      closed := [];
      new;
      InitializeWebSocket();
    }

    method InitializeWebSocket()
      modifies this
      ensures Snapshot() == NewSocketStep(old(Snapshot()))
    {
      webSocket := Some(created);
      created := created + 1;
    }

    /** `webSocket?.send(f)` on the current handle. */
    method Send(f: Frame)
      modifies this
      ensures Snapshot() == SendOnHandle(old(Snapshot()), f)
    {
      if webSocket.Some? {
        sent := sent + [Sent(webSocket.value, f)];
      }
    }

    method OnOpen(ws: SocketId)
      modifies this
      ensures Snapshot() == OpenStep(old(Snapshot()), ws)
    {
      connectionStatus := Connected;
      sent := sent + [Sent(ws, ApiKey(token))];
    }

    method OnMessage(ws: SocketId, text: string)
      modifies this
      ensures Snapshot() == MessageStep(old(Snapshot()), ws, text)
    {
      if text == "FORBIDDEN" {
        authStatus := Forbidden;
      } else if text == "AUTHORIZED" {
        authStatus := Authorized;
      }
    }

    method OnFailure(ws: SocketId)
      modifies this
      ensures Snapshot() == DisconnectStep(old(Snapshot()))
    {
      connectionStatus := Disconnected;
    }

    method OnClosing(ws: SocketId, code: int, reason: string)
      modifies this
      ensures Snapshot() == DisconnectStep(old(Snapshot()))
    {
      connectionStatus := Disconnected;
    }

    method OnClosed(ws: SocketId, code: int, reason: string)
      modifies this
      ensures Snapshot() == DisconnectStep(old(Snapshot()))
    {
      connectionStatus := Disconnected;
    }

    /** The reconnect button's `onClick`. */
    method OnReconnectClick()
      modifies this
      ensures Snapshot() == ReconnectStep(old(Snapshot()))
    {
      connectionStatus := Waiting;
      authStatus := NoAuth;
      InitializeWebSocket();
    }

    method OnDestroy()
      modifies this
      ensures Snapshot() == DestroyStep(old(Snapshot()))
    {
      if webSocket.Some? {
        closed := closed + [Closure(webSocket.value, 1000, "Activity Destroyed")];
      }
    }

    /** The drag handler of `DragArea`, given the event's delta and the current time. */
    method OnDrag(dragAmount: Delta, currentTime: int)
      modifies this
      ensures Snapshot() == DragStep(old(Snapshot()), dragAmount, currentTime)
    {
      dragged := dragged + [dragAmount];
      if webSocket.Some? && connectionStatus == Connected {
        if currentTime - lastDragTimestamp > 10 {
          lastDragTimestamp := currentTime;
          Send(Drag(dragAmount));
        }
      }
    }

    /** The text field's `onValueChange`. */
    method OnValueChange(newText: string)
      modifies this
      ensures Snapshot() == TextChangeStep(old(Snapshot()), newText)
    {
      var lastText := inputText;
      inputText := newText;
      if |lastText| > |inputText| {
        Send(KeyboardInput(BackspaceKey));
        if inputText == [] {
          inputText := "";
        }
      } else if |lastText| < |inputText| && inputText != [] {
        Send(KeyboardInput([newText[|newText| - 1]]));
      }
    }

    /** `sendMouseEvent(webSocket, tag)` for one of the five buttons. */
    method SendMouseEvent(b: Button)
      modifies this
      ensures Snapshot() == ClickStep(old(Snapshot()), b)
    {
      Send(Command(b));
    }
  }
}
