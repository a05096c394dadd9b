/**
  The per-client session of the host-side server (server/main.py, `handle_message`).

  Each connection owns a record `{auth, entry}`. Every incoming text message is
  dispatched by prefix or by equality; it may edit `entry`, grant `auth`, reply
  `FORBIDDEN` / `AUTHORIZED`, drive the host's mouse and keyboard, or end the
  session with `Bad token` / `Bad request`.
 */
module Host {
  import opened Wrappers
  import opened PyStr

  /**
    The two secrets read from keys.txt at start-up, and which strings Python's `float()`
    accepts (a DRAG whose numbers it rejects raises, and the session ends with `Bad request`).
   */
  datatype Config = Config(password: string, token: string, isFloat: string -> bool)

  /** The record `connected_client` minus its websocket: `auth` and the typed-text buffer `entry`. */
  datatype Session = Session(auth: bool, entry: string)

  /** A freshly registered client: not authorized, empty buffer. */
  const Fresh := Session(false, "")

  /** The key code the client sends for a backspace. */
  const BackspaceCode := "287762808832"

  datatype MouseButton = Left | Middle | Right

  /** The host effects: pynput's mouse and pyautogui's `press` / `write`, as abstract actions. */
  datatype Action =
    | Move(dx: string, dy: string)     // mouse.position shifted by float(dx), float(dy)
    | PressKey(key: string)            // press(key)
    | MouseDown(button: MouseButton)   // mouse.press(button)
    | MouseUp(button: MouseButton)     // mouse.release(button)
    | Write(text: string)              // write(text)

  /** What one message does: the new session, at most one reply, the host actions, and whether the session ends. */
  datatype Reaction = Reaction(session: Session, reply: Option<string>, actions: seq<Action>, terminated: bool)

  function Forbid(s: Session): Reaction { Reaction(s, Some("FORBIDDEN"), [], false) }

  function Act(s: Session, actions: seq<Action>): Reaction { Reaction(s, None, actions, false) }

  function Ignore(s: Session): Reaction { Reaction(s, None, [], false) }

  /** `mouse.press(b)` then `mouse.release(b)`, once authorized. */
  function Click(s: Session, b: MouseButton): (r: Reaction)
    ensures r.session == s && !r.terminated
    ensures s.auth <==> r.actions == [MouseDown(b), MouseUp(b)]
    ensures !s.auth <==> r.reply == Some("FORBIDDEN")
  {
    if !s.auth then Forbid(s) else Act(s, [MouseDown(b), MouseUp(b)])
  }

  /** The messages that need an authorized session: every branch of the dispatch except API_KEY. */
  predicate IsGated(message: string) {
    && !("API_KEY" <= message)
    && ("DRAG" <= message || message in {"BACK", "ENTER", "LEFT_CLICK", "MIDDLE_CLICK", "RIGHT_CLICK"} || "KEYBOARD" <= message)
  }

  /** One turn of the `async for message in websocket` loop, including the `BadToken` and `Bad request` exits. */
  function HandleMessage(cfg: Config, s: Session, message: string): (r: Reaction)
    // auth is never withdrawn
    ensures s.auth ==> r.session.auth
    // nothing reaches the host before authorization
    ensures !s.auth ==> r.actions == []
    // the only way in: ENTER while the buffer holds the password
    ensures !s.auth && r.session.auth ==> message == "ENTER" && s.entry == cfg.password
  {
    if "API_KEY" <= message then
      var words := Split(message);
      if |words| == 2 && words[1] != cfg.token then Reaction(s, Some("Bad token"), [], true)
      else Ignore(s)
    else if "DRAG" <= message then
      assert message[0] == 'D';
      if !s.auth then Forbid(s)
      else
        var words := Split(message);
        if |words| != 3 || !cfg.isFloat(words[1]) || !cfg.isFloat(words[2]) then Reaction(s, Some("Bad request"), [], true)
        else Act(s, [Move(words[1], words[2])])
    else if message == "BACK" then
      var s' := s.(entry := DropLast(s.entry));
      if !s.auth then Forbid(s') else Act(s', [PressKey("backspace")])
    else if message == "ENTER" then
      if s.entry == cfg.password then Reaction(Session(true, ""), Some("AUTHORIZED"), [], false)
      else if !s.auth then Forbid(s)
      else Act(s, [PressKey("enter")])
    else if message == "LEFT_CLICK" then Click(s, Left)
    else if message == "MIDDLE_CLICK" then Click(s, Middle)
    else if message == "RIGHT_CLICK" then Click(s, Right)
    else if "KEYBOARD" <= message then
      var key := ReplaceAll(message, "KEYBOARD_INPUT ", "");
      var s' := if key == BackspaceCode then s.(entry := DropLast(s.entry)) else s.(entry := s.entry + key);
      if !s.auth then Forbid(s')
      else if key == BackspaceCode then Act(s', [PressKey("backspace")])
      else Act(s', [Write(key)])
    else Ignore(s)
  }

  /** Every gated command from an unauthorized session, except ENTER with the password, is answered FORBIDDEN. */
  lemma GatedNeedsAuth(cfg: Config, s: Session, message: string)
    requires !s.auth && IsGated(message) && !(message == "ENTER" && s.entry == cfg.password)
    ensures HandleMessage(cfg, s, message).reply == Some("FORBIDDEN")
  {
    var r := HandleMessage(cfg, s, message);
    if "DRAG" <= message {
      assert message[0] == 'D';
      assert r.reply == Some("FORBIDDEN");
    } else if message in {"BACK", "ENTER", "LEFT_CLICK", "MIDDLE_CLICK", "RIGHT_CLICK"} {
      assert r.reply == Some("FORBIDDEN");
    } else {
      assert "KEYBOARD" <= message;
      assert r.reply == Some("FORBIDDEN");
    }
  }

  /** BACK edits the buffer before the authorization check. */
  lemma BackEditsFirst(cfg: Config, s: Session)
    ensures HandleMessage(cfg, s, "BACK").session == s.(entry := DropLast(s.entry))
  {
    var message := "BACK";
    assert message[0] == 'B';
    assert !("API_KEY" <= message) && !("DRAG" <= message);
  }

  /** A message no branch recognises changes nothing and says nothing. */
  lemma UnrecognisedIgnored(cfg: Config, s: Session, message: string)
    requires !IsGated(message) && !("API_KEY" <= message)
    ensures HandleMessage(cfg, s, message) == Reaction(s, None, [], false)
  {
  }

  /** The session ends exactly on a two-word API_KEY with the wrong token, or on an authorized DRAG that is not three words. */
  lemma TerminatesExactly(cfg: Config, s: Session, message: string)
    ensures var r := HandleMessage(cfg, s, message);
      r.terminated <==>
        || ("API_KEY" <= message && |Split(message)| == 2 && Split(message)[1] != cfg.token)
        || (&& !("API_KEY" <= message) && "DRAG" <= message && s.auth
            && var words := Split(message); |words| != 3 || !cfg.isFloat(words[1]) || !cfg.isFloat(words[2]))
  {
  }

  /** A session that ends is left as it was, drives no host action, and is told why. */
  lemma TerminationReply(cfg: Config, s: Session, message: string)
    ensures var r := HandleMessage(cfg, s, message);
      r.terminated ==>
        && r.session == s && r.actions == []
        && r.reply == Some(if "API_KEY" <= message then "Bad token" else "Bad request")
  {
  }

  /** AUTHORIZED is said exactly on ENTER while the buffer holds the password; it clears the buffer and drives no host action. */
  lemma AuthorizedExactly(cfg: Config, s: Session, message: string)
    ensures var r := HandleMessage(cfg, s, message);
      && (r.reply == Some("AUTHORIZED") <==> message == "ENTER" && s.entry == cfg.password)
      && (r.reply == Some("AUTHORIZED") ==> r.session == Session(true, "") && r.actions == [])
  {
  }

  /** FORBIDDEN is only ever said to an unauthorized session, and comes with no host action. */
  lemma ForbiddenOnlyUnauthorized(cfg: Config, s: Session, message: string)
    ensures var r := HandleMessage(cfg, s, message);
      r.reply == Some("FORBIDDEN") ==> !s.auth && r.actions == []
  {
  }

  /** An API_KEY frame never grants or withdraws anything, and drives no host action. */
  lemma ApiKeyChangesNothing(cfg: Config, s: Session, message: string)
    requires "API_KEY" <= message
    ensures var r := HandleMessage(cfg, s, message);
      r.session == s && r.actions == []
  {
  }

  /** ENTER while the buffer holds the password authorizes the session and empties the buffer. */
  lemma EnterWithPassword(cfg: Config, s: Session)
    requires s.entry == cfg.password
    ensures HandleMessage(cfg, s, "ENTER") == Reaction(Session(true, ""), Some("AUTHORIZED"), [], false)
  {
    var message := "ENTER";
    assert message[0] == 'E';
    assert !("API_KEY" <= message) && !("DRAG" <= message);
  }

  /**
    A `KEYBOARD_INPUT <key>` frame edits the buffer whatever the authorization:
    the backspace code drops the last character, any other key is appended.
    Only an authorized session passes the key on to the host.
   */
  lemma KeyboardInputEdits(cfg: Config, s: Session, key: string)
    requires !Occurs(key, "KEYBOARD_INPUT ")
    ensures var r := HandleMessage(cfg, s, "KEYBOARD_INPUT " + key);
      && r.session.auth == s.auth
      && r.session.entry == (if key == BackspaceCode then DropLast(s.entry) else s.entry + key)
      && !r.terminated
      && r.actions == (if !s.auth then [] else if key == BackspaceCode then [PressKey("backspace")] else [Write(key)])
  {
    var message := "KEYBOARD_INPUT " + key;
    assert message[0] == 'K' && message[1] == 'E';
    assert !("API_KEY" <= message) && !("DRAG" <= message);
    assert message[..8] == "KEYBOARD";
    assert "KEYBOARD" <= message;
    ReplaceAllLeading("KEYBOARD_INPUT ", key);
    assert ReplaceAll(message, "KEYBOARD_INPUT ", "") == key;
  }

  /** Everything a session has done after some messages. */
  datatype Trace = Trace(session: Session, replies: seq<string>, actions: seq<Action>, terminated: bool)

  function Replies(reply: Option<string>): seq<string> {
    if reply.Some? then [reply.value] else []
  }

  /** A trace with one more reaction recorded. */
  function Extend(t: Trace, r: Reaction): (u: Trace)
    ensures t.replies <= u.replies && t.actions <= u.actions && |u.replies| <= |t.replies| + 1
  {
    Trace(r.session, t.replies + Replies(r.reply), t.actions + r.actions, r.terminated)
  }

  /** The loop over `messages`, which stops at the first terminating message. */
  function Run(cfg: Config, s: Session, messages: seq<string>): (t: Trace)
    // at most one reply per message read
    ensures |t.replies| <= |messages|
    decreases |messages|
  {
    if messages == [] then Trace(s, [], [], false)
    else
      var t := Run(cfg, s, messages[..|messages| - 1]);
      if t.terminated then t else Extend(t, HandleMessage(cfg, t.session, messages[|messages| - 1]))
  }

  /** A lone `KEYBOARD_INPUT <key>` frame, as a run: it edits the buffer and never ends the session. */
  lemma KeyFrame(cfg: Config, s: Session, key: string)
    requires !Occurs(key, "KEYBOARD_INPUT ")
    ensures var t := Run(cfg, s, ["KEYBOARD_INPUT " + key]);
      && !t.terminated
      && t.session == s.(entry := if key == BackspaceCode then DropLast(s.entry) else s.entry + key)
      && (!s.auth ==> t.actions == [])
  {
    KeyboardInputEdits(cfg, s, key);
    RunSingle(cfg, s, "KEYBOARD_INPUT " + key);
  }

  /** Two traces one after the other, the second starting where the first left off. */
  function Join(t: Trace, u: Trace): (j: Trace)
    ensures j.session == u.session && j.terminated == u.terminated
    ensures t.replies <= j.replies && t.actions <= j.actions
  {
    Trace(u.session, t.replies + u.replies, t.actions + u.actions, u.terminated)
  }

  /** A single message, fed to a session. */
  lemma RunSingle(cfg: Config, s: Session, message: string)
    ensures Run(cfg, s, [message]) == Extend(Trace(s, [], [], false), HandleMessage(cfg, s, message))
  {
    assert [message][..0] == [];
  }

  lemma JoinExtend(t: Trace, u: Trace, r: Reaction)
    ensures Join(t, Extend(u, r)) == Extend(Join(t, u), r)
  {
    assert t.replies + (u.replies + Replies(r.reply)) == (t.replies + u.replies) + Replies(r.reply);
    assert t.actions + (u.actions + r.actions) == (t.actions + u.actions) + r.actions;
  }

  /** Feeding `a` then `b` is feeding `a + b`, as long as `a` did not end the session. */
  lemma {:induction false} RunAppend(cfg: Config, s: Session, a: seq<string>, b: seq<string>)
    requires !Run(cfg, s, a).terminated
    ensures Run(cfg, s, a + b) == Join(Run(cfg, s, a), Run(cfg, Run(cfg, s, a).session, b))
    decreases |b|
  {
    var ta := Run(cfg, s, a);
    if b == [] {
      assert a + b == a;
    } else {
      var b' := b[..|b| - 1];
      assert (a + b)[..|a + b| - 1] == a + b';
      assert (a + b)[|a + b| - 1] == b[|b| - 1];
      RunAppend(cfg, s, a, b');
      var u' := Run(cfg, ta.session, b');
      if !u'.terminated {
        JoinExtend(ta, u', HandleMessage(cfg, u'.session, b[|b| - 1]));
      }
    }
  }

  /** Once authorized, a session stays authorized for the rest of the connection. */
  lemma {:induction false} AuthMonotone(cfg: Config, s: Session, messages: seq<string>)
    requires s.auth
    ensures Run(cfg, s, messages).session.auth
    decreases |messages|
  {
    if messages != [] {
      AuthMonotone(cfg, s, messages[..|messages| - 1]);
    }
  }

  /** A session that never became authorized has driven no host action. */
  lemma {:induction false} NoActionWithoutAuth(cfg: Config, s: Session, messages: seq<string>)
    ensures !Run(cfg, s, messages).session.auth ==> Run(cfg, s, messages).actions == []
    decreases |messages|
  {
    if messages != [] {
      NoActionWithoutAuth(cfg, s, messages[..|messages| - 1]);
    }
  }

  /** Where a session that starts unauthorized and ends authorized received the ENTER that let it in. */
  lemma {:induction false} PasswordEnterIndex(cfg: Config, s: Session, messages: seq<string>) returns (k: nat)
    requires !s.auth
    requires Run(cfg, s, messages).session.auth
    ensures k < |messages| && messages[k] == "ENTER" && Run(cfg, s, messages[..k]).session.entry == cfg.password
    decreases |messages|
  {
    var n := |messages|;
    var prefix := messages[..n - 1];
    if Run(cfg, s, prefix).session.auth {
      k := PasswordEnterIndex(cfg, s, prefix);
      assert prefix[..k] == messages[..k];
    } else {
      k := n - 1;
    }
  }

  /**
    A session that starts unauthorized and ends authorized went through an ENTER
    received while its buffer held exactly the password.
   */
  lemma AuthOnlyByPassword(cfg: Config, s: Session, messages: seq<string>)
    requires !s.auth
    requires Run(cfg, s, messages).session.auth
    ensures exists k :: 0 <= k < |messages| && messages[k] == "ENTER" && Run(cfg, s, messages[..k]).session.entry == cfg.password
  {
    var k := PasswordEnterIndex(cfg, s, messages);
  }

  /** A session that starts unauthorized and ends authorized was told AUTHORIZED. */
  lemma {:induction false} AuthIsAnnounced(cfg: Config, s: Session, messages: seq<string>)
    requires !s.auth
    requires Run(cfg, s, messages).session.auth
    ensures "AUTHORIZED" in Run(cfg, s, messages).replies
    decreases |messages|
  {
    var prefix := messages[..|messages| - 1];
    var t := Run(cfg, s, prefix);
    if t.session.auth {
      AuthIsAnnounced(cfg, s, prefix);
    } else {
      AuthorizedExactly(cfg, t.session, messages[|messages| - 1]);
    }
  }

  /** One more message, while the session is still running. */
  lemma RunStep(cfg: Config, s: Session, messages: seq<string>, i: nat)
    requires i < |messages|
    requires !Run(cfg, s, messages[..i]).terminated
    ensures var t := Run(cfg, s, messages[..i]);
      Run(cfg, s, messages[..i + 1]) == Extend(t, HandleMessage(cfg, t.session, messages[i]))
  {
    assert messages[..i + 1][..i] == messages[..i];
  }

  /** ENTER after messages that left the password in the buffer: one AUTHORIZED reply, an authorized session, no host action. */
  lemma PasswordThenEnter(cfg: Config, s: Session, messages: seq<string>)
    requires !Run(cfg, s, messages).terminated
    requires Run(cfg, s, messages).session.entry == cfg.password
    ensures Run(cfg, s, messages + ["ENTER"]) == Join(Run(cfg, s, messages), Trace(Session(true, ""), ["AUTHORIZED"], [], false))
  {
    var t := Run(cfg, s, messages);
    RunAppend(cfg, s, messages, ["ENTER"]);
    RunSingle(cfg, t.session, "ENTER");
    EnterWithPassword(cfg, t.session);
  }

  /** Messages after a terminating one are never looked at. */
  lemma {:induction false} RunStopsAtTermination(cfg: Config, s: Session, messages: seq<string>, i: nat)
    requires i <= |messages|
    requires Run(cfg, s, messages[..i]).terminated
    ensures Run(cfg, s, messages) == Run(cfg, s, messages[..i])
    decreases |messages| - i
  {
    if i < |messages| {
      var prefix := messages[..|messages| - 1];
      assert prefix[..i] == messages[..i];
      RunStopsAtTermination(cfg, s, prefix, i);
    } else {
      assert messages[..i] == messages;
    }
  }

  /** The loop's exit: every message was read, or the session ended; either way the prefix's run is the whole run. */
  lemma RunUntilStop(cfg: Config, s: Session, messages: seq<string>, i: nat)
    requires i <= |messages|
    requires i == |messages| || Run(cfg, s, messages[..i]).terminated
    ensures Run(cfg, s, messages) == Run(cfg, s, messages[..i])
  {
    if i == |messages| {
      assert messages[..i] == messages;
    } else {
      RunStopsAtTermination(cfg, s, messages, i);
    }
  }

  /** A session that ended was told why, in its last reply. */
  lemma {:induction false} TerminationIsAnnounced(cfg: Config, s: Session, messages: seq<string>)
    requires Run(cfg, s, messages).terminated
    ensures var t := Run(cfg, s, messages);
      |t.replies| > 0 && t.replies[|t.replies| - 1] in {"Bad token", "Bad request"}
    decreases |messages|
  {
    var prefix := messages[..|messages| - 1];
    var t := Run(cfg, s, prefix);
    if t.terminated {
      TerminationIsAnnounced(cfg, s, prefix);
    } else {
      var r := HandleMessage(cfg, t.session, messages[|messages| - 1]);
      TerminationReply(cfg, t.session, messages[|messages| - 1]);
      assert Run(cfg, s, messages).replies == t.replies + [r.reply.value];
    }
  }

  /** The identifier `websocket.id` the clients are registered under. */
  type ClientId = nat

  /** The server process: its configuration and the global `connected_clients` registry. */
  class Server {
    const cfg: Config
    var connectedClients: map<ClientId, Session>

    constructor (cfg: Config)
      ensures this.cfg == cfg && connectedClients == map[]
    {
      this.cfg := cfg;
      connectedClients := map[];
    }

    /**
      `handle_message`: register the client, react to its messages until the
      connection ends or a message terminates the session, then unregister it.
     */
    method HandleConnection(id: ClientId, messages: seq<string>) returns (replies: seq<string>, actions: seq<Action>)
      modifies this
      ensures connectedClients == old(connectedClients) - {id}
      ensures replies == Run(cfg, Fresh, messages).replies
      ensures actions == Run(cfg, Fresh, messages).actions
    {
      var client := Fresh;
      connectedClients := connectedClients[id := client];
      replies, actions := [], [];
      var i, stopped := 0, false;
      while i < |messages| && !stopped
        invariant 0 <= i <= |messages|
        invariant Run(cfg, Fresh, messages[..i]) == Trace(client, replies, actions, stopped)
        invariant connectedClients == old(connectedClients)[id := client]
      {
        var r := HandleMessage(cfg, client, messages[i]);
        RunStep(cfg, Fresh, messages, i);
        client := r.session;
        connectedClients := connectedClients[id := client];
        replies := replies + Replies(r.reply);
        actions := actions + r.actions;
        stopped := r.terminated;
        i := i + 1;
      }
      RunUntilStop(cfg, Fresh, messages, i);
      connectedClients := connectedClients - {id};
    }
  }
}
