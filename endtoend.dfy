/**
  The two ends together: the frames the client builds (App) fed, as text, to the
  server's per-client session (Host). These lemmas state what the pair of programs
  does between them: how the credential frame, a drag frame and the buttons are
  read, and that typing in the client's text field rebuilds the same text in the
  server's buffer, which is how the password gets through.

  The lemmas about several frames feed the server the client's frames in the order
  their sends were launched. Each send runs in its own `Dispatchers.IO` coroutine, so
  the client does not guarantee that order on the wire; `SwappedKeysDoNotLogIn` shows
  that the login depends on it.
 */
module EndToEnd {
  import opened Wrappers
  import opened PyStr
  import App
  import Host

  /** Both sides use the same backspace code. */
  lemma BackspaceCodesAgree()
    ensures App.BackspaceKey == Host.BackspaceCode
  {
  }

  /** The texts of some sent frames, in order. */
  function Wires(sent: seq<App.Sent>): (w: seq<string>)
    ensures |w| == |sent|
  {
    seq(|sent|, i requires 0 <= i < |sent| => App.Wire(sent[i].frame))
  }

  lemma WiresAppend(a: seq<App.Sent>, b: seq<App.Sent>)
    ensures Wires(a + b) == Wires(a) + Wires(b)
  {
  }

  /**
    The credential frame, for a token without blanks, is read as a two-word API_KEY:
    the right token changes nothing (it does not authorize), any other ends the session
    with `Bad token`.
   */
  lemma ApiKeyFrame(cfg: Host.Config, s: Host.Session, token: string)
    requires IsWord(token)
    ensures var r := Host.HandleMessage(cfg, s, App.Wire(App.ApiKey(token)));
      && (token == cfg.token ==> r == Host.Reaction(s, None, [], false))
      && (token != cfg.token ==> r == Host.Reaction(s, Some("Bad token"), [], true))
  {
    var message := App.Wire(App.ApiKey(token));
    assert message == "API_KEY" + " " + token;
    assert "API_KEY" <= message;
    SplitTwoWords("API_KEY", token);
  }

  /**
    A drag frame whose two numbers print without blanks, as `float()` reads them, moves the
    host's pointer by exactly those numbers once the session is authorized, and is answered
    FORBIDDEN before.
   */
  lemma DragFrame(cfg: Host.Config, s: Host.Session, d: App.Delta)
    requires IsWord(d.x) && IsWord(d.y) && cfg.isFloat(d.x) && cfg.isFloat(d.y)
    ensures var r := Host.HandleMessage(cfg, s, App.Wire(App.Drag(d)));
      && r.session == s && !r.terminated
      && (s.auth ==> r.reply == None && r.actions == [Host.Move(d.x, d.y)])
      && (!s.auth ==> r.reply == Some("FORBIDDEN") && r.actions == [])
  {
    var message := App.Wire(App.Drag(d));
    assert message == "DRAG" + " " + d.x + " " + d.y;
    assert message[0] == 'D';
    SplitThreeWords("DRAG", d.x, d.y);
  }

  /** What each button does on the host once the session is authorized. */
  function HostEffect(b: App.Button): (actions: seq<Host.Action>) {
    match b
    case Back => [Host.PressKey("backspace")]
    case Enter => [Host.PressKey("enter")]
    case LeftClick => [Host.MouseDown(Host.Left), Host.MouseUp(Host.Left)]
    case MiddleClick => [Host.MouseDown(Host.Middle), Host.MouseUp(Host.Middle)]
    case RightClick => [Host.MouseDown(Host.Right), Host.MouseUp(Host.Right)]
  }

  /**
    Each button frame reaches its own branch on the server: FORBIDDEN before authorization,
    the button's host effect after; ENTER on a buffer holding the password authorizes instead.
   */
  lemma ButtonFrame(cfg: Host.Config, s: Host.Session, b: App.Button)
    ensures var r := Host.HandleMessage(cfg, s, App.Wire(App.Command(b)));
      && !r.terminated
      && (b == App.Enter && s.entry == cfg.password ==>
            r == Host.Reaction(Host.Session(true, ""), Some("AUTHORIZED"), [], false))
      && (!(b == App.Enter && s.entry == cfg.password) ==>
            && r.session.auth == s.auth
            && r.reply == (if s.auth then None else Some("FORBIDDEN"))
            && r.actions == (if s.auth then HostEffect(b) else []))
      && r.session.entry == (if b == App.Back then DropLast(s.entry)
                             else if b == App.Enter && s.entry == cfg.password then ""
                             else s.entry)
  {
  }

  /** A key of fewer characters than the frame's prefix cannot contain it. */
  lemma ShortKeyHasNoPrefix(key: string)
    requires |key| < |"KEYBOARD_INPUT "|
    ensures !Occurs(key, "KEYBOARD_INPUT ")
  {
    forall i | 0 <= i <= |key|
      ensures !("KEYBOARD_INPUT " <= key[i..])
    {
      assert |key[i..]| < |"KEYBOARD_INPUT "|;
    }
  }

  /** The edits a text field undergoes when someone types: a character added at the end, one removed from the end, or none. */
  predicate IsTypingEdit(before: string, after: string) {
    || after == before
    || (|after| == |before| + 1 && after[..|before|] == before)
    || (|before| > 0 && after == before[..|before| - 1])
  }

  /** Successive contents of the text field, each one typing edit away from the one before. */
  predicate IsTyping(start: string, texts: seq<string>)
    decreases |texts|
  {
    texts == [] || (IsTypingEdit(start, texts[0]) && IsTyping(texts[0], texts[1..]))
  }

  /** The text field's `onValueChange` events for successive contents. */
  function TextEvents(texts: seq<string>): (es: seq<App.Event>)
    ensures |es| == |texts|
    ensures forall i :: 0 <= i < |es| ==> es[i] == App.TextChanged(texts[i])
  {
    seq(|texts|, i requires 0 <= i < |texts| => App.TextChanged(texts[i]))
  }

  /** The one frame a typing edit sends, `KEYBOARD_INPUT <key>`, makes the same edit to the server's buffer. */
  lemma KeySentMirrored(cfg: Host.Config, c: App.State, s: Host.Session, text: string, key: string)
    requires c.webSocket.Some? && |key| < |"KEYBOARD_INPUT "|
    requires App.TextChangeStep(c, text).sent == c.sent + [App.Sent(c.webSocket.value, App.KeyboardInput(key))]
    requires text == (if key == Host.BackspaceCode then DropLast(s.entry) else s.entry + key)
    ensures var c1 := App.TextChangeStep(c, text);
      var t := Host.Run(cfg, s, Wires(c1.sent[|c.sent|..]));
      && !t.terminated && t.session == s.(entry := text)
      && (!s.auth ==> t.actions == [])
  {
    var c1 := App.TextChangeStep(c, text);
    assert Wires(c1.sent[|c.sent|..]) == ["KEYBOARD_INPUT " + key];
    ShortKeyHasNoPrefix(key);
    Host.KeyFrame(cfg, s, key);
  }

  /** One typing edit: the frame it sends (if any) leaves the server's buffer equal to the field. */
  lemma TypingEditMirrored(cfg: Host.Config, c: App.State, s: Host.Session, text: string)
    requires c.webSocket.Some?
    requires s.entry == c.inputText
    requires IsTypingEdit(c.inputText, text)
    ensures var c1 := App.TextChangeStep(c, text);
      var t := Host.Run(cfg, s, Wires(c1.sent[|c.sent|..]));
      && !t.terminated && t.session == s.(entry := text)
      && (!s.auth ==> t.actions == [])
  {
    var c1 := App.TextChangeStep(c, text);
    if |text| == |c.inputText| {
      assert c1.sent[|c.sent|..] == [];
      assert Wires([]) == [];
    } else if |text| < |c.inputText| {
      assert text == DropLast(c.inputText);
      KeySentMirrored(cfg, c, s, text, App.BackspaceKey);
    } else {
      var key := [text[|text| - 1]];
      assert text == c.inputText + key;
      KeySentMirrored(cfg, c, s, text, key);
    }
  }

  lemma WiresSplit(base: seq<App.Sent>, mid: seq<App.Sent>, sent: seq<App.Sent>)
    requires base <= mid <= sent
    ensures Wires(sent[|base|..]) == Wires(mid[|base|..]) + Wires(sent[|mid|..])
  {
    assert sent[|base|..] == mid[|base|..] + sent[|mid|..];
    WiresAppend(mid[|base|..], sent[|mid|..]);
  }

  /** The frames sent after `base` are those sent up to `mid`, then those sent after `mid`, and the server runs through both. */
  lemma SentInTwoParts(cfg: Host.Config, s: Host.Session, base: seq<App.Sent>, mid: seq<App.Sent>, sent: seq<App.Sent>)
    requires base <= mid <= sent
    requires !Host.Run(cfg, s, Wires(mid[|base|..])).terminated
    ensures var t := Host.Run(cfg, s, Wires(mid[|base|..]));
      Host.Run(cfg, s, Wires(sent[|base|..])) == Host.Join(t, Host.Run(cfg, t.session, Wires(sent[|mid|..])))
  {
    WiresSplit(base, mid, sent);
    Host.RunAppend(cfg, s, Wires(mid[|base|..]), Wires(sent[|mid|..]));
  }

  /**
    Typing mirrors the text field into the server's buffer: after any run of typing
    edits, the frames the client sent leave the server's `entry` equal to the field's
    final text, without ending or authorizing the session, and drive no host action
    unless the session was already authorized.
   */
  lemma {:induction false} TypingMirrorsEntry(cfg: Host.Config, c: App.State, s: Host.Session, texts: seq<string>)
    requires c.webSocket.Some?
    requires s.entry == c.inputText
    requires IsTyping(c.inputText, texts)
    ensures var r := App.Run(c, TextEvents(texts));
      var t := Host.Run(cfg, s, Wires(r.sent[|c.sent|..]));
      && r.inputText == (if texts == [] then c.inputText else texts[|texts| - 1])
      && r.webSocket == c.webSocket
      && !t.terminated
      && t.session == s.(entry := r.inputText)
      && (!s.auth ==> t.actions == [])
    decreases |texts|
  {
    var es := TextEvents(texts);
    var r := App.Run(c, es);
    if texts == [] {
      assert r.sent[|c.sent|..] == [];
      assert Wires([]) == [];
    } else {
      var c1 := App.Apply(c, es[0]);
      assert c1 == App.TextChangeStep(c, texts[0]);
      assert es[1..] == TextEvents(texts[1..]);
      TypingEditMirrored(cfg, c, s, texts[0]);
      var t1 := Host.Run(cfg, s, Wires(c1.sent[|c.sent|..]));
      TypingMirrorsEntry(cfg, c1, t1.session, texts[1..]);
      SentInTwoParts(cfg, s, c.sent, c1.sent, r.sent);
    }
  }

  /** The text field's successive contents while `p` is typed from its `k`-th character on. */
  function Prefixes(p: string, k: nat): (texts: seq<string>)
    requires k <= |p|
    ensures |texts| == |p| - k
    ensures forall i :: 0 <= i < |texts| ==> texts[i] == p[..k + i + 1]
  {
    seq(|p| - k, i requires 0 <= i < |p| - k => p[..k + i + 1])
  }

  lemma {:induction false} PrefixesAreTyping(p: string, k: nat)
    requires k <= |p|
    ensures IsTyping(p[..k], Prefixes(p, k))
    decreases |p| - k
  {
    if k < |p| {
      assert Prefixes(p, k)[1..] == Prefixes(p, k + 1);
      assert p[..k + 1][..k] == p[..k];
      PrefixesAreTyping(p, k + 1);
    }
  }

  /** Typing the password into the empty field leaves it in the fresh session's buffer, unauthorized and with no host action. */
  lemma PasswordTyped(cfg: Host.Config, c: App.State)
    requires c.webSocket.Some? && c.inputText == ""
    ensures var c1 := App.Run(c, TextEvents(Prefixes(cfg.password, 0)));
      var t := Host.Run(cfg, Host.Fresh, Wires(c1.sent[|c.sent|..]));
      && c1.inputText == cfg.password && c1.webSocket == c.webSocket
      && !t.terminated && t.session == Host.Session(false, cfg.password) && t.actions == []
  {
    var p := cfg.password;
    assert p[..0] == "";
    PrefixesAreTyping(p, 0);
    TypingMirrorsEntry(cfg, c, Host.Fresh, Prefixes(p, 0));
    if p != [] {
      assert Prefixes(p, 0)[|p| - 1] == p[..|p|];
      assert p[..|p|] == p;
    }
  }

  /**
    The frames the client sent after `base` (a prefix of `r.sent`), fed to a fresh server
    session, end with the reply AUTHORIZED, an authorized session with an empty buffer, no
    host action and no termination; and that reply turns the client's auth status to AUTHORIZED.
   */
  predicate LoggedIn(cfg: Host.Config, base: seq<App.Sent>, r: App.State) {
    && base <= r.sent
    && var t := Host.Run(cfg, Host.Fresh, Wires(r.sent[|base|..]));
    && !t.terminated
    && t.session == Host.Session(true, "")
    && t.actions == []
    && |t.replies| > 0 && t.replies[|t.replies| - 1] == "AUTHORIZED"
    && r.webSocket.Some?
    && App.MessageStep(r, r.webSocket.value, t.replies[|t.replies| - 1]).authStatus == App.Authorized
  }

  /** A click sends one more frame, the button's command, on the current socket. */
  lemma ClickWires(base: seq<App.Sent>, c1: App.State, b: App.Button)
    requires c1.webSocket.Some? && base <= c1.sent
    ensures var r := App.ClickStep(c1, b);
      && base <= r.sent
      && Wires(r.sent[|base|..]) == Wires(c1.sent[|base|..]) + [App.Tag(b)]
      && r.webSocket == c1.webSocket
  {
    var r := App.ClickStep(c1, b);
    var last := [App.Sent(c1.webSocket.value, App.Command(b))];
    assert r.sent[|base|..] == c1.sent[|base|..] + last;
    WiresAppend(c1.sent[|base|..], last);
  }

  /** Pressing ENTER once the server's buffer holds the password authorizes the session. */
  lemma EnterAfterPassword(cfg: Host.Config, base: seq<App.Sent>, c1: App.State)
    requires c1.webSocket.Some? && base <= c1.sent
    requires var t := Host.Run(cfg, Host.Fresh, Wires(c1.sent[|base|..]));
      !t.terminated && t.session == Host.Session(false, cfg.password) && t.actions == []
    ensures LoggedIn(cfg, base, App.ClickStep(c1, App.Enter))
  {
    ClickWires(base, c1, App.Enter);
    Host.PasswordThenEnter(cfg, Host.Fresh, Wires(c1.sent[|base|..]));
  }

  /**
    The login depends on the frames arriving in launch order: with the password "ab", the
    client's frames for the two keys arriving swapped leave "ba" in the buffer, and ENTER is
    answered FORBIDDEN.
   */
  lemma SwappedKeysDoNotLogIn(cfg: Host.Config)
    requires cfg.password == "ab"
    ensures var frames := [App.KeyboardInput("b"), App.KeyboardInput("a"), App.Command(App.Enter)];
      var t := Host.Run(cfg, Host.Fresh, [App.Wire(frames[0]), App.Wire(frames[1]), App.Wire(frames[2])]);
      !t.terminated && !t.session.auth && t.session.entry == "ba" && t.replies == ["FORBIDDEN", "FORBIDDEN", "FORBIDDEN"]
  {
    var kb, ka := "KEYBOARD_INPUT " + "b", "KEYBOARD_INPUT " + "a";
    var typed := [kb, ka];
    SwappedKeys(cfg);
    var t := Host.Run(cfg, Host.Fresh, typed);
    Host.RunAppend(cfg, Host.Fresh, typed, ["ENTER"]);
    Host.RunSingle(cfg, t.session, "ENTER");
    assert t.session.entry != cfg.password by {
      assert t.session.entry[0] == 'b' != 'a' == cfg.password[0];
    }
    Host.GatedNeedsAuth(cfg, t.session, "ENTER");
    Host.AuthorizedExactly(cfg, t.session, "ENTER");
    Host.ForbiddenOnlyUnauthorized(cfg, t.session, "ENTER");
    assert typed + ["ENTER"] == [kb, ka, "ENTER"];
  }

  /** The keys `b` then `a`, typed on a fresh session, leave "ba" in its buffer, each answered FORBIDDEN. */
  lemma SwappedKeys(cfg: Host.Config)
    ensures Host.Run(cfg, Host.Fresh, ["KEYBOARD_INPUT " + "b", "KEYBOARD_INPUT " + "a"])
            == Host.Trace(Host.Session(false, "ba"), ["FORBIDDEN", "FORBIDDEN"], [], false)
  {
    var kb, ka := "KEYBOARD_INPUT " + "b", "KEYBOARD_INPUT " + "a";
    var first := Host.Run(cfg, Host.Fresh, [kb]);
    UnauthorizedKey(cfg, Host.Fresh, "b");
    assert first == Host.Trace(Host.Session(false, "b"), ["FORBIDDEN"], [], false);
    UnauthorizedKey(cfg, first.session, "a");
    Host.RunAppend(cfg, Host.Fresh, [kb], [ka]);
    assert [kb] + [ka] == [kb, ka];
  }

  /** A one-letter key on an unauthorized session, as a one-message run: appended, answered FORBIDDEN. */
  lemma UnauthorizedKey(cfg: Host.Config, s: Host.Session, key: string)
    requires !s.auth && |key| == 1 && key != Host.BackspaceCode
    ensures Host.Run(cfg, s, ["KEYBOARD_INPUT " + key]) == Host.Trace(s.(entry := s.entry + key), ["FORBIDDEN"], [], false)
  {
    ShortKeyHasNoPrefix(key);
    Host.KeyboardInputEdits(cfg, s, key);
    Host.GatedNeedsAuth(cfg, s, "KEYBOARD_INPUT " + key);
    Host.RunSingle(cfg, s, "KEYBOARD_INPUT " + key);
  }

  /**
    Logging in: on a fresh server session, typing the password into the empty text field
    one character at a time and pressing ENTER logs the client in.
   */
  lemma PasswordLogin(cfg: Host.Config, c: App.State)
    requires c.webSocket.Some? && c.inputText == ""
    ensures LoggedIn(cfg, c.sent, App.Run(c, TextEvents(Prefixes(cfg.password, 0)) + [App.ButtonClicked(App.Enter)]))
  {
    var typing := TextEvents(Prefixes(cfg.password, 0));
    var enter := [App.ButtonClicked(App.Enter)];
    PasswordTyped(cfg, c);
    var c1 := App.Run(c, typing);
    App.RunAppend(c, typing, enter);
    App.RunClick(c1, App.Enter);
    EnterAfterPassword(cfg, c.sent, c1);
  }
}
