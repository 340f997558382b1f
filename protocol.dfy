/**
 * The newline-delimited text protocol between the bridge (host) and the hardware
 * number display (peer).
 *
 * Host to peer: `CALL <n>`, `TAKE <n>`, `QUEUE <n>`, `RESET` and the full
 * `STATE current=<c>;total=<t>;waiting=<w>`. Peer to host: `REQ`, a new ticket line
 * `Nguoi tiep theo:<n>`, and informational lines that carry no state.
 *
 * The peer's firmware is not part of this model. What the peer does with each command is
 * captured by `Apply` on a three-field `Display`: the reference against which
 * the bridge's diffing is proved to converge.
 */
module Protocol {
  import opened Wrappers
  import opened Text

  // ---- host to peer ----------------------------------------------------------

  datatype Command =
    | Call(number: int)
    | Take(total: int)
    | Queue(waiting: int)
    | Reset
    | State(current: int, total: int, waiting: int)

  /** The line written for a command (the `\n` terminator is added by the link). */
  function Render(cmd: Command): (line: string)
    ensures line != []
  {
    match cmd
    case Call(n) => "CALL " + IntToString(n)
    case Take(n) => "TAKE " + IntToString(n)
    case Queue(n) => "QUEUE " + IntToString(n)
    case Reset => "RESET"
    case State(c, t, w) =>
      "STATE current=" + IntToString(c) + ";total=" + IntToString(t) + ";waiting=" + IntToString(w)
  }

  /** A rendered command never holds the line terminator, so each command is exactly one line. */
  lemma RenderSingleLine(cmd: Command)
    ensures '\n' !in Render(cmd)
  {
    match cmd
    case Call(n) => IntTextExcludes(n, '\n');
    case Take(n) => IntTextExcludes(n, '\n');
    case Queue(n) => IntTextExcludes(n, '\n');
    case Reset =>
    case State(c, t, w) => StateSingleLine(c, t, w);
  }

  lemma StateSingleLine(c: int, t: int, w: int)
    ensures '\n' !in Render(State(c, t, w))
  {
    IntTextExcludes(c, '\n');
    IntTextExcludes(t, '\n');
    IntTextExcludes(w, '\n');
    assert '\n' !in "STATE current=" && '\n' !in ";total=" && '\n' !in ";waiting=";
  }

  /** The lines written for a series of commands, one each, in order. */
  function RenderAll(cmds: seq<Command>): (lines: seq<string>)
    ensures |lines| == |cmds|
  {
    if cmds == [] then [] else [Render(cmds[0])] + RenderAll(cmds[1..])
  }

  lemma {:induction false} RenderAllConcat(a: seq<Command>, b: seq<Command>)
    ensures RenderAll(a + b) == RenderAll(a) + RenderAll(b)
    decreases |a|
  {
    if a == [] {
      assert a + b == b;
    } else {
      assert (a + b)[0] == a[0] && (a + b)[1..] == a[1..] + b;
      RenderAllConcat(a[1..], b);
    }
  }

  /** `<keyword><int>`: the integer after a keyword. */
  function Argument(line: string, keyword: string): Option<int> {
    if HasPrefix(line, keyword) then ParseDecimal(line[|keyword|..]) else None
  }

  /** The three `;`-separated fields of a STATE line after `STATE `. */
  function ParseStateFields(body: string): Option<Command> {
    var i := IndexOf(body, ';');
    if i == |body| then None
    else
      var rest := body[i + 1..];
      var j := IndexOf(rest, ';');
      if j == |rest| then None
      else
        match (Argument(body[..i], "current="), Argument(rest[..j], "total="), Argument(rest[j + 1..], "waiting="))
        case (Some(c), Some(t), Some(w)) => Some(State(c, t, w))
        case _ => None
  }

  /** How a peer reads a host line; None for a line it does not understand. */
  function ParseCommand(line: string): Option<Command> {
    if line == "RESET" then Some(Reset)
    else if HasPrefix(line, "CALL ") then
      match Argument(line, "CALL ") case Some(n) => Some(Call(n)) case None => None
    else if HasPrefix(line, "TAKE ") then
      match Argument(line, "TAKE ") case Some(n) => Some(Take(n)) case None => None
    else if HasPrefix(line, "QUEUE ") then
      match Argument(line, "QUEUE ") case Some(n) => Some(Queue(n)) case None => None
    else if HasPrefix(line, "STATE ") then ParseStateFields(line[6..])
    else None
  }

  lemma {:induction false} IndexOfFirst(pre: string, c: char, post: string)
    requires c !in pre
    ensures IndexOf(pre + [c] + post, c) == |pre|
  {
    if pre != [] {
      assert (pre + [c] + post)[1..] == pre[1..] + [c] + post;
      IndexOfFirst(pre[1..], c, post);
    }
  }

  lemma ArgumentOf(keyword: string, n: int)
    ensures Argument(keyword + IntToString(n), keyword) == Some(n)
  {
    assert (keyword + IntToString(n))[|keyword|..] == IntToString(n);
    DecimalRoundTrip(n);
  }

  /** The text of an integer holds only '-' and digits, and starts and ends with neither space nor separator. */
  lemma IntTextExcludes(n: int, c: char)
    requires c != '-' && !IsDecimalDigit(c)
    ensures c !in IntToString(n)
  {
    var s := IntToString(n);
    assert forall i :: 0 <= i < |s| ==> s[i] != c;
  }

  lemma IntTextTrimmed(n: int)
    ensures Trim(IntToString(n)) == IntToString(n)
  {
    var s := IntToString(n);
    assert !IsJsWhitespace(s[0]) && !IsJsWhitespace(s[|s| - 1]) by {
      assert s[0] == '-' || IsDecimalDigit(s[0]);
      assert s[|s| - 1] == '-' || IsDecimalDigit(s[|s| - 1]);
    }
    TrimPadded([], s, []);
    assert [] + s + [] == s;
  }

  /** Three fields separated by ';', the first two free of ';', are read field by field. */
  lemma StateFieldsSplit(a: string, b: string, d: string, c: int, t: int, w: int)
    requires ';' !in a && ';' !in b
    requires Argument(a, "current=") == Some(c) && Argument(b, "total=") == Some(t) && Argument(d, "waiting=") == Some(w)
    ensures ParseStateFields(a + [';'] + (b + [';'] + d)) == Some(State(c, t, w))
  {
    var body := a + [';'] + (b + [';'] + d);
    IndexOfFirst(a, ';', b + [';'] + d);
    assert body[..|a|] == a;
    var rest := body[|a| + 1..];
    assert rest == b + [';'] + d;
    IndexOfFirst(b, ';', d);
    assert rest[..|b|] == b && rest[|b| + 1..] == d;
  }

  /** The body of a STATE line after `STATE `. */
  lemma StateFieldsRoundTrip(c: int, t: int, w: int)
    ensures ParseStateFields("current=" + IntToString(c) + ";total=" + IntToString(t) + ";waiting=" + IntToString(w))
         == Some(State(c, t, w))
  {
    var a, b, d := "current=" + IntToString(c), "total=" + IntToString(t), "waiting=" + IntToString(w);
    assert "current=" + IntToString(c) + ";total=" + IntToString(t) + ";waiting=" + IntToString(w)
        == a + [';'] + (b + [';'] + d);
    assert ';' !in a by { IntTextExcludes(c, ';'); }
    assert ';' !in b by { IntTextExcludes(t, ';'); }
    ArgumentOf("current=", c);
    ArgumentOf("total=", t);
    ArgumentOf("waiting=", w);
    StateFieldsSplit(a, b, d, c, t, w);
  }

  lemma CallRoundTrip(n: int)
    ensures ParseCommand(Render(Call(n))) == Some(Call(n))
  {
    var line := Render(Call(n));
    assert line != "RESET" by { assert line[0] == 'C' && "RESET"[0] == 'R'; }
    assert HasPrefix(line, "CALL ");
    ArgumentOf("CALL ", n);
  }

  lemma TakeRoundTrip(n: int)
    ensures ParseCommand(Render(Take(n))) == Some(Take(n))
  {
    var line := Render(Take(n));
    assert line != "RESET" && !HasPrefix(line, "CALL ") by {
      assert line[0] == 'T' && "RESET"[0] == 'R' && "CALL "[0] == 'C';
    }
    assert HasPrefix(line, "TAKE ");
    ArgumentOf("TAKE ", n);
  }

  lemma QueueRoundTrip(n: int)
    ensures ParseCommand(Render(Queue(n))) == Some(Queue(n))
  {
    var line := Render(Queue(n));
    assert line != "RESET" && !HasPrefix(line, "CALL ") && !HasPrefix(line, "TAKE ") by {
      assert line[0] == 'Q' && "RESET"[0] == 'R' && "CALL "[0] == 'C' && "TAKE "[0] == 'T';
    }
    assert HasPrefix(line, "QUEUE ");
    ArgumentOf("QUEUE ", n);
  }

  lemma ParseStateLine(body: string)
    ensures ParseCommand("STATE " + body) == ParseStateFields(body)
  {
    var line := "STATE " + body;
    assert line != "RESET" && !HasPrefix(line, "CALL ") && !HasPrefix(line, "TAKE ") && !HasPrefix(line, "QUEUE ") by {
      assert line[0] == 'S' && "RESET"[0] == 'R' && "CALL "[0] == 'C' && "TAKE "[0] == 'T' && "QUEUE "[0] == 'Q';
    }
    assert HasPrefix(line, "STATE ") && line[6..] == body;
  }

  lemma StateRoundTrip(c: int, t: int, w: int)
    ensures ParseCommand(Render(State(c, t, w))) == Some(State(c, t, w))
  {
    var body := "current=" + IntToString(c) + ";total=" + IntToString(t) + ";waiting=" + IntToString(w);
    assert Render(State(c, t, w)) == "STATE " + body;
    ParseStateLine(body);
    StateFieldsRoundTrip(c, t, w);
  }

  /** A peer reads back every line the host writes. */
  lemma RenderRoundTrip(cmd: Command)
    ensures ParseCommand(Render(cmd)) == Some(cmd)
  {
    match cmd
    case Call(n) => CallRoundTrip(n);
    case Take(n) => TakeRoundTrip(n);
    case Queue(n) => QueueRoundTrip(n);
    case Reset =>
    case State(c, t, w) => StateRoundTrip(c, t, w);
  }

  /** Distinct commands are written as distinct lines. */
  lemma RenderInjective(a: Command, b: Command)
    requires Render(a) == Render(b)
    ensures a == b
  {
    RenderRoundTrip(a);
    RenderRoundTrip(b);
  }

  /** The commands a peer takes from a series of lines, skipping lines it does not understand. */
  function PeerRead(lines: seq<string>): seq<Command>
    decreases |lines|
  {
    if lines == [] then []
    else
      (match ParseCommand(lines[0]) case Some(cmd) => [cmd] case None => []) + PeerRead(lines[1..])
  }

  /** A peer that reads the lines written for some commands gets exactly those commands back. */
  lemma {:induction false} PeerReadsRendered(cmds: seq<Command>)
    ensures PeerRead(RenderAll(cmds)) == cmds
    decreases |cmds|
  {
    if cmds != [] {
      var lines := RenderAll(cmds);
      RenderRoundTrip(cmds[0]);
      assert lines[0] == Render(cmds[0]) && lines[1..] == RenderAll(cmds[1..]);
      PeerReadsRendered(cmds[1..]);
      assert cmds == [cmds[0]] + cmds[1..];
    }
  }

  // ---- the peer's display ----------------------------------------------------

  /** What the peer shows: the number being served, the total issued and the waiting count. */
  datatype Display = Display(current: int, total: int, waiting: int)

  /** Each incremental command sets one field; STATE sets all three; RESET clears them. */
  function Apply(d: Display, cmd: Command): (e: Display)
    ensures cmd.Call? ==> e == d.(current := cmd.number)
    ensures cmd.Take? ==> e == d.(total := cmd.total)
    ensures cmd.Queue? ==> e == d.(waiting := cmd.waiting)
  {
    match cmd
    case Call(n) => d.(current := n)
    case Take(n) => d.(total := n)
    case Queue(n) => d.(waiting := n)
    case Reset => Display(0, 0, 0)
    case State(c, t, w) => Display(c, t, w)
  }

  /** The display after the peer has received a series of commands in order. */
  function ApplyAll(d: Display, cmds: seq<Command>): Display
    decreases |cmds|
  {
    if cmds == [] then d else ApplyAll(Apply(d, cmds[0]), cmds[1..])
  }

  lemma {:induction false} ApplyAllConcat(d: Display, a: seq<Command>, b: seq<Command>)
    ensures ApplyAll(d, a + b) == ApplyAll(ApplyAll(d, a), b)
    decreases |a|
  {
    if a != [] {
      assert (a + b)[0] == a[0] && (a + b)[1..] == a[1..] + b;
      ApplyAllConcat(Apply(d, a[0]), a[1..], b);
    } else {
      assert a + b == b;
    }
  }

  // ---- peer to host ----------------------------------------------------------

  const TicketPrefix: string := "Nguoi tiep theo:"

  datatype PeerMessage = ResyncRequest | NewTicket(number: int) | Informational

  /**
   * How the bridge classifies a received line: trimmed, `REQ` asks for a resync; a
   * line starting with the ticket prefix carries parseInt of the trimmed field
   * after the first ':' (and is dropped when that is NaN); anything else is only logged.
   */
  function ParsePeerLine(line: string): (m: PeerMessage)
    ensures m == ResyncRequest <==> Trim(line) == "REQ"
    ensures m.NewTicket? ==> HasPrefix(Trim(line), TicketPrefix)
  {
    var msg := Trim(line);
    if msg == "REQ" then ResyncRequest
    else if HasPrefix(msg, TicketPrefix) then
      match ParseIntJs(TicketField(msg))
      case Some(n) => NewTicket(n)
      case None => Informational
    else Informational
  }

  lemma TrimKeepsFirst(s: string)
    requires s != [] && !IsJsWhitespace(s[0])
    ensures Trim(s) != [] && Trim(s)[0] == s[0]
  {
    TrimStartNoLeadingSpace(s);
  }

  /** A resync request is recognised whatever whitespace and line terminator surround it. */
  lemma ResyncRequestPadded(pre: string, post: string)
    requires AllWhitespace(pre) && AllWhitespace(post)
    ensures ParsePeerLine(pre + "REQ" + post) == ResyncRequest
  {
    TrimPadded(pre, "REQ", post);
  }

  /** The payload field of a ticket line: parseInt of the trimmed text after the first ':'. */
  function TicketField(msg: string): (f: string)
    requires HasPrefix(msg, TicketPrefix)
    ensures ':' !in f
    ensures f == [] || (!IsJsWhitespace(f[0]) && !IsJsWhitespace(f[|f| - 1]))
  {
    assert msg[15] == ':';
    var field := SecondField(msg, ':');
    var t := TrimStart(field);
    assert ':' !in t by { assert t == field[|field| - |t|..]; }
    assert ':' !in TrimEnd(t) by { assert TrimEnd(t) == t[..|TrimEnd(t)|]; }
    Trim(field)
  }

  /** For any payload, the ticket field is the payload up to its first ':' (or its end), trimmed. */
  lemma TicketFieldOfPayload(payload: string)
    ensures TicketField(TicketPrefix + payload) == Trim(payload[..IndexOf(payload, ':')])
  {
    assert TicketPrefix + payload == "Nguoi tiep theo" + [':'] + payload;
    IndexOfFirst("Nguoi tiep theo", ':', payload);
    assert (TicketPrefix + payload)[16..] == payload;
  }

  lemma TicketFieldOf(n: int)
    ensures TicketField(TicketPrefix + IntToString(n)) == IntToString(n)
  {
    var digits := IntToString(n);
    var s := TicketPrefix + digits;
    assert s == "Nguoi tiep theo" + [':'] + digits;
    IndexOfFirst("Nguoi tiep theo", ':', digits);
    assert s[16..] == digits;
    IntTextExcludes(n, ':');
    assert IndexOf(digits, ':') == |digits|;
    IntTextTrimmed(n);
  }

  /** A ticket line for any integer, padded with whitespace (a CRLF ending), yields that ticket. */
  lemma TicketLineRoundTrip(n: int, pre: string, post: string)
    requires AllWhitespace(pre) && AllWhitespace(post)
    ensures ParsePeerLine(pre + TicketPrefix + IntToString(n) + post) == NewTicket(n)
  {
    var digits := IntToString(n);
    var msg := TicketPrefix + digits;
    assert pre + TicketPrefix + digits + post == pre + msg + post;
    assert Trim(pre + msg + post) == msg by {
      assert !IsJsWhitespace(msg[|msg| - 1]) by {
        assert msg[|msg| - 1] == digits[|digits| - 1];
        assert digits[|digits| - 1] == '-' || IsDecimalDigit(digits[|digits| - 1]);
      }
      TrimPadded(pre, msg, post);
    }
    assert msg != "REQ" && HasPrefix(msg, TicketPrefix) by {
      assert msg[0] == 'N';
      assert msg[..|TicketPrefix|] == TicketPrefix;
    }
    TicketFieldOf(n);
    ParseIntJsRoundTrip(n);
  }

  /** The peer's confirmation lines (serving, queue update, sync, reset) change nothing. */
  lemma ConfirmationLinesIgnored(line: string)
    requires var msg := Trim(line);
      || HasPrefix(msg, "Dang phuc vu:") || HasPrefix(msg, "Cap nhat hang cho:")
      || HasPrefix(msg, "Dong bo") || HasPrefix(msg, "Da reset")
    ensures ParsePeerLine(line) == Informational
  {
    var msg := Trim(line);
    assert msg[0] == 'D' || msg[0] == 'C' by {
      assert msg[0] == msg[..7][0];
    }
    assert msg != "REQ" by {
      assert "REQ"[0] == 'R';
    }
    assert !HasPrefix(msg, TicketPrefix) by {
      assert TicketPrefix[0] == 'N';
      if |msg| >= |TicketPrefix| {
        assert msg[..|TicketPrefix|][0] == msg[0];
      }
    }
  }

  /** Trimming a ticket line whose payload starts with a visible character keeps the prefix and that character. */
  lemma TrimTicketLine(payload: string)
    requires payload != [] && !IsJsWhitespace(payload[0])
    ensures HasPrefix(Trim(TicketPrefix + payload), TicketPrefix) && Trim(TicketPrefix + payload) != "REQ"
    ensures |Trim(TicketPrefix + payload)| > 16
    ensures Trim(TicketPrefix + payload)[16..] == payload[..|Trim(TicketPrefix + payload)| - 16]
  {
    var line := TicketPrefix + payload;
    TrimStartNoLeadingSpace(line);
    var msg := Trim(line);
    assert msg == TrimEnd(line);
    assert line[16] == payload[0];
    assert msg[..16] == line[..16];
  }

  /** A ticket line whose payload does not start with a sign or a digit is dropped. */
  lemma MalformedTicketIgnored(payload: string)
    requires payload != [] && !IsJsWhitespace(payload[0])
    requires !IsDecimalDigit(payload[0]) && payload[0] != '-' && payload[0] != '+'
    ensures ParsePeerLine(TicketPrefix + payload) == Informational
  {
    TrimTicketLine(payload);
    var msg := Trim(TicketPrefix + payload);
    var tail := msg[16..];
    assert msg == TicketPrefix + tail;
    assert tail[0] == payload[0];
    TicketFieldOfPayload(tail);
    var f := tail[..IndexOf(tail, ':')];
    assert ParseIntJs(Trim(f)) == None by {
      if f != [] {
        assert f[0] == tail[0];
        TrimKeepsFirst(f);
        TrimStartNoLeadingSpace(Trim(f));
      }
    }
  }
}
