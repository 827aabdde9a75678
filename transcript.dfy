/**
 * The terminal's transcript: a list of lines that `processCommand` extends
 * with the echoed command and into which `typeResponse` reveals a reply one
 * character at a time, finishing with a pass that turns every line holding
 * `https://` into a caption followed by a clickable link.
 *
 * The timers are sequenced: each typing session runs to completion before the
 * next edit of the transcript, which is the order the code is written in.
 */
module Transcript {
  import opened Wrappers
  import opened Strings
  import opened Address
  import opened Replies
  import opened Command
  import opened Issuer

  /** A transcript line: text, or the `<span>` holding a caption and an `<a href>`. */
  datatype Line = Plain(text: string) | Link(caption: string, url: string)

  /** The substring that marks a reply, and a line of it, as holding a link. */
  const LinkMarker: string := "https://"

  /** What a line shows: a link line renders its caption, one space and the URL. */
  function Display(l: Line): string {
    match l
    case Plain(t) => t
    case Link(caption, url) => caption + " " + url
  }

  function Plains(ts: seq<string>): (ls: seq<Line>)
    ensures |ls| == |ts|
    ensures forall k :: 0 <= k < |ts| ==> ls[k] == Plain(ts[k])
  {
    seq(|ts|, k requires 0 <= k < |ts| => Plain(ts[k]))
  }

  /**
   * A transcript a character can be typed into: the last line exists and is
   * text (appending to a missing or a link line would not yield a line).
   */
  predicate Typable(buf: seq<Line>) {
    buf != [] && buf[|buf| - 1].Plain?
  }

  /** One `typeChar` update: a newline opens a new line, any other character extends the last one. */
  function Step(buf: seq<Line>, c: char): (r: seq<Line>)
    requires Typable(buf)
    ensures Typable(r)
  {
    var last := buf[|buf| - 1];
    if c == '\n' then buf[..|buf| - 1] + [last, Plain("")]
    else buf[..|buf| - 1] + [Plain(last.text + [c])]
  }

  /** The transcript once every character of `r` has been typed. */
  function Reveal(buf: seq<Line>, r: string): (out: seq<Line>)
    requires Typable(buf)
    ensures Typable(out)
    decreases |r|
  {
    if r == [] then buf else Reveal(Step(buf, r[0]), r[1..])
  }

  /**
   * The link mapping of one line: when it holds the marker, its last
   * space-separated word is the URL and the words before it, joined by single
   * spaces, the caption.
   */
  function LinkLine(line: string): Line {
    if Contains(line, LinkMarker) then
      var parts := Split(line, ' ');
      Link(Join(parts[..|parts| - 1], " "), parts[|parts| - 1])
    else Plain(line)
  }

  /** The lines of a reply after the link mapping. */
  function Rendered(r: string): (ls: seq<Line>)
    ensures |ls| == |Split(r, '\n')| >= 1
  {
    var lines := Split(r, '\n');
    seq(|lines|, k requires 0 <= k < |lines| => LinkLine(lines[k]))
  }

  /**
   * The pass after the last character: when the reply holds the marker, the
   * last `n` lines, `n` being the number of lines of the reply, are replaced by
   * the mapped lines (with more than `n` lines to drop, everything is dropped).
   */
  function PostPass(buf: seq<Line>, r: string): (out: seq<Line>)
    requires buf != []
    ensures out != []
  {
    if Contains(r, LinkMarker) then
      var n := |Split(r, '\n')|;
      (if n <= |buf| then buf[..|buf| - n] else []) + Rendered(r)
    else buf
  }

  /** The transcript after one whole `typeResponse(r)`. */
  function Session(buf: seq<Line>, r: string): (out: seq<Line>)
    requires Typable(buf)
    ensures out != []
  {
    PostPass(Reveal(buf, r), r)
  }

  // ---------------------------------------------------------------------
  // Lemmas on a typing session

  /**
   * Typing `r` into the last line `l` leaves every earlier line alone, appends
   * the first line of `r` to `l`, and adds the other lines of `r` after it.
   */
  lemma {:induction false} RevealSplitsLines(p: seq<Line>, l: string, r: string)
    ensures
      var s := Split(r, '\n');
      Reveal(p + [Plain(l)], r) == p + [Plain(l + s[0])] + Plains(s[1..])
    decreases |r|
  {
    var buf := p + [Plain(l)];
    var s := Split(r, '\n');
    if r == [] {
      assert s == [[]];
      assert l + s[0] == l;
      assert Plains(s[1..]) == [];
    } else {
      var s' := Split(r[1..], '\n');
      var next := Step(buf, r[0]);
      assert Reveal(buf, r) == Reveal(next, r[1..]);
      assert buf[..|buf| - 1] == p;
      if r[0] == '\n' {
        assert next == buf + [Plain("")];
        RevealSplitsLines(buf, "", r[1..]);
        assert s == [[]] + s';
        NewlineStep(p, l, s');
      } else {
        assert next == p + [Plain(l + [r[0]])];
        RevealSplitsLines(p, l + [r[0]], r[1..]);
        assert s == [[r[0]] + s'[0]] + s'[1..];
        assert l + [r[0]] + s'[0] == l + s[0];
      }
    }
  }

  /** The newline case of `RevealSplitsLines`: the finished line, then the rest. */
  lemma NewlineStep(p: seq<Line>, l: string, s': seq<string>)
    requires s' != []
    ensures
      var s := [[]] + s';
      (p + [Plain(l)]) + [Plain("" + s'[0])] + Plains(s'[1..]) == p + [Plain(l + s[0])] + Plains(s[1..])
  {
    var s := [[]] + s';
    assert l + s[0] == l;
    assert "" + s'[0] == s'[0];
    assert s[1..] == s';
    PlainsSplit(s');
    ConcatAssoc(p + [Plain(l)], [Plain(s'[0])], Plains(s'[1..]));
  }

  /** A link marker holds a colon, so a colon-free text has no link. */
  lemma MarkerNeedsColon(s: string)
    requires Contains(s, LinkMarker)
    ensures ':' in s
  {
    var i :| 0 <= i <= |s| - |LinkMarker| && OccursAt(s, LinkMarker, i);
    assert s[i + 5] == s[i..i + |LinkMarker|][5] == ':';
  }

  /** Without the marker nothing is mapped: every line of the reply stays text. */
  lemma {:induction false} NoLinkRendersPlain(r: string)
    requires !Contains(r, LinkMarker)
    ensures Rendered(r) == Plains(Split(r, '\n'))
  {
    var s := Split(r, '\n');
    forall k | 0 <= k < |s|
      ensures LinkLine(s[k]) == Plain(s[k])
    {
      if Contains(s[k], LinkMarker) {
        SplitPieceContains(r, '\n', LinkMarker, k);
        assert false;
      }
    }
  }

  /**
   * A line holding the marker is split at its last space: the URL is the
   * space-free last word and the caption is everything before that space; a line
   * without a space is all URL, with an empty caption, so it shows with one
   * leading space.
   */
  lemma {:induction false} LinkLineSplitsAtLastSpace(line: string)
    requires Contains(line, LinkMarker)
    ensures LinkLine(line).Link?
    ensures ' ' !in LinkLine(line).url
    ensures ' ' in line ==> line == LinkLine(line).caption + " " + LinkLine(line).url
    ensures ' ' in line ==> Display(LinkLine(line)) == line
    ensures ' ' !in line ==> LinkLine(line) == Link("", line)
    ensures ' ' !in line ==> Display(LinkLine(line)) == " " + line
  {
    var parts := Split(line, ' ');
    var n := |parts|;
    if n == 1 {
      JoinSplit(line, ' ');
      assert line == parts[0];
      assert parts[..0] == [];
    } else {
      SplitAtLastSpace(line);
    }
  }

  /** With several pieces, the line is the joined front, a space, and the last piece. */
  lemma SplitAtLastSpace(line: string)
    requires |Split(line, ' ')| > 1
    ensures
      var parts := Split(line, ' ');
      var n := |parts|;
      line == Join(parts[..n - 1], " ") + " " + parts[n - 1] && ' ' in line
  {
    var parts := Split(line, ' ');
    var n := |parts|;
    JoinSplit(line, ' ');
    FrontAndLast(parts);
    JoinSnoc(parts[..n - 1], parts[n - 1], " ");
    assert line[|Join(parts[..n - 1], " ")|] == ' ';
  }

  /**
   * The whole effect of a typing session that starts on line `l`: with a link
   * in the reply, `l` and every typed line are replaced by the mapped lines of
   * the reply; without one, the reply's lines are appended as text after `l`.
   */
  lemma {:induction false} SessionResult(p: seq<Line>, l: string, r: string)
    ensures Contains(r, LinkMarker) ==> Session(p + [Plain(l)], r) == p + Rendered(r)
    ensures
      var s := Split(r, '\n');
      !Contains(r, LinkMarker) ==> Session(p + [Plain(l)], r) == p + [Plain(l + s[0])] + Plains(s[1..])
  {
    var s := Split(r, '\n');
    RevealSplitsLines(p, l, r);
    var out := Reveal(p + [Plain(l)], r);
    assert |out| == |p| + |s|;
    if Contains(r, LinkMarker) {
      assert out[..|out| - |s|] == p;
    }
  }

  /** Typed on a blank line, a reply becomes exactly its mapped lines. */
  lemma {:induction false} SessionOnBlankLine(p: seq<Line>, r: string)
    ensures Session(p + [Plain("")], r) == p + Rendered(r)
  {
    if Contains(r, LinkMarker) {
      SessionResult(p, "", r);
    } else {
      PlainSessionOnBlankLine(p, r);
    }
  }

  /** The case of `SessionOnBlankLine` without a link. */
  lemma PlainSessionOnBlankLine(p: seq<Line>, r: string)
    requires !Contains(r, LinkMarker)
    ensures Session(p + [Plain("")], r) == p + Rendered(r)
  {
    SessionResult(p, "", r);
    var s := Split(r, '\n');
    var head, tail := [Plain("" + s[0])], Plains(s[1..]);
    NoLinkFromBlank(r);
    ConcatAssoc(p, head, tail);
  }

  lemma ConcatAssoc(a: seq<Line>, b: seq<Line>, c: seq<Line>)
    ensures a + b + c == a + (b + c)
  {
  }

  /** Without a link, the lines typed from a blank line are the rendered lines. */
  lemma NoLinkFromBlank(r: string)
    requires !Contains(r, LinkMarker)
    ensures
      var s := Split(r, '\n');
      [Plain("" + s[0])] + Plains(s[1..]) == Rendered(r)
  {
    var s := Split(r, '\n');
    NoLinkRendersPlain(r);
    PlainsSplit(s);
    assert "" + s[0] == s[0];
  }

  lemma PlainsSplit(s: seq<string>)
    requires s != []
    ensures Plains(s) == [Plain(s[0])] + Plains(s[1..])
  {
  }

  /** A text that types as one line and holds no link. */
  predicate SingleLine(t: string) {
    '\n' !in t && ':' !in t
  }

  /** A one-line reply without a colon is appended to the line it is typed on. */
  lemma {:induction false} SingleLineSession(p: seq<Line>, l: string, t: string)
    requires SingleLine(t)
    ensures Session(p + [Plain(l)], t) == p + [Plain(l + t)]
  {
    if Contains(t, LinkMarker) {
      MarkerNeedsColon(t);
    }
    SessionResult(p, l, t);
    SplitAfterPiece(t, [], '\n');
    assert t + [] == t;
    assert Split([], '\n') == [[]];
    assert Split(t, '\n') == [t];
  }

  /** Typed onto a fresh blank line, a one-line text without a colon shows as that line. */
  lemma {:induction false} NoticeAppendsLine(buf: seq<Line>, t: string)
    requires SingleLine(t)
    ensures Session(buf + [Plain("")], t) == buf + [Plain(t)]
  {
    SingleLineSession(buf, "", t);
    assert "" + t == t;
  }

  /** Every progress notice is one line without a link. */
  lemma ProgressIsOneLine(a: Action)
    requires Progress(a).Some?
    ensures SingleLine(Progress(a).value)
  {
    NoticesAreSingleLines();
  }

  /** The progress and fallback texts are single lines without a link. */
  lemma NoticesAreSingleLines()
    ensures SingleLine(FetchingAccountText) && SingleLine(FetchingTokenText) && SingleLine(ScanningText)
    ensures SingleLine(ThinkingEmojiText) && SingleLine(ThinkingText) && SingleLine(ApologyText)
  {
    forall i | 0 <= i < |FetchingAccountText|
      ensures FetchingAccountText[i] != '\n' && FetchingAccountText[i] != ':' { }
    forall i | 0 <= i < |FetchingTokenText|
      ensures FetchingTokenText[i] != '\n' && FetchingTokenText[i] != ':' { }
    forall i | 0 <= i < |ScanningText|
      ensures ScanningText[i] != '\n' && ScanningText[i] != ':' { }
    forall i | 0 <= i < |ThinkingEmojiText|
      ensures ThinkingEmojiText[i] != '\n' && ThinkingEmojiText[i] != ':' { }
    forall i | 0 <= i < |ThinkingText|
      ensures ThinkingText[i] != '\n' && ThinkingText[i] != ':' { }
    var a := "Sorry, I couldn't process ";
    var b := "your request. Please try again.";
    forall i | 0 <= i < |a| ensures a[i] != '\n' && a[i] != ':' { }
    forall i | 0 <= i < |b| ensures b[i] != '\n' && b[i] != ':' { }
  }

  // ---------------------------------------------------------------------
  // What one submitted line does to the transcript

  /**
   * What the services outside the terminal answer during one command: the
   * account lookup's reply for a well-formed address, the two ledger round
   * trips of the issuer scan with the text of its report, and the assistant's
   * reply (`None` when the request or the reading of its reply fails).
   */
  datatype Services = Services(
    accountReply: string,
    lines: RoundTrip<LinesReply>,
    info: RoundTrip<Option<AccountData>>,
    report: string,
    chat: Option<string>)

  /** `fetchXRPInfo(p)`: the format check, then the service's reply. */
  function AccountReply(p: string, net: Services): (text: string)
    ensures !WellFormed(p) ==> text == InvalidAccountText
    ensures WellFormed(p) ==> text == net.accountReply
  {
    if !Matches(p) then InvalidAccountText else net.accountReply
  }

  /** `fetchTokenInfo(p)`: the error line of a failed aggregation, or the report. */
  function IssuerReply(p: string, net: Services): (text: string)
    ensures !WellFormed(p) ==> text == InvalidIssuerText
  {
    match ErrorText(Aggregate(p, net.lines, net.info))
    case Some(t) => t
    case None => net.report
  }

  /** The fixed reply of a table command, `""` for the others. */
  function StaticReply(a: Action, address: string): string {
    match a
    case ShowHelp => HelpText
    case ShowContractAddress => ContractAddressText(address)
    case ShowTelegram => TelegramText
    case ShowTwitter => TwitterText
    case AddressInfoUsage => AddressInfoUsageText
    case ScanUsage => ScanUsageText
    case _ => ""
  }

  /**
   * `if (response) { setOutput(prev => [...prev.slice(0, -1), ""]); typeResponse(response); }`:
   * the last line is blanked and the reply typed into it.
   */
  function Answered(buf: seq<Line>, text: string): seq<Line>
    requires buf != []
  {
    if text == "" then buf else Session(buf[..|buf| - 1] + [Plain("")], text)
  }

  /**
   * `chatWithAI`, entered with the `🤔 Thinking...` line last. Its own waiting
   * line is one line (`NoticeAppendsLine`); a reply replaces it, while on a
   * failure it is dropped and the one-line apology is typed onto the end of the
   * first waiting line.
   */
  function AfterChat(buf: seq<Line>, chat: Option<string>): seq<Line>
    requires Typable(buf)
  {
    match chat
    case Some(reply) => Session(buf + [Plain("")], reply)
    case None => buf[..|buf| - 1] + [Plain(buf[|buf| - 1].text + ApologyText)]
  }

  /** The default branch for a non-address line: the first waiting line, then `chatWithAI`. */
  function AfterAsking(echoed: seq<Line>, chat: Option<string>): seq<Line> {
    AfterChat(echoed + [Plain(ThinkingEmojiText)], chat)
  }

  /** The transcript after `processCommand(cmd)`, every awaited reply given by `net`. */
  function AfterCommand(buf: seq<Line>, cmd: string, address: string, net: Services): seq<Line> {
    var a := Route(cmd);
    AfterAction(buf + [Plain("> " + cmd)], a, Response(a, cmd, address, net), net.chat)
  }

  /** The progress notice typed, on a line of its own, while a request is awaited. */
  function Progress(a: Action): Option<string> {
    match a
    case LookupAccount(_) => Some(FetchingAccountText)
    case ScanIssuer(_) => Some(FetchingTokenText)
    case ImplicitScan(_) => Some(ScanningText)
    case _ => None
  }

  /** The `response` the `switch` computes: a table reply, or what the awaited request returns. */
  function Response(a: Action, cmd: string, address: string, net: Services): string {
    match a
    case LookupAccount(p) => AccountReply(p, net)
    case ScanIssuer(p) => IssuerReply(p, net)
    case ImplicitScan(_) => IssuerReply(cmd, net)
    case _ => StaticReply(a, address)
  }

  /**
   * The effect of the `switch`, on the transcript that already ends with the
   * echo: clearing, asking the assistant, or typing the response after the
   * progress notice, if any. A notice is one line typed onto a fresh blank
   * line, so it shows as that one line (`NoticeAppendsLine`).
   */
  function AfterAction(echoed: seq<Line>, a: Action, response: string, chat: Option<string>): seq<Line>
    requires echoed != []
  {
    match a
    case ClearTerminal => []
    case AskAI(_) => AfterAsking(echoed, chat)
    case _ =>
      var shown := if Progress(a).Some? then echoed + [Plain(Progress(a).value)] else echoed;
      Answered(shown, response)
  }

  /** The table commands whose reply is a fixed text, typed without a request. */
  predicate Fixed(a: Action) {
    a.ShowHelp? || a.ShowContractAddress? || a.ShowTelegram? || a.ShowTwitter?
    || a.AddressInfoUsage? || a.ScanUsage?
  }

  /**
   * The evidently intended effect of the `switch`: a table command opens a
   * blank line after its echo, as the requests do, so that the closing
   * `if (response)` types its reply there and not over the echo. Every other
   * action is as written.
   */
  function IntendedAfterAction(echoed: seq<Line>, a: Action, response: string, chat: Option<string>): seq<Line>
    requires echoed != []
  {
    if Fixed(a) then Answered(echoed + [Plain("")], response) else AfterAction(echoed, a, response, chat)
  }

  /** The transcript after `processCommand(cmd)` with table replies typed below their echo. */
  function IntendedAfterCommand(buf: seq<Line>, cmd: string, address: string, net: Services): seq<Line> {
    var a := Route(cmd);
    IntendedAfterAction(buf + [Plain("> " + cmd)], a, Response(a, cmd, address, net), net.chat)
  }

  // ---------------------------------------------------------------------
  // Lemmas on whole commands

  /** `clear` and `cls` leave no line at all, not even their echo. */
  lemma ClearEmptiesTranscript(buf: seq<Line>, cmd: string, address: string, net: Services)
    requires Route(cmd).ClearTerminal?
    ensures AfterCommand(buf, cmd, address, net) == []
  {
  }

  /**
   * A lookup or scan keeps the echo and replaces its progress notice by the
   * lines of the response; only an empty response leaves the notice in place.
   */
  lemma {:induction false} RequestTranscript(buf: seq<Line>, cmd: string, address: string, net: Services)
    requires Progress(Route(cmd)).Some?
    ensures
      var r := Response(Route(cmd), cmd, address, net);
      var echo := Plain("> " + cmd);
      && (r != "" ==> AfterCommand(buf, cmd, address, net) == buf + [echo] + Rendered(r))
      && (r == "" ==> AfterCommand(buf, cmd, address, net) == buf + [echo, Plain(Progress(Route(cmd)).value)])
  {
    var echoed := buf + [Plain("> " + cmd)];
    var shown := echoed + [Plain(Progress(Route(cmd)).value)];
    assert shown[..|shown| - 1] == echoed;
    SessionOnBlankLine(echoed, Response(Route(cmd), cmd, address, net));
  }

  /**
   * A line for the assistant keeps the echo and the first waiting line; the
   * reply replaces the second waiting line, and on a failure the apology is
   * typed onto the end of the first.
   */
  lemma {:induction false} ChatTranscript(buf: seq<Line>, cmd: string, address: string, net: Services)
    requires Route(cmd).AskAI?
    ensures
      var echo := Plain("> " + cmd);
      && (net.chat.Some? ==>
            AfterCommand(buf, cmd, address, net) == buf + [echo, Plain(ThinkingEmojiText)] + Rendered(net.chat.value))
      && (net.chat.None? ==>
            AfterCommand(buf, cmd, address, net) == buf + [echo, Plain(ThinkingEmojiText + ApologyText)])
  {
    var waiting := buf + [Plain("> " + cmd), Plain(ThinkingEmojiText)];
    assert waiting == buf + [Plain("> " + cmd)] + [Plain(ThinkingEmojiText)];
    if net.chat.Some? {
      SessionOnBlankLine(waiting, net.chat.value);
    } else {
      assert waiting[..|waiting| - 1] == buf + [Plain("> " + cmd)];
    }
  }

  /**
   * Where no well-formed address reaches a ledger service, the `response` of
   * the `switch` does not depend on what the services would answer: a
   * malformed address gets the format error of its lookup, and the `response`
   * of every other line is a fixed text or empty (the assistant's reply, which
   * does depend on the services, is typed by `chatWithAI`, not through it).
   */
  lemma MalformedAddressReachesNoService(cmd: string, address: string, net: Services, net': Services)
    requires RequestedAddress(Route(cmd)).None?
    ensures Response(Route(cmd), cmd, address, net) == Response(Route(cmd), cmd, address, net')
    ensures Route(cmd).LookupAccount? ==> Response(Route(cmd), cmd, address, net) == InvalidAccountText
    ensures Route(cmd).ScanIssuer? ==> Response(Route(cmd), cmd, address, net) == InvalidIssuerText
  {
  }

  /** Every fixed reply opens with a line break. */
  lemma FixedRepliesOpenWithNewline(a: Action, address: string)
    requires Fixed(a)
    ensures |StaticReply(a, address)| > 0 && StaticReply(a, address)[0] == '\n'
  {
  }

  /**
   * As written, a table command's reply is typed over its own echo: the line
   * after the earlier transcript is the blank first line of the reply.
   */
  lemma {:induction false} FixedReplyOverwritesEcho(buf: seq<Line>, cmd: string, address: string, net: Services)
    requires Fixed(Route(cmd))
    ensures AfterCommand(buf, cmd, address, net) == buf + Rendered(StaticReply(Route(cmd), address))
    ensures |AfterCommand(buf, cmd, address, net)| > |buf|
    ensures AfterCommand(buf, cmd, address, net)[|buf|] == Plain("")
    ensures AfterCommand(buf, cmd, address, net)[|buf|] != Plain("> " + cmd)
  {
    var text := StaticReply(Route(cmd), address);
    var echoed := buf + [Plain("> " + cmd)];
    FixedRepliesOpenWithNewline(Route(cmd), address);
    assert echoed[..|echoed| - 1] + [Plain("")] == buf + [Plain("")];
    SessionOnBlankLine(buf, text);
    assert Split(text, '\n') == [[]] + Split(text[1..], '\n');
    assert !Contains([], LinkMarker);
    assert Rendered(text)[0] == LinkLine([]) == Plain("");
    assert |"> " + cmd| > 0;
  }

  /** The input that shows it: `help` leaves a blank line where `> help` was. */
  lemma HelpLosesItsEcho(buf: seq<Line>, address: string, net: Services)
    ensures Route("help") == ShowHelp
    ensures |AfterCommand(buf, "help", address, net)| > |buf|
    ensures AfterCommand(buf, "help", address, net)[|buf|] == Plain("")
  {
    assert ' ' !in "help";
    SplitAfterPiece("help", [], ' ');
    assert "help" + [] == "help";
    assert Split([], ' ') == [[]];
    assert Split("help", ' ') == ["help"];
    assert ToLower("help") == "help";
    FixedReplyOverwritesEcho(buf, "help", address, net);
  }

  /**
   * With the intended fix, every command but `clear` keeps its echo right
   * after the earlier transcript.
   */
  lemma {:induction false} IntendedKeepsEcho(buf: seq<Line>, cmd: string, address: string, net: Services)
    requires !Route(cmd).ClearTerminal?
    ensures |IntendedAfterCommand(buf, cmd, address, net)| > |buf|
    ensures IntendedAfterCommand(buf, cmd, address, net)[..|buf| + 1] == buf + [Plain("> " + cmd)]
    ensures Fixed(Route(cmd)) ==>
      IntendedAfterCommand(buf, cmd, address, net) == buf + [Plain("> " + cmd)] + Rendered(StaticReply(Route(cmd), address))
  {
    var a := Route(cmd);
    var echoed := buf + [Plain("> " + cmd)];
    if Fixed(a) {
      var below := echoed + [Plain("")];
      FixedRepliesOpenWithNewline(a, address);
      assert below[..|below| - 1] == echoed;
      SessionOnBlankLine(echoed, StaticReply(a, address));
    } else if a.AskAI? {
      ChatTranscript(buf, cmd, address, net);
    } else {
      RequestTranscript(buf, cmd, address, net);
    }
  }

  // ---------------------------------------------------------------------
  // The terminal component

  class Terminal {
    var output: seq<Line>
    var isTyping: bool
    var typingIndex: int
    var address: string
    var showImage: bool

    /** The initial state: the welcome lines, idle, no contract address yet. */
    constructor()
      ensures output == Plains(Welcome)
      ensures !isTyping && typingIndex == -1
      ensures address == "" && !showImage
    {
      output := Plains(Welcome);
      isTyping := false;
      typingIndex := -1;
      address := "";
      showImage := false;
    }

    /** `clearOutput`: no lines are left and the image is hidden. */
    method ClearOutput()
      modifies this`output, this`showImage
      ensures output == [] && !showImage
    {
      output := [];
      showImage := false;
    }

    /** Appends the blank line a progress notice or a reply is typed into. */
    method OpenLine()
      modifies this`output
      ensures output == old(output) + [Plain("")]
    {
      output := output + [Plain("")];
    }

    /** Replaces the last line by a blank one. */
    method BlankLastLine()
      requires output != []
      modifies this`output
      ensures output == old(output)[..|old(output)| - 1] + [Plain("")]
    {
      output := output[..|output| - 1] + [Plain("")];
    }

    /** Drops the last line. */
    method DropLastLine()
      requires output != []
      modifies this`output
      ensures output == old(output)[..|old(output)| - 1]
    {
      output := output[..|output| - 1];
    }

    /** One `typeChar` update of the transcript. */
    method RevealStep(c: char)
      requires Typable(output)
      modifies this`output
      ensures output == Step(old(output), c)
    {
      var last := output[|output| - 1];
      if c == '\n' {
        output := output[..|output| - 1] + [last, Plain("")];
      } else {
        output := output[..|output| - 1] + [Plain(last.text + [c])];
      }
    }

    /**
     * `typeResponse`: reveal the reply character by character, then map the
     * lines holding a link. The typing flag is raised for the session and
     * lowered at its end.
     */
    method TypeResponse(response: string)
      requires Typable(output)
      modifies this`output, this`isTyping, this`typingIndex
      ensures output == Session(old(output), response)
      ensures !isTyping && typingIndex == -1
    {
      isTyping := true;
      typingIndex := 0;
      var index := 0;
      while index < |response|
        invariant 0 <= index <= |response|
        invariant Typable(output)
        invariant Reveal(output, response[index..]) == Reveal(old(output), response)
      {
        assert response[index..][1..] == response[index + 1..];
        RevealStep(response[index]);
        index := index + 1;
      }
      isTyping := false;
      typingIndex := -1;
      if Contains(response, LinkMarker) {
        var updated := Rendered(response);
        var n := |updated|;
        output := (if n <= |output| then output[..|output| - n] else []) + updated;
      }
    }

    /** `chatWithAI`: a second waiting line, then the reply or the apology. */
    method ChatWithAI(chat: Option<string>)
      requires Typable(output)
      modifies this`output, this`isTyping, this`typingIndex
      ensures output == AfterChat(old(output), chat)
      ensures !isTyping && typingIndex == -1
    {
      NoticesAreSingleLines();
      ShowProgress(ThinkingText);
      match chat {
        case Some(reply) =>
          BlankLastLine();
          TypeResponse(reply);
        case None =>
          DropLastLine();
          TypeResponse(ApologyText);
          var buf := old(output);
          SingleLineSession(buf[..|buf| - 1], buf[|buf| - 1].text, ApologyText);
          assert buf == buf[..|buf| - 1] + [Plain(buf[|buf| - 1].text)];
      }
    }

    /**
     * `processCommand(cmd)`: echo the line, then act on the command token,
     * with the table replies typed below the echo; `net` stands for the
     * replies the awaited requests produce.
     */
    method ProcessCommand(cmd: string, net: Services)
      requires !isTyping
      modifies this`output, this`isTyping, this`typingIndex, this`showImage
      ensures output == IntendedAfterCommand(old(output), cmd, address, net)
      ensures !isTyping
      ensures typingIndex == if Route(cmd).ClearTerminal? then old(typingIndex) else -1
      ensures showImage == (old(showImage) && !Route(cmd).ClearTerminal?)
    {
      output := output + [Plain("> " + cmd)];
      var a := Route(cmd);
      if Fixed(a) {
        FixedRepliesOpenWithNewline(a, address);
      }
      Dispatch(a, Response(a, cmd, address, net), net.chat);
    }

    /**
     * The `switch` of `processCommand` and the closing `if (response)`, given
     * the `response` it computes (which depends on the action alone); a table
     * command first opens the line its reply is typed into.
     */
    method Dispatch(a: Action, response: string, chat: Option<string>)
      requires output != [] && !isTyping
      modifies this`output, this`isTyping, this`typingIndex, this`showImage
      ensures output == IntendedAfterAction(old(output), a, response, chat)
      ensures !isTyping
      ensures typingIndex == if a.ClearTerminal? || (Fixed(a) && response == "") then old(typingIndex) else -1
      ensures showImage == (old(showImage) && !a.ClearTerminal?)
    {
      match a {
        case LookupAccount(_) =>
          ProgressIsOneLine(a);
          ShowProgress(FetchingAccountText);
          Answer(response);
        case ScanIssuer(_) =>
          ProgressIsOneLine(a);
          ShowProgress(FetchingTokenText);
          Answer(response);
        case ImplicitScan(_) =>
          ProgressIsOneLine(a);
          ShowProgress(ScanningText);
          Answer(response);
        case ClearTerminal =>
          ClearOutput();
        case AskAI(_) =>
          Ask(chat);
        case _ =>
          OpenLine();
          Answer(response);
      }
    }

    /** The default branch's `typeResponse("🤔 Thinking...")` and `await chatWithAI(cmd)`. */
    method Ask(chat: Option<string>)
      modifies this`output, this`isTyping, this`typingIndex
      ensures output == AfterAsking(old(output), chat)
      ensures !isTyping && typingIndex == -1
    {
      NoticesAreSingleLines();
      ShowProgress(ThinkingEmojiText);
      ChatWithAI(chat);
    }

    /** Opens a blank line and types a progress notice into it. */
    method ShowProgress(notice: string)
      requires SingleLine(notice)
      modifies this`output, this`isTyping, this`typingIndex
      ensures output == old(output) + [Plain(notice)]
      ensures !isTyping && typingIndex == -1
    {
      OpenLine();
      TypeResponse(notice);
      NoticeAppendsLine(old(output), notice);
    }

    /** The closing `if (response)` of `processCommand`: blank the last line and type the reply. */
    method Answer(response: string)
      requires output != []
      modifies this`output, this`isTyping, this`typingIndex
      ensures output == Answered(old(output), response)
      ensures isTyping == (old(isTyping) && response == "")
      ensures typingIndex == if response == "" then old(typingIndex) else -1
    {
      if response != "" {
        BlankLastLine();
        TypeResponse(response);
      }
    }
  }
}
