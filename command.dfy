/**
 * How `processCommand` turns one submitted line into something to do:
 * split the line at single spaces, lower-case the first token, look it up in
 * the command table, and otherwise fall back to an implicit issuer scan (when
 * the whole line is an address) or to the conversational-AI query.
 */
module Command {
  import opened Wrappers
  import opened Strings
  import opened Address

  /** The command token (lower-cased) and the rest of the line. */
  datatype Invocation = Invocation(command: string, parameter: string)

  /**
   * `parts = cmd.split(" ")`, `command = parts[0].toLowerCase()`,
   * `parameter = parts.slice(1).join(" ")`. Nothing is trimmed.
   */
  function Parse(cmd: string): Invocation {
    var parts := Split(cmd, ' ');
    Invocation(ToLower(parts[0]), Join(parts[1..], " "))
  }

  /** What the dispatcher does with a line. */
  datatype Action =
    | ShowHelp
    | ShowContractAddress
    | ShowTelegram
    | ShowTwitter
    | AddressInfoUsage
      /** `fetchXRPInfo(parameter)`, the simple account lookup */
    | LookupAccount(address: string)
    | ScanUsage
      /** `fetchTokenInfo(parameter)`, the issuer aggregation */
    | ScanIssuer(address: string)
    | ClearTerminal
      /** `fetchTokenInfo(cmd)` on the whole raw line */
    | ImplicitScan(address: string)
      /** `chatWithAI(cmd)` on the whole raw line */
    | AskAI(query: string)

  /** The tokens of the command table. */
  const Commands: set<string> :=
    {"help", "address", "ca", "telegram", "twitter", "addressinfo", "scan", "clear", "cls"}

  /** The cases of the `switch (command)` of `processCommand`. */
  function TableAction(inv: Invocation): Action
    requires inv.command in Commands
  {
    var c := inv.command;
    if c == "help" then ShowHelp
    else if c == "address" || c == "ca" then ShowContractAddress
    else if c == "telegram" then ShowTelegram
    else if c == "twitter" then ShowTwitter
    else if c == "addressinfo" then
      (if inv.parameter == "" then AddressInfoUsage else LookupAccount(inv.parameter))
    else if c == "scan" then
      (if inv.parameter == "" then ScanUsage else ScanIssuer(inv.parameter))
    else ClearTerminal
  }

  /** The `switch (command)` with its `default` branch, which looks at the whole line. */
  function Route(cmd: string): Action {
    var inv := Parse(cmd);
    if inv.command in Commands then TableAction(inv)
    else if Matches(cmd) then ImplicitScan(cmd)
    else AskAI(cmd)
  }

  /**
   * The address an action finally hands to a ledger service. The account
   * lookup and the issuer aggregation both check the format first and answer
   * with an error text, without any request, when it does not match.
   */
  function RequestedAddress(a: Action): Option<string> {
    match a
    case LookupAccount(p) => if Matches(p) then Some(p) else None
    case ScanIssuer(p) => if Matches(p) then Some(p) else None
    case ImplicitScan(p) => if Matches(p) then Some(p) else None
    case _ => None
  }

  // ---------------------------------------------------------------------
  // Lemmas

  /**
   * The command is the lower-cased text before the first space and the
   * parameter is everything after it; without a space the whole line is
   * the command and the parameter is empty. So the parameter is empty
   * exactly when there is no space or the first space ends the line.
   */
  lemma {:induction false} ParseAtFirstSpace(cmd: string)
    ensures ' ' !in cmd ==> Parse(cmd) == Invocation(ToLower(cmd), "")
    ensures ' ' in cmd ==>
      var k := IndexOf(cmd, ' ');
      && Parse(cmd) == Invocation(ToLower(cmd[..k]), cmd[k + 1..])
      && cmd == cmd[..k] + " " + Parse(cmd).parameter
    ensures Parse(cmd).parameter == "" <==> ' ' !in cmd || IndexOf(cmd, ' ') == |cmd| - 1
  {
    var parts := Split(cmd, ' ');
    JoinSplit(cmd, ' ');
    if |parts| == 1 {
      assert Join(parts, " ") == parts[0];
      assert cmd == parts[0];
      assert parts[1..] == [];
    } else {
      var rest := Join(parts[1..], " ");
      assert cmd == parts[0] + " " + rest;
      assert cmd[|parts[0]|] == ' ';
      assert cmd[..|parts[0]|] == parts[0];
      assert ' ' in cmd;
      assert IndexOf(cmd, ' ') == |parts[0]|;
      assert cmd[|parts[0]| + 1..] == rest;
    }
  }

  /** A line that is an address never names a table command, so it is scanned. */
  lemma {:induction false} AddressLineIsScanned(cmd: string)
    requires Matches(cmd)
    ensures Route(cmd) == ImplicitScan(cmd)
    ensures RequestedAddress(Route(cmd)) == Some(cmd)
  {
    AddressHasNoSpace(cmd);
    ParseAtFirstSpace(cmd);
    assert |Parse(cmd).command| >= 26;
  }

  /**
   * The fallback is taken exactly for tokens outside the table; it scans the
   * whole line iff the line is an address, and asks the AI otherwise.
   */
  lemma FallbackPolicy(cmd: string)
    ensures Parse(cmd).command in Commands <==> !Route(cmd).ImplicitScan? && !Route(cmd).AskAI?
    ensures Route(cmd).ImplicitScan? ==> Route(cmd) == ImplicitScan(cmd) && WellFormed(cmd)
    ensures Route(cmd).AskAI? ==> Route(cmd) == AskAI(cmd) && !WellFormed(cmd)
    ensures Route(cmd).AskAI? ==> RequestedAddress(Route(cmd)) == None
  {
  }

  /** `addressinfo` or `scan` without a parameter shows the usage and fetches nothing. */
  lemma MissingParameterShowsUsage(cmd: string)
    requires Parse(cmd).command == "addressinfo" || Parse(cmd).command == "scan"
    requires Parse(cmd).parameter == ""
    ensures Parse(cmd).command == "addressinfo" ==> Route(cmd) == AddressInfoUsage
    ensures Parse(cmd).command == "scan" ==> Route(cmd) == ScanUsage
    ensures RequestedAddress(Route(cmd)) == None
  {
  }

  /** The table tokens are matched case-insensitively on the first token. */
  lemma {:induction false} CommandCaseIgnored(cmd: string)
    requires ' ' !in cmd && ToLower(cmd) in Commands
    ensures Route(cmd) == Route(ToLower(cmd))
  {
    var low := ToLower(cmd);
    assert Parse(cmd) == Parse(low) && Parse(cmd).command == low by {
      ParseAtFirstSpace(cmd);
      assert ' ' !in low by {
        forall i | 0 <= i < |low| ensures low[i] != ' ' {
          assert cmd[i] != ' ';
        }
      }
      ParseAtFirstSpace(low);
      assert ToLower(low) == low;
    }
    SameTableInvocation(cmd, low);
  }

  /** Two lines with the same table invocation do the same thing. */
  lemma SameTableInvocation(a: string, b: string)
    requires Parse(a) == Parse(b) && Parse(a).command in Commands
    ensures Route(a) == Route(b)
  {
  }
}
