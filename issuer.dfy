/**
 * The issuer/token aggregation of `fetchTokenInfo` with the two ledger round
 * trips taken as inputs: the checks on the replies, the decoding of four
 * account-flag bits, the fold that groups trust lines by currency, and the
 * "Features" summary of each group.
 */
module Issuer {
  import opened Wrappers
  import opened Strings
  import opened Address
  import opened Replies

  // ---------------------------------------------------------------------
  // Account flags

  /** The four security settings the report shows. */
  datatype SecurityFlags =
    SecurityFlags(requireAuth: bool, freezeEnabled: bool, globalFreeze: bool, noFreeze: bool)

  /** The masks tested against the account's 32-bit `Flags` word. */
  const RequireAuthMask: bv32 := 0x0010_0000
  const FreezeEnabledMask: bv32 := 0x0020_0000
  const GlobalFreezeMask: bv32 := 0x0040_0000
  const NoFreezeMask: bv32 := 0x0080_0000

  /** The flag word that has exactly the bits of the set settings. */
  function EncodeFlags(s: SecurityFlags): bv32 {
    (if s.requireAuth then RequireAuthMask else 0)
    | (if s.freezeEnabled then FreezeEnabledMask else 0)
    | (if s.globalFreeze then GlobalFreezeMask else 0)
    | (if s.noFreeze then NoFreezeMask else 0)
  }

  /**
   * `(Flags & mask) !== 0` for each of the four masks: the decoded settings
   * are exactly bits 20..23 of the word, and no other bit matters.
   */
  function DecodeFlags(flags: bv32): (s: SecurityFlags)
    ensures EncodeFlags(s) == flags & 0x00F0_0000
    ensures s.requireAuth <==> (flags >> 20) & 1 == 1
    ensures s.freezeEnabled <==> (flags >> 21) & 1 == 1
    ensures s.globalFreeze <==> (flags >> 22) & 1 == 1
    ensures s.noFreeze <==> (flags >> 23) & 1 == 1
  {
    SecurityFlags(
      flags & RequireAuthMask != 0,
      flags & FreezeEnabledMask != 0,
      flags & GlobalFreezeMask != 0,
      flags & NoFreezeMask != 0)
  }

  /** Decoding the word built from some settings gives those settings back. */
  lemma DecodeEncode(s: SecurityFlags)
    ensures DecodeFlags(EncodeFlags(s)) == s
  {
  }

  // ---------------------------------------------------------------------
  // Trust lines and their grouping

  /**
   * One record of the `account_lines` reply. An absent quality is 0, an
   * absent limit is "", an absent boolean is false: the fold treats those
   * exactly like the falsy values they stand for. `balance` is the number
   * `parseFloat` reads from the balance text.
   */
  datatype TrustLine = TrustLine(
    currency: string,
    balance: real,
    qualityIn: int,
    qualityOut: int,
    limit: string,
    noRipple: bool,
    freeze: bool,
    authorized: bool)

  /** A quality as the report shows it: `quality || "N/A"`. */
  datatype Quality = NotAvailable | Rate(value: int)

  /** One entry of the fold's accumulator: a currency and its totals. */
  datatype Token = Token(
    currency: string,
    balance: real,
    trustlines: nat,
    qualityIn: Quality,
    qualityOut: Quality,
    noRipple: bool,
    freeze: bool,
    authorized: bool,
    limit: string)

  function ShownQuality(q: int): (r: Quality)
    ensures r == NotAvailable <==> q == 0
  {
    if q == 0 then NotAvailable else Rate(q)
  }

  function ShownLimit(limit: string): (r: string)
    ensures r == "No limit" <==> limit == "" || limit == "No limit"
  {
    if limit == "" then "No limit" else limit
  }

  /** The accumulator entry created by the first line of a currency. */
  function FirstEntry(line: TrustLine): Token {
    Token(line.currency, line.balance, 1,
      ShownQuality(line.qualityIn), ShownQuality(line.qualityOut),
      line.noRipple, line.freeze, line.authorized, ShownLimit(line.limit))
  }

  function CurrenciesOf(lines: seq<TrustLine>): (cs: seq<string>)
    ensures |cs| == |lines|
    ensures forall i :: 0 <= i < |lines| ==> cs[i] == lines[i].currency
  {
    seq(|lines|, i requires 0 <= i < |lines| => lines[i].currency)
  }

  /** The distinct currencies of `lines`, in order of first appearance. */
  function Distinct(lines: seq<TrustLine>): (ds: seq<string>)
    ensures forall c :: c in ds <==> c in CurrenciesOf(lines)
    ensures forall i, j :: 0 <= i < j < |ds| ==> ds[i] != ds[j]
  {
    if lines == [] then []
    else
      var pre := lines[..|lines| - 1];
      var c := lines[|lines| - 1].currency;
      assert CurrenciesOf(lines) == CurrenciesOf(pre) + [c];
      var ds := Distinct(pre);
      if c in ds then ds else ds + [c]
  }

  /** How many lines have currency `c`. */
  function CountOf(lines: seq<TrustLine>, c: string): (n: nat)
    ensures c !in CurrenciesOf(lines) ==> n == 0
    ensures n <= |lines|
  {
    if lines == [] then 0
    else
      var pre := lines[..|lines| - 1];
      assert CurrenciesOf(lines) == CurrenciesOf(pre) + [lines[|lines| - 1].currency];
      CountOf(pre, c) + (if lines[|lines| - 1].currency == c then 1 else 0)
  }

  /** The sum of the balances of the lines with currency `c`. */
  function BalanceOf(lines: seq<TrustLine>, c: string): (b: real)
    ensures c !in CurrenciesOf(lines) ==> b == 0.0
  {
    if lines == [] then 0.0
    else
      var pre := lines[..|lines| - 1];
      assert CurrenciesOf(lines) == CurrenciesOf(pre) + [lines[|lines| - 1].currency];
      BalanceOf(pre, c) + (if lines[|lines| - 1].currency == c then lines[|lines| - 1].balance else 0.0)
  }

  /** The position of the first line with currency `c`. */
  function FirstIndex(lines: seq<TrustLine>, c: string): (k: nat)
    requires c in CurrenciesOf(lines)
    ensures k < |lines| && lines[k].currency == c
    ensures forall j :: 0 <= j < k ==> lines[j].currency != c
  {
    if lines[0].currency == c then 0
    else
      assert c in CurrenciesOf(lines[1..]) by {
        var i :| 0 <= i < |lines| && CurrenciesOf(lines)[i] == c;
        assert CurrenciesOf(lines[1..])[i - 1] == c;
      }
      1 + FirstIndex(lines[1..], c)
  }

  /**
   * The entry the fold ends with for currency `c`: the first line's
   * qualities, limit and features, the number of lines of `c` and the sum
   * of their balances.
   */
  function Summary(lines: seq<TrustLine>, c: string): Token
    requires c in CurrenciesOf(lines)
  {
    FirstEntry(lines[FirstIndex(lines, c)])
      .(balance := BalanceOf(lines, c), trustlines := CountOf(lines, c))
  }

  /** `Object.entries` of the accumulator: one summary per currency, in discovery order. */
  function Grouped(lines: seq<TrustLine>): (ts: seq<Token>)
    ensures |ts| == |Distinct(lines)|
  {
    var ds := Distinct(lines);
    seq(|ds|, i requires 0 <= i < |ds| => Summary(lines, ds[i]))
  }

  /** How the summary of `c` changes when one more line is folded in. */
  lemma SummaryExtend(pre: seq<TrustLine>, x: TrustLine, c: string)
    requires c in CurrenciesOf(pre + [x])
    ensures c !in CurrenciesOf(pre) ==> c == x.currency && Summary(pre + [x], c) == FirstEntry(x)
    ensures c in CurrenciesOf(pre) ==>
      var t := Summary(pre, c);
      Summary(pre + [x], c) ==
        if x.currency == c then Absorb(t, x) else t
  {
    var lines := pre + [x];
    CurrenciesAppend(pre, x);
    assert lines[..|lines| - 1] == pre;
    if c in CurrenciesOf(pre) {
      FirstIndexSeen(pre, x, c);
    } else {
      FirstIndexNew(pre, x);
    }
  }

  lemma FirstIndexSeen(pre: seq<TrustLine>, x: TrustLine, c: string)
    requires c in CurrenciesOf(pre)
    ensures c in CurrenciesOf(pre + [x]) && FirstIndex(pre + [x], c) == FirstIndex(pre, c)
  {
    CurrenciesAppend(pre, x);
    var k := FirstIndex(pre, c);
    assert (pre + [x])[k] == pre[k];
  }

  lemma FirstIndexNew(pre: seq<TrustLine>, x: TrustLine)
    requires x.currency !in CurrenciesOf(pre)
    ensures x.currency in CurrenciesOf(pre + [x]) && FirstIndex(pre + [x], x.currency) == |pre|
  {
    CurrenciesAppend(pre, x);
  }

  /** The fold's update of an existing entry: one more line and its balance added. */
  function Absorb(t: Token, line: TrustLine): (u: Token)
    ensures u.trustlines == t.trustlines + 1 && u.balance == t.balance + line.balance
    ensures u.(trustlines := t.trustlines, balance := t.balance) == t
  {
    t.(trustlines := t.trustlines + 1, balance := t.balance + line.balance)
  }

  /** Each key of the accumulator is a currency of `lines` and maps to its summary. */
  ghost predicate Entries(lines: seq<TrustLine>, acc: map<string, Token>) {
    forall c :: c in acc ==> c in CurrenciesOf(lines) && acc[c] == Summary(lines, c)
  }

  /**
   * What the fold's accumulator holds after `lines`: the keys in insertion
   * order are the distinct currencies, and each key maps to its summary.
   */
  ghost predicate Folded(lines: seq<TrustLine>, acc: map<string, Token>, order: seq<string>) {
    && order == Distinct(lines)
    && (forall c :: c in acc <==> c in order)
    && Entries(lines, acc)
  }

  /** One step of the fold keeps the accumulator in step with the lines folded so far. */
  lemma FoldStep(pre: seq<TrustLine>, x: TrustLine, acc: map<string, Token>, order: seq<string>)
    requires Folded(pre, acc, order)
    ensures x.currency !in acc ==>
      Folded(pre + [x], acc[x.currency := FirstEntry(x)], order + [x.currency])
    ensures x.currency in acc ==>
      Folded(pre + [x], acc[x.currency := Absorb(acc[x.currency], x)], order)
  {
    if x.currency !in acc {
      FoldNewCurrency(pre, x, acc, order);
    } else {
      FoldSeenCurrency(pre, x, acc, order);
    }
  }

  /** Folding a line only extends the distinct currencies with a new one. */
  lemma DistinctExtend(pre: seq<TrustLine>, x: TrustLine)
    ensures Distinct(pre + [x]) ==
      if x.currency in Distinct(pre) then Distinct(pre) else Distinct(pre) + [x.currency]
  {
    var lines := pre + [x];
    assert lines[..|lines| - 1] == pre;
  }

  lemma CurrenciesAppend(pre: seq<TrustLine>, x: TrustLine)
    ensures CurrenciesOf(pre + [x]) == CurrenciesOf(pre) + [x.currency]
  {
  }

  /** The first line of a currency opens its entry and appends it to the key order. */
  lemma FoldNewCurrency(pre: seq<TrustLine>, x: TrustLine, acc: map<string, Token>, order: seq<string>)
    requires Folded(pre, acc, order) && x.currency !in acc
    ensures Folded(pre + [x], acc[x.currency := FirstEntry(x)], order + [x.currency])
  {
    assert Distinct(pre + [x]) == order + [x.currency] by {
      assert x.currency !in order;
      DistinctExtend(pre, x);
    }
    NewEntries(pre, x, acc);
  }

  lemma NewEntries(pre: seq<TrustLine>, x: TrustLine, acc: map<string, Token>)
    requires x.currency !in CurrenciesOf(pre) && Entries(pre, acc)
    ensures Entries(pre + [x], acc[x.currency := FirstEntry(x)])
  {
    var acc' := acc[x.currency := FirstEntry(x)];
    forall c | c in acc'
      ensures c in CurrenciesOf(pre + [x]) && acc'[c] == Summary(pre + [x], c)
    {
      CurrenciesAppend(pre, x);
      SummaryExtend(pre, x, c);
    }
  }

  /** A later line of a currency updates its entry and keeps the key order. */
  lemma FoldSeenCurrency(pre: seq<TrustLine>, x: TrustLine, acc: map<string, Token>, order: seq<string>)
    requires Folded(pre, acc, order) && x.currency in acc
    ensures Folded(pre + [x], acc[x.currency := Absorb(acc[x.currency], x)], order)
  {
    assert Distinct(pre + [x]) == order by {
      assert x.currency in order;
      DistinctExtend(pre, x);
    }
    SeenEntries(pre, x, acc);
  }

  lemma SeenEntries(pre: seq<TrustLine>, x: TrustLine, acc: map<string, Token>)
    requires x.currency in acc && Entries(pre, acc)
    ensures Entries(pre + [x], acc[x.currency := Absorb(acc[x.currency], x)])
  {
    var acc' := acc[x.currency := Absorb(acc[x.currency], x)];
    forall c | c in acc'
      ensures c in CurrenciesOf(pre + [x]) && acc'[c] == Summary(pre + [x], c)
    {
      SeenEntry(pre, x, acc, c);
    }
  }

  lemma SeenEntry(pre: seq<TrustLine>, x: TrustLine, acc: map<string, Token>, c: string)
    requires c in acc && x.currency in acc && Entries(pre, acc)
    ensures
      var acc' := acc[x.currency := Absorb(acc[x.currency], x)];
      c in CurrenciesOf(pre + [x]) && acc'[c] == Summary(pre + [x], c)
  {
    CurrenciesAppend(pre, x);
    SummaryExtend(pre, x, c);
  }

  /**
   * The `lines.reduce(...)` fold: a dictionary keyed by currency, updated
   * in place, read back in key-insertion order.
   */
  method GroupByCurrency(lines: seq<TrustLine>) returns (tokens: seq<Token>)
    ensures tokens == Grouped(lines)
  {
    var acc: map<string, Token> := map[];
    var order: seq<string> := [];
    for i := 0 to |lines|
      invariant Folded(lines[..i], acc, order)
    {
      var line := lines[i];
      assert lines[..i + 1] == lines[..i] + [line];
      FoldStep(lines[..i], line, acc, order);
      if line.currency !in acc {
        acc := acc[line.currency := FirstEntry(line)];
        order := order + [line.currency];
      } else {
        acc := acc[line.currency := Absorb(acc[line.currency], line)];
      }
    }
    assert lines[..|lines|] == lines;
    tokens := seq(|order|, k requires 0 <= k < |order| => acc[order[k]]);
  }

  // ---------------------------------------------------------------------
  // Totals over the groups

  function SumCounts(lines: seq<TrustLine>, ds: seq<string>): nat {
    if ds == [] then 0 else SumCounts(lines, ds[..|ds| - 1]) + CountOf(lines, ds[|ds| - 1])
  }

  function SumBalances(lines: seq<TrustLine>, ds: seq<string>): real {
    if ds == [] then 0.0 else SumBalances(lines, ds[..|ds| - 1]) + BalanceOf(lines, ds[|ds| - 1])
  }

  function TotalBalance(lines: seq<TrustLine>): real {
    if lines == [] then 0.0 else TotalBalance(lines[..|lines| - 1]) + lines[|lines| - 1].balance
  }

  lemma {:induction false} SumCountsExtend(pre: seq<TrustLine>, x: TrustLine, ds: seq<string>)
    requires forall i, j :: 0 <= i < j < |ds| ==> ds[i] != ds[j]
    ensures SumCounts(pre + [x], ds) == SumCounts(pre, ds) + (if x.currency in ds then 1 else 0)
  {
    var lines := pre + [x];
    assert lines[..|lines| - 1] == pre;
    if ds != [] {
      var front := ds[..|ds| - 1];
      assert ds == front + [ds[|ds| - 1]];
      SumCountsExtend(pre, x, front);
    }
  }

  lemma {:induction false} SumBalancesExtend(pre: seq<TrustLine>, x: TrustLine, ds: seq<string>)
    requires forall i, j :: 0 <= i < j < |ds| ==> ds[i] != ds[j]
    ensures SumBalances(pre + [x], ds) == SumBalances(pre, ds) + (if x.currency in ds then x.balance else 0.0)
  {
    var lines := pre + [x];
    assert lines[..|lines| - 1] == pre;
    if ds != [] {
      var front := ds[..|ds| - 1];
      assert ds == front + [ds[|ds| - 1]];
      SumBalancesExtend(pre, x, front);
    }
  }

  /** Every line is counted in exactly one group: the counts add up to the number of lines. */
  lemma {:induction false} CountsCoverAllLines(lines: seq<TrustLine>)
    ensures SumCounts(lines, Distinct(lines)) == |lines|
  {
    if lines != [] {
      var pre := lines[..|lines| - 1];
      var x := lines[|lines| - 1];
      assert lines == pre + [x];
      assert CurrenciesOf(lines) == CurrenciesOf(pre) + [x.currency];
      CountsCoverAllLines(pre);
      var ds := Distinct(pre);
      SumCountsExtend(pre, x, ds);
      if x.currency !in ds {
        assert Distinct(lines) == ds + [x.currency];
        assert (ds + [x.currency])[..|ds|] == ds;
      }
    }
  }

  /** Balances are added, never dropped or duplicated: the group totals add up to the total balance. */
  lemma {:induction false} BalancesCoverAllLines(lines: seq<TrustLine>)
    ensures SumBalances(lines, Distinct(lines)) == TotalBalance(lines)
  {
    if lines != [] {
      var pre := lines[..|lines| - 1];
      var x := lines[|lines| - 1];
      assert lines == pre + [x];
      assert CurrenciesOf(lines) == CurrenciesOf(pre) + [x.currency];
      BalancesCoverAllLines(pre);
      var ds := Distinct(pre);
      SumBalancesExtend(pre, x, ds);
      assert lines[..|lines| - 1] == pre;
      assert TotalBalance(lines) == TotalBalance(pre) + x.balance;
      if x.currency !in ds {
        var c := x.currency;
        assert Distinct(lines) == ds + [c];
        assert (ds + [c])[..|ds|] == ds;
        assert SumBalances(lines, ds + [c]) == SumBalances(lines, ds) + BalanceOf(lines, c);
        assert BalanceOf(lines, c) == BalanceOf(pre, c) + x.balance;
        assert BalanceOf(pre, c) == 0.0;
      } else {
        assert Distinct(lines) == ds;
      }
    }
  }

  /** The groups come in the order in which their currencies first appear. */
  lemma {:induction false} DiscoveryOrder(lines: seq<TrustLine>, i: nat, j: nat)
    requires i < j < |Distinct(lines)|
    ensures FirstIndex(lines, Distinct(lines)[i]) < FirstIndex(lines, Distinct(lines)[j])
  {
    var pre := lines[..|lines| - 1];
    var x := lines[|lines| - 1];
    FrontAndLast(lines);
    DistinctExtend(pre, x);
    var ds := Distinct(pre);
    if j < |ds| {
      DiscoveryOrder(pre, i, j);
      FirstIndexSeen(pre, x, ds[i]);
      FirstIndexSeen(pre, x, ds[j]);
    } else {
      FirstIndexNew(pre, x);
      FirstIndexSeen(pre, x, ds[i]);
    }
  }

  // ---------------------------------------------------------------------
  // The aggregation

  /** What the `account_lines` reply holds under `result`. */
  datatype LinesResult = NoResult | NoLines | Lines(lines: seq<TrustLine>)

  /** The `account_lines` reply; an empty `error` or `errorMessage` means the field is absent. */
  datatype LinesReply = LinesReply(error: string, errorMessage: string, result: LinesResult)

  /** The `account_data` of the `account_info` reply. */
  datatype AccountData = AccountData(balance: int, sequence: int, previousTxnId: string, flags: bv32)

  /** One WebSocket round trip: its first reply, or the connection's error. */
  datatype RoundTrip<T> = Received(reply: T) | TransportFailed

  datatype Outcome =
    | InvalidFormat
      /** any fault caught by the `catch`: a transport error or a reply missing a field read */
    | Failed
    | LedgerError(message: string)
    | NoTokens
    | Report(address: string, account: AccountData, security: SecurityFlags, tokens: seq<Token>)

  /**
   * `fetchTokenInfo` without the I/O. `account` is `None` when the
   * `account_info` reply has no `result.account_data`.
   */
  function Aggregate(address: string, lines: RoundTrip<LinesReply>, account: RoundTrip<Option<AccountData>>): Outcome {
    if !Matches(address) then InvalidFormat
    else if lines.TransportFailed? || account.TransportFailed? then Failed
    else
      var l := lines.reply;
      if l.error != "" then LedgerError(if l.errorMessage != "" then l.errorMessage else l.error)
      else match l.result
        case NoResult => Failed
        case NoLines => NoTokens
        case Lines(ls) =>
          if ls == [] then NoTokens
          else match account.reply
            case None => Failed
            case Some(a) => Report(address, a, DecodeFlags(a.flags), Grouped(ls))
  }

  /**
   * A report is produced exactly when the address is well formed, both
   * round trips delivered, the lines reply has no error and at least one
   * line, and the account data is there; it then holds the decoded flags
   * and the grouped lines. Every other case is an error outcome: no partial
   * report exists.
   */
  lemma ReportIsAllOrNothing(address: string, lines: RoundTrip<LinesReply>, account: RoundTrip<Option<AccountData>>)
    ensures Aggregate(address, lines, account).Report? <==>
      && WellFormed(address)
      && lines.Received? && account.Received?
      && lines.reply.error == ""
      && lines.reply.result.Lines? && lines.reply.result.lines != []
      && account.reply.Some?
    ensures Aggregate(address, lines, account).Report? ==>
      && Aggregate(address, lines, account).security == DecodeFlags(account.reply.value.flags)
      && Aggregate(address, lines, account).tokens == Grouped(lines.reply.result.lines)
  {
  }

  /** The text `fetchTokenInfo` returns for each outcome other than a report. */
  function ErrorText(o: Outcome): (text: Option<string>)
    ensures text.None? <==> o.Report?
  {
    match o
    case InvalidFormat => Some(InvalidIssuerText)
    case Failed => Some(IssuerFailedText)
    case LedgerError(m) => Some(LedgerErrorText(m))
    case NoTokens => Some(NoTokensText)
    case Report(_, _, _, _) => None
  }

  // ---------------------------------------------------------------------
  // Features

  /** `[no_ripple && "No Ripple", freeze && "Frozen", authorized && "Authorized"].filter(Boolean)` */
  function FeatureNames(t: Token): seq<string> {
    (if t.noRipple then ["No Ripple"] else [])
    + (if t.freeze then ["Frozen"] else [])
    + (if t.authorized then ["Authorized"] else [])
  }

  /** `....join(", ") || "None"` */
  function Features(t: Token): (s: string)
    ensures s == "None" <==> !t.noRipple && !t.freeze && !t.authorized
  {
    var joined := Join(FeatureNames(t), ", ");
    if joined == "" then "None" else joined
  }

  /** The eight possible features texts, spelled out. */
  function FeaturesTable(noRipple: bool, freeze: bool, authorized: bool): string {
    match (noRipple, freeze, authorized)
    case (false, false, false) => "None"
    case (true, false, false) => "No Ripple"
    case (false, true, false) => "Frozen"
    case (false, false, true) => "Authorized"
    case (true, true, false) => "No Ripple, Frozen"
    case (true, false, true) => "No Ripple, Authorized"
    case (false, true, true) => "Frozen, Authorized"
    case (true, true, true) => "No Ripple, Frozen, Authorized"
  }

  /** The filter-and-join agrees with the table, in all eight cases. */
  lemma FeaturesAsTable(t: Token)
    ensures Features(t) == FeaturesTable(t.noRipple, t.freeze, t.authorized)
  {
    if t.noRipple {
      RippleFeaturesAsTable(t);
    } else {
      OtherFeaturesAsTable(t);
    }
  }

  /** The four cases of `FeaturesAsTable` with "No Ripple" set. */
  lemma RippleFeaturesAsTable(t: Token)
    requires t.noRipple
    ensures Features(t) == FeaturesTable(t.noRipple, t.freeze, t.authorized)
  {
    var sep := ", ";
    match (t.freeze, t.authorized)
    case (false, false) =>
    case (true, false) =>
      assert FeatureNames(t) == ["No Ripple", "Frozen"];
      JoinPair("No Ripple", "Frozen", sep);
      assert "No Ripple" + sep + "Frozen" == "No Ripple, Frozen";
    case (false, true) =>
      assert FeatureNames(t) == ["No Ripple", "Authorized"];
      JoinPair("No Ripple", "Authorized", sep);
      assert "No Ripple" + sep + "Authorized" == "No Ripple, Authorized";
    case (true, true) =>
      assert FeatureNames(t) == ["No Ripple", "Frozen", "Authorized"];
      JoinTriple("No Ripple", "Frozen", "Authorized", sep);
      assert "No Ripple" + sep + "Frozen" + sep + "Authorized" == "No Ripple, Frozen, Authorized";
  }

  /** The four cases of `FeaturesAsTable` without "No Ripple". */
  lemma OtherFeaturesAsTable(t: Token)
    requires !t.noRipple
    ensures Features(t) == FeaturesTable(t.noRipple, t.freeze, t.authorized)
  {
    var sep := ", ";
    if t.freeze && t.authorized {
      assert FeatureNames(t) == ["Frozen", "Authorized"];
      JoinPair("Frozen", "Authorized", sep);
      assert "Frozen" + sep + "Authorized" == "Frozen, Authorized";
    }
  }

  /** The features text determines the three features: nothing is lost in the join. */
  lemma FeaturesDetermineFlags(t: Token, u: Token)
    requires Features(t) == Features(u)
    ensures t.noRipple == u.noRipple && t.freeze == u.freeze && t.authorized == u.authorized
  {
    FeaturesAsTable(t);
    FeaturesAsTable(u);
  }
}
