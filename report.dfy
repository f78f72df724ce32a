/**
 * The aggregator and report builder of the lotto generator: every bet of the
 * form is expanded and formatted, the pair count and the cost are summed, and
 * the lines are joined into one text with a footer.
 *
 * The clock reading, the application version and the locale's rendering of
 * the total cost come from outside the generator; here they are the
 * parameters `timestamp`, `version` (empty when there is none) and
 * `costText`. `Split` reads the finished text back into lines, the way a
 * consumer of the report sees it.
 */
module Report {
  import opened Expander
  import opened Formatter

  /** One bet as the form supplies it. */
  datatype Combination = Combination(num1: int, num2: int, amount: int, buffer: int, isRambolito: bool)

  /** The two sums `calculateTotalCost` returns. */
  datatype Totals = Totals(totalCombinations: int, totalCost: int)

  /** The pairs a bet expands to. */
  function Pairs(c: Combination): seq<Pair> {
    Expansion(c.num1, c.num2, c.buffer, c.isRambolito)
  }

  /** The source's `generateOutputForCombination`: one ticket line per pair. */
  function OutputForCombination(c: Combination): seq<string> {
    var pairs := Pairs(c);
    seq(|pairs|, k requires 0 <= k < |pairs| => FormatCombination(pairs[k].n1, pairs[k].n2, c.amount, c.isRambolito))
  }

  /** Number of pairs over all bets. */
  function TotalCount(cs: seq<Combination>): nat {
    if cs == [] then 0 else TotalCount(cs[..|cs| - 1]) + |Pairs(cs[|cs| - 1])|
  }

  /** Number of pairs times the amount, over all bets. */
  function TotalCost(cs: seq<Combination>): int {
    if cs == [] then 0 else TotalCost(cs[..|cs| - 1]) + |Pairs(cs[|cs| - 1])| * cs[|cs| - 1].amount
  }

  /** The ticket lines of all bets, bet after bet. */
  function AllLines(cs: seq<Combination>): seq<string> {
    if cs == [] then [] else AllLines(cs[..|cs| - 1]) + OutputForCombination(cs[|cs| - 1])
  }

  const Divider: string := "-------"

  /** The line naming the tool, present only when a version is known. */
  function VersionLine(version: string): (line: string)
    ensures line != "" <==> version != ""
  {
    if version != "" then "PCSO 2D Lotto Generator v" + version else ""
  }

  /** The summary that follows the ticket lines. */
  function Footer(totals: Totals, timestamp: string, version: string, costText: int -> string): (lines: seq<string>)
    ensures |lines| == if version != "" then 6 else 5
  {
    ["", Divider,
     "Total Combinations: " + IntToString(totals.totalCombinations),
     "Total Amount: \U{20B1}" + costText(totals.totalCost),
     "Generated: " + timestamp]
    + (if VersionLine(version) != "" then [VersionLine(version)] else [])
  }

  /** All lines of the report, before they are joined. */
  function ReportLines(cs: seq<Combination>, timestamp: string, version: string, costText: int -> string): seq<string> {
    AllLines(cs) + Footer(Totals(TotalCount(cs), TotalCost(cs)), timestamp, version, costText)
  }

  /** JavaScript's `lines.join('\n')`. */
  function Join(lines: seq<string>): string {
    if lines == [] then ""
    else if |lines| == 1 then lines[0]
    else Join(lines[..|lines| - 1]) + "\n" + lines[|lines| - 1]
  }

  /** JavaScript's `text.split('\n')`. */
  function Split(text: string): (lines: seq<string>)
    ensures |lines| >= 1
  {
    if text == [] then [""]
    else
      var before := Split(text[..|text| - 1]);
      var c := text[|text| - 1];
      if c == '\n' then before + [""]
      else before[..|before| - 1] + [before[|before| - 1] + [c]]
  }

  /** No line of `lines` holds a line break. */
  predicate SingleLines(lines: seq<string>) {
    forall i :: 0 <= i < |lines| ==> '\n' !in lines[i]
  }

  // ---------------------------------------------------------------------------
  // The loop programs
  // ---------------------------------------------------------------------------

  /** The source's `calculateTotalCost`. */
  method CalculateTotalCost(cs: seq<Combination>) returns (totals: Totals)
    ensures totals == Totals(TotalCount(cs), TotalCost(cs))
  {
    var totalCombinations := 0;
    var totalCost := 0;
    for k := 0 to |cs|
      invariant totalCombinations == TotalCount(cs[..k])
      invariant totalCost == TotalCost(cs[..k])
    {
      var c := cs[k];
      var buffered := GenerateBufferedCombinations(c.num1, c.num2, c.buffer, c.isRambolito);
      var count := |buffered|;
      assert cs[..k + 1][..k] == cs[..k];
      totalCombinations := totalCombinations + count;
      totalCost := totalCost + count * c.amount;
    }
    assert cs[..|cs|] == cs;
    totals := Totals(totalCombinations, totalCost);
  }

  /** The source's `generateCompleteOutput`, with the clock, the version and the
      cost rendering passed in. */
  method GenerateCompleteOutput(cs: seq<Combination>, timestamp: string, version: string, costText: int -> string)
    returns (output: string)
    ensures output == Join(ReportLines(cs, timestamp, version, costText))
  {
    var allLines: seq<string> := [];
    for k := 0 to |cs|
      invariant allLines == AllLines(cs[..k])
    {
      var lines := OutputForCombination(cs[k]);
      assert cs[..k + 1][..k] == cs[..k];
      allLines := allLines + lines;
    }
    assert cs[..|cs|] == cs;

    var totals := CalculateTotalCost(cs);
    var versionLine := VersionLine(version);

    allLines := allLines + [""];
    allLines := allLines + [Divider];
    allLines := allLines + ["Total Combinations: " + IntToString(totals.totalCombinations)];
    allLines := allLines + ["Total Amount: \U{20B1}" + costText(totals.totalCost)];
    allLines := allLines + ["Generated: " + timestamp];
    if versionLine != "" {
      allLines := allLines + [versionLine];
    }
    assert allLines == ReportLines(cs, timestamp, version, costText);
    output := Join(allLines);
  }

  // ---------------------------------------------------------------------------
  // Properties
  // ---------------------------------------------------------------------------

  /** One ticket line per pair, no line twice for a bet on game numbers, and
      exactly the lines of the pairs of the bet's reference expansion. */
  lemma OutputForCombinationLines(c: Combination)
    ensures |OutputForCombination(c)| == |Pairs(c)|
    ensures InRange(c.num1) && InRange(c.num2) ==>
      forall i, j :: 0 <= i < j < |OutputForCombination(c)| ==> OutputForCombination(c)[i] != OutputForCombination(c)[j]
    ensures forall p :: InExpansion(p, c.num1, c.num2, c.buffer, c.isRambolito) ==>
      FormatCombination(p.n1, p.n2, c.amount, c.isRambolito) in OutputForCombination(c)
    ensures forall l :: l in OutputForCombination(c) ==>
      exists p :: (InExpansion(p, c.num1, c.num2, c.buffer, c.isRambolito)
                   && l == FormatCombination(p.n1, p.n2, c.amount, c.isRambolito))
  {
    var pairs := Pairs(c);
    var lines := OutputForCombination(c);
    ExpansionMembers(c.num1, c.num2, c.buffer, c.isRambolito);
    if InRange(c.num1) && InRange(c.num2) {
      ExpansionNoDuplicates(c.num1, c.num2, c.buffer, c.isRambolito);
      ExpansionInRange(c.num1, c.num2, c.buffer, c.isRambolito);
      forall i, j | 0 <= i < j < |lines|
        ensures lines[i] != lines[j]
      {
        FormatInjective(pairs[i].n1, pairs[i].n2, c.amount, c.isRambolito, pairs[j].n1, pairs[j].n2, c.amount, c.isRambolito);
      }
    }
    forall p | InExpansion(p, c.num1, c.num2, c.buffer, c.isRambolito)
      ensures FormatCombination(p.n1, p.n2, c.amount, c.isRambolito) in lines
    {
      var k :| 0 <= k < |pairs| && pairs[k] == p;
      assert lines[k] == FormatCombination(p.n1, p.n2, c.amount, c.isRambolito);
    }
    forall l | l in lines
      ensures exists p :: (InExpansion(p, c.num1, c.num2, c.buffer, c.isRambolito)
                           && l == FormatCombination(p.n1, p.n2, c.amount, c.isRambolito))
    {
      var k :| 0 <= k < |lines| && lines[k] == l;
      assert pairs[k] in pairs;
      assert l == FormatCombination(pairs[k].n1, pairs[k].n2, c.amount, c.isRambolito);
    }
  }

  /** The pair count of the totals is the number of ticket lines. */
  lemma {:induction false} TotalsMatchLines(cs: seq<Combination>)
    ensures TotalCount(cs) == |AllLines(cs)|
  {
    if cs != [] {
      TotalsMatchLines(cs[..|cs| - 1]);
    }
  }

  /** When every bet is for the same amount, the cost is that amount per
      ticket line. */
  lemma {:induction false} UniformCost(cs: seq<Combination>, amount: int)
    requires forall i :: 0 <= i < |cs| ==> cs[i].amount == amount
    ensures TotalCost(cs) == amount * TotalCount(cs)
    ensures TotalCost(cs) == amount * |AllLines(cs)|
  {
    TotalsMatchLines(cs);
    if cs != [] {
      var init := cs[..|cs| - 1];
      assert forall i :: 0 <= i < |init| ==> init[i].amount == amount by {
        forall i | 0 <= i < |init| ensures init[i].amount == amount {
          assert init[i] == cs[i];
        }
      }
      UniformCost(init, amount);
      var k := |Pairs(cs[|cs| - 1])|;
      assert cs[|cs| - 1].amount == amount;
      assert TotalCost(cs) == TotalCost(init) + k * amount;
      assert TotalCount(cs) == TotalCount(init) + k;
      assert amount * (TotalCount(init) + k) == amount * TotalCount(init) + k * amount;
    }
  }

  /** Totals add up over a list of bets split in two. */
  lemma {:induction false} TotalsAppend(xs: seq<Combination>, ys: seq<Combination>)
    ensures TotalCount(xs + ys) == TotalCount(xs) + TotalCount(ys)
    ensures TotalCost(xs + ys) == TotalCost(xs) + TotalCost(ys)
    decreases |ys|
  {
    if ys == [] {
      assert xs + ys == xs;
    } else {
      var init := ys[..|ys| - 1];
      var both := xs + ys;
      assert both[..|both| - 1] == xs + init;
      assert both[|both| - 1] == ys[|ys| - 1];
      TotalsAppend(xs, init);
    }
  }

  /** No ticket line contains a line break. */
  lemma {:induction false} AllLinesSingleLine(cs: seq<Combination>)
    ensures SingleLines(AllLines(cs))
  {
    if cs != [] {
      AllLinesSingleLine(cs[..|cs| - 1]);
      var c := cs[|cs| - 1];
      var pairs := Pairs(c);
      var lines := OutputForCombination(c);
      forall k | 0 <= k < |pairs|
        ensures '\n' !in lines[k]
      {
        FormatNoNewline(pairs[k].n1, pairs[k].n2, c.amount, c.isRambolito);
      }
      assert AllLines(cs) == AllLines(cs[..|cs| - 1]) + lines;
    }
  }

  /** Text without a line break is one line. */
  lemma {:induction false} SplitSingleLine(l: string)
    requires '\n' !in l
    ensures Split(l) == [l]
    decreases |l|
  {
    if l != [] {
      assert '\n' !in l[..|l| - 1];
      SplitSingleLine(l[..|l| - 1]);
      assert l[..|l| - 1] + [l[|l| - 1]] == l;
    }
  }

  /** A line break followed by a line without one adds exactly that line. */
  lemma {:induction false} SplitAppendLine(text: string, l: string)
    requires '\n' !in l
    ensures Split(text + "\n" + l) == Split(text) + [l]
    decreases |l|
  {
    var s := text + "\n" + l;
    if l == [] {
      assert s[..|s| - 1] == text;
    } else {
      var init := l[..|l| - 1];
      assert '\n' !in init;
      assert s[..|s| - 1] == text + "\n" + init;
      SplitAppendLine(text, init);
      assert init + [l[|l| - 1]] == l;
    }
  }

  /** Splitting the joined lines gives the lines back, when none of them holds a
      line break. */
  lemma {:induction false} SplitJoin(lines: seq<string>)
    requires |lines| >= 1
    requires SingleLines(lines)
    ensures Split(Join(lines)) == lines
    decreases |lines|
  {
    if |lines| == 1 {
      SplitSingleLine(lines[0]);
    } else {
      var init := lines[..|lines| - 1];
      var last := lines[|lines| - 1];
      assert SingleLines(init);
      SplitJoin(init);
      SplitAppendLine(Join(init), last);
      assert Join(lines) == Join(init) + "\n" + last;
      assert init + [last] == lines;
    }
  }

  /** The report's lines before joining: exactly as many ticket lines as the
      total pair count, then the footer in its fixed order. */
  lemma ReportLinesShape(cs: seq<Combination>, timestamp: string, version: string, costText: int -> string)
    ensures var lines := ReportLines(cs, timestamp, version, costText);
      var n := TotalCount(cs);
      && |lines| == n + (if version != "" then 6 else 5)
      && lines[..n] == AllLines(cs)
      && lines[n] == ""
      && lines[n + 1] == Divider
      && lines[n + 2] == "Total Combinations: " + IntToString(n)
      && lines[n + 3] == "Total Amount: \U{20B1}" + costText(TotalCost(cs))
      && lines[n + 4] == "Generated: " + timestamp
      && (version != "" ==> lines[n + 5] == "PCSO 2D Lotto Generator v" + version)
  {
    var all := ReportLines(cs, timestamp, version, costText);
    var n := TotalCount(cs);
    var body := AllLines(cs);
    var footer := Footer(Totals(n, TotalCost(cs)), timestamp, version, costText);
    TotalsMatchLines(cs);
    assert all == body + footer;
    assert |body| == n;
    assert |footer| == if version != "" then 6 else 5;
    assert all[..n] == body;
    assert all[n..] == footer;
    assert footer[0] == "" && footer[1] == Divider;
    assert footer[2] == "Total Combinations: " + IntToString(n);
    assert footer[3] == "Total Amount: \U{20B1}" + costText(TotalCost(cs));
    assert footer[4] == "Generated: " + timestamp;
    assert version != "" ==> footer[5] == VersionLine(version);
  }

  /** Every line of the report is a single line of text when the injected
      strings are. */
  lemma ReportLinesSingleLine(cs: seq<Combination>, timestamp: string, version: string, costText: int -> string)
    requires '\n' !in timestamp && '\n' !in version && '\n' !in costText(TotalCost(cs))
    ensures SingleLines(ReportLines(cs, timestamp, version, costText))
  {
    var body := AllLines(cs);
    var footer := Footer(Totals(TotalCount(cs), TotalCost(cs)), timestamp, version, costText);
    AllLinesSingleLine(cs);
    FooterSingleLine(Totals(TotalCount(cs), TotalCost(cs)), timestamp, version, costText);
    assert ReportLines(cs, timestamp, version, costText) == body + footer;
  }

  /** The footer lines hold no line break when the injected strings hold none. */
  lemma FooterSingleLine(totals: Totals, timestamp: string, version: string, costText: int -> string)
    requires '\n' !in timestamp && '\n' !in version && '\n' !in costText(totals.totalCost)
    ensures SingleLines(Footer(totals, timestamp, version, costText))
  {
    var countLine := "Total Combinations: " + IntToString(totals.totalCombinations);
    var costLine := "Total Amount: \U{20B1}" + costText(totals.totalCost);
    var timeLine := "Generated: " + timestamp;
    NoNewlineInInt(totals.totalCombinations);
    assert '\n' !in countLine && '\n' !in costLine && '\n' !in timeLine;
    assert '\n' !in VersionLine(version);
  }

  /** The report as its reader sees it: split at its line breaks, the text
      gives back exactly the lines of `ReportLinesShape`, so the number of lines
      before the footer is the total pair count. */
  lemma ReportShape(cs: seq<Combination>, timestamp: string, version: string, costText: int -> string)
    requires '\n' !in timestamp && '\n' !in version && '\n' !in costText(TotalCost(cs))
    ensures var lines := Split(Join(ReportLines(cs, timestamp, version, costText)));
      var n := TotalCount(cs);
      && |lines| == n + (if version != "" then 6 else 5)
      && lines[..n] == AllLines(cs)
      && lines[n] == "" && lines[n + 1] == Divider
      && lines[n + 2] == "Total Combinations: " + IntToString(n)
  {
    ReportLinesShape(cs, timestamp, version, costText);
    ReportLinesSingleLine(cs, timestamp, version, costText);
    SplitJoin(ReportLines(cs, timestamp, version, costText));
  }

  /** A single exact bet without buffer gives one line and costs its amount. */
  lemma SingleBetExample(timestamp: string, costText: int -> string)
    ensures ReportLines([Combination(1, 2, 20, 0, false)], timestamp, "", costText) ==
      ["01 02 20", "", Divider, "Total Combinations: 1", "Total Amount: \U{20B1}" + costText(20), "Generated: " + timestamp]
  {
    var cs := [Combination(1, 2, 20, 0, false)];
    assert cs[..0] == [];
    ExactZeroBuffer(1, 2);
    FormatExample();
    assert OutputForCombination(cs[0]) == ["01 02 20"];
    assert AllLines(cs) == ["01 02 20"];
    assert TotalCount(cs) == 1 && TotalCost(cs) == 20;
    assert IntToString(1) == "1";
    assert "Total Combinations: " + "1" == "Total Combinations: 1";
    assert Footer(Totals(1, 20), timestamp, "", costText) ==
      ["", Divider, "Total Combinations: 1", "Total Amount: \U{20B1}" + costText(20), "Generated: " + timestamp];
  }

  /** Two bets, one of five pairs at 20 and one of a single pair at 50, total
      six pairs and 150. */
  lemma TwoBetsExample()
    ensures var cs := [Combination(7, 26, 20, 1, true), Combination(1, 2, 50, 0, false)];
      TotalCount(cs) == 6 && TotalCost(cs) == 150
  {
    var cs := [Combination(7, 26, 20, 1, true), Combination(1, 2, 50, 0, false)];
    assert cs[..1][..0] == [] && cs[..1] == [cs[0]];
    RambolitoExample();
    ExactZeroBuffer(1, 2);
  }
}
