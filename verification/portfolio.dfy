/** The stock portfolio tracker: resolve a price for each ticker the user
    types, append one holding per accepted ticker to the portfolio, and
    summarise the portfolio as rows of `(ticker, quantity, price, value)`
    with a running total. Console answers are parameters; a number the user
    types arrives already parsed, as `Some(x)`, or as `None` when `float()`
    would reject it. Quantities and prices are exact reals. */
module Portfolio {
  import opened Wrappers
  import opened Text

  /** One portfolio entry, the `{"ticker", "quantity", "price"}` dictionary. */
  datatype Holding = Holding(ticker: string, quantity: real, price: real)

  /** One line of the summary: `(ticker, quantity, price, value)`. */
  datatype Row = Row(ticker: string, quantity: real, price: real, value: real)

  /** The answers the user gives in one pass of the collection loop of
      `main`, in the order the loop asks for them. The last two are read only
      when the ticker is not in the price table. */
  datatype EntryInput = EntryInput(
    tickerLine: string,
    quantity: Option<real>,
    manualAnswer: string,
    manualPrice: Option<real>)

  /** What one pass of the collection loop does. */
  datatype EntryStep = Finish | Skip | Append(holding: Holding)

  /** What `main` ends with once collection is over: an early exit on an
      empty portfolio, or the summary it computed. */
  datatype Report = NoStocks | Summary(rows: seq<Row>, total: real)

  /** `HARD_CODED_PRICES`. */
  const HardCodedPrices: map<string, real> :=
    map["AAPL" := 180.0, "TSLA" := 250.0, "GOOG" := 2750.0, "MSFT" := 330.0, "AMZN" := 130.0]

  // ---------------------------------------------------------------------------
  // Price resolution and the collection loop body

  /** The confirmation test `answer.strip().lower() == "y"`. */
  predicate IsYes(answer: string)
  {
    Lower(Strip(answer)) == "y"
  }

  /** `ticker.strip().upper()`: the form in which a ticker is looked up. */
  function NormalizeTicker(line: string): (t: string)
    ensures |t| == |Strip(line)|
    ensures t == [] <==> forall j :: 0 <= j < |line| ==> IsSpace(line[j])
    ensures forall i :: 0 <= i < |t| ==> !IsLowerLetter(t[i])
    ensures forall i :: 0 <= i < |t| ==> LowerChar(t[i]) == LowerChar(Strip(line)[i])
  {
    StripIsEmpty(line);
    Upper(Strip(line))
  }

  /** The price of a ticker: the table's price when the table has the
      ticker; otherwise the manual price when the user confirms with "y"
      (`None` when that price did not parse); otherwise no price, and the
      ticker is skipped. */
  function ResolvePrice(ticker: string, manualAnswer: string, manualPrice: Option<real>): Option<real>
  {
    if ticker in HardCodedPrices then Some(HardCodedPrices[ticker])
    else if IsYes(manualAnswer) then manualPrice
    else None
  }

  /** Where the price of a holding entered in pass `e` came from: the table,
      when the table has the ticker; otherwise a confirmed manual price that
      parsed. */
  predicate PricedFrom(h: Holding, e: EntryInput)
  {
    if h.ticker in HardCodedPrices then h.price == HardCodedPrices[h.ticker]
    else IsYes(e.manualAnswer) && e.manualPrice == Some(h.price)
  }

  /** The body of the collection loop in `main` (main.py lines 144-171). A
      blank ticker ends collection; an unparsable quantity, a declined
      manual price or an unparsable manual price skip the ticker; otherwise
      one holding is appended, with the normalised ticker. */
  function Step(e: EntryInput): (s: EntryStep)
    ensures s == Finish <==> NormalizeTicker(e.tickerLine) == []
    ensures s.Append? <==>
      && NormalizeTicker(e.tickerLine) != []
      && e.quantity.Some?
      && (NormalizeTicker(e.tickerLine) in HardCodedPrices
          || (IsYes(e.manualAnswer) && e.manualPrice.Some?))
    ensures s.Append? ==>
      && s.holding.ticker == NormalizeTicker(e.tickerLine)
      && Some(s.holding.quantity) == e.quantity
      && PricedFrom(s.holding, e)
  {
    var ticker := NormalizeTicker(e.tickerLine);
    if ticker == [] then Finish
    else if e.quantity.None? then Skip
    else match ResolvePrice(ticker, e.manualAnswer, e.manualPrice)
      case None => Skip
      case Some(price) => Append(Holding(ticker, e.quantity.value, price))
  }

  /** The portfolio the collection loop builds from a sequence of passes:
      the appended holdings, in input order, up to the first blank ticker. */
  function Collected(inputs: seq<EntryInput>): seq<Holding>
  {
    if inputs == [] then []
    else match Step(inputs[0])
      case Finish => []
      case Skip => Collected(inputs[1..])
      case Append(h) => [h] + Collected(inputs[1..])
  }

  /** A holding the model accepts: a non-empty upper-case ticker, and the
      table's price whenever the table has that ticker. */
  predicate WellFormed(h: Holding)
  {
    && h.ticker != []
    && (forall i :: 0 <= i < |h.ticker| ==> !IsLowerLetter(h.ticker[i]))
    && (h.ticker in HardCodedPrices ==> h.price == HardCodedPrices[h.ticker])
  }

  // ---------------------------------------------------------------------------
  // Lemmas about collection

  /** Every collected holding is well formed and comes from one pass whose
      step appended it, priced from the table or from that pass's confirmed
      manual price. */
  lemma {:induction false} CollectedWellFormed(inputs: seq<EntryInput>)
    ensures |Collected(inputs)| <= |inputs|
    ensures forall h :: h in Collected(inputs) ==>
      WellFormed(h) &&
      exists i :: 0 <= i < |inputs| && Step(inputs[i]) == Append(h) && PricedFrom(h, inputs[i])
  {
    if inputs != [] {
      CollectedWellFormed(inputs[1..]);
      forall h | h in Collected(inputs)
        ensures WellFormed(h) &&
          exists i :: 0 <= i < |inputs| && Step(inputs[i]) == Append(h) && PricedFrom(h, inputs[i])
      {
        if Step(inputs[0]) == Append(h) {
        } else {
          var i :| 0 <= i < |inputs[1..]| && Step(inputs[1..][i]) == Append(h);
          assert Step(inputs[i + 1]) == Append(h);
        }
      }
    }
  }

  /** The append-only step: when no pass before it ended collection, one
      more pass leaves the portfolio untouched or adds one holding at the
      end, keeping every earlier entry in place. */
  lemma {:induction false} CollectedSnoc(inputs: seq<EntryInput>, e: EntryInput)
    requires forall i :: 0 <= i < |inputs| ==> Step(inputs[i]) != Finish
    ensures Collected(inputs + [e]) ==
      Collected(inputs) + (if Step(e).Append? then [Step(e).holding] else [])
  {
    if inputs == [] {
      assert [e][1..] == [];
    } else {
      assert (inputs + [e])[1..] == inputs[1..] + [e];
      CollectedSnoc(inputs[1..], e);
    }
  }

  /** Nothing after the first blank ticker reaches the portfolio. */
  lemma {:induction false} CollectedStopsAtFinish(inputs: seq<EntryInput>, k: nat)
    requires k < |inputs| && Step(inputs[k]) == Finish
    ensures Collected(inputs) == Collected(inputs[..k])
  {
    if k > 0 {
      CollectedStopsAtFinish(inputs[1..], k - 1);
      assert inputs[1..][..k - 1] == inputs[..k][1..];
    }
  }

  // ---------------------------------------------------------------------------
  // Summary values

  function Value(h: Holding): real
  {
    h.quantity * h.price
  }

  /** The summary row of one holding. */
  function RowOf(h: Holding): Row
  {
    Row(h.ticker, h.quantity, h.price, Value(h))
  }

  /** The sum of the holdings' values, first holding outermost. */
  function TotalValue(portfolio: seq<Holding>): real
  {
    if portfolio == [] then 0.0 else Value(portfolio[0]) + TotalValue(portfolio[1..])
  }

  /** The running total of `summarize`: a left fold of the row values,
      starting at 0. */
  function RunningTotal(rows: seq<Row>): real
  {
    if rows == [] then 0.0 else RunningTotal(rows[..|rows| - 1]) + rows[|rows| - 1].value
  }

  lemma {:induction false} TotalValueSnoc(portfolio: seq<Holding>, h: Holding)
    ensures TotalValue(portfolio + [h]) == TotalValue(portfolio) + Value(h)
  {
    if portfolio == [] {
      assert [h][1..] == [];
    } else {
      assert (portfolio + [h])[1..] == portfolio[1..] + [h];
      TotalValueSnoc(portfolio[1..], h);
    }
  }

  /** Folding the rows left to right gives the sum of the holdings' values. */
  lemma {:induction false} RunningTotalIsTotalValue(portfolio: seq<Holding>, rows: seq<Row>)
    requires |rows| == |portfolio|
    requires forall i :: 0 <= i < |rows| ==> rows[i] == RowOf(portfolio[i])
    ensures RunningTotal(rows) == TotalValue(portfolio)
  {
    if rows != [] {
      var n := |rows| - 1;
      RunningTotalIsTotalValue(portfolio[..n], rows[..n]);
      TotalValueSnoc(portfolio[..n], portfolio[n]);
      assert portfolio[..n] + [portfolio[n]] == portfolio;
    }
  }

  /** A portfolio of non-negative quantities and prices is worth a
      non-negative amount. */
  lemma {:induction false} TotalValueNonNegative(portfolio: seq<Holding>)
    requires forall i :: 0 <= i < |portfolio| ==> portfolio[i].quantity >= 0.0 && portfolio[i].price >= 0.0
    ensures TotalValue(portfolio) >= 0.0
  {
    if portfolio != [] {
      TotalValueNonNegative(portfolio[1..]);
    }
  }

  /** The worked example: 10 AAPL at 180 and 2 TSLA at 250 are worth 2300. */
  lemma SummaryExample()
    ensures TotalValue([Holding("AAPL", 10.0, 180.0), Holding("TSLA", 2.0, 250.0)]) == 2300.0
  {
  }

  // ---------------------------------------------------------------------------
  // Operations

  /** `prompt_nonempty` over a finite sequence of answers: the first answer
      that is not blank once stripped, or `None` when every answer is blank. */
  method PromptNonempty(answers: seq<string>) returns (r: Option<string>)
    ensures r.Some? ==>
      && r.value != []
      && exists k :: 0 <= k < |answers| && r.value == Strip(answers[k])
           && forall j :: 0 <= j < k ==> Strip(answers[j]) == []
    ensures r.None? <==> forall k :: 0 <= k < |answers| ==> Strip(answers[k]) == []
  {
    for k := 0 to |answers|
      invariant forall j :: 0 <= j < k ==> Strip(answers[j]) == []
    {
      var val := Strip(answers[k]);
      if val != [] {
        return Some(val);
      }
    }
    return None;
  }

  /** `prompt_float` over a finite sequence of parsed answers: the first one
      that parsed, or `None` when none did. */
  method PromptFloat(answers: seq<Option<real>>) returns (r: Option<real>)
    ensures r.Some? ==>
      exists k :: 0 <= k < |answers| && answers[k] == r
        && forall j :: 0 <= j < k ==> answers[j].None?
    ensures r.None? <==> forall k :: 0 <= k < |answers| ==> answers[k].None?
  {
    for k := 0 to |answers|
      invariant forall j :: 0 <= j < k ==> answers[j].None?
    {
      if answers[k].Some? {
        return answers[k];
      }
    }
    return None;
  }

  /** The collection loop of `main` over a finite sequence of passes: the
      portfolio list starts empty and each pass appends at most one holding.
      Collection ends at the first blank ticker, or when the passes run out. */
  method CollectHoldings(inputs: seq<EntryInput>) returns (portfolio: seq<Holding>)
    ensures portfolio == Collected(inputs)
  {
    portfolio := [];
    var i := 0;
    while i < |inputs|
      invariant 0 <= i <= |inputs|
      invariant portfolio + Collected(inputs[i..]) == Collected(inputs)
    {
      var e := inputs[i];
      assert inputs[i..][1..] == inputs[i + 1..];
      var ticker := NormalizeTicker(e.tickerLine);
      if ticker == [] {
        break;
      }
      i := i + 1;
      if e.quantity.None? {
        continue;
      }
      var price := ResolvePrice(ticker, e.manualAnswer, e.manualPrice);
      if price.None? {
        continue;
      }
      portfolio := portfolio + [Holding(ticker, e.quantity.value, price.value)];
    }
  }

  /** `summarize` without the printing: one row per holding, in portfolio
      order, and the running total of the row values. */
  method Summarize(portfolio: seq<Holding>) returns (rows: seq<Row>, total: real)
    ensures |rows| == |portfolio|
    ensures forall i :: 0 <= i < |portfolio| ==> rows[i] == RowOf(portfolio[i])
    ensures total == RunningTotal(rows)
    ensures total == TotalValue(portfolio)
  {
    total := 0.0;
    rows := [];
    for i := 0 to |portfolio|
      invariant |rows| == i
      invariant forall k :: 0 <= k < i ==> rows[k] == RowOf(portfolio[k])
      invariant total == RunningTotal(rows)
    {
      var entry := portfolio[i];
      var value := entry.quantity * entry.price;
      var before := rows;
      rows := rows + [Row(entry.ticker, entry.quantity, entry.price, value)];
      assert rows[..|rows| - 1] == before;
      total := total + value;
    }
    RunningTotalIsTotalValue(portfolio, rows);
  }

  /** `main` without the console and the file export: collect the holdings,
      exit early when there are none, and otherwise summarise them. */
  method Run(inputs: seq<EntryInput>) returns (report: Report)
    ensures report == NoStocks <==> Collected(inputs) == []
    ensures report.Summary? ==>
      && |report.rows| == |Collected(inputs)|
      && (forall i :: 0 <= i < |report.rows| ==> report.rows[i] == RowOf(Collected(inputs)[i]))
      && report.total == TotalValue(Collected(inputs))
  {
    var portfolio := CollectHoldings(inputs);
    if portfolio == [] {
      return NoStocks;
    }
    var rows, total := Summarize(portfolio);
    return Summary(rows, total);
  }

  /** The list `add_stock` appends to in place. */
  class HoldingList {
    var holdings: seq<Holding>

    constructor ()
      ensures holdings == []
    {
      holdings := [];
    }
  }

  /** `add_stock`, given what its prompts return: `entered` is the answer of
      `prompt_nonempty`, never empty, and `quantity` and `manualPrice` the
      numbers `prompt_float` returns. The ticker is upper-cased and priced
      from the table or, on a "y", at the manual price; a declined ticker
      leaves the list as it was. The blank-ticker branch cannot be taken,
      so the result is always true. */
  method AddStock(portfolio: HoldingList, entered: string, quantity: real, manualAnswer: string, manualPrice: real)
    returns (more: bool)
    requires entered != []
    modifies portfolio
    ensures more
    ensures var ticker := Upper(entered);
      match ResolvePrice(ticker, manualAnswer, Some(manualPrice))
      case Some(p) => portfolio.holdings == old(portfolio.holdings) + [Holding(ticker, quantity, p)]
      case None => portfolio.holdings == old(portfolio.holdings)
  {
    var ticker := Upper(entered);
    if ticker == [] {
      return false;
    }
    var price;
    if ticker in HardCodedPrices {
      price := HardCodedPrices[ticker];
    } else if IsYes(manualAnswer) {
      price := manualPrice;
    } else {
      return true;
    }
    portfolio.holdings := portfolio.holdings + [Holding(ticker, quantity, price)];
    return true;
  }
}
