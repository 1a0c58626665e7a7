/** The exact-arithmetic oracle: a book of cash, shares and receivables, rebalanced by
    sells-first fills that round every posting to a hundred-millionth. */
module Ledger {
  import opened Basics
  import opened Rounding
  import opened Sorting

  const Q: real := 100000000.0

  /** A whole number of quanta. */
  predicate Posted(x: real) { (x * Q).Floor as real == x * Q }

  /** `_round_half_even` at the currency quantum. */
  function Post(x: real): (r: real)
    ensures Posted(r)
    ensures -0.5 <= (x - r) * Q <= 0.5
    ensures x >= 0.0 ==> r >= 0.0
  {
    PostUnits(x);
    RoundReal(x * Q) as real / Q
  }

  lemma {:induction false} PostUnits(x: real)
    ensures var r := RoundReal(x * Q) as real / Q;
      r * Q == RoundReal(x * Q) as real && Posted(r) && (x - r) * Q == x * Q - RoundReal(x * Q) as real
      && (x >= 0.0 ==> r >= 0.0)
  {
    hide RoundReal;
    var u := RoundReal(x * Q);
    assert (u as real).Floor == u;
  }

  /** Whole quanta are posted as they are. */
  lemma {:induction false} PostFixes(x: real)
    requires Posted(x)
    ensures Post(x) == x
  {
    hide RoundReal;
    var k := (x * Q).Floor;
    NearestIsUnique(x * Q, RoundReal(x * Q), k);
  }

  lemma {:induction false} PostedSum(x: real, y: real)
    requires Posted(x) && Posted(y)
    ensures Posted(x + y) && Posted(x - y)
  {
    var a, b := (x * Q).Floor, (y * Q).Floor;
    assert (x + y) * Q == (a + b) as real && (x - y) * Q == (a - b) as real;
    assert ((a + b) as real).Floor == a + b && ((a - b) as real).Floor == a - b;
  }

  lemma {:induction false} PostedMultiple(k: int, x: real, y: real)
    requires Posted(x) && y == k as real * x
    ensures Posted(y)
  {
    var a := (x * Q).Floor;
    assert y * Q == k as real * (x * Q) == (k * a) as real;
    assert ((k * a) as real).Floor == k * a;
  }

  // ------------------------------------------------------------------- valuation

  ghost function SumOver<T>(s: set<T>, f: T -> real): real {
    if s == {} then 0.0 else var x :| x in s; f(x) + SumOver(s - {x}, f)
  }

  /** The sum does not depend on the order of summation. */
  lemma {:induction false} SumPick<T>(s: set<T>, f: T -> real, x: T)
    requires x in s
    ensures SumOver(s, f) == f(x) + SumOver(s - {x}, f)
    decreases |s|
  {
    var y :| y in s && SumOver(s, f) == f(y) + SumOver(s - {y}, f);
    if y != x {
      SumPick(s - {y}, f, x);
      SumPick(s - {x}, f, y);
      assert s - {y} - {x} == s - {x} - {y};
    }
  }

  lemma {:induction false} SumEqual<T>(s: set<T>, f: T -> real, g: T -> real)
    requires forall x :: x in s ==> f(x) == g(x)
    ensures SumOver(s, f) == SumOver(s, g)
    decreases |s|
  {
    if s != {} {
      var x :| x in s;
      SumPick(s, f, x);
      SumPick(s, g, x);
      SumEqual(s - {x}, f, g);
    }
  }

  function Shares(positions: map<Id, real>, symbol: Id): real {
    if symbol in positions then positions[symbol] else 0.0
  }

  function Mark(marks: map<Id, real>, symbol: Id): real {
    if symbol in marks then marks[symbol] else 0.0
  }

  /** Every non-zero position has a mark. */
  predicate Marked(positions: map<Id, real>, marks: map<Id, real>) {
    forall s :: s in positions && positions[s] != 0.0 ==> s in marks
  }

  ghost function Holding(positions: map<Id, real>, marks: map<Id, real>): Id -> real {
    s => Shares(positions, s) * Mark(marks, s)
  }

  /** The marked value of the shares. */
  ghost function Worth(positions: map<Id, real>, marks: map<Id, real>): real {
    SumOver(positions.Keys, Holding(positions, marks))
  }

  datatype Book = Book(cash: real, positions: map<Id, real>, receivables: real)

  /** `_nav`. */
  ghost function Nav(b: Book, marks: map<Id, real>): real {
    b.cash + b.receivables + Worth(b.positions, marks)
  }

  /** Changing one position changes the worth by that position alone. */
  lemma {:induction false} WorthUpdate(positions: map<Id, real>, marks: map<Id, real>, symbol: Id, shares: real)
    ensures Worth(positions[symbol := shares], marks) ==
      Worth(positions, marks) + (shares - Shares(positions, symbol)) * Mark(marks, symbol)
  {
    hide SumOver;
    var after := positions[symbol := shares];
    var f, g := Holding(positions, marks), Holding(after, marks);
    var rest := positions.Keys - {symbol};
    assert after.Keys - {symbol} == rest;
    SumEqual(rest, f, g);
    SumPick(after.Keys, g, symbol);
    if symbol in positions {
      SumPick(positions.Keys, f, symbol);
    } else {
      assert rest == positions.Keys;
    }
    assert g(symbol) == shares * Mark(marks, symbol);
    assert f(symbol) == Shares(positions, symbol) * Mark(marks, symbol);
  }

  // ----------------------------------------------------------------------- fills

  datatype Trade = Trade(symbol: Id, delta: int, price: real)
  datatype Rates = Rates(cost: real, tax: real)

  function Times(x: real, y: real): real { x * y }
  function Magnitude(x: real): real { if x < 0.0 then -x else x }

  /** What one fill posts. */
  function Exact(t: Trade): real { Times(t.delta as real, t.price) }
  function Notional(t: Trade): real { Post(Exact(t)) }
  function Gross(t: Trade): real { Magnitude(Notional(t)) }
  function CostOf(r: Rates, t: Trade): real { Post(Times(r.cost, Gross(t))) }
  function TaxOf(r: Rates, t: Trade): real { if t.delta < 0 then Post(Times(r.tax, Gross(t))) else 0.0 }

  /** The cash a fill brings in. */
  function Flow(r: Rates, t: Trade): real { -Notional(t) - CostOf(r, t) - TaxOf(r, t) }

  /** The part of the notional lost to rounding. */
  function RoundingError(t: Trade): real { Exact(t) - Notional(t) }

  predicate ValidRates(r: Rates) { 0.0 <= r.cost < 1.0 && 0.0 < r.tax < 1.0 }

  lemma {:induction false} PostingsPosted(r: Rates, t: Trade)
    ensures Posted(Notional(t)) && Posted(Gross(t)) && Posted(CostOf(r, t)) && Posted(TaxOf(r, t)) && Posted(Flow(r, t))
  {
    hide Post;
    assert Posted(0.0);
    PostedSum(0.0, Notional(t));
    PostedSum(-Notional(t), CostOf(r, t));
    PostedSum(-Notional(t) - CostOf(r, t), TaxOf(r, t));
  }

  datatype Filled = Filled(book: Book, gross: real, cost: real, tax: real) | Short | Overdrawn

  function Fill(r: Rates, f: Filled, t: Trade): Filled
    requires f.Filled?
  {
    var shares := Shares(f.book.positions, t.symbol) + t.delta as real;
    if shares < 0.0 then Short
    else
      var cash := Post(f.book.cash - Notional(t) - CostOf(r, t) - TaxOf(r, t));
      if cash < 0.0 then Overdrawn
      else Filled(f.book.(cash := cash, positions := f.book.positions[t.symbol := shares]),
                  f.gross + Gross(t), f.cost + CostOf(r, t), f.tax + TaxOf(r, t))
  }

  /** The fills in the given order. */
  function FillAll(r: Rates, f: Filled, trades: seq<Trade>): Filled
    decreases |trades|
  {
    if !f.Filled? || trades == [] then f else FillAll(r, Fill(r, f, trades[0]), trades[1..])
  }

  function TradeKey(t: Trade): Key { (if t.delta < 0 then 0 else 1, t.symbol) }

  /** The checks before any fill: marks for what is held, one whole-share trade per symbol, at the
      mark. */
  predicate Tradable(b: Book, marks: map<Id, real>, trades: seq<Trade>) {
    && (forall s :: s in marks ==> marks[s] > 0.0)
    && Marked(b.positions, marks)
    && (forall i :: 0 <= i < |trades| ==>
          trades[i].delta != 0 && trades[i].symbol in marks && marks[trades[i].symbol] == trades[i].price)
    && (forall i, j :: 0 <= i < j < |trades| ==> trades[i].symbol != trades[j].symbol)
  }

  /** `_rebalance`: sells before buys, each by symbol. */
  function Rebalance(r: Rates, b: Book, marks: map<Id, real>, trades: seq<Trade>): Option<Filled> {
    if !Tradable(b, marks, trades) then None
    else
      var f := FillAll(r, Filled(b, 0.0, 0.0, 0.0), Sort(trades, TradeKey));
      if f.Filled? then Some(f) else None
  }

  lemma {:induction false} FillAllAppend(r: Rates, f: Filled, trades: seq<Trade>, t: Trade)
    ensures FillAll(r, f, trades + [t]) ==
      if FillAll(r, f, trades).Filled? then Fill(r, FillAll(r, f, trades), t) else FillAll(r, f, trades)
    decreases |trades|
  {
    hide Fill;
    if f.Filled? && trades != [] {
      assert (trades + [t])[0] == trades[0] && (trades + [t])[1..] == trades[1..] + [t];
      FillAllAppend(r, Fill(r, f, trades[0]), trades[1..], t);
    } else if f.Filled? {
      assert trades + [t] == [t] && [t][1..] == [];
    }
  }

  /** The loop of `_rebalance`, over trades already put in order. */
  method RunFills(r: Rates, b: Book, trades: seq<Trade>) returns (f: Filled)
    ensures f == FillAll(r, Filled(b, 0.0, 0.0, 0.0), trades)
  {
    hide Fill, Post;
    var cash, positions := b.cash, b.positions;
    var gross, cost, tax := 0.0, 0.0, 0.0;
    ghost var start := Filled(b, 0.0, 0.0, 0.0);
    assert trades[..0] == [];
    for i := 0 to |trades|
      invariant FillAll(r, start, trades[..i]) == Filled(Book(cash, positions, b.receivables), gross, cost, tax)
    {
      var t := trades[i];
      assert trades[..i + 1] == trades[..i] + [t];
      FillAllAppend(r, start, trades[..i], t);
      ghost var before := Filled(Book(cash, positions, b.receivables), gross, cost, tax);
      FillUnfolds(r, before, t);
      var shares := Shares(positions, t.symbol) + t.delta as real;
      if shares < 0.0 {
        StaysFailed(r, start, trades, i + 1);
        return Short;
      }
      var notional := Notional(t);
      var fillCost, fillTax := CostOf(r, t), TaxOf(r, t);
      cash := Post(cash - notional - fillCost - fillTax);
      if cash < 0.0 {
        StaysFailed(r, start, trades, i + 1);
        return Overdrawn;
      }
      positions := positions[t.symbol := shares];
      gross, cost, tax := gross + Gross(t), cost + fillCost, tax + fillTax;
    }
    assert trades[..|trades|] == trades;
    return Filled(Book(cash, positions, b.receivables), gross, cost, tax);
  }

  lemma {:induction false} FillUnfolds(r: Rates, f: Filled, t: Trade)
    requires f.Filled?
    ensures var shares := Shares(f.book.positions, t.symbol) + t.delta as real;
      var cash := Post(f.book.cash - Notional(t) - CostOf(r, t) - TaxOf(r, t));
      Fill(r, f, t) ==
        if shares < 0.0 then Short
        else if cash < 0.0 then Overdrawn
        else Filled(Book(cash, f.book.positions[t.symbol := shares], f.book.receivables),
                    f.gross + Gross(t), f.cost + CostOf(r, t), f.tax + TaxOf(r, t))
  {
    hide Post;
  }

  lemma {:induction false} StaysFailed(r: Rates, f: Filled, trades: seq<Trade>, i: nat)
    requires i <= |trades| && !FillAll(r, f, trades[..i]).Filled?
    ensures FillAll(r, f, trades) == FillAll(r, f, trades[..i])
    decreases |trades| - i
  {
    hide Fill;
    if i == |trades| {
      assert trades[..i] == trades;
    } else {
      assert trades[..i + 1] == trades[..i] + [trades[i]];
      FillAllAppend(r, f, trades[..i], trades[i]);
      StaysFailed(r, f, trades, i + 1);
    }
  }

  // ---------------------------------------------------------------- conservation

  function Flows(r: Rates, ts: seq<Trade>): real {
    if ts == [] then 0.0 else Flows(r, ts[..|ts| - 1]) + Flow(r, ts[|ts| - 1])
  }

  function Errors(ts: seq<Trade>): real {
    if ts == [] then 0.0 else Errors(ts[..|ts| - 1]) + RoundingError(ts[|ts| - 1])
  }

  /** The re-rounding of cash after a fill is the identity. */
  lemma {:induction false} CashNeedsNoRounding(r: Rates, cash: real, t: Trade)
    requires Posted(cash)
    ensures Post(cash - Notional(t) - CostOf(r, t) - TaxOf(r, t)) == cash + Flow(r, t)
    ensures Posted(cash + Flow(r, t))
  {
    hide Post, Posted;
    PostingsPosted(r, t);
    PostedSum(cash, Flow(r, t));
    assert cash - Notional(t) - CostOf(r, t) - TaxOf(r, t) == cash + Flow(r, t);
    PostFixes(cash + Flow(r, t));
  }

  lemma {:induction false} FillConserves(r: Rates, f: Filled, t: Trade, marks: map<Id, real>)
    requires f.Filled? && Posted(f.book.cash) && Mark(marks, t.symbol) == t.price && Fill(r, f, t).Filled?
    ensures var g := Fill(r, f, t);
      && g.book.cash == f.book.cash + Flow(r, t) && g.book.cash >= 0.0 && Posted(g.book.cash)
      && g.book.receivables == f.book.receivables
      && Nav(g.book, marks) - (Nav(f.book, marks) - (g.cost - f.cost) - (g.tax - f.tax)) == RoundingError(t)
  {
    hide Fill, Post, Posted, Worth, Notional, CostOf, TaxOf, Exact, Gross, Shares, Mark;
    FillUnfolds(r, f, t);
    CashNeedsNoRounding(r, f.book.cash, t);
    WorthFilled(f.book.positions, marks, t);
  }

  lemma {:induction false} WorthFilled(positions: map<Id, real>, marks: map<Id, real>, t: Trade)
    requires Mark(marks, t.symbol) == t.price
    ensures Worth(positions[t.symbol := Shares(positions, t.symbol) + t.delta as real], marks) ==
      Worth(positions, marks) + Exact(t)
  {
    hide Worth;
    WorthUpdate(positions, marks, t.symbol, Shares(positions, t.symbol) + t.delta as real);
  }

  /** Any number of fills: cash moves by the sum of the flows, and what NAV loses beyond costs and
      taxes is the sum of the notional rounding errors. */
  lemma {:induction false} FillsConserve(r: Rates, b: Book, ts: seq<Trade>, marks: map<Id, real>)
    requires Posted(b.cash) && b.cash >= 0.0 && (forall i :: 0 <= i < |ts| ==> Mark(marks, ts[i].symbol) == ts[i].price)
    requires FillAll(r, Filled(b, 0.0, 0.0, 0.0), ts).Filled?
    ensures var f := FillAll(r, Filled(b, 0.0, 0.0, 0.0), ts);
      && f.book.cash == b.cash + Flows(r, ts) && f.book.cash >= 0.0 && Posted(f.book.cash)
      && f.book.receivables == b.receivables
      && Nav(f.book, marks) - (Nav(b, marks) - f.cost - f.tax) == Errors(ts)
    decreases |ts|
  {
    hide Fill, Nav, Flow, RoundingError, Posted;
    if ts == [] {
    } else {
      var init, t := ts[..|ts| - 1], ts[|ts| - 1];
      assert ts == init + [t];
      FillAllAppend(r, Filled(b, 0.0, 0.0, 0.0), init, t);
      FillsConserve(r, b, init, marks);
      FillConserves(r, FillAll(r, Filled(b, 0.0, 0.0, 0.0), init), t, marks);
    }
  }

  lemma {:induction false} ErrorsBound(ts: seq<Trade>)
    ensures -0.5 * |ts| as real <= Errors(ts) * Q <= 0.5 * |ts| as real
    decreases |ts|
  {
    hide Post;
    if ts == [] {
    } else {
      ErrorsBound(ts[..|ts| - 1]);
      var e := RoundingError(ts[|ts| - 1]);
      assert -0.5 <= e * Q <= 0.5;
      assert Errors(ts) * Q == Errors(ts[..|ts| - 1]) * Q + e * Q;
    }
  }

  lemma {:induction false} ErrorsVanish(ts: seq<Trade>)
    requires forall i :: 0 <= i < |ts| ==> Posted(ts[i].price)
    ensures Errors(ts) == 0.0
    decreases |ts|
  {
    hide Post, Posted;
    if ts == [] {
    } else {
      var t := ts[|ts| - 1];
      ErrorsVanish(ts[..|ts| - 1]);
      PostedMultiple(t.delta, t.price, Exact(t));
      PostFixes(Exact(t));
    }
  }

  /** The self-financing residual of a rebalance with `n` fills: the sum of the per-fill notional
      rounding errors, at most `n` half-quanta, and zero when every price is a whole number of
      quanta. */
  lemma {:induction false} ResidualIsRounding(r: Rates, b: Book, marks: map<Id, real>, trades: seq<Trade>)
    requires Posted(b.cash) && b.cash >= 0.0 && Rebalance(r, b, marks, trades).Some?
    ensures var f := Rebalance(r, b, marks, trades).value;
      var residual := Nav(f.book, marks) - (Nav(b, marks) - f.cost - f.tax);
      && residual == Errors(Sort(trades, TradeKey))
      && -0.5 * |trades| as real <= residual * Q <= 0.5 * |trades| as real
      && ((forall i :: 0 <= i < |trades| ==> Posted(trades[i].price)) ==> residual == 0.0)
  {
    hide Nav, FillAll, Errors, Sort, Posted;
    var sorted := Sort(trades, TradeKey);
    SortPermutes(trades, TradeKey);
    forall i | 0 <= i < |sorted|
      ensures sorted[i] in trades
    {
      SameElements(trades, sorted, sorted[i]);
    }
    assert |sorted| == |trades| by { assert |sorted| == |multiset(sorted)| && |trades| == |multiset(trades)|; }
    FillsConserve(r, b, sorted, marks);
    ErrorsBound(sorted);
    if forall i :: 0 <= i < |trades| ==> Posted(trades[i].price) {
      ErrorsVanish(sorted);
    }
  }

  // ---------------------------------------------------------------- order of fills

  lemma {:induction false} FlowsConcat(r: Rates, a: seq<Trade>, b: seq<Trade>)
    ensures Flows(r, a + b) == Flows(r, a) + Flows(r, b)
    decreases |b|
  {
    hide Flow;
    if b == [] {
      assert a + b == a;
    } else {
      var init := b[..|b| - 1];
      assert (a + b)[..|a + b| - 1] == a + init && (a + b)[|a + b| - 1] == b[|b| - 1];
      FlowsConcat(r, a, init);
    }
  }

  lemma {:induction false} FlowsPermute(r: Rates, a: seq<Trade>, b: seq<Trade>)
    requires multiset(a) == multiset(b)
    ensures Flows(r, a) == Flows(r, b)
    decreases |a|
  {
    hide Flow;
    assert |a| == |multiset(a)| && |b| == |multiset(b)|;
    if a == [] {
    } else {
      SameElements(a, b, a[0]);
      var i :| 0 <= i < |b| && b[i] == a[0];
      var rest := b[..i] + b[i + 1..];
      assert a == [a[0]] + a[1..];
      assert b == b[..i] + ([a[0]] + b[i + 1..]);
      assert multiset(b) == multiset(rest) + multiset{a[0]};
      TailMultiset(a);
      FlowsPermute(r, a[1..], rest);
      hide Flows;
      FlowsConcat(r, [a[0]], a[1..]);
      FlowsConcat(r, b[..i], [a[0]] + b[i + 1..]);
      FlowsConcat(r, [a[0]], b[i + 1..]);
      FlowsConcat(r, b[..i], b[i + 1..]);
    }
  }

  lemma {:induction false} TradablePermutes(b: Book, marks: map<Id, real>, ts: seq<Trade>, us: seq<Trade>)
    requires multiset(ts) == multiset(us) && Tradable(b, marks, ts)
    ensures Tradable(b, marks, us)
  {
    assert Distinct(ts);
    DistinctPermutes(ts, us);
    forall i | 0 <= i < |us|
      ensures us[i] in ts
    {
      SameElements(ts, us, us[i]);
    }
    forall i, j | 0 <= i < j < |us|
      ensures us[i].symbol != us[j].symbol
    {
      assert us[i] in ts && us[j] in ts && us[i] != us[j];
    }
  }

  /** The rebalance does not depend on the order in which the trades are listed. */
  lemma {:induction false} RebalanceIgnoresOrder(r: Rates, b: Book, marks: map<Id, real>, ts: seq<Trade>,
                                                 us: seq<Trade>)
    requires multiset(ts) == multiset(us)
    ensures Rebalance(r, b, marks, ts) == Rebalance(r, b, marks, us)
  {
    if Tradable(b, marks, ts) {
      TradablePermutes(b, marks, ts, us);
      SortIsCanonical(ts, us, TradeKey);
    } else if Tradable(b, marks, us) {
      TradablePermutes(b, marks, us, ts);
    }
  }

  /** No prefix of the fills overdraws the account. */
  ghost predicate Solvent(r: Rates, cash: real, ts: seq<Trade>) {
    forall i :: 0 <= i <= |ts| ==> cash + Flows(r, ts[..i]) >= 0.0
  }

  predicate NoShort(positions: map<Id, real>, ts: seq<Trade>) {
    forall i :: 0 <= i < |ts| ==> Shares(positions, ts[i].symbol) + ts[i].delta as real >= 0.0
  }

  /** Fills of distinct symbols succeed exactly when none is short and no prefix overdraws. */
  lemma {:induction false} FilledWhen(r: Rates, b: Book, ts: seq<Trade>)
    requires Posted(b.cash) && b.cash >= 0.0 && (forall i, j :: 0 <= i < j < |ts| ==> ts[i].symbol != ts[j].symbol)
    ensures var f := FillAll(r, Filled(b, 0.0, 0.0, 0.0), ts);
      && (f.Filled? <==> NoShort(b.positions, ts) && Solvent(r, b.cash, ts))
      && (f.Filled? ==> Posted(f.book.cash) && f.book.cash == b.cash + Flows(r, ts))
      && (f.Filled? ==> forall s :: (forall i :: 0 <= i < |ts| ==> ts[i].symbol != s) ==>
            Shares(f.book.positions, s) == Shares(b.positions, s))
    decreases |ts|
  {
    hide Flow, Posted, Post;
    if ts == [] {
      assert ts[..0] == [];
    } else {
      hide FillAll, Solvent, NoShort, Flows;
      FilledWhen(r, b, ts[..|ts| - 1]);
      FilledNext(r, b, ts);
    }
  }

  lemma {:induction false} FilledNext(r: Rates, b: Book, ts: seq<Trade>)
    requires ts != [] && (forall i, j :: 0 <= i < j < |ts| ==> ts[i].symbol != ts[j].symbol)
    requires var init := ts[..|ts| - 1]; var f := FillAll(r, Filled(b, 0.0, 0.0, 0.0), init);
      && (f.Filled? <==> NoShort(b.positions, init) && Solvent(r, b.cash, init))
      && (f.Filled? ==> Posted(f.book.cash) && f.book.cash == b.cash + Flows(r, init))
      && (f.Filled? ==> forall s :: (forall i :: 0 <= i < |init| ==> init[i].symbol != s) ==>
            Shares(f.book.positions, s) == Shares(b.positions, s))
    ensures var f := FillAll(r, Filled(b, 0.0, 0.0, 0.0), ts);
      && (f.Filled? <==> NoShort(b.positions, ts) && Solvent(r, b.cash, ts))
      && (f.Filled? ==> Posted(f.book.cash) && f.book.cash == b.cash + Flows(r, ts))
      && (f.Filled? ==> forall s :: (forall i :: 0 <= i < |ts| ==> ts[i].symbol != s) ==>
            Shares(f.book.positions, s) == Shares(b.positions, s))
  {
    hide Flow, Posted, Post, FillAll, Solvent, NoShort;
    var init, t := ts[..|ts| - 1], ts[|ts| - 1];
    var start := Filled(b, 0.0, 0.0, 0.0);
    assert ts == init + [t];
    FillAllAppend(r, start, init, t);
    SolventLast(r, b.cash, ts);
    NoShortLast(b.positions, ts);
    var f := FillAll(r, start, init);
    if f.Filled? {
      FillUnfolds(r, f, t);
      CashNeedsNoRounding(r, f.book.cash, t);
    }
  }

  lemma {:induction false} NoShortLast(positions: map<Id, real>, ts: seq<Trade>)
    requires ts != []
    ensures var t := ts[|ts| - 1];
      NoShort(positions, ts) <==>
        NoShort(positions, ts[..|ts| - 1]) && Shares(positions, t.symbol) + t.delta as real >= 0.0
  {
    hide Shares;
  }

  lemma {:induction false} SolventLast(r: Rates, cash: real, ts: seq<Trade>)
    requires ts != []
    ensures Solvent(r, cash, ts) <==> Solvent(r, cash, ts[..|ts| - 1]) && cash + Flows(r, ts) >= 0.0
  {
    hide Flows;
    var init := ts[..|ts| - 1];
    assert ts[..|ts|] == ts;
    assert forall i :: 0 <= i <= |init| ==> init[..i] == ts[..i];
  }

  /** The sell brings in at least what it costs. */
  predicate PaysForItself(r: Rates, t: Trade) { Flow(r, t) >= 0.0 }

  lemma {:induction false} BuysCost(r: Rates, t: Trade)
    requires ValidRates(r) && t.delta > 0 && t.price > 0.0
    ensures Flow(r, t) <= 0.0
  {
    hide Posted, Post;
    assert Exact(t) >= 0.0;
    hide Exact;
    assert r.cost * Gross(t) >= 0.0;
  }

  lemma {:induction false} FlowsSign(r: Rates, ts: seq<Trade>)
    ensures (forall i :: 0 <= i < |ts| ==> Flow(r, ts[i]) >= 0.0) ==> Flows(r, ts) >= 0.0
    ensures (forall i :: 0 <= i < |ts| ==> Flow(r, ts[i]) <= 0.0) ==> Flows(r, ts) <= 0.0
    decreases |ts|
  {
    hide Flow;
    if ts == [] {
    } else {
      FlowsSign(r, ts[..|ts| - 1]);
    }
  }

  /** In the sells-first order nothing but sells precedes a sell, nothing but buys follows a buy. */
  lemma {:induction false} SellsThenBuys(ts: seq<Trade>, i: nat, k: nat)
    requires Ordered(ts, TradeKey) && i < k < |ts|
    ensures ts[k].delta < 0 ==> ts[i].delta < 0
  {
    assert Before(TradeKey(ts[i]), TradeKey(ts[k]));
  }

  /** How many sells stand before the first buy. */
  function SellCount(ts: seq<Trade>): (n: nat)
    ensures n <= |ts| && (forall i :: 0 <= i < n ==> ts[i].delta < 0) && (n < |ts| ==> ts[n].delta >= 0)
  {
    if ts == [] || ts[0].delta >= 0 then 0
    else
      var n := SellCount(ts[1..]);
      assert forall i :: 1 <= i < |ts| ==> ts[i] == ts[1..][i - 1];
      n + 1
  }

  /** Buys only lower cash: past the sells every prefix stays above the final cash. */
  lemma {:induction false} BuysLowerCash(r: Rates, ts: seq<Trade>, i: nat)
    requires ValidRates(r) && Ordered(ts, TradeKey) && SellCount(ts) <= i <= |ts|
    requires forall k :: 0 <= k < |ts| ==> ts[k].price > 0.0 && ts[k].delta != 0
    ensures Flows(r, ts[..i]) >= Flows(r, ts)
  {
    hide Flow, Ordered, TradeKey, Flows;
    forall k | i <= k < |ts|
      ensures Flow(r, ts[k]) <= 0.0
    {
      if SellCount(ts) < k {
        SellsThenBuys(ts, SellCount(ts), k);
      }
      BuysCost(r, ts[k]);
    }
    FlowsSign(r, ts[i..]);
    assert ts == ts[..i] + ts[i..];
    FlowsConcat(r, ts[..i], ts[i..]);
  }

  /** A sells-first order is solvent exactly when its sells are and its end is. */
  lemma {:induction false} SolventSplits(r: Rates, cash: real, ts: seq<Trade>)
    requires ValidRates(r) && Ordered(ts, TradeKey)
    requires forall k :: 0 <= k < |ts| ==> ts[k].price > 0.0 && ts[k].delta != 0
    ensures Solvent(r, cash, ts) <==> Solvent(r, cash, ts[..SellCount(ts)]) && cash + Flows(r, ts) >= 0.0
  {
    hide Ordered, TradeKey, Flows, Flow;
    var n := SellCount(ts);
    var sells := ts[..n];
    assert forall i :: 0 <= i <= n ==> sells[..i] == ts[..i];
    assert ts[..|ts|] == ts;
    forall i | n <= i <= |ts|
      ensures Flows(r, ts[..i]) >= Flows(r, ts)
    {
      BuysLowerCash(r, ts, i);
    }
  }

  lemma {:induction false} SortedTrades(b: Book, marks: map<Id, real>, trades: seq<Trade>, order: seq<Trade>)
    requires Tradable(b, marks, trades) && multiset(order) == multiset(trades)
    ensures forall k :: 0 <= k < |order| ==> order[k] in trades && order[k].price > 0.0 && order[k].delta != 0
    ensures forall i, j :: 0 <= i < j < |order| ==> order[i].symbol != order[j].symbol
    ensures NoShort(b.positions, trades) <==> NoShort(b.positions, order)
  {
    TradablePermutes(b, marks, trades, order);
    NoShortPermutes(b.positions, trades, order);
    forall k | 0 <= k < |order|
      ensures order[k] in trades
    {
      SameElements(trades, order, order[k]);
    }
  }

  /** A rebalance goes through exactly when nothing is sold short, the final cash is not negative
      and the sells, in their order, never overdraw. */
  lemma {:induction false} RebalancesWhen(r: Rates, b: Book, marks: map<Id, real>, trades: seq<Trade>)
    requires ValidRates(r) && Posted(b.cash) && b.cash >= 0.0 && Tradable(b, marks, trades)
    ensures var sorted := Sort(trades, TradeKey);
      Rebalance(r, b, marks, trades).Some? <==>
        && NoShort(b.positions, trades)
        && b.cash + Flows(r, trades) >= 0.0
        && Solvent(r, b.cash, sorted[..SellCount(sorted)])
  {
    var sorted := Sort(trades, TradeKey);
    SortPermutes(trades, TradeKey);
    SortOrders(trades, TradeKey);
    hide Flow, Posted, Sort, FillAll, Flows, Solvent, NoShort, Tradable, Ordered;
    SortedTrades(b, marks, trades, sorted);
    FlowsPermute(r, trades, sorted);
    FilledWhen(r, b, sorted);
    SolventSplits(r, b.cash, sorted);
  }

  lemma {:induction false} PayingSellsAreSolvent(r: Rates, cash: real, sells: seq<Trade>)
    requires cash >= 0.0 && forall k :: 0 <= k < |sells| ==> PaysForItself(r, sells[k])
    ensures Solvent(r, cash, sells)
  {
    hide Flows;
    forall i | 0 <= i <= |sells|
      ensures Flows(r, sells[..i]) >= 0.0
    {
      FlowsSign(r, sells[..i]);
    }
  }

  /** When every sell pays for itself, the sells-first order goes through exactly when nothing is
      sold short and the final cash is not negative; hence whenever any order goes through. */
  lemma {:induction false} SellsFirstIsBest(r: Rates, b: Book, marks: map<Id, real>, trades: seq<Trade>,
                                            order: seq<Trade>)
    requires ValidRates(r) && Posted(b.cash) && b.cash >= 0.0 && Tradable(b, marks, trades)
    requires forall t :: t in trades && t.delta < 0 ==> PaysForItself(r, t)
    requires multiset(order) == multiset(trades)
    ensures Rebalance(r, b, marks, trades).Some? <==> NoShort(b.positions, trades) && b.cash + Flows(r, trades) >= 0.0
    ensures FillAll(r, Filled(b, 0.0, 0.0, 0.0), order).Filled? ==> Rebalance(r, b, marks, trades).Some?
  {
    var sorted := Sort(trades, TradeKey);
    SortPermutes(trades, TradeKey);
    hide Flow, Posted, Sort, FillAll, Flows, NoShort, Tradable, Rebalance, PaysForItself;
    SortedTrades(b, marks, trades, sorted);
    SortedTrades(b, marks, trades, order);
    RebalancesWhen(r, b, marks, trades);
    PayingSellsAreSolvent(r, b.cash, sorted[..SellCount(sorted)]);
    FlowsPermute(r, trades, order);
    FilledWhen(r, b, order);
    assert order[..|order|] == order;
  }

  // A sell that costs more than it brings in can make sells-first fail where another order works.

  lemma {:induction false} PostIs(x: real, units: int)
    requires IsNearest(x * Q, units)
    ensures Post(x) == units as real / Q
  {
    hide RoundReal;
    NearestIsUnique(x * Q, RoundReal(x * Q), units);
  }

  const HALVES := Rates(0.5, 0.5)

  function SellOf(symbol: Id, quanta: int): Trade { Trade(symbol, -1, quanta as real / Q) }

  /** At rates of one half a sell worth 3 quanta loses one quantum, a sell worth 5 gains one. */
  lemma {:induction false} HalfRateFlow(symbol: Id, quanta: int, charge: int)
    requires quanta > 0 && IsNearest(0.5 * quanta as real, charge)
    ensures Flow(HALVES, SellOf(symbol, quanta)) == (quanta - 2 * charge) as real / Q
  {
    hide Post, Exact, Notional, Gross, CostOf, TaxOf, IsNearest;
    var t := SellOf(symbol, quanta);
    HalfRatePostings(symbol, quanta, charge);
    assert Notional(t) == -(quanta as real / Q) && CostOf(HALVES, t) == TaxOf(HALVES, t) == charge as real / Q;
  }

  lemma {:induction false} HalfRatePostings(symbol: Id, quanta: int, charge: int)
    requires quanta > 0 && IsNearest(0.5 * quanta as real, charge)
    ensures var t := SellOf(symbol, quanta);
      Notional(t) == -(quanta as real / Q) && CostOf(HALVES, t) == TaxOf(HALVES, t) == charge as real / Q
  {
    hide Post, Exact, Notional, IsNearest;
    SellNotional(symbol, quanta);
    HalfPost(quanta, charge);
    HalfCharges(SellOf(symbol, quanta), quanta as real / Q);
  }

  lemma {:induction false} HalfPost(quanta: int, charge: int)
    requires IsNearest(0.5 * quanta as real, charge)
    ensures Post(0.5 * (quanta as real / Q)) == charge as real / Q
  {
    hide Post, IsNearest;
    assert (0.5 * (quanta as real / Q)) * Q == 0.5 * quanta as real;
    PostIs(0.5 * (quanta as real / Q), charge);
  }

  lemma {:induction false} HalfCharges(t: Trade, gross: real)
    requires t.delta < 0 && Notional(t) == -gross && gross > 0.0
    ensures CostOf(HALVES, t) == Post(0.5 * gross) && TaxOf(HALVES, t) == Post(0.5 * gross)
  {
    hide Post, Notional;
    assert Gross(t) == gross;
  }

  lemma {:induction false} SellNotional(symbol: Id, quanta: int)
    requires quanta > 0
    ensures Notional(SellOf(symbol, quanta)) == -(quanta as real / Q)
  {
    hide Post;
    var price := quanta as real / Q;
    assert Exact(SellOf(symbol, quanta)) == -price;
    hide Exact;
    assert (-price) * Q == (-quanta) as real;
    PostIs(-price, -quanta);
  }

  /** One share of each of two securities, no cash: sells-first overdraws on the first sell, while
      the opposite order ends with nothing owed. */
  lemma {:induction false} SellsFirstCanFail()
    ensures var b := Book(0.0, map[1 := 1.0, 2 := 1.0], 0.0);
      var marks := map[1 := 3.0 / Q, 2 := 5.0 / Q];
      var small, large := SellOf(1, 3), SellOf(2, 5);
      && ValidRates(HALVES) && Posted(b.cash) && Tradable(b, marks, [small, large])
      && Rebalance(HALVES, b, marks, [small, large]).None?
      && FillAll(HALVES, Filled(b, 0.0, 0.0, 0.0), [large, small]).Filled?
  {
    hide Flow, Post;
    var b := Book(0.0, map[1 := 1.0, 2 := 1.0], 0.0);
    var marks := map[1 := 3.0 / Q, 2 := 5.0 / Q];
    var small, large := SellOf(1, 3), SellOf(2, 5);
    var trades, order := [small, large], [large, small];
    assert Posted(0.0);
    HalfRateFlow(1, 3, 2);
    HalfRateFlow(2, 5, 2);
    assert Flow(HALVES, small) < 0.0 && Flow(HALVES, large) >= 0.0 && Flow(HALVES, small) + Flow(HALVES, large) >= 0.0;
    AlreadySorted(small, large);
    TwoFlows(HALVES, small, large);
    TwoFlows(HALVES, large, small);
    hide Flows, FillAll, Sort;
    FilledWhen(HALVES, b, trades);
    FilledWhen(HALVES, b, order);
    assert 0.0 + Flows(HALVES, trades[..1]) < 0.0;
  }

  lemma {:induction false} AlreadySorted(small: Trade, large: Trade)
    requires small.delta < 0 && large.delta < 0 && small.symbol < large.symbol
    ensures Sort([small, large], TradeKey) == [small, large]
  {
    assert [small, large][1..] == [large] && [large][1..] == [];
    assert Sort([large], TradeKey) == [large];
  }

  lemma {:induction false} TwoFlows(r: Rates, s: Trade, t: Trade)
    ensures [s, t][..0] == [] && [s, t][..1] == [s] && [s, t][..2] == [s, t]
    ensures Flows(r, [s]) == Flow(r, s) && Flows(r, []) == 0.0 && Flows(r, [s, t]) == Flow(r, s) + Flow(r, t)
  {
    hide Flow;
    assert [s][..0] == [] && [s, t][..1] == [s];
  }

  lemma {:induction false} NoShortPermutes(positions: map<Id, real>, a: seq<Trade>, b: seq<Trade>)
    requires multiset(a) == multiset(b)
    ensures NoShort(positions, a) <==> NoShort(positions, b)
  {
    forall t { SameElements(a, b, t); }
    assert NoShort(positions, a) <==> forall t :: t in a ==> Shares(positions, t.symbol) + t.delta as real >= 0.0;
    assert NoShort(positions, b) <==> forall t :: t in b ==> Shares(positions, t.symbol) + t.delta as real >= 0.0;
  }

  // ------------------------------------------------------------------ what is charged

  /** `y` is `x` rounded half-even to whole quanta. */
  ghost predicate Rounds(x: real, y: real) { exists u :: IsQuanta(x, u) && y * Q == u as real }

  /** `u` is the whole number of quanta nearest to `x`. */
  ghost predicate IsQuanta(x: real, u: int) { IsNearest(x * Q, u) }

  /** The postings of one fill. */
  datatype Posting = Posting(notional: real, cost: real, tax: real)

  /** A fill posts its notional, its cost on the size of that notional, and a tax on it for a sell
      and for nothing else, each rounded by itself. */
  ghost predicate Charged(r: Rates, t: Trade, p: Posting) {
    && Rounds(Times(t.delta as real, t.price), p.notional)
    && Rounds(Times(r.cost, Magnitude(p.notional)), p.cost)
    && (if t.delta < 0 then Rounds(Times(r.tax, Magnitude(p.notional)), p.tax) else p.tax == 0.0)
  }

  lemma {:induction false} PostRounds(x: real)
    ensures Rounds(x, Post(x))
  {
    hide RoundReal;
    PostUnits(x);
    assert IsQuanta(x, RoundReal(x * Q));
  }

  lemma {:induction false} FillPosts(r: Rates, t: Trade) returns (p: Posting)
    ensures Charged(r, t, p) && Gross(t) == Magnitude(p.notional)
    ensures p.cost == CostOf(r, t) && p.tax == TaxOf(r, t) && Flow(r, t) == -p.notional - p.cost - p.tax
  {
    p := Posting(Notional(t), CostOf(r, t), TaxOf(r, t));
    PostsAre(r, t);
    hide Post, Rounds, Notional, CostOf, TaxOf;
    PostRounds(Times(t.delta as real, t.price));
    PostRounds(Times(r.cost, Magnitude(p.notional)));
    PostRounds(Times(r.tax, Magnitude(p.notional)));
  }

  lemma {:induction false} PostsAre(r: Rates, t: Trade)
    ensures Notional(t) == Post(Times(t.delta as real, t.price)) && Gross(t) == Magnitude(Notional(t))
    ensures CostOf(r, t) == Post(Times(r.cost, Magnitude(Notional(t))))
    ensures t.delta < 0 ==> TaxOf(r, t) == Post(Times(r.tax, Magnitude(Notional(t))))
    ensures t.delta >= 0 ==> TaxOf(r, t) == 0.0
  {
    hide Post, Times, Magnitude;
  }

  /** The totals of postings. */
  function TotalGross(ps: seq<Posting>): real {
    if ps == [] then 0.0 else TotalGross(ps[..|ps| - 1]) + Magnitude(ps[|ps| - 1].notional)
  }
  function TotalCost(ps: seq<Posting>): real {
    if ps == [] then 0.0 else TotalCost(ps[..|ps| - 1]) + ps[|ps| - 1].cost
  }
  function TotalTax(ps: seq<Posting>): real {
    if ps == [] then 0.0 else TotalTax(ps[..|ps| - 1]) + ps[|ps| - 1].tax
  }
  function TotalNotional(ps: seq<Posting>): real {
    if ps == [] then 0.0 else TotalNotional(ps[..|ps| - 1]) + ps[|ps| - 1].notional
  }

  lemma {:induction false} TotalsAppend(ps: seq<Posting>, p: Posting)
    ensures TotalGross(ps + [p]) == TotalGross(ps) + Magnitude(p.notional)
    ensures TotalCost(ps + [p]) == TotalCost(ps) + p.cost && TotalTax(ps + [p]) == TotalTax(ps) + p.tax
    ensures TotalNotional(ps + [p]) == TotalNotional(ps) + p.notional
  {
    assert (ps + [p])[..|ps|] == ps;
  }

  /** How many shares of a symbol the trades bring. */
  function Traded(ts: seq<Trade>, symbol: Id): int {
    if ts == [] then 0
    else Traded(ts[..|ts| - 1], symbol) + if ts[|ts| - 1].symbol == symbol then ts[|ts| - 1].delta else 0
  }

  /** What any number of fills leaves: totals of postings charged fill by fill, cash less all of them,
      and shares moved by the trades. */
  ghost predicate Accounts(r: Rates, b: Book, ts: seq<Trade>, f: Filled, ps: seq<Posting>)
    requires f.Filled?
  {
    && |ps| == |ts| && (forall i :: 0 <= i < |ts| ==> Charged(r, ts[i], ps[i]))
    && f.gross == TotalGross(ps) && f.cost == TotalCost(ps) && f.tax == TotalTax(ps)
    && f.book.cash == b.cash - TotalNotional(ps) - TotalCost(ps) - TotalTax(ps)
    && f.book.receivables == b.receivables
    && (forall s :: Shares(f.book.positions, s) == Shares(b.positions, s) + Traded(ts, s) as real)
  }

  lemma {:induction false} FillsAccount(r: Rates, b: Book, ts: seq<Trade>) returns (ps: seq<Posting>)
    requires Posted(b.cash) && FillAll(r, Filled(b, 0.0, 0.0, 0.0), ts).Filled?
    ensures Accounts(r, b, ts, FillAll(r, Filled(b, 0.0, 0.0, 0.0), ts), ps)
    ensures Posted(FillAll(r, Filled(b, 0.0, 0.0, 0.0), ts).book.cash)
    decreases |ts|
  {
    hide Posted, Charged, Fill, Flow;
    var start := Filled(b, 0.0, 0.0, 0.0);
    if ts == [] {
      ps := [];
    } else {
      var init, t := ts[..|ts| - 1], ts[|ts| - 1];
      assert ts == init + [t];
      FillAllAppend(r, start, init, t);
      hide FillAll;
      var before := FillsAccount(r, b, init);
      var p := FillPosts(r, t);
      ps := before + [p];
      AccountsNext(r, b, init, t, FillAll(r, start, init), before, p);
    }
  }

  lemma {:induction false} AccountsNext(r: Rates, b: Book, init: seq<Trade>, t: Trade, f: Filled, before: seq<Posting>,
                                        p: Posting)
    requires f.Filled? && Accounts(r, b, init, f, before) && Posted(f.book.cash) && Fill(r, f, t).Filled?
    requires Charged(r, t, p) && Gross(t) == Magnitude(p.notional) && p.cost == CostOf(r, t) && p.tax == TaxOf(r, t)
    requires Flow(r, t) == -p.notional - p.cost - p.tax
    ensures Accounts(r, b, init + [t], Fill(r, f, t), before + [p]) && Posted(Fill(r, f, t).book.cash)
  {
    hide Posted, Charged, Flow, Gross, CostOf, TaxOf, Notional, Post, Fill, TotalGross, TotalCost, TotalTax,
         TotalNotional,
      Magnitude;
    FillUnfolds(r, f, t);
    CashNeedsNoRounding(r, f.book.cash, t);
    TotalsAppend(before, p);
    TradedAppend(init, t);
  }

  lemma {:induction false} TradedAppend(ts: seq<Trade>, t: Trade)
    ensures forall s :: Traded(ts + [t], s) == Traded(ts, s) + if t.symbol == s then t.delta else 0
  {
    assert (ts + [t])[..|ts|] == ts;
  }

  /** What is filled, in which order: the trades themselves, sells before buys, each by symbol. */
  lemma {:induction false} TradesInOrder(trades: seq<Trade>)
    ensures var sorted := Sort(trades, TradeKey);
      && multiset(sorted) == multiset(trades)
      && forall i, j :: 0 <= i < j < |sorted| ==>
           if (sorted[i].delta < 0) == (sorted[j].delta < 0) then sorted[i].symbol <= sorted[j].symbol
           else sorted[i].delta < 0
  {
    SortPermutes(trades, TradeKey);
    SortOrders(trades, TradeKey);
    var sorted := Sort(trades, TradeKey);
    hide Sort;
    forall i, j | 0 <= i < j < |sorted|
      ensures Before(TradeKey(sorted[i]), TradeKey(sorted[j]))
    {
    }
  }

  /** A mark is not positive, a held symbol has none, or a trade is empty, repeated or off its mark. */
  ghost predicate Unusable(b: Book, marks: map<Id, real>, trades: seq<Trade>) {
    || (exists s :: s in marks && marks[s] <= 0.0)
    || (exists s :: s in b.positions && b.positions[s] != 0.0 && s !in marks)
    || (exists t :: t in trades && (t.delta == 0 || t.symbol !in marks || marks[t.symbol] != t.price))
    || (exists i, j :: 0 <= i < j < |trades| && trades[i].symbol == trades[j].symbol)
  }

  /** A rebalance is refused for unusable inputs, and otherwise does what the fills in their order do. */
  lemma {:induction false} RefusedInputs(r: Rates, b: Book, marks: map<Id, real>, trades: seq<Trade>)
    ensures Unusable(b, marks, trades) ==> Rebalance(r, b, marks, trades).None?
    ensures !Unusable(b, marks, trades) ==>
      var f := FillAll(r, Filled(b, 0.0, 0.0, 0.0), Sort(trades, TradeKey));
      Rebalance(r, b, marks, trades) == if f.Filled? then Some(f) else None
  {
    hide FillAll, Sort;
  }

  /** A rebalance books every trade: postings charged fill by fill, cash less all of them, shares moved
      by each trade, in the sells-first order. */
  lemma {:induction false} RebalanceAccounts(r: Rates, b: Book, marks: map<Id, real>, trades: seq<Trade>)
    returns (ps: seq<Posting>)
    requires Posted(b.cash) && Rebalance(r, b, marks, trades).Some?
    ensures Rebalance(r, b, marks, trades).value.Filled?
    ensures Accounts(r, b, Sort(trades, TradeKey), Rebalance(r, b, marks, trades).value, ps)
  {
    hide FillAll, Sort, Posted, Accounts;
    ps := FillsAccount(r, b, Sort(trades, TradeKey));
  }

  /** A run of fills stops at the first trade that would go short, or that would overdraw. */
  lemma {:induction false} FirstFailureStops(r: Rates, b: Book, ts: seq<Trade>, i: nat)
    requires i < |ts| && FillAll(r, Filled(b, 0.0, 0.0, 0.0), ts[..i]).Filled?
    ensures var f, t := FillAll(r, Filled(b, 0.0, 0.0, 0.0), ts[..i]), ts[i];
      var short := Shares(f.book.positions, t.symbol) + t.delta as real < 0.0;
      && (short ==> FillAll(r, Filled(b, 0.0, 0.0, 0.0), ts) == Short)
      && (!short && Posted(f.book.cash) && f.book.cash + Flow(r, t) < 0.0 ==>
            FillAll(r, Filled(b, 0.0, 0.0, 0.0), ts) == Overdrawn)
  {
    var start := Filled(b, 0.0, 0.0, 0.0);
    hide Posted, Flow, FillAll, Fill;
    var f, t := FillAll(r, start, ts[..i]), ts[i];
    assert ts[..i + 1] == ts[..i] + [t];
    FillAllAppend(r, start, ts[..i], t);
    FillUnfolds(r, f, t);
    if Posted(f.book.cash) {
      CashNeedsNoRounding(r, f.book.cash, t);
    }
    if !Fill(r, f, t).Filled? {
      StaysFailed(r, start, ts, i + 1);
    }
  }
}
