/** A whole fixture path: rebalance, split, dividend entitlement and payment, rebalance. */
module LedgerPath {
  import opened Basics
  import opened Rounding
  import opened Sorting
  import opened Ledger

  /** What `_state` demands of a book: nothing negative, everything in whole quanta. */
  predicate BookOk(b: Book) {
    && b.cash >= 0.0 && Posted(b.cash)
    && b.receivables >= 0.0 && Posted(b.receivables)
    && forall s :: s in b.positions ==> b.positions[s] >= 0.0 && Posted(b.positions[s])
  }

  predicate Positive(marks: map<Id, real>) { forall s :: s in marks ==> marks[s] > 0.0 }

  datatype Actions = Actions(
    symbol: Id, factor: real, perShare: real, splitMarks: map<Id, real>, entitlementMarks: map<Id, real>)

  datatype Acted = Acted(split: Book, entitled: Book, paid: Book, entitlement: real)

  function PostSplit(b: Book, a: Actions): real { Times(Shares(b.positions, a.symbol), a.factor) }

  /** `_actions`: split, then dividend on the post-split shares, then payment of what was accrued.
      A mark that is looked up but absent stops the source as surely as a rejected value. */
  function Act(b: Book, marks: map<Id, real>, a: Actions): Option<Acted> {
    var shares := PostSplit(b, a);
    var positions := b.positions[a.symbol := shares];
    if || a.factor <= 0.0 || a.perShare < 0.0 || !Posted(shares)
       || !Positive(a.splitMarks) || !Positive(a.entitlementMarks)
       || a.symbol !in marks || a.symbol !in a.splitMarks
       || Times(Shares(b.positions, a.symbol), marks[a.symbol]) != Times(shares, a.splitMarks[a.symbol])
       || !Marked(positions, a.splitMarks) || !Marked(positions, a.entitlementMarks)
    then None
    else
      var entitlement := Post(Times(shares, a.perShare));
      Some(Acted(b.(positions := positions),
                 b.(positions := positions, receivables := b.receivables + entitlement),
                 b.(positions := positions, cash := b.cash + entitlement),
                 entitlement))
  }

  // ------------------------------------------------------------- sound books

  lemma {:induction false} WholePosted(k: int)
    ensures Posted(k as real)
  {
    assert k as real * Q == (k * QUANTA) as real;
    assert ((k * QUANTA) as real).Floor == k * QUANTA;
  }

  lemma {:induction false} FillKeepsBook(r: Rates, f: Filled, t: Trade)
    requires f.Filled? && BookOk(f.book) && Fill(r, f, t).Filled?
    ensures BookOk(Fill(r, f, t).book)
  {
    hide Post, Notional, CostOf, TaxOf, Gross;
    FillUnfolds(r, f, t);
    assert Posted(Shares(f.book.positions, t.symbol));
    WholePosted(t.delta);
    PostedSum(Shares(f.book.positions, t.symbol), t.delta as real);
    hide Fill, Posted;
  }

  lemma {:induction false} FillsKeepBook(r: Rates, b: Book, ts: seq<Trade>)
    requires BookOk(b) && FillAll(r, Filled(b, 0.0, 0.0, 0.0), ts).Filled?
    ensures BookOk(FillAll(r, Filled(b, 0.0, 0.0, 0.0), ts).book)
    decreases |ts|
  {
    hide BookOk, Fill;
    if ts == [] {
    } else {
      var init, t := ts[..|ts| - 1], ts[|ts| - 1];
      assert ts == init + [t];
      FillAllAppend(r, Filled(b, 0.0, 0.0, 0.0), init, t);
      FillsKeepBook(r, b, init);
      FillKeepsBook(r, FillAll(r, Filled(b, 0.0, 0.0, 0.0), init), t);
    }
  }

  /** A rebalance leaves cash and shares non-negative and in whole quanta. */
  lemma {:induction false} RebalanceKeepsBook(r: Rates, b: Book, marks: map<Id, real>, trades: seq<Trade>)
    requires BookOk(b) && Rebalance(r, b, marks, trades).Some?
    ensures BookOk(Rebalance(r, b, marks, trades).value.book)
  {
    hide BookOk, FillAll, Sort;
    FillsKeepBook(r, b, Sort(trades, TradeKey));
  }

  /** So do split, entitlement and payment. */
  lemma {:induction false} ActionsKeepBook(b: Book, marks: map<Id, real>, a: Actions)
    requires BookOk(b) && Act(b, marks, a).Some?
    ensures var x := Act(b, marks, a).value;
      x.entitlement >= 0.0 && Posted(x.entitlement) && BookOk(x.split) && BookOk(x.entitled) && BookOk(x.paid)
  {
    hide Post;
    var x := Act(b, marks, a).value;
    var held := Shares(b.positions, a.symbol);
    assert held >= 0.0;
    assert PostSplit(b, a) >= 0.0;
    assert PostSplit(b, a) * a.perShare >= 0.0;
    PostedSum(b.cash, x.entitlement);
    PostedSum(b.receivables, x.entitlement);
    hide Posted;
  }

  // ------------------------------------------------------------- conservation

  ghost function Change(positions: map<Id, real>, from: map<Id, real>, to: map<Id, real>): Id -> real {
    s => Shares(positions, s) * (Mark(to, s) - Mark(from, s))
  }

  /** What the same shares gain when they are marked anew. */
  ghost function Remarking(positions: map<Id, real>, from: map<Id, real>, to: map<Id, real>): real {
    SumOver(positions.Keys, Change(positions, from, to))
  }

  lemma {:induction false} SumAdds<T>(s: set<T>, f: T -> real, g: T -> real, h: T -> real)
    requires forall x :: x in s ==> h(x) == f(x) + g(x)
    ensures SumOver(s, h) == SumOver(s, f) + SumOver(s, g)
    decreases |s|
  {
    if s != {} {
      var x :| x in s;
      SumPick(s, f, x);
      SumPick(s, g, x);
      SumPick(s, h, x);
      SumAdds(s - {x}, f, g, h);
    }
  }

  lemma {:induction false} HoldingChanges(positions: map<Id, real>, from: map<Id, real>, to: map<Id, real>, s: Id)
    ensures Holding(positions, to)(s) == Holding(positions, from)(s) + Change(positions, from, to)(s)
  {
    hide Shares, Mark;
    var q, a, b := Shares(positions, s), Mark(from, s), Mark(to, s);
    assert q * b == q * a + q * (b - a);
  }

  lemma {:induction false} WorthRemarked(positions: map<Id, real>, from: map<Id, real>, to: map<Id, real>)
    ensures Worth(positions, to) == Worth(positions, from) + Remarking(positions, from, to)
  {
    hide SumOver;
    forall s | s in positions.Keys { HoldingChanges(positions, from, to, s); }
    SumAdds(positions.Keys, Holding(positions, from), Change(positions, from, to), Holding(positions, to));
  }

  /** What the other securities gain when a split is marked. */
  ghost function OthersRemarking(positions: map<Id, real>, symbol: Id, from: map<Id, real>, to: map<Id, real>): real {
    SumOver(positions.Keys - {symbol}, Change(positions, from, to))
  }

  lemma {:induction false} WorthMoved(positions: map<Id, real>, symbol: Id, shares: real, from: map<Id, real>,
                                      to: map<Id, real>)
    requires Holding(positions[symbol := shares], to)(symbol) == Holding(positions, from)(symbol)
    ensures Worth(positions[symbol := shares], to) ==
      Worth(positions, from) + OthersRemarking(positions, symbol, from, to)
  {
    hide SumOver;
    var after := positions[symbol := shares];
    var rest := positions.Keys - {symbol};
    assert after.Keys - {symbol} == rest;
    SumPick(after.Keys, Holding(after, to), symbol);
    forall s | s in rest
      ensures Holding(after, to)(s) == Holding(positions, from)(s) + Change(positions, from, to)(s)
    {
      HoldingChanges(positions, from, to, s);
      assert Shares(after, s) == Shares(positions, s);
    }
    hide Holding, Change;
    SumAdds(rest, Holding(positions, from), Change(positions, from, to), Holding(after, to));
    if symbol in positions {
      SumPick(positions.Keys, Holding(positions, from), symbol);
    } else {
      assert rest == positions.Keys;
      assert Holding(positions, from)(symbol) == 0.0 by { NothingHeld(positions, from, symbol); }
    }
  }

  lemma {:induction false} NothingHeld(positions: map<Id, real>, marks: map<Id, real>, symbol: Id)
    requires symbol !in positions
    ensures Holding(positions, marks)(symbol) == 0.0
  {}

  /** A split moves no value: only the other securities' marks can change the worth. */
  lemma {:induction false} SplitConserves(b: Book, marks: map<Id, real>, a: Actions)
    requires Act(b, marks, a).Some?
    ensures Worth(Act(b, marks, a).value.split.positions, a.splitMarks) ==
      Worth(b.positions, marks) + OthersRemarking(b.positions, a.symbol, marks, a.splitMarks)
  {
    hide SumOver, Post, Posted, Positive, Marked, Worth, PostSplit;
    WorthMoved(b.positions, a.symbol, PostSplit(b, a), marks, a.splitMarks);
  }

  /** Payment moves the entitlement from receivables to cash and leaves NAV where it was. */
  lemma {:induction false} PaymentConserves(b: Book, marks: map<Id, real>, a: Actions, at: map<Id, real>)
    requires Act(b, marks, a).Some?
    ensures var x := Act(b, marks, a).value;
      && Nav(x.paid, at) == Nav(x.entitled, at)
      && x.paid.cash - x.entitled.cash == x.entitled.receivables - x.paid.receivables == x.entitlement
      && x.paid.receivables == b.receivables && x.paid.positions == x.entitled.positions == x.split.positions
      && Nav(x.entitled, at) == Nav(x.split, at) + x.entitlement
  {
    hide Worth, Post, Posted, Positive, Marked;
  }

  datatype Path = Path(first: Filled, acted: Acted, second: Filled)

  /** `_path`: the marks and trades of both rebalances around the shared actions. */
  function RunPath(r: Rates, b: Book, m1: map<Id, real>, t1: seq<Trade>, a: Actions, m2: map<Id, real>, t2: seq<Trade>)
    : Option<Path>
  {
    var first := Rebalance(r, b, m1, t1);
    if first.None? then None
    else
      var acted := Act(first.value.book, m1, a);
      if acted.None? then None
      else
        var second := Rebalance(r, acted.value.paid, m2, t2);
        if second.None? then None else Some(Path(first.value, acted.value, second.value))
  }

  /** A path is accepted exactly when its three steps are, each on the book the one before it left. */
  lemma {:induction false} PathIsItsSteps(r: Rates, b: Book, m1: map<Id, real>, t1: seq<Trade>, a: Actions,
                                          m2: map<Id, real>, t2: seq<Trade>, p: Path)
    ensures RunPath(r, b, m1, t1, a, m2, t2) == Some(p) <==>
      && Rebalance(r, b, m1, t1) == Some(p.first) && Act(p.first.book, m1, a) == Some(p.acted)
      && Rebalance(r, p.acted.paid, m2, t2) == Some(p.second)
  {
    hide Rebalance, Act;
  }

  lemma {:induction false} RebalanceFilled(r: Rates, b: Book, marks: map<Id, real>, trades: seq<Trade>)
    ensures Rebalance(r, b, marks, trades).Some? ==> Rebalance(r, b, marks, trades).value.Filled?
  {
    hide FillAll, Sort, Tradable;
  }

  /** On every accepted path all books stay sound, and the NAV change from the initial marks `m0`
      is re-marking plus entitlement minus costs and taxes, up to half a quantum per fill. */
  lemma {:induction false} PathConserves(r: Rates, b: Book, m0: map<Id, real>, m1: map<Id, real>, t1: seq<Trade>,
                                         a: Actions, m2: map<Id, real>, t2: seq<Trade>)
    requires BookOk(b) && RunPath(r, b, m1, t1, a, m2, t2).Some?
    ensures var p := RunPath(r, b, m1, t1, a, m2, t2).value;
      && p.first.Filled? && p.second.Filled?
      && BookOk(p.first.book) && BookOk(p.acted.split) && BookOk(p.acted.entitled) && BookOk(p.acted.paid)
      && BookOk(p.second.book)
    ensures var p := RunPath(r, b, m1, t1, a, m2, t2).value;
      var remarking := Remarking(b.positions, m0, m1)
                       + OthersRemarking(p.first.book.positions, a.symbol, m1, a.splitMarks)
                       + Remarking(p.acted.split.positions, a.splitMarks, a.entitlementMarks)
                       + Remarking(p.acted.paid.positions, a.entitlementMarks, m2);
      var rounding := Nav(p.second.book, m2) - Nav(b, m0)
                      - (remarking + p.acted.entitlement - p.first.cost - p.first.tax - p.second.cost - p.second.tax);
      && rounding == Errors(Sort(t1, TradeKey)) + Errors(Sort(t2, TradeKey))
      && -0.5 * (|t1| + |t2|) as real <= rounding * Q <= 0.5 * (|t1| + |t2|) as real
  {
    hide BookOk, Rebalance, Act, Remarking, OthersRemarking, Worth, Errors, Sort;
    var p := RunPath(r, b, m1, t1, a, m2, t2).value;
    RebalanceFilled(r, b, m1, t1);
    RebalanceKeepsBook(r, b, m1, t1);
    ActionsKeepBook(p.first.book, m1, a);
    RebalanceFilled(r, p.acted.paid, m2, t2);
    RebalanceKeepsBook(r, p.acted.paid, m2, t2);
    CashOk(b);
    CashOk(p.acted.paid);
    ResidualIsRounding(r, b, m1, t1);
    ResidualIsRounding(r, p.acted.paid, m2, t2);
    WorthRemarked(b.positions, m0, m1);
    SplitConserves(p.first.book, m1, a);
    WorthRemarked(p.acted.split.positions, a.splitMarks, a.entitlementMarks);
    PaymentConserves(p.first.book, m1, a, a.entitlementMarks);
    WorthRemarked(p.acted.paid.positions, a.entitlementMarks, m2);
    SplitCash(p.first.book, m1, a);
  }

  lemma {:induction false} CashOk(b: Book)
    requires BookOk(b)
    ensures Posted(b.cash) && b.cash >= 0.0
  {}

  lemma {:induction false} SplitCash(b: Book, marks: map<Id, real>, a: Actions)
    requires Act(b, marks, a).Some?
    ensures Act(b, marks, a).value.split.cash == b.cash && Act(b, marks, a).value.split.receivables == b.receivables
  {
    hide Post, Posted, Positive, Marked;
  }

  // ------------------------------------------------------------- what the actions do

  /** Split, entitlement and payment in full: the security's shares are multiplied and no others
      change, the entitlement is the post-split shares at the amount per share, rounded, and it is
      first owed and then paid. */
  lemma {:induction false} ActionsMean(b: Book, marks: map<Id, real>, a: Actions)
    requires Act(b, marks, a).Some?
    ensures var x := Act(b, marks, a).value;
      && (forall s :: Shares(x.split.positions, s) ==
            if s == a.symbol then Times(Shares(b.positions, s), a.factor) else Shares(b.positions, s))
      && Rounds(Times(Shares(x.split.positions, a.symbol), a.perShare), x.entitlement)
      && x.split.cash == b.cash && x.split.receivables == b.receivables
      && x.entitled == x.split.(receivables := b.receivables + x.entitlement)
      && x.paid == x.split.(cash := b.cash + x.entitlement)
  {
    hide Post, Posted, Positive, Marked, Rounds;
    var shares := PostSplit(b, a);
    assert shares == Times(Shares(b.positions, a.symbol), a.factor);
    hide PostSplit;
    assert Act(b, marks, a).value.entitlement == Post(Times(shares, a.perShare));
    PostRounds(Times(shares, a.perShare));
  }

  /** The actions are refused exactly when a term is out of range, the split makes a broken share or
      moves value, a mark is not positive, or one that is needed is missing. */
  lemma {:induction false} ActionsAccepted(b: Book, marks: map<Id, real>, a: Actions)
    ensures var shares := Times(Shares(b.positions, a.symbol), a.factor);
      Act(b, marks, a).Some? <==>
        && a.factor > 0.0 && a.perShare >= 0.0 && Posted(shares)
        && a.symbol in marks && a.symbol in a.splitMarks
        && Times(Shares(b.positions, a.symbol), marks[a.symbol]) == Times(shares, a.splitMarks[a.symbol])
        && (forall s :: s in a.splitMarks ==> a.splitMarks[s] > 0.0)
        && (forall s :: s in a.entitlementMarks ==> a.entitlementMarks[s] > 0.0)
        && (forall s :: s in b.positions && s != a.symbol && b.positions[s] != 0.0 ==>
              s in a.splitMarks && s in a.entitlementMarks)
        && (shares != 0.0 ==> a.symbol in a.entitlementMarks)
  {
    hide Post, Posted;
    var shares := PostSplit(b, a);
    assert shares == Times(Shares(b.positions, a.symbol), a.factor);
    hide PostSplit;
    MarkedAfter(b.positions, a.symbol, shares, a.splitMarks);
    MarkedAfter(b.positions, a.symbol, shares, a.entitlementMarks);
    hide Marked;
  }

  lemma {:induction false} MarkedAfter(positions: map<Id, real>, symbol: Id, shares: real, marks: map<Id, real>)
    ensures Marked(positions[symbol := shares], marks) <==>
      && (forall s :: s in positions && s != symbol && positions[s] != 0.0 ==> s in marks)
      && (shares != 0.0 ==> symbol in marks)
  {
    var after := positions[symbol := shares];
    assert symbol in after && after[symbol] == shares;
    assert forall s :: s in positions && s != symbol ==> s in after && after[s] == positions[s];
  }
}
