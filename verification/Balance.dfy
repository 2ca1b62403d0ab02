/** The balance line: confirmed transfers undone one by one from today's value, never below zero. */
module Balance {
  import opened Wrappers
  import opened Sorting
  import opened Decimal

  /** A transfer row. A time that does not parse, and a value the backend never froze, are None. */
  datatype Row = Row(
    confirmed: bool, sends: bool, at: Option<int>, frozen: Option<real>, mint: string, amount: nat,
    decimals: Option<nat>)

  datatype Step = Step(at: int, delta: real)
  datatype Point = Point(at: int, value: real)

  const FALLBACK_DECIMALS: nat := 6

  function HoldingsValue(row: Row, prices: map<string, real>, decimalsByMint: map<string, nat>): Option<real> {
    if row.mint !in prices then None
    else
      var decimals := if row.decimals.Some? then row.decimals.value
                      else if row.mint in decimalsByMint then decimalsByMint[row.mint]
                      else FALLBACK_DECIMALS;
      Some(row.amount as real / Pow10(decimals) as real * prices[row.mint])
  }

  /** A row's step on the line, or None when it has none. */
  function StepOf(row: Row, prices: map<string, real>, decimalsByMint: map<string, nat>): Option<Step> {
    var value := if row.frozen.Some? then row.frozen else HoldingsValue(row, prices, decimalsByMint);
    if !row.confirmed || value.None? || row.at.None? then None
    else Some(Step(row.at.value, if row.sends then -value.value else value.value))
  }

  function StepsOf(rows: seq<Row>, prices: map<string, real>, decimalsByMint: map<string, nat>): seq<Step> {
    if rows == [] then []
    else Listed(StepOf(rows[0], prices, decimalsByMint)) + StepsOf(rows[1..], prices, decimalsByMint)
  }

  const NEWER: (Step, Step) -> bool := (a: Step, b: Step) => b.at < a.at

  function Max(a: real, b: real): real {
    if a >= b then a else b
  }

  /** The value just before the k newest steps. */
  function Running(total: real, steps: seq<Step>, k: nat): real
    requires k <= |steps|
  {
    if k == 0 then total else Max(0.0, Running(total, steps, k - 1) - steps[k - 1].delta)
  }

  function PointsBefore(total: real, now: int, steps: seq<Step>, k: nat): (r: seq<Point>)
    requires k <= |steps|
    ensures |r| == k + 1
    ensures r[0] == Point(now, total)
    ensures forall i :: 0 < i <= k ==> r[i] == Point(steps[i - 1].at, Running(total, steps, i - 1))
  {
    if k == 0 then [Point(now, total)]
    else PointsBefore(total, now, steps, k - 1) + [Point(steps[k - 1].at, Running(total, steps, k - 1))]
  }

  function Reverse<T>(s: seq<T>): (r: seq<T>)
    ensures |r| == |s|
    ensures forall i :: 0 <= i < |s| ==> r[i] == s[|s| - 1 - i]
  {
    if s == [] then [] else Reverse(s[1..]) + [s[0]]
  }

  /** The whole line, oldest point first. */
  function Line(total: real, now: int, steps: seq<Step>): seq<Point> {
    if steps == [] then []
    else
      var n := |steps|;
      Reverse(PointsBefore(total, now, steps, n) + [Point(steps[n - 1].at - 1, Running(total, steps, n))])
  }

  method SelectBalanceHistory(
    rows: seq<Row>, total: real, prices: map<string, real>, decimalsByMint: map<string, nat>, now: int)
    returns (line: seq<Point>)
    ensures line == Line(total, now, Sort(NEWER, StepsOf(rows, prices, decimalsByMint)))
  {
    if |rows| == 0 { return []; }
    var steps := Sort(NEWER, StepsOf(rows, prices, decimalsByMint));
    if |steps| == 0 { return []; }
    line := WalkBack(total, now, steps);
  }

  method WalkBack(total: real, now: int, steps: seq<Step>) returns (line: seq<Point>)
    requires steps != []
    ensures line == Line(total, now, steps)
  {
    var points := [Point(now, total)];
    var running := total;
    for i := 0 to |steps|
      invariant running == Running(total, steps, i)
      invariant points == PointsBefore(total, now, steps, i)
    {
      points := points + [Point(steps[i].at, running)];
      running := Max(0.0, running - steps[i].delta);
    }
    points := points + [Point(steps[|steps| - 1].at - 1, running)];
    line := Reverse(points);
  }

  // ---- the closed form ----

  /** The sum of the k newest deltas. */
  function Sum(steps: seq<Step>, k: nat): real
    requires k <= |steps|
  {
    if k == 0 then 0.0 else Sum(steps, k - 1) + steps[k - 1].delta
  }

  /** The largest of the first k partial sums. */
  function Peak(steps: seq<Step>, k: nat): (r: real)
    requires 1 <= k <= |steps|
    ensures forall j :: 1 <= j <= k ==> Sum(steps, j) <= r
    ensures exists j :: 1 <= j <= k && Sum(steps, j) == r
  {
    if k == 1 then Sum(steps, 1) else Max(Peak(steps, k - 1), Sum(steps, k))
  }

  /**
   * Undoing k steps with the clamp leaves the larger of the unclamped value and the rise
   * from the highest sum since.
   */
  lemma {:induction false} ClosedForm(total: real, steps: seq<Step>, k: nat)
    requires 1 <= k <= |steps|
    ensures Running(total, steps, k) == Max(total - Sum(steps, k), Peak(steps, k) - Sum(steps, k))
  {
    if k > 1 {
      ClosedForm(total, steps, k - 1);
    } else {
      assert Running(total, steps, 0) == total;
    }
  }

  predicate NeverAbove(steps: seq<Step>, total: real) {
    forall j :: 1 <= j <= |steps| ==> Sum(steps, j) <= total
  }

  /** The unclamped walk is exact just when no partial sum exceeds today's value. */
  lemma NoClampIff(total: real, steps: seq<Step>)
    requires steps != []
    ensures Running(total, steps, |steps|) + Sum(steps, |steps|) == total <==> NeverAbove(steps, total)
  {
    var n := |steps|;
    ClosedForm(total, steps, n);
  }

  /** The balance after the steps, newest first, from what there was before any of them. */
  function Replay(start: real, steps: seq<Step>): real {
    if steps == [] then start else Replay(start, steps[1..]) + steps[0].delta
  }

  /** A history that is all there and never overdrawn is recovered exactly, point by point. */
  lemma {:induction false} WalkBackUndoesReplay(start: real, steps: seq<Step>, k: nat)
    requires k <= |steps|
    requires forall i :: 0 <= i <= |steps| ==> Replay(start, steps[i..]) >= 0.0
    ensures Running(Replay(start, steps), steps, k) == Replay(start, steps[k..])
  {
    if k == 0 {
      assert steps[0..] == steps;
    } else {
      WalkBackUndoesReplay(start, steps, k - 1);
      assert steps[k - 1..][1..] == steps[k..];
    }
  }

  // ---- what the rows come to ----

  /** A row the line can show: settled at a known time, and worth something known. */
  predicate Shown(row: Row, prices: map<string, real>) {
    row.confirmed && row.at.Some? && (row.frozen.Some? || row.mint in prices)
  }

  /** What the backend froze, and otherwise the whole amount at today's price. */
  function Worth(row: Row, prices: map<string, real>, decimalsByMint: map<string, nat>): real
    requires Shown(row, prices)
  {
    match row.frozen
    case Some(value) => value
    case None =>
      var scale := match row.decimals
                   case Some(n) => Pow10(n)
                   case None => if row.mint in decimalsByMint then Pow10(decimalsByMint[row.mint]) else 1_000_000;
      row.amount as real / scale as real * prices[row.mint]
  }

  /** All that was sent, or all that was received, over the rows shown. */
  function Moved(rows: seq<Row>, sends: bool, prices: map<string, real>, decimalsByMint: map<string, nat>): real {
    if rows == [] then 0.0
    else
      Moved(rows[1..], sends, prices, decimalsByMint)
      + if Shown(rows[0], prices) && rows[0].sends == sends then Worth(rows[0], prices, decimalsByMint) else 0.0
  }

  /** Each row shown is one step, down by its worth if it sends and up if it does not; no other row is a step. */
  lemma RowSteps(row: Row, prices: map<string, real>, decimalsByMint: map<string, nat>)
    ensures StepsOf([row], prices, decimalsByMint)
         == if !Shown(row, prices) then []
            else var worth := Worth(row, prices, decimalsByMint);
                 [Step(row.at.value, if row.sends then 0.0 - worth else worth)]
  {
    TenToTheSix();
    assert [row][1..] == [];
    var step := StepOf(row, prices, decimalsByMint);
    assert StepsOf([row], prices, decimalsByMint) == Listed(step);
    if Shown(row, prices) {
      var worth := Worth(row, prices, decimalsByMint);
      assert step.Some? && step.value.at == row.at.value;
      assert step.value.delta == if row.sends then 0.0 - worth else worth;
    }
  }

  lemma TenToTheSix()
    ensures Pow10(6) == 1_000_000
  {
    assert Pow10(3) == 1_000;
  }

  lemma {:induction false} SumCons(x: Step, steps: seq<Step>, k: nat)
    requires k <= |steps|
    ensures Sum([x] + steps, k + 1) == x.delta + Sum(steps, k)
  {
    if k > 0 { SumCons(x, steps, k - 1); }
  }

  lemma {:induction false} InsertSum(x: Step, steps: seq<Step>)
    ensures var all := Insert(NEWER, x, steps);
            |all| == |steps| + 1 && Sum(all, |all|) == x.delta + Sum(steps, |steps|)
  {
    SumCons(x, steps, |steps|);
    if steps != [] && NEWER(steps[0], x) {
      InsertSum(x, steps[1..]);
      SumCons(steps[0], Insert(NEWER, x, steps[1..]), |steps|);
      SumCons(steps[0], steps[1..], |steps| - 1);
      assert steps == [steps[0]] + steps[1..];
    }
  }

  lemma {:induction false} SortSum(steps: seq<Step>)
    ensures |Sort(NEWER, steps)| == |steps|
    ensures Sum(Sort(NEWER, steps), |steps|) == Sum(steps, |steps|)
  {
    if steps != [] {
      SortSum(steps[1..]);
      InsertSum(steps[0], Sort(NEWER, steps[1..]));
      SumCons(steps[0], steps[1..], |steps| - 1);
      assert steps == [steps[0]] + steps[1..];
    }
  }

  lemma {:induction false} RowsSum(rows: seq<Row>, prices: map<string, real>, decimalsByMint: map<string, nat>)
    ensures var steps := StepsOf(rows, prices, decimalsByMint);
            Sum(steps, |steps|)
            == Moved(rows, false, prices, decimalsByMint) - Moved(rows, true, prices, decimalsByMint)
  {
    if rows != [] {
      RowsSum(rows[1..], prices, decimalsByMint);
      var rest := StepsOf(rows[1..], prices, decimalsByMint);
      RowSteps(rows[0], prices, decimalsByMint);
      assert [rows[0]][1..] == [];
      if Shown(rows[0], prices) {
        SumCons(StepsOf([rows[0]], prices, decimalsByMint)[0], rest, |rest|);
      } else {
        assert StepsOf(rows, prices, decimalsByMint) == rest;
      }
    }
  }

  /**
   * Undoing every row takes today's value to what it was before any of them: all that
   * was sent put back, all that was received taken off. The line's oldest point is
   * exactly there unless some later stretch of rows alone received more than there is.
   */
  lemma OldestUndoesTheRows(rows: seq<Row>, total: real, prices: map<string, real>, decimalsByMint: map<string, nat>,
                            now: int)
    ensures var steps := Sort(NEWER, StepsOf(rows, prices, decimalsByMint));
            var before := total + Moved(rows, true, prices, decimalsByMint)
                          - Moved(rows, false, prices, decimalsByMint);
            && total - Sum(steps, |steps|) == before
            && (steps != [] ==> (Line(total, now, steps)[0].value == before <==> NeverAbove(steps, total)))
  {
    var steps := StepsOf(rows, prices, decimalsByMint);
    var sorted := Sort(NEWER, steps);
    SortSum(steps);
    RowsSum(rows, prices, decimalsByMint);
    if sorted != [] {
      NoClampIff(total, sorted);
      LineAt(total, now, sorted, 0);
    }
  }

  /** What is on the line: a step for each row shown, and for nothing else. */
  lemma {:induction false} StepsAreRows(rows: seq<Row>, prices: map<string, real>, decimalsByMint: map<string, nat>,
                                        step: Step)
    ensures step in Sort(NEWER, StepsOf(rows, prices, decimalsByMint)) <==>
            exists row :: row in rows && Shown(row, prices) && row.at.value == step.at
                          && Worth(row, prices, decimalsByMint) == if row.sends then 0.0 - step.delta else step.delta
  {
    SortMembers(NEWER, StepsOf(rows, prices, decimalsByMint), step);
    if rows != [] {
      StepsAreRows(rows[1..], prices, decimalsByMint, step);
      SortMembers(NEWER, StepsOf(rows[1..], prices, decimalsByMint), step);
      RowSteps(rows[0], prices, decimalsByMint);
      assert [rows[0]][1..] == [];
      assert forall row :: row in rows <==> row == rows[0] || row in rows[1..];
    }
  }

  lemma LineAt(total: real, now: int, steps: seq<Step>, i: nat)
    requires steps != [] && i < |steps| + 2
    ensures |Line(total, now, steps)| == |steps| + 2
    ensures Line(total, now, steps)[i] ==
      if i == 0 then Point(steps[|steps| - 1].at - 1, Running(total, steps, |steps|))
      else if i == |steps| + 1 then Point(now, total)
      else Point(steps[|steps| - i].at, Running(total, steps, |steps| - i))
  {
  }

  /** No point is below zero unless today's value is, and time never runs backwards unless a row is dated after now. */
  lemma LineIsDrawable(rows: seq<Row>, total: real, prices: map<string, real>, decimalsByMint: map<string, nat>,
                       now: int)
    ensures var steps := Sort(NEWER, StepsOf(rows, prices, decimalsByMint));
            var line := Line(total, now, steps);
            && ((forall p :: p in line ==> p.value >= 0.0) <==> steps == [] || total >= 0.0)
            && (Chronological(line) <==> forall s :: s in steps ==> s.at <= now)
  {
    var steps := Sort(NEWER, StepsOf(rows, prices, decimalsByMint));
    SortIsStable(NEWER, StepsOf(rows, prices, decimalsByMint));
    if steps != [] {
      LineValues(total, now, steps);
      LineTimes(total, now, steps);
    }
  }

  lemma LineValues(total: real, now: int, steps: seq<Step>)
    requires steps != []
    ensures (forall p :: p in Line(total, now, steps) ==> p.value >= 0.0) <==> total >= 0.0
  {
    var line, n := Line(total, now, steps), |steps|;
    forall i | 0 <= i < n + 2
      ensures |line| == n + 2 && line[i].value == if i == n + 1 then total else Running(total, steps, n - i)
    {
      LineAt(total, now, steps, i);
      assert Running(total, steps, 0) == total;
    }
    assert line[n + 1] in line;
  }

  predicate Chronological(line: seq<Point>) {
    forall i, j :: 0 <= i < j < |line| ==> line[i].at <= line[j].at
  }

  lemma LineTimes(total: real, now: int, steps: seq<Step>)
    requires steps != [] && Sorted(NEWER, steps)
    ensures Chronological(Line(total, now, steps)) <==> forall s :: s in steps ==> s.at <= now
  {
    var line, n := Line(total, now, steps), |steps|;
    LineAt(total, now, steps, n);
    LineAt(total, now, steps, n + 1);
    assert steps[0] in steps;
    assert forall k :: 0 <= k < n ==> !NEWER(steps[k], steps[0]);
    if steps[0].at <= now {
      forall i, j | 0 <= i < j < n + 2 ensures line[i].at <= line[j].at {
        LineAt(total, now, steps, i);
        LineAt(total, now, steps, j);
        if 0 < i && j <= n { assert !NEWER(steps[n - i], steps[n - j]); }
        if i == 0 && j <= n && j > 1 { assert !NEWER(steps[n - 1], steps[n - j]); }
      }
    }
  }
}
