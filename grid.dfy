/**
 * The life grid: one block per week of a 90-year life, each rendered as an
 * element whose `class` attribute says whether the week is lived or
 * remaining and whether it is the current week (`renderBlocks`).
 */
module Grid {
  import Strings
  import Weeks

  const LifeExpectancyYears: int := 90
  const WeeksPerYear: int := 52
  const TotalWeeks: int := LifeExpectancyYears * WeeksPerYear

  /** One rendered block: the element's `key` and its `className`. */
  datatype Block = Block(key: int, className: string)

  /** `age * WEEKS_PER_YEAR + currentWeekOfYear`: the index lived blocks stop at. */
  function CurrentWeekIndex(age: int, currentWeekOfYear: int): int
  {
    age * WeeksPerYear + currentWeekOfYear
  }

  /** Lived blocks are those strictly before the current week index. */
  predicate IsLived(i: int, age: int, currentWeekOfYear: int)
  {
    i < CurrentWeekIndex(age, currentWeekOfYear)
  }

  /** Block `i` is current when its (year, week) split is (age, currentWeekOfYear). */
  predicate IsCurrentWeek(i: int, age: int, currentWeekOfYear: int)
  {
    i / WeeksPerYear == age && i % WeeksPerYear == currentWeekOfYear
  }

  /**
   * The block's class string, `block <lived|remaining> <current-week|>`:
   * its space-separated pieces are exactly `block`, the lived state, and
   * `current-week` or an empty piece.
   */
  function ClassName(isLived: bool, isCurrentWeek: bool): (s: string)
    ensures Strings.Split(s, ' ')
         == ["block", if isLived then "lived" else "remaining", if isCurrentWeek then "current-week" else ""]
  {
    var state := if isLived then "lived" else "remaining";
    var current := if isCurrentWeek then "current-week" else "";
    SplitThreeWords("block", state, current);
    "block" + " " + state + " " + current
  }

  /** A class selector `.name` matches an element whose space-separated `class` list holds `name`. */
  predicate HasClass(className: string, name: string)
  {
    name != "" && name in Strings.Split(className, ' ')
  }

  /** The block rendered at index `i`: keyed `i`, its classes naming its two flags. */
  function BlockAt(i: int, age: int, currentWeekOfYear: int): (b: Block)
    ensures b.key == i
    ensures HasClass(b.className, "block")
    ensures HasClass(b.className, "lived") <==> IsLived(i, age, currentWeekOfYear)
    ensures HasClass(b.className, "remaining") <==> !IsLived(i, age, currentWeekOfYear)
    ensures HasClass(b.className, "current-week") <==> IsCurrentWeek(i, age, currentWeekOfYear)
  {
    var isLived, isCurrentWeek := IsLived(i, age, currentWeekOfYear), IsCurrentWeek(i, age, currentWeekOfYear);
    ClassNameFlags(isLived, isCurrentWeek);
    Block(i, ClassName(isLived, isCurrentWeek))
  }

  /** The whole grid, the specification of `RenderBlocks`: `TotalWeeks` = 4680 blocks keyed by their index, in order. */
  function Blocks(age: int, currentWeekOfYear: int): (bs: seq<Block>)
    ensures |bs| == TotalWeeks == 4680
    ensures forall i :: 0 <= i < TotalWeeks ==> bs[i].key == i
  {
    seq(TotalWeeks, i requires 0 <= i < TotalWeeks => BlockAt(i, age, currentWeekOfYear))
  }

  /** `renderBlocks`: pushes one block per week, in index order. */
  method RenderBlocks(age: int, currentWeekOfYear: int) returns (blocks: seq<Block>)
    ensures blocks == Blocks(age, currentWeekOfYear)
  {
    var currentWeekIndex := age * WeeksPerYear + currentWeekOfYear;
    blocks := [];
    for i := 0 to TotalWeeks
      invariant |blocks| == i
      invariant forall k :: 0 <= k < i ==> blocks[k] == BlockAt(k, age, currentWeekOfYear)
    {
      var yearIndex := i / WeeksPerYear;
      var weekIndex := i % WeeksPerYear;
      var isCurrentWeek := yearIndex == age && weekIndex == currentWeekOfYear;
      var isLived := i < currentWeekIndex;
      blocks := blocks + [Block(i, ClassName(isLived, isCurrentWeek))];
    }
  }

  /** Three space-free words joined by single spaces split back into those words. */
  lemma {:induction false} SplitThreeWords(a: string, b: string, c: string)
    requires ' ' !in a && ' ' !in b && ' ' !in c
    ensures Strings.Split(a + " " + b + " " + c, ' ') == [a, b, c]
  {
    assert a + " " + b + " " + c == a + [' '] + (b + [' '] + c);
    Strings.SplitAfter(a, ' ', b + [' '] + c);
    Strings.SplitAfter(b, ' ', c);
    Strings.SplitNoSeparator(c, ' ');
  }

  /**
   * Reading the class string back gives the two flags: `.lived` matches
   * exactly the lived blocks, `.remaining` exactly the others, and
   * `.current-week` exactly the current one.
   */
  lemma ClassNameFlags(isLived: bool, isCurrentWeek: bool)
    ensures HasClass(ClassName(isLived, isCurrentWeek), "block")
    ensures HasClass(ClassName(isLived, isCurrentWeek), "lived") <==> isLived
    ensures HasClass(ClassName(isLived, isCurrentWeek), "remaining") <==> !isLived
    ensures HasClass(ClassName(isLived, isCurrentWeek), "current-week") <==> isCurrentWeek
  {
  }

  /** Block `i` is the current week exactly when the current week is inside the grid and `i` is its index. */
  lemma CurrentWeekAt(i: int, age: int, currentWeekOfYear: int)
    requires 0 <= i < TotalWeeks
    ensures IsCurrentWeek(i, age, currentWeekOfYear)
        <==> 0 <= age < LifeExpectancyYears && 0 <= currentWeekOfYear < WeeksPerYear
             && i == CurrentWeekIndex(age, currentWeekOfYear)
  {
    if 0 <= age < LifeExpectancyYears && 0 <= currentWeekOfYear < WeeksPerYear
       && i == CurrentWeekIndex(age, currentWeekOfYear)
    {
      assert i / WeeksPerYear == age && i % WeeksPerYear == currentWeekOfYear;
    }
  }

  /** Every block is either `lived` or `remaining` and never both; `current-week` marks exactly the current index. */
  lemma BlockClasses(age: int, currentWeekOfYear: int, i: int)
    requires 0 <= i < TotalWeeks
    ensures var b := Blocks(age, currentWeekOfYear)[i];
      HasClass(b.className, "block")
      && (HasClass(b.className, "lived") <==> i < CurrentWeekIndex(age, currentWeekOfYear))
      && (HasClass(b.className, "remaining") <==> !HasClass(b.className, "lived"))
      && (HasClass(b.className, "current-week")
          <==> 0 <= age < LifeExpectancyYears && 0 <= currentWeekOfYear < WeeksPerYear
               && i == CurrentWeekIndex(age, currentWeekOfYear))
  {
    CurrentWeekAt(i, age, currentWeekOfYear);
  }

  /** There is a current block exactly when age is in [0, 90) and the week of the year in [0, 52). */
  lemma CurrentBlockExists(age: int, currentWeekOfYear: int)
    ensures (exists i :: 0 <= i < TotalWeeks && HasClass(Blocks(age, currentWeekOfYear)[i].className, "current-week"))
        <==> 0 <= age < LifeExpectancyYears && 0 <= currentWeekOfYear < WeeksPerYear
  {
    if 0 <= age < LifeExpectancyYears && 0 <= currentWeekOfYear < WeeksPerYear {
      var i := CurrentWeekIndex(age, currentWeekOfYear);
      BlockClasses(age, currentWeekOfYear, i);
    } else {
      forall i | 0 <= i < TotalWeeks
        ensures !HasClass(Blocks(age, currentWeekOfYear)[i].className, "current-week")
      {
        BlockClasses(age, currentWeekOfYear, i);
      }
    }
  }

  /** At most one block is current. */
  lemma AtMostOneCurrentBlock(age: int, currentWeekOfYear: int, i: int, j: int)
    requires 0 <= i < TotalWeeks && 0 <= j < TotalWeeks
    requires HasClass(Blocks(age, currentWeekOfYear)[i].className, "current-week")
    requires HasClass(Blocks(age, currentWeekOfYear)[j].className, "current-week")
    ensures i == j
  {
    BlockClasses(age, currentWeekOfYear, i);
    BlockClasses(age, currentWeekOfYear, j);
  }

  /** The current block is never lived: it is drawn as a remaining week. */
  lemma CurrentBlockIsRemaining(age: int, currentWeekOfYear: int, i: int)
    requires 0 <= i < TotalWeeks
    requires HasClass(Blocks(age, currentWeekOfYear)[i].className, "current-week")
    ensures !HasClass(Blocks(age, currentWeekOfYear)[i].className, "lived")
    ensures HasClass(Blocks(age, currentWeekOfYear)[i].className, "remaining")
  {
    BlockClasses(age, currentWeekOfYear, i);
  }

  /** Lived blocks form a prefix of the grid. */
  lemma LivedPrefix(age: int, currentWeekOfYear: int, i: int, j: int)
    requires 0 <= i <= j < TotalWeeks
    requires HasClass(Blocks(age, currentWeekOfYear)[j].className, "lived")
    ensures HasClass(Blocks(age, currentWeekOfYear)[i].className, "lived")
  {
    BlockClasses(age, currentWeekOfYear, i);
    BlockClasses(age, currentWeekOfYear, j);
  }

  /** Number of blocks of `blocks` that carry the `lived` class. */
  function CountLived(blocks: seq<Block>): nat
  {
    if |blocks| == 0 then 0
    else CountLived(blocks[..|blocks| - 1]) + (if HasClass(blocks[|blocks| - 1].className, "lived") then 1 else 0)
  }

  function Clamp(x: int, lo: int, hi: int): int
  {
    if x < lo then lo else if x > hi then hi else x
  }

  /** Among the first `n` blocks, the lived ones number the current week index, clamped to [0, n]. */
  lemma {:induction false} CountLivedPrefix(age: int, currentWeekOfYear: int, n: nat)
    requires n <= TotalWeeks
    ensures CountLived(Blocks(age, currentWeekOfYear)[..n]) == Clamp(CurrentWeekIndex(age, currentWeekOfYear), 0, n)
  {
    if n > 0 {
      var bs := Blocks(age, currentWeekOfYear);
      assert bs[..n][..n - 1] == bs[..n - 1];
      CountLivedPrefix(age, currentWeekOfYear, n - 1);
      BlockClasses(age, currentWeekOfYear, n - 1);
    }
  }

  /** The grid shows as many lived blocks as the current week index, clamped to the grid. */
  lemma LivedCount(age: int, currentWeekOfYear: int)
    ensures CountLived(Blocks(age, currentWeekOfYear)) == Clamp(CurrentWeekIndex(age, currentWeekOfYear), 0, TotalWeeks)
  {
    var bs := Blocks(age, currentWeekOfYear);
    assert bs[..TotalWeeks] == bs;
    CountLivedPrefix(age, currentWeekOfYear, TotalWeeks);
  }

  /**
   * On the last day or two of a calendar year the week of the year is 52,
   * which no block's week split can equal, so no block is current.
   */
  lemma NoCurrentBlockAtYearEnd(age: int, startOfYearMs: int, todayMs: int, i: int)
    requires 364 * Weeks.MsPerDay <= todayMs - startOfYearMs < 366 * Weeks.MsPerDay
    requires 0 <= i < TotalWeeks
    ensures !HasClass(Blocks(age, Weeks.WeekOfYear(startOfYearMs, todayMs))[i].className, "current-week")
  {
    Weeks.WeekOfYearReaches52(startOfYearMs, todayMs);
    BlockClasses(age, Weeks.WeekOfYear(startOfYearMs, todayMs), i);
  }

  /**
   * Born in 2000, viewed on 1 January 2024: any instant of that first day,
   * `t` milliseconds after the start of the year, is week 0; with age 24
   * that is index 1248. Blocks 0 to 1247 are lived, block 1248 is the
   * current (remaining) week.
   */
  lemma BornIn2000ViewedOnNewYear2024(startOfYearMs: int, t: int, i: int)
    requires 0 <= t < Weeks.MsPerDay
    requires 0 <= i < TotalWeeks
    ensures Weeks.WeekOfYear(startOfYearMs, startOfYearMs + t) == 0
    ensures CurrentWeekIndex(2024 - 2000, Weeks.WeekOfYear(startOfYearMs, startOfYearMs + t)) == 1248
    ensures HasClass(Blocks(24, 0)[i].className, "lived") <==> i < 1248
    ensures HasClass(Blocks(24, 0)[i].className, "current-week") <==> i == 1248
  {
    BlockClasses(24, 0, i);
  }
}
