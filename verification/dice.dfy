/**
  The dice roller of the `dice` command.

  The random source is a parameter: `draws` is the stream of results the
  source returns for successive draws from the inclusive range [1, sides],
  consumed in call order, `count` of them per roll.
 */
module Dice {
  import opened Command

  /** One printed roll: the individual die values and their total. */
  datatype Roll = Roll(values: seq<int>, total: int)

  /** The average line: the sum of the totals divided by how many there are. */
  datatype Mean = Mean(sum: int, over: int)

  /** Everything the command prints: the rolls in order and the optional average line. */
  datatype Report = Report(rolls: seq<Roll>, average: Option<Mean>)

  /** The bounds the command accepts: at least one die, two sides and one roll. */
  predicate Accepted(count: int, sides: int, rolls: int)
  {
    count >= 1 && sides >= 2 && rolls >= 1
  }

  /** Every value is a face of a die with `sides` sides. */
  predicate Faces(sides: int, xs: seq<int>)
  {
    forall i :: 0 <= i < |xs| ==> 1 <= xs[i] <= sides
  }

  function Sum(xs: seq<int>): int
  {
    if |xs| == 0 then 0 else xs[0] + Sum(xs[1..])
  }

  /** All printed die values, roll after roll. */
  function Flatten(rs: seq<Roll>): seq<int>
  {
    if |rs| == 0 then [] else rs[0].values + Flatten(rs[1..])
  }

  /** The totals collected for the average line, one per roll, in roll order. */
  function Totals(rs: seq<Roll>): (ts: seq<int>)
    ensures |ts| == |rs|
    ensures forall i :: 0 <= i < |rs| ==> ts[i] == rs[i].total
  {
    if |rs| == 0 then [] else [rs[0].total] + Totals(rs[1..])
  }

  /** `n` rolls of `count` dice, each roll taking the next `count` draws. */
  function RollAll(count: nat, n: nat, draws: seq<int>): (rs: seq<Roll>)
    requires n * count <= |draws|
    ensures |rs| == n
    ensures forall i :: 0 <= i < n ==> |rs[i].values| == count
  {
    if n == 0 then []
    else
      assert (n - 1) * count == n * count - count;
      var values := draws[..count];
      [Roll(values, Sum(values))] + RollAll(count, n - 1, draws[count..])
  }

  /** The whole command: the bounds check, the rolls and the average line. */
  function RollDice(count: int, sides: int, rolls: int, draws: seq<int>): (r: Run<Report>)
    requires Accepted(count, sides, rolls) ==> rolls * count <= |draws| && Faces(sides, draws)
    ensures r.Exit? <==> !Accepted(count, sides, rolls)
    ensures r.Exit? ==> r.status == BadBounds
    ensures r.Ran? ==> |r.value.rolls| == rolls
    ensures r.Ran? ==> (r.value.average.Some? <==> rolls > 1)
    ensures r.Ran? && r.value.average.Some? ==> r.value.average.value.over == rolls
  {
    if !Accepted(count, sides, rolls) then
      Exit(BadBounds)
    else
      var rs := RollAll(count, rolls, draws);
      var totals := Totals(rs);
      Ran(Report(rs, if rolls > 1 then Some(Mean(Sum(totals), |totals|)) else None))
  }

  lemma {:induction false} SumConcat(a: seq<int>, b: seq<int>)
    ensures Sum(a + b) == Sum(a) + Sum(b)
    decreases |a|
  {
    if |a| > 0 {
      assert (a + b)[1..] == a[1..] + b;
      SumConcat(a[1..], b);
    } else {
      assert a + b == b;
    }
  }

  /** A sum of die faces lies between the number of dice and that number times the sides. */
  lemma {:induction false} SumBounds(sides: int, xs: seq<int>)
    requires Faces(sides, xs)
    ensures |xs| <= Sum(xs) <= |xs| * sides
    decreases |xs|
  {
    if |xs| > 0 {
      assert Faces(sides, xs[1..]) by {
        forall i | 0 <= i < |xs| - 1
          ensures 1 <= xs[1..][i] <= sides
        {
          assert xs[1..][i] == xs[i + 1];
        }
      }
      SumBounds(sides, xs[1..]);
      assert (|xs| - 1) * sides + sides == |xs| * sides;
    }
  }

  /** The rolls print exactly the draws they consume, in order. */
  lemma {:induction false} RollAllConsumes(count: nat, n: nat, draws: seq<int>)
    requires n * count <= |draws|
    ensures Flatten(RollAll(count, n, draws)) == draws[..n * count]
    decreases n
  {
    if n > 0 {
      assert (n - 1) * count == n * count - count;
      var rs := RollAll(count, n, draws);
      var rest := RollAll(count, n - 1, draws[count..]);
      RollAllConsumes(count, n - 1, draws[count..]);
      assert rs == [Roll(draws[..count], Sum(draws[..count]))] + rest;
      assert rs[1..] == rest;
      assert draws[..n * count] == draws[..count] + draws[count..][..(n - 1) * count];
    }
  }

  /** Each roll's values are die faces and its total is their sum, so between `count` and `count * sides`. */
  lemma {:induction false} RollAllBounds(count: nat, sides: int, n: nat, draws: seq<int>)
    requires n * count <= |draws| && Faces(sides, draws)
    ensures forall i :: 0 <= i < n ==>
              var roll := RollAll(count, n, draws)[i];
              Faces(sides, roll.values) && roll.total == Sum(roll.values)
              && count <= roll.total <= count * sides
    decreases n
  {
    if n > 0 {
      assert (n - 1) * count == n * count - count;
      var rs := RollAll(count, n, draws);
      var rest := RollAll(count, n - 1, draws[count..]);
      assert Faces(sides, draws[count..]) by {
        assert forall k :: 0 <= k < |draws| - count ==> draws[count..][k] == draws[count + k];
      }
      RollAllBounds(count, sides, n - 1, draws[count..]);
      assert rs == [Roll(draws[..count], Sum(draws[..count]))] + rest;
      assert Faces(sides, draws[..count]) by {
        assert forall k :: 0 <= k < count ==> draws[..count][k] == draws[k];
      }
      SumBounds(sides, draws[..count]);
      forall i | 0 <= i < n
        ensures Faces(sides, rs[i].values) && rs[i].total == Sum(rs[i].values)
        ensures count <= rs[i].total <= count * sides
      {
        if i > 0 {
          assert rs[i] == rest[i - 1];
        }
      }
    }
  }

  /** The totals of the rolls add up to the sum of all the draws they consumed. */
  lemma {:induction false} RollAllSum(count: nat, n: nat, draws: seq<int>)
    requires n * count <= |draws|
    ensures Sum(Totals(RollAll(count, n, draws))) == Sum(draws[..n * count])
    decreases n
  {
    if n > 0 {
      assert (n - 1) * count == n * count - count;
      var rs := RollAll(count, n, draws);
      var rest := RollAll(count, n - 1, draws[count..]);
      RollAllSum(count, n - 1, draws[count..]);
      assert rs == [Roll(draws[..count], Sum(draws[..count]))] + rest;
      assert Totals(rs) == [Sum(draws[..count])] + Totals(rest);
      assert Sum(Totals(rs)) == Sum(draws[..count]) + Sum(Totals(rest));
      assert draws[..n * count] == draws[..count] + draws[count..][..(n - 1) * count];
      SumConcat(draws[..count], draws[count..][..(n - 1) * count]);
    }
  }

  /**
    The rolls of an accepted call: `rolls` of them, each of exactly `count`
    values, together printing the first `rolls * count` draws in order; each
    value is a face of the die and each total is the sum of its roll's
    values, so it lies between `count` and `count * sides`.
   */
  lemma DiceRolls(count: int, sides: int, rolls: int, draws: seq<int>)
    requires Accepted(count, sides, rolls)
    requires rolls * count <= |draws| && Faces(sides, draws)
    ensures var r := RollDice(count, sides, rolls, draws);
            r.Ran? && Flatten(r.value.rolls) == draws[..rolls * count]
    ensures var r := RollDice(count, sides, rolls, draws);
            r.Ran? && forall i :: 0 <= i < rolls ==>
              var roll := r.value.rolls[i];
              |roll.values| == count && Faces(sides, roll.values)
              && roll.total == Sum(roll.values) && count <= roll.total <= count * sides
  {
    assert RollDice(count, sides, rolls, draws).value.rolls == RollAll(count, rolls, draws);
    RollAllConsumes(count, rolls, draws);
    RollAllBounds(count, sides, rolls, draws);
  }

  /**
    The average line of an accepted call with several rolls divides the sum
    of all consumed draws by the number of rolls, so it lies between `count`
    and `count * sides`.
   */
  lemma DiceAverage(count: int, sides: int, rolls: int, draws: seq<int>)
    requires Accepted(count, sides, rolls) && rolls > 1
    requires rolls * count <= |draws| && Faces(sides, draws)
    ensures var r := RollDice(count, sides, rolls, draws);
            r.Ran? && r.value.average.Some?
            && r.value.average.value == Mean(Sum(Totals(r.value.rolls)), rolls)
            && r.value.average.value.sum == Sum(draws[..rolls * count])
    ensures var m := RollDice(count, sides, rolls, draws).value.average.value;
            count * m.over <= m.sum <= count * sides * m.over
  {
    var r := RollDice(count, sides, rolls, draws);
    RollAllSum(count, rolls, draws);
    var used := draws[..rolls * count];
    assert Faces(sides, used);
    SumBounds(sides, used);
    ProductOrder(count, sides, rolls);
  }

  /** The number of draws the rolls consume, and their largest possible sum, counted two ways. */
  lemma ProductOrder(count: int, sides: int, rolls: int)
    ensures rolls * count == count * rolls
    ensures rolls * count * sides == count * sides * rolls
  {
  }

  /** Two six-sided dice, one roll drawing 3 and 5: total 8 and no average line. */
  lemma ScenarioSingleRoll()
    ensures RollDice(2, 6, 1, [3, 5]) == Ran(Report([Roll([3, 5], 8)], None))
  {
    var draws := [3, 5];
    assert draws[..2] == [3, 5];
    assert Sum([3, 5]) == 8;
    assert RollAll(2, 0, draws[2..]) == [];
    assert RollAll(2, 1, draws) == [Roll([3, 5], 8)];
  }

  /** One six-sided die rolled three times for 2, 4, 6: the average is 12 / 3 = 4. */
  lemma ScenarioAverage()
    ensures RollDice(1, 6, 3, [2, 4, 6]).value.average == Some(Mean(12, 3))
  {
  }

  /** No dice: rejected with status 1 before anything is drawn. */
  lemma ScenarioNoDice()
    ensures RollDice(0, 6, 1, []) == Exit(1)
  {
  }
}
