/** How many coins the blocks of a chain emit, year by year. */
module Supply {
  import opened Basics
  import opened BlockRewards
  import opened Conservation
  import Runs

  function SumOf(table: seq<Amount>): Amount {
    if table == [] then 0 else SumOf(table[..|table| - 1]) + table[|table| - 1]
  }

  lemma {:induction false} SumFromJoins(g: nat -> nat, first: nat, n: nat, m: nat)
    ensures Runs.SumFrom(g, first, n + m) == Runs.SumFrom(g, first, n) + Runs.SumFrom(g, first + n, m)
  {
    if m == 0 {
    } else {
      SumFromJoins(g, first, n, m - 1);
    }
  }

  lemma InYear(y: nat, i: nat)
    requires i < 50000
    ensures (50000 * y + i) / 50000 == y
  {}

  // Every block of a year emits what the table has for it.
  lemma {:induction false} YearEmits(table: seq<Amount>, y: nat, n: nat)
    requires y < |table| && n <= 50000
    ensures Emissions(table, 50000 * y, n) == n * table[y]
  {
    if n == 0 {
    } else {
      var m := n - 1;
      YearEmits(table, y, m);
      InYear(y, m);
      assert EmissionOf(table, 50000 * y + m) == table[y];
      assert n * table[y] == m * table[y] + table[y];
    }
  }

  // All blocks of the first years together emit fifty thousand times what the table has for
  // these years; with `Conservation.ChainConserves` that is what the coins grow by.
  lemma {:induction false} SupplyOfYears(table: seq<Amount>, y: nat)
    requires y <= |table|
    ensures Emissions(table, 0, 50000 * y) == 50000 * SumOf(table[..y])
  {
    if y == 0 {
    } else {
      var z := y - 1;
      SupplyOfYears(table, z);
      YearEmits(table, z, 50000);
      assert table[..y][..z] == table[..z];
      SumFromJoins((block: nat) => EmissionOf(table, block), 0, 50000 * z, 50000);
      assert 50000 * y == 50000 * z + 50000;
    }
  }

  // Behind the table no block emits anything.
  lemma {:induction false} NothingBehind(table: seq<Amount>, n: nat)
    ensures Emissions(table, 50000 * |table|, n) == 0
  {
    if n == 0 {
    } else {
      NothingBehind(table, n - 1);
      assert (50000 * |table| + (n - 1)) / 50000 >= |table|;
    }
  }
}
