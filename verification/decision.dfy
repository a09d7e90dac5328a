/** The threshold decision (checkif in main.py): is a base worth attacking? A base
    qualifies as soon as any one tracked resource reaches its own threshold. */
module Decision {
  import opened Reading

  const GoldName: string := "Gold"
  const ElixirName: string := "Elixir"
  const DarkName: string := "Dark Elixir"

  /** The tracked resource names, in the order checkif compares them. */
  const Tracked: seq<string> := [GoldName, ElixirName, DarkName]

  /** One floor (or goal) per tracked resource. */
  datatype Levels = Levels(gold: int, elixir: int, dark: int) {
    /** The level of the `i`-th tracked resource. */
    function At(i: nat): int
      requires i < 3
    {
      if i == 0 then gold else if i == 1 then elixir else dark
    }
  }

  /** `table.get(name, 0)`: an absent entry reads as 0. */
  function Get(table: Table, name: string): nat {
    if name in table then table[name] else 0
  }

  /** checkif, as the if/elif chain of the source. The `except` branch is unreachable
      here: every value in the table is an integer, so no comparison can raise. */
  function CheckIf(th: Levels, table: Table): (ok: bool)
    ensures ok <==> exists i :: 0 <= i < 3 && Get(table, Tracked[i]) >= th.At(i)
  {
    if Get(table, GoldName) >= th.gold then
      assert Get(table, Tracked[0]) >= th.At(0);
      true
    else if Get(table, ElixirName) >= th.elixir then
      assert Get(table, Tracked[1]) >= th.At(1);
      true
    else if Get(table, DarkName) >= th.dark then
      assert Get(table, Tracked[2]) >= th.At(2);
      true
    else
      false
  }

  /** With every threshold positive, an empty table never qualifies. */
  lemma EmptyNeverQualifies(th: Levels)
    requires th.gold > 0 && th.elixir > 0 && th.dark > 0
    ensures !CheckIf(th, map[])
  {
  }

  /** Only the three tracked entries matter: tables that agree on them get the same
      answer. */
  lemma CheckIfOnlyReadsTracked(th: Levels, t1: Table, t2: Table)
    requires forall i :: 0 <= i < 3 ==> Get(t1, Tracked[i]) == Get(t2, Tracked[i])
    ensures CheckIf(th, t1) == CheckIf(th, t2)
  {
    assert Get(t1, Tracked[0]) == Get(t2, Tracked[0]);
    assert Get(t1, Tracked[1]) == Get(t2, Tracked[1]);
    assert Get(t1, Tracked[2]) == Get(t2, Tracked[2]);
  }

  /** More loot never turns a qualifying base into a non-qualifying one. */
  lemma CheckIfMonotone(th: Levels, t1: Table, t2: Table)
    requires forall i :: 0 <= i < 3 ==> Get(t1, Tracked[i]) <= Get(t2, Tracked[i])
    requires CheckIf(th, t1)
    ensures CheckIf(th, t2)
  {
  }
}
