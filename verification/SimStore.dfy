/** The simulator's backing store, `_SimState` in src/pymod/cli.py. */
module SimStore {
  import opened Basics
  import opened Errors
  import opened Pdu

  /** The four dictionaries as values. Coils hold 0 or 1. */
  datatype Store = Store(holding: map<int, int>, input: map<int, int>, coil: map<int, int>, discrete: map<int, int>)

  function Table(s: Store, area: Area): map<int, int>
  {
    match area
    case HoldingArea => s.holding
    case InputArea => s.input
    case CoilArea => s.coil
    case DiscreteArea => s.discrete
  }

  predicate Mapped(m: map<int, int>, address: int, count: nat)
  {
    forall a :: address <= a < address + count ==> a in m
  }

  function Lookup(m: map<int, int>, address: int, count: nat): (vs: seq<int>)
    requires Mapped(m, address, count)
    ensures |vs| == count
  {
    seq(count, i requires 0 <= i < count => m[address + i])
  }

  /** All of the addresses, or IllegalDataAddress if one is not mapped. */
  function StoreRead(s: Store, area: Area, address: int, count: nat): Result<seq<int>, byte>
  {
    var m := Table(s, area);
    if Mapped(m, address, count) then Ok(Lookup(m, address, count)) else Err(ILLEGAL_DATA_ADDRESS)
  }

  /** Consecutive addresses set to the given values, the dictionary growing as needed. */
  function Assign(m: map<int, int>, address: int, values: seq<int>): (m': map<int, int>)
    ensures forall a :: a in m' <==> a in m || address <= a < address + |values|
    ensures forall a :: a in m' ==> m'[a] == if address <= a < address + |values| then values[a - address] else m[a]
  {
    if values == [] then m
    else
      var n := |values| - 1;
      Assign(m, address, values[..n])[address + n := values[n]]
  }

  function StoreWrite(s: Store, area: Area, address: int, values: seq<int>): Store
  {
    match area
    case HoldingArea => s.(holding := Assign(s.holding, address, values))
    case InputArea => s.(input := Assign(s.input, address, values))
    case CoilArea => s.(coil := Assign(s.coil, address, values))
    case DiscreteArea => s.(discrete := Assign(s.discrete, address, values))
  }

  /** A write is what the next read of the same cells returns. */
  lemma ReadAfterWrite(s: Store, area: Area, address: int, values: seq<int>)
    ensures StoreRead(StoreWrite(s, area, address, values), area, address, |values|) == Ok(values)
  {
    var m := Table(StoreWrite(s, area, address, values), area);
    assert m == Assign(Table(s, area), address, values);
    assert Lookup(m, address, |values|) == values;
  }

  class SimState {
    var holding: map<int, int>
    var input: map<int, int>
    var coil: map<int, int>
    var discrete: map<int, int>

    constructor ()
      ensures View() == Store(map[], map[], map[], map[])
    {
      holding, input, coil, discrete := map[], map[], map[], map[];
    }

    function View(): Store
      reads this
    {
      Store(holding, input, coil, discrete)
    }

    method Read(area: Area, address: int, count: nat) returns (r: Result<seq<int>, byte>)
      ensures r == StoreRead(View(), area, address, count)
    {
      var store := Table(View(), area);
      var out: seq<int> := [];
      for i := 0 to count
        invariant Mapped(store, address, i) && out == Lookup(store, address, i)
      {
        if address + i !in store {
          return Err(ILLEGAL_DATA_ADDRESS);
        }
        out := out + [store[address + i]];
      }
      r := Ok(out);
    }

    method Write(area: Area, address: int, values: seq<int>)
      modifies this
      ensures View() == StoreWrite(old(View()), area, address, values)
    {
      var store := Table(View(), area);
      for i := 0 to |values|
        invariant View() == old(View())
        invariant store == Assign(Table(old(View()), area), address, values[..i])
      {
        assert values[..i + 1][..i] == values[..i];
        store := store[address + i := values[i]];
      }
      assert values[..|values|] == values;
      match area {
        case HoldingArea => holding := store;
        case InputArea => input := store;
        case CoilArea => coil := store;
        case DiscreteArea => discrete := store;
      }
    }
  }
}
