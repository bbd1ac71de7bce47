/** Analog: a fixed number of float cells, addressed by index, each cell an
    AtomicFloat holding the bits of the float last set in it. */
module AnalogCells {
  import opened Wire

  class Analog {
    /** The number of cells, fixed at construction. */
    const count: int32
    /** The cells; cell i holds the bits of the float last set at i. */
    const cells: array<FloatBits>

    ghost predicate Valid()
      reads this
    {
      cells.Length == count
    }

    /** `new Analog(count)` for a count the array allocation accepts: every
        cell is a fresh AtomicFloat, which holds 0. */
    constructor (count: int32)
      requires count >= 0
      ensures Valid() && this.count == count && fresh(cells)
      ensures forall i :: 0 <= i < cells.Length ==> cells[i] == 0
    {
      this.count := count;
      cells := new FloatBits[count];
      new;
      var i := 0;
      while i < cells.Length
        invariant 0 <= i <= cells.Length
        invariant forall j :: 0 <= j < i ==> cells[j] == 0
      {
        cells[i] := 0;
        i := i + 1;
      }
    }

    /** `set(i, value)`: the array access throws for an index outside
        [0, count); otherwise only cell i changes. */
    method Set(i: int32, value: FloatBits) returns (r: Result<()>)
      requires Valid()
      modifies cells
      ensures r.Ok? <==> 0 <= i < count
      ensures r.Err? ==> r.error == ArrayIndexOutOfBoundsException && cells[..] == old(cells[..])
      ensures r.Ok? ==> cells[i] == value
      ensures forall j :: 0 <= j < cells.Length && j != i ==> cells[j] == old(cells[j])
    {
      if i < 0 || i >= count {
        return Err(ArrayIndexOutOfBoundsException);
      }
      cells[i] := value;
      r := Ok(());
    }

    /** `get(i)`: the bits held in cell i, or the exception for an index
        outside [0, count). */
    method Get(i: int32) returns (r: Result<FloatBits>)
      requires Valid()
      ensures r.Ok? <==> 0 <= i < count
      ensures r.Err? ==> r.error == ArrayIndexOutOfBoundsException
      ensures r.Ok? ==> r.value == cells[i]
    {
      if i < 0 || i >= count {
        return Err(ArrayIndexOutOfBoundsException);
      }
      r := Ok(cells[i]);
    }
  }

  /** `new Analog(count)` for any count: a negative size makes the array
      allocation throw before any cell exists. */
  method NewAnalog(count: int32) returns (r: Result<Analog>)
    ensures r.Ok? <==> count >= 0
    ensures r.Err? ==> r.error == NegativeArraySizeException
    ensures r.Ok? ==> r.value.Valid() && r.value.count == count && fresh(r.value) && fresh(r.value.cells)
    ensures r.Ok? ==> forall i :: 0 <= i < r.value.cells.Length ==> r.value.cells[i] == 0
  {
    if count < 0 {
      return Err(NegativeArraySizeException);
    }
    var a := new Analog(count);
    r := Ok(a);
  }

  /** A set followed by a get at the same index returns the value set, and a
      get at any other index returns what it returned before. */
  method SetThenGet(a: Analog, i: int32, j: int32, value: FloatBits)
      returns (before: Result<FloatBits>, after: Result<FloatBits>)
    requires a.Valid()
    modifies a.cells
    ensures i == j && 0 <= i < a.count ==> after == Ok(value)
    ensures i != j ==> after == before
  {
    before := a.Get(j);
    var _ := a.Set(i, value);
    after := a.Get(j);
  }
}
