/**
 * The columns the mapping layer creates for non-text results: an integer
 * column filled by appending, a numeric column filled by index, and a
 * category column filled by appending. Each is a name and its rows.
 */
module Columns {

  /** A column of Java ints, filled with add(value). */
  class IntColumn {
    var name: string
    var values: seq<int>

    /** IntColumn.create(name): an empty column. */
    constructor (name: string)
      ensures this.name == name && values == []
    {
      this.name := name;
      values := [];
    }

    method Add(v: int)
      modifies this
      ensures values == old(values) + [v] && name == old(name)
    {
      values := values + [v];
    }
  }

  /** The column of distances; the distance is kept as a natural number. */
  class FloatColumn {
    var name: string
    var values: seq<nat>

    /** FloatColumn.create(name): an empty column. */
    constructor (name: string)
      ensures this.name == name && values == []
    {
      this.name := name;
      values := [];
    }

    /** set(r, v): overwrite row `r`, or grow by one row when `r` is the size. */
    method Set(r: nat, v: nat)
      requires r <= |values|
      modifies this
      ensures name == old(name)
      ensures values == if r < |old(values)| then old(values)[r := v] else old(values) + [v]
    {
      if r < |values| {
        values := values[r := v];
      } else {
        values := values + [v];
      }
    }
  }

  /** A column of category-coded text, filled with add(value). */
  class CategoryColumn {
    var name: string
    var values: seq<string>

    /** CategoryColumn.create(name): an empty column. */
    constructor (name: string)
      ensures this.name == name && values == []
    {
      this.name := name;
      values := [];
    }

    method Add(v: string)
      modifies this
      ensures values == old(values) + [v] && name == old(name)
    {
      values := values + [v];
    }
  }
}
