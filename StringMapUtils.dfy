/**
 * The string mapping layer: a text column with a shared scan cursor, and the
 * operations that read it row by row to build a new derived column.
 *
 * Direct-pass operations visit rows 0 .. size-1 by index and write the result
 * of a per-row function at the same index of a fresh column. Cursor-scan
 * operations read the rows from the current cursor with hasNext()/next(),
 * append to a fresh column, and then reset the cursor. Every operation that
 * returns normally leaves the cursor at row 0.
 */
module StringMapUtils {
  import opened Wrappers
  import opened StringFunctions
  import Levenshtein
  import opened Occurrences
  import opened Columns

  /** A compiled pattern's find(): Some(group 0) of the first match, or None. */
  type Matcher = string -> Option<string>

  /** The first match of each row that has one, in row order. */
  function FirstMatches(find: Matcher, rows: seq<string>): (r: seq<string>)
    ensures |r| <= |rows|
  {
    if rows == [] then []
    else
      var init := FirstMatches(find, rows[..|rows| - 1]);
      match find(rows[|rows| - 1])
      case Some(m) => init + [m]
      case None => init
  }

  /** Every extracted value is the match found in some scanned row. */
  lemma {:induction false} FirstMatchesComeFromRows(find: Matcher, rows: seq<string>, j: nat)
    requires j < |FirstMatches(find, rows)|
    ensures exists i :: 0 <= i < |rows| && find(rows[i]) == Some(FirstMatches(find, rows)[j])
  {
    var init := rows[..|rows| - 1];
    if j < |FirstMatches(find, init)| {
      FirstMatchesComeFromRows(find, init, j);
      var i :| 0 <= i < |init| && find(init[i]) == Some(FirstMatches(find, init)[j]);
      assert init[i] == rows[i];
    } else {
      assert find(rows[|rows| - 1]) == Some(FirstMatches(find, rows)[j]);
    }
  }

  /** When every row matches, the output has one value per row, at the same position. */
  lemma {:induction false} FirstMatchesAllMatching(find: Matcher, rows: seq<string>)
    requires forall i :: 0 <= i < |rows| ==> find(rows[i]).Some?
    ensures |FirstMatches(find, rows)| == |rows|
    ensures forall i :: 0 <= i < |rows| ==> FirstMatches(find, rows)[i] == find(rows[i]).value
  {
    if rows != [] {
      var init := rows[..|rows| - 1];
      assert forall i :: 0 <= i < |init| ==> init[i] == rows[i];
      FirstMatchesAllMatching(find, init);
    }
  }

  /** The values of a run of rows that are all present. */
  function Present(rows: seq<Option<string>>): (r: seq<string>)
    requires forall i :: 0 <= i < |rows| ==> rows[i].Some?
    ensures |r| == |rows| && forall i :: 0 <= i < |rows| ==> rows[i] == Some(r[i])
  {
    seq(|rows|, i requires 0 <= i < |rows| && rows[i].Some? => rows[i].value)
  }

  /** Scanning one more row appends that row's match, if it has one. */
  lemma FirstMatchesStep(find: Matcher, rows: seq<Option<string>>, i: nat, j: nat)
    requires i < j <= |rows| && forall k :: i <= k < |rows| ==> rows[k].Some?
    ensures var m := find(rows[j - 1].value);
      FirstMatches(find, Present(rows[i..j]))
        == FirstMatches(find, Present(rows[i..j - 1])) + (if m.Some? then [m.value] else [])
  {
    var after := Present(rows[i..j]);
    assert after[..|after| - 1] == Present(rows[i..j - 1]);
  }

  /**
   * The body of the countOccurrences scan for one row: each term is searched
   * with indexOf, resuming just after every match found, and the matches of all
   * terms are added up.
   */
  method CountInRow(str: string, terms: seq<string>) returns (count: int)
    requires NonEmptyTerms(terms)
    ensures count == CountAll(str, terms)
  {
    count := 0;
    for j := 0 to |terms|
      invariant count == CountAll(str, terms[..j])
    {
      var findStr := terms[j];
      ghost var before := count;
      var lastIndex := 0;
      while lastIndex != -1
        invariant -1 <= lastIndex <= |str|
        invariant count + (if lastIndex == -1 then 0 else CountFrom(str, findStr, lastIndex))
                  == before + Count(str, findStr)
        decreases if lastIndex == -1 then 0 else |str| + 1 - lastIndex
      {
        lastIndex := IndexOf(str, findStr, lastIndex);
        if lastIndex != -1 {
          count := count + 1;
          lastIndex := lastIndex + |findStr|;
        }
      }
      CountAllStep(str, terms, j);
    }
    assert terms[..|terms|] == terms;
  }

  class TextColumn {
    var name: string
    var values: seq<Option<string>>
    /** The scan position: the index of the row next() returns. */
    var cursor: nat

    ghost predicate Valid()
      reads this
    {
      cursor <= |values|
    }

    /** Every row at or after `from` holds a value. */
    predicate PresentFrom(from: nat)
      reads this
    {
      forall i :: from <= i < |values| ==> values[i].Some?
    }

    /** TextColumn.create(name): an empty column, ready to scan. */
    constructor (name: string)
      ensures Valid() && this.name == name && values == [] && cursor == 0
    {
      this.name := name;
      values := [];
      cursor := 0;
    }

    /** set(r, v): overwrite row `r`, or grow by one row when `r` is the size. */
    method Set(r: nat, v: Option<string>)
      requires r <= |values|
      modifies this`values
      ensures values == if r < |old(values)| then old(values)[r := v] else old(values) + [v]
    {
      if r < |values| {
        values := values[r := v];
      } else {
        values := values + [v];
      }
    }

    // -------------------------------------------------------------------------
    // The cursor contract
    // -------------------------------------------------------------------------

    method HasNext() returns (b: bool)
      ensures b <==> cursor < |values|
    {
      b := cursor < |values|;
    }

    /** next(): the row under the cursor; the cursor moves on by one. */
    method Next() returns (v: Option<string>)
      requires Valid() && cursor < |values|
      modifies this`cursor
      ensures Valid() && cursor == old(cursor) + 1 && v == values[old(cursor)]
    {
      v := values[cursor];
      cursor := cursor + 1;
    }

    /** reset(): back to the first row, so that the next scan sees every row. */
    method Reset()
      modifies this`cursor
      ensures Valid() && cursor == 0
    {
      cursor := 0;
    }

    // -------------------------------------------------------------------------
    // Direct-pass operations on one column
    // -------------------------------------------------------------------------

    /** upperCase(): missing rows stay missing, the others are upper-cased. */
    method UpperCase() returns (col: TextColumn)
      modifies this`cursor
      ensures fresh(col) && col.Valid() && col.cursor == 0
      ensures col.name == name + "[ucase]" && |col.values| == |values|
      ensures forall r :: 0 <= r < |values| ==> (col.values[r].None? <==> values[r].None?)
      ensures forall r :: 0 <= r < |values| && values[r].Some? ==>
                col.values[r] == Some(ToUpperCase(values[r].value))
      ensures Valid() && cursor == 0
    {
      col := new TextColumn(name + "[ucase]");
      for r := 0 to |values|
        invariant fresh(col) && col.cursor == 0 && col.name == name + "[ucase]"
        invariant |col.values| == r
        invariant forall i :: 0 <= i < r ==>
                    col.values[i] == if values[i].None? then None else Some(ToUpperCase(values[i].value))
      {
        var value := values[r];
        if value.None? {
          col.Set(r, None);
        } else {
          col.Set(r, Some(ToUpperCase(value.value)));
        }
      }
      Reset();
    }

    /** lowerCase(): every row lower-cased; a missing row is not allowed. */
    method LowerCase() returns (col: TextColumn)
      requires PresentFrom(0)
      modifies this`cursor
      ensures fresh(col) && col.Valid() && col.cursor == 0
      ensures col.name == name + "[lcase]" && |col.values| == |values|
      ensures forall r :: 0 <= r < |values| ==> col.values[r] == Some(ToLowerCase(values[r].value))
      ensures Valid() && cursor == 0
    {
      col := new TextColumn(name + "[lcase]");
      for r := 0 to |values|
        invariant fresh(col) && col.cursor == 0 && col.name == name + "[lcase]"
        invariant |col.values| == r
        invariant forall i :: 0 <= i < r ==> col.values[i] == Some(ToLowerCase(values[i].value))
      {
        var value := values[r].value;
        col.Set(r, Some(ToLowerCase(value)));
      }
      Reset();
    }

    /** trim(): every row with its whitespace border removed; a missing row is not allowed. */
    method Trim() returns (col: TextColumn)
      requires PresentFrom(0)
      modifies this`cursor
      ensures fresh(col) && col.Valid() && col.cursor == 0
      ensures col.name == name + "[trim]" && |col.values| == |values|
      ensures forall r :: 0 <= r < |values| ==> col.values[r] == Some(StringFunctions.Trim(values[r].value))
      ensures Valid() && cursor == 0
    {
      col := new TextColumn(name + "[trim]");
      for r := 0 to |values|
        invariant fresh(col) && col.cursor == 0 && col.name == name + "[trim]"
        invariant |col.values| == r
        invariant forall i :: 0 <= i < r ==> col.values[i] == Some(StringFunctions.Trim(values[i].value))
      {
        var value := values[r].value;
        col.Set(r, Some(StringFunctions.Trim(value)));
      }
      Reset();
    }

    /**
     * substring(start, end): characters [start, end) of every row. Bounds that
     * do not fit a row raise StringIndexOutOfBounds at that row; the cursor is
     * then left where it was.
     */
    method Substring(start: int, end: int) returns (res: Result<TextColumn, Error>)
      requires Valid() && PresentFrom(0)
      modifies this`cursor
      ensures res.Failure? <==>
                exists r :: 0 <= r < |values| && StringFunctions.Substring(values[r].value, start, end).Failure?
      ensures res.Failure? ==> res.error == StringIndexOutOfBounds && cursor == old(cursor)
      ensures res.Success? ==>
                fresh(res.value) && res.value.Valid() && res.value.cursor == 0
                && res.value.name == name + "[sub]" && |res.value.values| == |values|
                && (forall r :: 0 <= r < |values| ==>
                      res.value.values[r] == Some(StringFunctions.Substring(values[r].value, start, end).value))
                && cursor == 0
      ensures Valid()
    {
      var col := new TextColumn(name + "[sub]");
      for r := 0 to |values|
        invariant fresh(col) && col.cursor == 0 && col.name == name + "[sub]"
        invariant cursor == old(cursor)
        invariant |col.values| == r
        invariant forall i :: 0 <= i < r ==>
                    StringFunctions.Substring(values[i].value, start, end).Success?
                    && col.values[i] == Some(StringFunctions.Substring(values[i].value, start, end).value)
      {
        var value := values[r].value;
        var sub := StringFunctions.Substring(value, start, end);
        if sub.Failure? {
          return Failure(sub.error);
        }
        col.Set(r, Some(sub.value));
      }
      Reset();
      res := Success(col);
    }

    /** substring(start): the suffix of every row from `start`, or StringIndexOutOfBounds. */
    method SubstringFrom(start: int) returns (res: Result<TextColumn, Error>)
      requires Valid() && PresentFrom(0)
      modifies this`cursor
      ensures res.Failure? <==>
                exists r :: 0 <= r < |values| && StringFunctions.SubstringFrom(values[r].value, start).Failure?
      ensures res.Failure? ==> res.error == StringIndexOutOfBounds && cursor == old(cursor)
      ensures res.Success? ==>
                fresh(res.value) && res.value.Valid() && res.value.cursor == 0
                && res.value.name == name + "[sub]" && |res.value.values| == |values|
                && (forall r :: 0 <= r < |values| ==>
                      res.value.values[r] == Some(StringFunctions.SubstringFrom(values[r].value, start).value))
                && cursor == 0
      ensures Valid()
    {
      var col := new TextColumn(name + "[sub]");
      for r := 0 to |values|
        invariant fresh(col) && col.cursor == 0 && col.name == name + "[sub]"
        invariant cursor == old(cursor)
        invariant |col.values| == r
        invariant forall i :: 0 <= i < r ==>
                    StringFunctions.SubstringFrom(values[i].value, start).Success?
                    && col.values[i] == Some(StringFunctions.SubstringFrom(values[i].value, start).value)
      {
        var value := values[r].value;
        var sub := StringFunctions.SubstringFrom(value, start);
        if sub.Failure? {
          return Failure(sub.error);
        }
        col.Set(r, Some(sub.value));
      }
      Reset();
      res := Success(col);
    }

    /** padEnd(minLength, padChar): every row padded on the right; a missing row is not allowed. */
    method PadEnd(minLength: int, padChar: char) returns (col: TextColumn)
      requires PresentFrom(0)
      modifies this`cursor
      ensures fresh(col) && col.Valid() && col.cursor == 0
      ensures col.name == name + "[pad]" && |col.values| == |values|
      ensures forall r :: 0 <= r < |values| ==>
                col.values[r] == Some(StringFunctions.PadEnd(values[r].value, minLength, padChar))
      ensures Valid() && cursor == 0
    {
      col := new TextColumn(name + "[pad]");
      for r := 0 to |values|
        invariant fresh(col) && col.cursor == 0 && col.name == name + "[pad]"
        invariant |col.values| == r
        invariant forall i :: 0 <= i < r ==>
                    col.values[i] == Some(StringFunctions.PadEnd(values[i].value, minLength, padChar))
      {
        var value := values[r].value;
        col.Set(r, Some(StringFunctions.PadEnd(value, minLength, padChar)));
      }
      Reset();
    }

    /** padStart(minLength, padChar): every row padded on the left; a missing row is not allowed. */
    method PadStart(minLength: int, padChar: char) returns (col: TextColumn)
      requires PresentFrom(0)
      modifies this`cursor
      ensures fresh(col) && col.Valid() && col.cursor == 0
      ensures col.name == name + "[pad]" && |col.values| == |values|
      ensures forall r :: 0 <= r < |values| ==>
                col.values[r] == Some(StringFunctions.PadStart(values[r].value, minLength, padChar))
      ensures Valid() && cursor == 0
    {
      col := new TextColumn(name + "[pad]");
      for r := 0 to |values|
        invariant fresh(col) && col.cursor == 0 && col.name == name + "[pad]"
        invariant |col.values| == r
        invariant forall i :: 0 <= i < r ==>
                    col.values[i] == Some(StringFunctions.PadStart(values[i].value, minLength, padChar))
      {
        var value := values[r].value;
        col.Set(r, Some(StringFunctions.PadStart(value, minLength, padChar)));
      }
      Reset();
    }

    // -------------------------------------------------------------------------
    // Direct-pass operations on two columns: row r of the result is computed
    // from row r of this column and row r of column2, for r < size()
    // -------------------------------------------------------------------------

    /** commonPrefix(column2): per row, the longest common prefix of the two values. */
    method CommonPrefix(column2: TextColumn) returns (col: TextColumn)
      requires PresentFrom(0)
      requires |column2.values| >= |values|
      requires forall r :: 0 <= r < |values| ==> column2.values[r].Some?
      modifies this`cursor
      ensures fresh(col) && col.Valid() && col.cursor == 0
      ensures col.name == name + column2.name + "[prefix]" && |col.values| == |values|
      ensures forall r :: 0 <= r < |values| ==>
                col.values[r] == Some(StringFunctions.CommonPrefix(values[r].value, column2.values[r].value))
      ensures Valid() && cursor == 0
    {
      col := new TextColumn(name + column2.name + "[prefix]");
      for r := 0 to |values|
        invariant fresh(col) && col.cursor == 0 && col.name == name + column2.name + "[prefix]"
        invariant |col.values| == r
        invariant forall i :: 0 <= i < r ==>
                    col.values[i] == Some(StringFunctions.CommonPrefix(values[i].value, column2.values[i].value))
      {
        var value1 := values[r].value;
        var value2 := column2.values[r].value;
        col.Set(r, Some(StringFunctions.CommonPrefix(value1, value2)));
      }
      Reset();
    }

    /** commonSuffix(column2): per row, the longest common suffix of the two values. */
    method CommonSuffix(column2: TextColumn) returns (col: TextColumn)
      requires PresentFrom(0)
      requires |column2.values| >= |values|
      requires forall r :: 0 <= r < |values| ==> column2.values[r].Some?
      modifies this`cursor
      ensures fresh(col) && col.Valid() && col.cursor == 0
      ensures col.name == name + column2.name + "[suffix]" && |col.values| == |values|
      ensures forall r :: 0 <= r < |values| ==>
                col.values[r] == Some(StringFunctions.CommonSuffix(values[r].value, column2.values[r].value))
      ensures Valid() && cursor == 0
    {
      col := new TextColumn(name + column2.name + "[suffix]");
      for r := 0 to |values|
        invariant fresh(col) && col.cursor == 0 && col.name == name + column2.name + "[suffix]"
        invariant |col.values| == r
        invariant forall i :: 0 <= i < r ==>
                    col.values[i] == Some(StringFunctions.CommonSuffix(values[i].value, column2.values[i].value))
      {
        var value1 := values[r].value;
        var value2 := column2.values[r].value;
        col.Set(r, Some(StringFunctions.CommonSuffix(value1, value2)));
      }
      Reset();
    }

    /** distance(column2): per row, the Levenshtein distance of the two values. */
    method Distance(column2: TextColumn) returns (col: FloatColumn)
      requires PresentFrom(0)
      requires |column2.values| >= |values|
      requires forall r :: 0 <= r < |values| ==> column2.values[r].Some?
      modifies this`cursor
      ensures fresh(col)
      ensures col.name == name + column2.name + "[distance]" && |col.values| == |values|
      ensures forall r :: 0 <= r < |values| ==>
                col.values[r] == Levenshtein.Distance(values[r].value, column2.values[r].value)
      ensures Valid() && cursor == 0
    {
      col := new FloatColumn(name + column2.name + "[distance]");
      for r := 0 to |values|
        invariant fresh(col) && col.name == name + column2.name + "[distance]"
        invariant |col.values| == r
        invariant forall i :: 0 <= i < r ==>
                    col.values[i] == Levenshtein.Distance(values[i].value, column2.values[i].value)
      {
        var value1 := values[r].value;
        var value2 := column2.values[r].value;
        col.Set(r, Levenshtein.Distance(value1, value2));
      }
      Reset();
    }

    /** join(column2, delimiter): per row, value1 + delimiter + value2, a missing value joining as "". */
    method Join(column2: TextColumn, delimiter: string) returns (col: TextColumn)
      requires |column2.values| >= |values|
      modifies this`cursor
      ensures fresh(col) && col.Valid() && col.cursor == 0
      ensures col.name == name + column2.name + "[join]" && |col.values| == |values|
      ensures forall r :: 0 <= r < |values| ==>
                col.values[r] == Some(OrEmpty(values[r]) + delimiter + OrEmpty(column2.values[r]))
      ensures Valid() && cursor == 0
    {
      col := new TextColumn(name + column2.name + "[join]");
      for r := 0 to |values|
        invariant fresh(col) && col.cursor == 0 && col.name == name + column2.name + "[join]"
        invariant |col.values| == r
        invariant forall i :: 0 <= i < r ==>
                    col.values[i] == Some(StringFunctions.Join(values[i], column2.values[i], delimiter))
      {
        col.Set(r, Some(StringFunctions.Join(values[r], column2.values[r], delimiter)));
      }
      Reset();
    }

    // -------------------------------------------------------------------------
    // Cursor-scan operations: rows from the cursor to the end, then reset()
    // -------------------------------------------------------------------------

    /**
     * countOccurrences(terms...): one count per scanned row, the sum over the
     * terms of each term's non-overlapping occurrences. The argument check is
     * the intended one (a non-empty array of non-empty terms); see
     * Occurrences.GuardAsWritten for the check as written.
     */
    method CountOccurrences(terms: seq<string>) returns (res: Result<IntColumn, Error>)
      requires Valid() && PresentFrom(cursor)
      modifies this`cursor
      ensures res.Success? <==> |terms| > 0 && NonEmptyTerms(terms)
      ensures res.Failure? ==> res.error == Guard(terms).error && cursor == old(cursor)
      ensures res.Success? ==>
                fresh(res.value) && res.value.name == NamePrefix + terms[0]
                && |res.value.values| == |values| - old(cursor)
                && (forall i :: 0 <= i < |res.value.values| ==>
                      res.value.values[i] == CountAll(values[old(cursor) + i].value, terms))
                && cursor == 0
      ensures Valid()
    {
      var guard := Guard(terms);
      if guard.Failure? {
        return Failure(guard.error);
      }
      var column := new IntColumn(guard.value);
      ghost var start := cursor;
      var more := HasNext();
      while more
        invariant Valid() && start <= cursor
        invariant more <==> cursor < |values|
        invariant fresh(column) && column.name == guard.value
        invariant |column.values| == cursor - start
        invariant forall i :: 0 <= i < |column.values| ==>
                    column.values[i] == CountAll(values[start + i].value, terms)
        decreases |values| - cursor
      {
        var str := Next();
        var count := CountInRow(str.value, terms);
        column.Add(count);
        more := HasNext();
      }
      Reset();
      res := Success(column);
    }

    /**
     * extractFirstMatch(regex): the first match of every scanned row that has
     * one, appended in scan order; `find` stands for the compiled `regex`.
     */
    method ExtractFirstMatch(regex: string, find: Matcher) returns (col: CategoryColumn)
      requires Valid() && PresentFrom(cursor)
      modifies this`cursor
      ensures fresh(col) && col.name == name + " matches of \"" + regex + "\""
      ensures col.values == FirstMatches(find, Present(values[old(cursor)..]))
      ensures |col.values| <= |values| - old(cursor)
      ensures Valid() && cursor == 0
    {
      col := new CategoryColumn(name + " matches of \"" + regex + "\"");
      ghost var start := cursor;
      var more := HasNext();
      while more
        invariant Valid() && start <= cursor
        invariant more <==> cursor < |values|
        invariant fresh(col) && col.name == name + " matches of \"" + regex + "\""
        invariant col.values == FirstMatches(find, Present(values[start..cursor]))
        decreases |values| - cursor
      {
        ghost var seen := col.values;
        var mydata := Next();
        var m := find(mydata.value);
        FirstMatchesStep(find, values, start, cursor);
        assert FirstMatches(find, Present(values[start..cursor])) == seen + (if m.Some? then [m.value] else []);
        if m.Some? {
          col.Add(m.value);
        }
        more := HasNext();
      }
      assert values[start..cursor] == values[start..];
      Reset();
    }
  }

  /**
   * Because every scan ends in reset(), a second extraction over the same column
   * sees the same rows in the same order and produces the same values.
   */
  method ExtractTwice(c: TextColumn, regex: string, find: Matcher)
    returns (first: CategoryColumn, second: CategoryColumn)
    requires c.Valid() && c.cursor == 0 && c.PresentFrom(0)
    modifies c
    ensures c.values == old(c.values) && c.cursor == 0
    ensures first.values == second.values
    ensures first.values == FirstMatches(find, Present(c.values))
  {
    first := c.ExtractFirstMatch(regex, find);
    second := c.ExtractFirstMatch(regex, find);
    assert c.values[0..] == c.values;
  }
}
