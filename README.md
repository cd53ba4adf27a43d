# String column mapping layer

This project models the string-column mapping layer of the tabular data engine. The model follows `StringMapUtils`, the interface mixed into every text column. A text column has a name, a sequence of rows (each row holds a string or is missing) and a shared scan cursor. Each mapping operation reads the column row by row and builds a new derived column.

The operations use two access patterns.

- **Direct indexed pass.** `upperCase`, `lowerCase`, `trim`, `substring`, `padEnd`, `padStart`, `commonPrefix`, `commonSuffix`, `distance` and `join` run a loop over rows `0 .. size()-1`. The loop writes the per-row result at the same index of a fresh column. The fresh column is named after the source column(s) plus a tag such as `[ucase]`.
- **Cursor scan.** `countOccurrences` and `extractFirstMatch` run `while (hasNext()) next()`, which starts at the current cursor. They append to a fresh column and then call `reset()`.

Every operation that returns normally leaves the cursor at row 0.

Files:

- `Wrappers.dfy`: the missing-value `Option`, `Result`, and the exceptions raised.
- `StringFunctions.dfy`: the per-row functions with their properties: case mapping, `String.trim`, `String.substring`, Guava padding and common prefix/suffix, and the two-element `StringUtils.join`.
- `Levenshtein.dfy`: the edit distance, with symmetry, zero-iff-equal and the length bounds.
- `Occurrences.dfy`: `String.indexOf` and non-overlapping occurrence counting. It also holds an independent greedy reference count, the argument check as written and as intended, and the inner search loop step by step.
- `Columns.dfy`: the integer, numeric and category result columns.
- `StringMapUtils.dfy`: the `TextColumn` class (`next`, `reset`, `hasNext`, `set`) and every mapping operation as a loop method. Each method is proved against the per-row functions.

Missing values are handled the way the code handles them, operation by operation:

- `upperCase` propagates a missing row.
- `join` joins a missing value as the empty string. This is what `StringUtils.join` does with `null` elements.
- `distance` hands both values to `StringUtils.getLevenshteinDistance`, which rejects a `null` value with `IllegalArgumentException` ("Strings must not be null"). The model requires both rows to be present.
- Every other operation dereferences the row without a check. For these, the model requires the rows the operation reads to be present.

The source is itself inconsistent: upperCase checks for null and the other operations do not. The model follows each operation as written.

`substring` raises `StringIndexOutOfBounds` at the first row whose bounds do not fit, rather than clamping. A column with no rows therefore succeeds even with bounds such as `start > end`.

## Model

| member | source | states |
|---|---|---|
| `StringFunctions.ToUpperCase` | src/main/java/com/deathrayresearch/outlier/mapper/StringMapUtils.java:34 | the upper-cased row has the same length, each character is mapped on its own, and no lower-case letter remains |
| `StringFunctions.ToLowerCase` | src/main/java/com/deathrayresearch/outlier/mapper/StringMapUtils.java:48 | the lower-cased row has the same length, each character is mapped on its own, and no upper-case letter remains |
| `StringFunctions.UpperCaseIdempotent` | src/main/java/com/deathrayresearch/outlier/mapper/StringMapUtils.java:34 | upper-casing an upper-cased value changes nothing |
| `StringFunctions.LowerCaseAfterUpperCase` | src/main/java/com/deathrayresearch/outlier/mapper/StringMapUtils.java:26-52 | for the model's ASCII case map, lower-casing after upper-casing equals lower-casing alone (Java's full case mapping does not have this property; see Left out) |
| `StringFunctions.TrimStart` | src/main/java/com/deathrayresearch/outlier/mapper/StringMapUtils.java:61 | the first index at or after i that is not whitespace (or the length): every character skipped is whitespace |
| `StringFunctions.TrimEnd` | src/main/java/com/deathrayresearch/outlier/mapper/StringMapUtils.java:61 | the index just past the last non-whitespace character after st (or st): every character dropped is whitespace |
| `StringFunctions.Trim` | src/main/java/com/deathrayresearch/outlier/mapper/StringMapUtils.java:61 | the trimmed row is a contiguous slice of the input; only whitespace lies outside it; it is empty or starts and ends with non-whitespace |
| `StringFunctions.TrimIdempotent` | src/main/java/com/deathrayresearch/outlier/mapper/StringMapUtils.java:61 | trimming a trimmed value changes nothing |
| `StringFunctions.Substring` | src/main/java/com/deathrayresearch/outlier/mapper/StringMapUtils.java:100 | succeeds iff 0 <= start <= end <= length; the result is then characters [start, end); otherwise StringIndexOutOfBounds, never a clamp |
| `StringFunctions.SubstringFrom` | src/main/java/com/deathrayresearch/outlier/mapper/StringMapUtils.java:114 | succeeds iff 0 <= start <= length, giving the suffix from start; otherwise StringIndexOutOfBounds |
| `StringFunctions.SubstringFromIsSubstringToEnd` | src/main/java/com/deathrayresearch/outlier/mapper/StringMapUtils.java:93-118 | the one-argument substring equals the two-argument one with end at the length, on every input including failing ones |
| `StringFunctions.SubstringSplitJoin` | src/main/java/com/deathrayresearch/outlier/mapper/StringMapUtils.java:93-118 | for any valid cut point, substring(0, k) followed by substring(k) gives back the value |
| `StringFunctions.PadEnd` | src/main/java/com/deathrayresearch/outlier/mapper/StringMapUtils.java:140 | length is max(length, minLength); the input is a prefix; every added character is padChar; a long-enough value is returned unchanged |
| `StringFunctions.PadStart` | src/main/java/com/deathrayresearch/outlier/mapper/StringMapUtils.java:153 | length is max(length, minLength); the input is a suffix; every added character is padChar; a long-enough value is returned unchanged |
| `StringFunctions.PadIdempotent` | src/main/java/com/deathrayresearch/outlier/mapper/StringMapUtils.java:133-157 | padding a padded value to the same length changes nothing, at either end |
| `StringFunctions.PrefixLength` | src/main/java/com/deathrayresearch/outlier/mapper/StringMapUtils.java:167 | counting on from p, the characters before the result agree in both values and the characters at the result differ or one value ends |
| `StringFunctions.SuffixLength` | src/main/java/com/deathrayresearch/outlier/mapper/StringMapUtils.java:181 | the same count from the ends of the two values |
| `StringFunctions.CommonPrefix` | src/main/java/com/deathrayresearch/outlier/mapper/StringMapUtils.java:167 | the result is a prefix of both values and the next characters differ or one value ends |
| `StringFunctions.CommonSuffix` | src/main/java/com/deathrayresearch/outlier/mapper/StringMapUtils.java:181 | the result is a suffix of both values and the preceding characters differ or one value ends |
| `StringFunctions.CommonPrefixIsLongest` | src/main/java/com/deathrayresearch/outlier/mapper/StringMapUtils.java:159-171 | every common prefix of the two values is a prefix of the result: no longer common prefix exists |
| `StringFunctions.CommonSuffixIsLongest` | src/main/java/com/deathrayresearch/outlier/mapper/StringMapUtils.java:173-185 | every common suffix of the two values is a suffix of the result: no longer common suffix exists |
| `StringFunctions.Join` | src/main/java/com/deathrayresearch/outlier/mapper/StringMapUtils.java:213 | StringUtils.join of the two-element array with the delimiter; a missing value joins as "" and the length is the sum of the three parts |
| `StringFunctions.JoinRecoversParts` | src/main/java/com/deathrayresearch/outlier/mapper/StringMapUtils.java:210-213 | the joined row is value1, then the delimiter, then value2, each recoverable by position; a missing value contributes "" |
| `Levenshtein.Distance` | src/main/java/com/deathrayresearch/outlier/mapper/StringMapUtils.java:198 | the edit distance, the fewest single-character insertions, deletions and substitutions turning one value into the other: at most the two lengths together, and the other value's length when one value is empty |
| `Levenshtein.DistanceSymmetric` | src/main/java/com/deathrayresearch/outlier/mapper/StringMapUtils.java:187-198 | the distance of (a, b) equals that of (b, a) |
| `Levenshtein.DistanceToSelf` | src/main/java/com/deathrayresearch/outlier/mapper/StringMapUtils.java:187-198 | a value is at distance 0 from itself |
| `Levenshtein.DistanceZeroMeansEqual` | src/main/java/com/deathrayresearch/outlier/mapper/StringMapUtils.java:187-198 | distance 0 implies the values are equal |
| `Levenshtein.DistanceZeroIffEqual` | src/main/java/com/deathrayresearch/outlier/mapper/StringMapUtils.java:187-198 | the distance is 0 exactly when the two values are equal |
| `Levenshtein.DistanceAtMostLongerLength` | src/main/java/com/deathrayresearch/outlier/mapper/StringMapUtils.java:187-198 | the distance is at most the longer value's length |
| `Levenshtein.DistanceAtLeastLengthDifference` | src/main/java/com/deathrayresearch/outlier/mapper/StringMapUtils.java:187-198 | the distance is at least the difference of the lengths |
| `Occurrences.IndexOf` | src/main/java/com/deathrayresearch/outlier/mapper/StringMapUtils.java:235 | the result is -1 when no occurrence starts at or after from; otherwise it is the first index at or after from where the term occurs |
| `Occurrences.CountFrom` | src/main/java/com/deathrayresearch/outlier/mapper/StringMapUtils.java:231-241 | the per-term indexOf loop started at lastIndex = from, as a definition: one plus the count after the first occurrence, or 0 when there is none; its properties are CountFromIsGreedy, CountFromFits and SearchTerminates |
| `Occurrences.Count` | src/main/java/com/deathrayresearch/outlier/mapper/StringMapUtils.java:231-241 | the per-term loop started at lastIndex = 0, as a definition; its properties are CountIsGreedy and CountPositiveIffOccurs |
| `Occurrences.SkipNonMatches` | src/main/java/com/deathrayresearch/outlier/mapper/StringMapUtils.java:235 | positions where the term does not occur do not change the greedy count |
| `Occurrences.CountFromIsGreedy` | src/main/java/com/deathrayresearch/outlier/mapper/StringMapUtils.java:230-241 | the indexOf search that resumes at lastIndex + length counts the same as a greedy left-to-right scan from the same position, which steps over each match it counts |
| `Occurrences.CountIsGreedy` | src/main/java/com/deathrayresearch/outlier/mapper/StringMapUtils.java:230-241 | a term's count over the whole row is the greedy non-overlapping count |
| `Occurrences.CountFromFits` | src/main/java/com/deathrayresearch/outlier/mapper/StringMapUtils.java:233-241 | the counted occurrences do not overlap: count times term length is at most the length searched |
| `Occurrences.CountPositiveIffOccurs` | src/main/java/com/deathrayresearch/outlier/mapper/StringMapUtils.java:233-241 | a term's count is positive exactly when the term occurs somewhere in the row |
| `Occurrences.CountAll` | src/main/java/com/deathrayresearch/outlier/mapper/StringMapUtils.java:229-242 | the for-each over the terms, as a definition: the counts of the terms added up in order; its properties are CountAllZeroIffNoneOccurs and CountAllAtLeastEachTerm |
| `Occurrences.CountAllStep` | src/main/java/com/deathrayresearch/outlier/mapper/StringMapUtils.java:230-242 | one more pass of the for-each over the terms adds exactly that term's count to the row's sum |
| `Occurrences.CountAllZeroIffNoneOccurs` | src/main/java/com/deathrayresearch/outlier/mapper/StringMapUtils.java:229-242 | a row's count is 0 exactly when no search term occurs in it |
| `Occurrences.CountAllAtLeastEachTerm` | src/main/java/com/deathrayresearch/outlier/mapper/StringMapUtils.java:229-242 | the per-row sum over all terms is at least each single term's count |
| `Occurrences.GuardAsWritten` | src/main/java/com/deathrayresearch/outlier/mapper/StringMapUtils.java:224-225 | as written, every argument array fails: a non-empty one with IllegalArgument, the empty one with ArrayIndexOutOfBounds |
| `Occurrences.Guard` | src/main/java/com/deathrayresearch/outlier/mapper/StringMapUtils.java:224-225 | as intended, the check passes iff the array is non-empty and every term is non-empty, and the result column is named "Occurances of " plus the first term |
| `Occurrences.GuardAsWrittenRefusesValidInput` | src/main/java/com/deathrayresearch/outlier/mapper/StringMapUtils.java:224 | every input the intended check accepts is rejected by the check as written |
| `Occurrences.RunSearch` | src/main/java/com/deathrayresearch/outlier/mapper/StringMapUtils.java:233-241 | the inner while loop run for up to n iterations from a state; lastIndex stays at -1 or above |
| `Occurrences.SearchTerminates` | src/main/java/com/deathrayresearch/outlier/mapper/StringMapUtils.java:233-241 | with a non-empty term the loop exits (lastIndex -1) after count + 1 iterations, having added exactly the count |
| `Occurrences.EmptyTermNeverStops` | src/main/java/com/deathrayresearch/outlier/mapper/StringMapUtils.java:233-241 | with the empty term, after any number n of iterations lastIndex is still 0 and the count has grown by n: the loop never exits |
| `StringMapUtils.FirstMatches` | src/main/java/com/deathrayresearch/outlier/mapper/StringMapUtils.java:253-259 | at most one value per scanned row |
| `StringMapUtils.FirstMatchesComeFromRows` | src/main/java/com/deathrayresearch/outlier/mapper/StringMapUtils.java:253-259 | every extracted value is the match the pattern finds in some scanned row |
| `StringMapUtils.FirstMatchesStep` | src/main/java/com/deathrayresearch/outlier/mapper/StringMapUtils.java:253-259 | scanning one more row appends that row's match if it has one, and nothing otherwise |
| `StringMapUtils.FirstMatchesAllMatching` | src/main/java/com/deathrayresearch/outlier/mapper/StringMapUtils.java:253-259 | when every row matches, the output has one value per row, in row order |
| `StringMapUtils.CountInRow` | src/main/java/com/deathrayresearch/outlier/mapper/StringMapUtils.java:229-242 | the for-each over the terms with the inner indexOf loop adds up, for one row, exactly the sum over the terms of their non-overlapping counts; every inner loop exits |
| `StringMapUtils.Present` | src/main/java/com/deathrayresearch/outlier/mapper/StringMapUtils.java:228 | the rows a scan reads, unwrapped, in order: same length, same values |
| `StringMapUtils.TextColumn.constructor` | src/main/java/com/deathrayresearch/outlier/mapper/StringMapUtils.java:27 | create(name) gives an empty column with that name and the cursor at row 0 |
| `StringMapUtils.TextColumn.Set` | src/main/java/com/deathrayresearch/outlier/mapper/StringMapUtils.java:32-34 | set(r, v) overwrites row r, or appends when r is the size; no other row changes |
| `StringMapUtils.TextColumn.HasNext` | src/main/java/com/deathrayresearch/outlier/mapper/StringMapUtils.java:227 | hasNext() is true exactly when the cursor has rows left |
| `StringMapUtils.TextColumn.Next` | src/main/java/com/deathrayresearch/outlier/mapper/StringMapUtils.java:21 | next() returns the row under the cursor and advances the cursor by one |
| `StringMapUtils.TextColumn.Reset` | src/main/java/com/deathrayresearch/outlier/mapper/StringMapUtils.java:23-24 | reset() puts the cursor back at row 0 |
| `StringMapUtils.TextColumn.UpperCase` | src/main/java/com/deathrayresearch/outlier/mapper/StringMapUtils.java:26-39 | result named name + "[ucase]" with size() rows; row r is missing iff input row r is missing, otherwise it is the upper-cased input; cursor back at 0 |
| `StringMapUtils.TextColumn.LowerCase` | src/main/java/com/deathrayresearch/outlier/mapper/StringMapUtils.java:41-52 | with every row present: result named name + "[lcase]", row r is the lower-cased row r, same size; cursor back at 0 |
| `StringMapUtils.TextColumn.Trim` | src/main/java/com/deathrayresearch/outlier/mapper/StringMapUtils.java:54-65 | with every row present: result named name + "[trim]", row r is trimmed row r, same size; cursor back at 0 |
| `StringMapUtils.TextColumn.Substring` | src/main/java/com/deathrayresearch/outlier/mapper/StringMapUtils.java:93-104 | fails with StringIndexOutOfBounds iff some row cannot take [start, end), leaving the cursor as it was; otherwise "[sub]" column with row r = characters [start, end) of row r, cursor back at 0 |
| `StringMapUtils.TextColumn.SubstringFrom` | src/main/java/com/deathrayresearch/outlier/mapper/StringMapUtils.java:107-118 | fails iff some row is shorter than start or start < 0; otherwise "[sub]" column of suffixes from start, cursor back at 0 |
| `StringMapUtils.TextColumn.PadEnd` | src/main/java/com/deathrayresearch/outlier/mapper/StringMapUtils.java:133-144 | result named name + "[pad]", row r is row r padded on the right; cursor back at 0 |
| `StringMapUtils.TextColumn.PadStart` | src/main/java/com/deathrayresearch/outlier/mapper/StringMapUtils.java:146-157 | result named name + "[pad]", row r is row r padded on the left; cursor back at 0 |
| `StringMapUtils.TextColumn.CommonPrefix` | src/main/java/com/deathrayresearch/outlier/mapper/StringMapUtils.java:159-171 | result named name + column2.name + "[prefix]" with size() rows; row r is the common prefix of the two row-r values; column2 must have at least size() rows |
| `StringMapUtils.TextColumn.CommonSuffix` | src/main/java/com/deathrayresearch/outlier/mapper/StringMapUtils.java:173-185 | result named name + column2.name + "[suffix]"; row r is the common suffix of the two row-r values |
| `StringMapUtils.TextColumn.Distance` | src/main/java/com/deathrayresearch/outlier/mapper/StringMapUtils.java:187-202 | result named name + column2.name + "[distance]"; row r is the Levenshtein distance of the two row-r values |
| `StringMapUtils.TextColumn.Join` | src/main/java/com/deathrayresearch/outlier/mapper/StringMapUtils.java:204-217 | result named name + column2.name + "[join]"; row r is value1 + delimiter + value2, a missing value joining as "" |
| `StringMapUtils.TextColumn.CountOccurrences` | src/main/java/com/deathrayresearch/outlier/mapper/StringMapUtils.java:219-247 | succeeds iff the term array and every term are non-empty; then one count per scanned row, in scan order, each the sum over the terms of non-overlapping occurrences; every loop terminates; cursor back at 0 |
| `StringMapUtils.TextColumn.ExtractFirstMatch` | src/main/java/com/deathrayresearch/outlier/mapper/StringMapUtils.java:249-262 | result named name + ` matches of "regex"`; it holds the first match of each scanned row that has one, in scan order, at most one per row; cursor back at 0 |
| `StringMapUtils.ExtractTwice` | src/main/java/com/deathrayresearch/outlier/mapper/StringMapUtils.java:23-24 | because each scan ends in reset(), a second scan over the column revisits every row in order and produces the same values |
| `Columns.IntColumn.constructor` | src/main/java/com/deathrayresearch/outlier/mapper/StringMapUtils.java:225 | create(name) gives an empty integer column with that name |
| `Columns.IntColumn.Add` | src/main/java/com/deathrayresearch/outlier/mapper/StringMapUtils.java:243 | add(count) appends one row |
| `Columns.FloatColumn.constructor` | src/main/java/com/deathrayresearch/outlier/mapper/StringMapUtils.java:192 | create(name) gives an empty distance column with that name |
| `Columns.FloatColumn.Set` | src/main/java/com/deathrayresearch/outlier/mapper/StringMapUtils.java:198 | set(r, d) overwrites row r, or appends when r is the size |
| `Columns.CategoryColumn.constructor` | src/main/java/com/deathrayresearch/outlier/mapper/StringMapUtils.java:250 | create(name) gives an empty category column with that name |
| `Columns.CategoryColumn.Add` | src/main/java/com/deathrayresearch/outlier/mapper/StringMapUtils.java:257 | add(match) appends one row |

## Left out

- `replaceAll` and `replaceFirst` (StringMapUtils.java:67-91) are not modelled. Their behaviour is Java regular-expression semantics, and this model includes no regex engine.
- `abbreviate` (StringMapUtils.java:120-131) is not modelled. Its ellipsis rules belong to commons-lang `StringUtils.abbreviate`, which is not part of this model.
- StringMapUtils.TextColumn.ExtractFirstMatch: the compiled pattern is an abstract `find` function passed in beside the regex text. Pattern compilation errors and the matching rules are not modelled.
- StringFunctions.ToUpperCase: maps the ASCII letters only. Locale-dependent Unicode case mapping is not modelled, including mappings that change the length, such as "ß" to "SS".
- StringFunctions.ToLowerCase: maps the ASCII letters only, for the same reason.
- StringFunctions.CommonPrefix: treats each `char` on its own. Guava's step back when the prefix would split a surrogate pair is not modelled.
- StringFunctions.CommonSuffix: same surrogate-pair simplification as CommonPrefix.
- StringMapUtils.TextColumn.Distance: distances are natural numbers. The source stores them in a float column, and float storage is not modelled.
- StringMapUtils.TextColumn.CountOccurrences: counts are unbounded integers. Java's 32-bit `int` wrap-around is not modelled.
- StringMapUtils.TextColumn.Next: requires a row to remain. The column's own `next()` implementation is not part of this model.
- StringMapUtils.TextColumn.Set: only overwrites a row or appends at the end. Column growth by more than one row, and creation with a capacity hint, are not modelled.
- StringMapUtils.TextColumn.Join: the delimiter is never missing. `StringUtils.join` would treat a null delimiter as "".
- Operations that read a missing row without a null check fail with a null-pointer exception. The model states this as a precondition that those rows are present, not as an error result.
- StringMapUtils.TextColumn.Distance: a missing row makes `getLevenshteinDistance` throw `IllegalArgumentException`. The model requires both rows to be present instead of returning that error.
- StringMapUtils.TextColumn.CommonPrefix: assumes `column2` has at least as many rows as this column (`requires`). The source reads `column2.get(r)` for every row of this column with no size check, so a shorter `column2` fails inside `TextColumn.get`, which is not part of this model.
- StringMapUtils.TextColumn.CommonSuffix: assumes `column2` has at least as many rows as this column, for the same reason as CommonPrefix.
- StringMapUtils.TextColumn.Distance: assumes `column2` has at least as many rows as this column, for the same reason as CommonPrefix.
- StringMapUtils.TextColumn.Join: assumes `column2` has at least as many rows as this column, for the same reason as CommonPrefix.
- Strings are modelled as sequences of Unicode code points, whereas a Java `String` is a sequence of UTF-16 code units. On text with characters outside the Basic Multilingual Plane, such as emoji, lengths and indices differ. This affects StringFunctions.Substring, StringFunctions.SubstringFrom (the bounds and when StringIndexOutOfBounds is raised), StringFunctions.PadEnd, StringFunctions.PadStart (the lengths compared with minLength) and Levenshtein.Distance (a supplementary character counts as one edit, not two).
- StringFunctions.LowerCaseAfterUpperCase: holds for the ASCII case map of the model only. Java's full case mapping breaks it, for example "ß" upper-cases to "SS", which lower-cases to "ss".
- Occurrences.IndexOf: for the empty term and `from` beyond the length, Java's `indexOf` returns the length while the model returns -1. The search loops never resume beyond the length, so no modelled operation reaches this case.
- The `(TextColumn) this` cast is not modelled: the receiver is always a text column.
- Concurrent scans of one column are not modelled. The model is single-threaded.
- `DoubleGreaterThan.java` and the filtering layer are not part of this model. The filter only casts a column and delegates to DoubleColumn.isGreaterThan, a floating-point comparison outside this model.

## Findings

| source | as written | input that shows it | evidently intended | confidence | as-written member | corrected member |
|---|---|---|---|---|---|---|
| src/main/java/com/deathrayresearch/outlier/mapper/StringMapUtils.java:224-225 | `checkArgument(value.length == 0, "Parameter array must not be empty")`, then `value[0]` | `countOccurrences("a")` throws IllegalArgumentException; `countOccurrences()` throws ArrayIndexOutOfBoundsException; so no call can succeed | reject only an empty array (and empty terms), then name the column after the first term | high (not executed) | `Occurrences.GuardAsWritten` | `Occurrences.Guard` |
| src/main/java/com/deathrayresearch/outlier/mapper/StringMapUtils.java:233-240 | `lastIndex = str.indexOf(findStr, lastIndex); ... lastIndex += findStr.length()` | once the guard is corrected, `countOccurrences("")` on any row: indexOf finds "" at 0, lastIndex stays 0, and the loop never exits | reject an empty search term before scanning | high (not executed) | `Occurrences.EmptyTermNeverStops` | `StringMapUtils.TextColumn.CountOccurrences` |
