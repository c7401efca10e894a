/** The list parsers of benchmark/cli_option_parsing.h and `JoinColumns` of benchmark_suite.cpp. */
module CliParsing {
  import opened Records

  predicate IsSpace(c: char) { c == ' ' || c == '\t' || c == '\n' || c == '\r' }

  /** `find_first_not_of`; the length when there is none. */
  function FirstNonSpace(s: string): (r: nat)
    ensures r <= |s| && (r < |s| ==> !IsSpace(s[r])) && forall i :: 0 <= i < r ==> IsSpace(s[i])
  {
    if s == "" || !IsSpace(s[0]) then 0 else 1 + FirstNonSpace(s[1..])
  }

  /** `find_last_not_of`; -1 when there is none. */
  function LastNonSpace(s: string): (r: int)
    ensures -1 <= r < |s| && (r >= 0 ==> !IsSpace(s[r])) && forall i :: r < i < |s| ==> IsSpace(s[i])
  {
    if s == "" then -1 else if !IsSpace(s[|s|-1]) then |s| - 1 else LastNonSpace(s[..|s|-1])
  }

  function Trim(s: string): (r: string) {
    var first := FirstNonSpace(s);
    if first == |s| then ""
    else
      var last := LastNonSpace(s);
      assert first <= last by { assert !IsSpace(s[first]); }
      s[first..last + 1]
  }

  /** No whitespace at either end. */
  predicate Trimmed(s: string) { s != "" ==> !IsSpace(s[0]) && !IsSpace(s[|s|-1]) }

  predicate AllSpace(s: string) { forall i :: 0 <= i < |s| ==> IsSpace(s[i]) }

  /** Trimming removes whitespace at both ends and nothing else. */
  lemma TrimIs(s: string) returns (a: string, b: string)
    ensures s == a + Trim(s) + b && AllSpace(a) && AllSpace(b) && Trimmed(Trim(s))
  {
    var first := FirstNonSpace(s);
    if first == |s| {
      a, b := s, "";
    } else {
      var last := LastNonSpace(s);
      assert first <= last by { assert !IsSpace(s[first]); }
      a, b := s[..first], s[last + 1..];
    }
  }

  /** What is taken away is blanks, tabs and line ends, and none of them is left at the ends. */
  lemma TrimTakes(s: string) returns (a: string, t: string, b: string)
    ensures t == Trim(s) && s == a + t + b
    ensures forall i :: 0 <= i < |a| ==> a[i] in " \t\n\r"
    ensures forall i :: 0 <= i < |b| ==> b[i] in " \t\n\r"
    ensures t != "" ==> t[0] !in " \t\n\r" && t[|t|-1] !in " \t\n\r"
  {
    a, b := TrimIs(s);
    t := Trim(s);
    assert forall c: char :: IsSpace(c) <==> c in " \t\n\r";
  }

  /** Only one text is left when whitespace is taken from both ends. */
  lemma TrimUnique(a: string, t: string, b: string)
    requires AllSpace(a) && AllSpace(b) && Trimmed(t) && t != ""
    ensures Trim(a + t + b) == t
  {
    var s := a + t + b;
    assert s[|a|] == t[0] && s[|a| + |t| - 1] == t[|t|-1];
    assert forall i :: 0 <= i < |a| ==> s[i] == a[i];
    assert forall i :: |a| + |t| <= i < |s| ==> s[i] == b[i - |a| - |t|];
    assert FirstNonSpace(s) == |a| && LastNonSpace(s) == |a| + |t| - 1;
  }

  /** Nothing is left exactly of whitespace. */
  lemma TrimNothing(s: string)
    ensures Trim(s) == "" <==> AllSpace(s)
  {
    if !AllSpace(s) {
      var i :| 0 <= i < |s| && !IsSpace(s[i]);
      assert FirstNonSpace(s) <= i;
    }
  }

  lemma AllSpaceBoth(a: string, b: string)
    requires AllSpace(a) && AllSpace(b)
    ensures AllSpace(a + b)
  {
  }

  lemma TrimPadded(a: string, s: string, b: string)
    requires AllSpace(a) && AllSpace(b)
    ensures Trim(a + s + b) == Trim(s)
  {
    TrimNothing(s);
    if AllSpace(s) {
      AllSpaceBoth(a, s);
      AllSpaceBoth(a + s, b);
      TrimNothing(a + s + b);
    } else {
      var c, d := TrimIs(s);
      AllSpaceBoth(a, c);
      AllSpaceBoth(d, b);
      PadBoth(a, c, Trim(s), d, b);
      TrimUnique(a + c, Trim(s), d + b);
    }
  }

  lemma PadBoth(a: string, c: string, t: string, d: string, b: string)
    ensures a + (c + t + d) + b == (a + c) + t + (d + b)
  {
  }

  lemma TrimOfTrimmed(s: string)
    requires Trimmed(s)
    ensures Trim(s) == s
  {
    if s != "" {
      assert FirstNonSpace(s) == 0;
      assert LastNonSpace(s) == |s| - 1;
    }
  }

  function Split(s: string, d: char): (r: seq<string>)
    ensures r != []
  {
    if s == "" then [""]
    else if s[0] == d then [""] + Split(s[1..], d)
    else
      var r := Split(s[1..], d);
      [[s[0]] + r[0]] + r[1..]
  }

  function Join(parts: seq<string>, d: char): (r: string)
    requires parts != []
  {
    if |parts| == 1 then parts[0] else parts[0] + [d] + Join(parts[1..], d)
  }

  predicate Free(s: string, d: char) { forall i :: 0 <= i < |s| ==> s[i] != d }

  lemma {:induction false} SplitFree(s: string, d: char)
    requires Free(s, d)
    ensures Split(s, d) == [s]
  {
    if s != "" {
      SplitFree(s[1..], d);
      assert [s[0]] + s[1..] == s;
    }
  }

  lemma {:induction false} SplitFirst(s: string, k: int, d: char)
    requires 0 <= k < |s| && s[k] == d && Free(s[..k], d)
    ensures Split(s, d) == [s[..k]] + Split(s[k+1..], d)
  {
    if k > 0 {
      var t := s[1..];
      assert s[0] == s[..k][0];
      assert t[..k-1] == s[..k][1..] && t[k..] == s[k+1..];
      SplitFirst(t, k - 1, d);
      assert [s[0]] + t[..k-1] == s[..k];
    }
  }

  /** Splitting undoes joining. */
  lemma {:induction false} SplitJoin(parts: seq<string>, d: char)
    requires parts != [] && forall i :: 0 <= i < |parts| ==> Free(parts[i], d)
    ensures Split(Join(parts, d), d) == parts
  {
    if |parts| == 1 {
      SplitFree(parts[0], d);
    } else {
      var s := Join(parts, d);
      var k := |parts[0]|;
      assert s[..k] == parts[0] && s[k+1..] == Join(parts[1..], d);
      SplitJoin(parts[1..], d);
      SplitFirst(s, k, d);
      assert parts == [parts[0]] + parts[1..];
    }
  }

  /** Joining undoes splitting, and the parts are free of the delimiter. */
  lemma {:induction false} JoinSplit(s: string, d: char)
    ensures Join(Split(s, d), d) == s && forall i :: 0 <= i < |Split(s, d)| ==> Free(Split(s, d)[i], d)
  {
    if s != "" {
      JoinSplit(s[1..], d);
      var r := Split(s[1..], d);
      if s[0] == d {
        assert ([""] + r)[1..] == r;
        assert "" + [d] + s[1..] == s;
      } else {
        var q := [[s[0]] + r[0]] + r[1..];
        if |r| > 1 {
          assert q[1..] == r[1..];
          assert [s[0]] + (r[0] + [d] + Join(r[1..], d)) == [s[0]] + r[0] + [d] + Join(r[1..], d);
        }
        assert [s[0]] + s[1..] == s;
      }
    }
  }

  datatype Problem = MissingValue | EmptySegment | ExpectedKeyValue

  datatype Result<T> = Ok(value: T) | Err(problem: Problem)

  /** Parses every segment, or reports the first problem. */
  function ParseAll<T>(segments: seq<string>, f: string -> Result<T>): (r: Result<seq<T>>) {
    if segments == [] then Ok([])
    else
      var first := f(segments[0]);
      if first.Err? then Err(first.problem)
      else
        var rest := ParseAll(segments[1..], f);
        if rest.Err? then rest else Ok([first.value] + rest.value)
  }

  lemma {:induction false} ParsedEach<T>(segments: seq<string>, f: string -> Result<T>, i: int)
    requires ParseAll(segments, f).Ok? && 0 <= i < |segments|
    ensures |ParseAll(segments, f).value| == |segments| && f(segments[i]) == Ok(ParseAll(segments, f).value[i])
  {
    if |segments| > 1 { ParsedEach(segments[1..], f, if i > 0 then i - 1 else 0); } else { assert segments[1..] == []; }
  }

  lemma {:induction false} ParseSnoc<T>(done: seq<string>, last: string, f: string -> Result<T>)
    requires ParseAll(done, f).Ok? && f(last).Ok?
    ensures ParseAll(done + [last], f) == Ok(ParseAll(done, f).value + [f(last).value])
  {
    if done == [] {
      assert done + [last] == [last] && [last][1..] == [];
      assert ParseAll([last][1..], f) == Ok([]);
      assert [f(last).value] + [] == [] + [f(last).value];
    } else {
      assert (done + [last])[1..] == done[1..] + [last];
      ParseSnoc(done[1..], last, f);
      var a, b, c := [f(done[0]).value], ParseAll(done[1..], f).value, [f(last).value];
      assert a + (b + c) == a + b + c;
    }
  }

  lemma {:induction false} ParseFails<T>(done: seq<string>, last: string, more: seq<string>, f: string -> Result<T>)
    requires ParseAll(done, f).Ok? && f(last).Err?
    ensures ParseAll(done + [last] + more, f) == Err(f(last).problem)
  {
    if done != [] {
      assert (done + [last] + more)[1..] == done[1..] + [last] + more;
      ParseFails(done[1..], last, more, f);
    }
  }

  /** The segments before `start` are `done`. */
  ghost predicate SplitSoFar(input: string, d: char, start: int, done: seq<string>) {
    && 0 <= start <= |input| + 1
    && Split(input, d) == if start == |input| + 1 then done else done + Split(input[start..], d)
  }

  lemma SplitStart(input: string, d: char)
    ensures SplitSoFar(input, d, 0, [])
  {
    assert input[0..] == input;
  }

  lemma SplitNext(input: string, d: char, start: int, index: int, done: seq<string>)
    requires SplitSoFar(input, d, start, done) && start <= index <= |input|
    requires Free(input[start..index], d) && (index == |input| || input[index] == d)
    ensures SplitSoFar(input, d, index + 1, done + [input[start..index]])
  {
    var rest := input[start..];
    var k := index - start;
    assert rest[..k] == input[start..index];
    if index < |input| {
      SplitFirst(rest, k, d);
      assert rest[k+1..] == input[index+1..];
    } else {
      assert rest == input[start..index];
      SplitFree(rest, d);
    }
  }

  lemma StopAt<T>(input: string, d: char, start: int, done: seq<string>, f: string -> Result<T>)
    requires SplitSoFar(input, d, start, done) && done != [] && f(done[|done|-1]).Err?
    requires ParseAll(done[..|done|-1], f).Ok?
    ensures ParseAll(Split(input, d), f) == Err(f(done[|done|-1]).problem)
  {
    var front, last := done[..|done|-1], done[|done|-1];
    var more := if start == |input| + 1 then [] else Split(input[start..], d);
    assert done == front + [last] && done == done + [];
    ParseFails(front, last, more, f);
  }

  function ColumnOf(segment: string): Result<string> {
    if Trim(segment) == "" then Err(EmptySegment) else Ok(Trim(segment))
  }

  /** Split, then trim. */
  function ParseColumns(input: string): Result<seq<string>> {
    if input == "" then Err(MissingValue) else ParseAll(Split(input, ','), ColumnOf)
  }

  /** A loop over the characters stands at `index`, the current segment began at `start`, and the
      segments before it gave `values`. */
  ghost predicate ScanState<T(!new)>(input: string, d: char, start: int, index: int, done: seq<string>,
                                     f: string -> Result<T>, values: seq<T>) {
    && 0 <= start <= index <= |input| + 1 && (index == |input| + 1 ==> start == index)
    && (start <= |input| ==> Free(input[start..index], d))
    && SplitSoFar(input, d, start, done) && ParseAll(done, f) == Ok(values)
  }

  ghost predicate Glance(i: int) { true }

  /** `ScanState`, kept out of the way of proofs that do not look at it. */
  ghost predicate Scanned<T(!new)>(input: string, d: char, start: int, index: int, done: seq<string>,
                                   f: string -> Result<T>, values: seq<T>) {
    && 0 <= start <= index <= |input| + 1 && (index == |input| + 1 ==> start == index)
    && (forall i {:trigger Glance(i)} :: Glance(i) && i == index ==> ScanState(input, d, start, i, done, f, values))
  }

  lemma ScanStart<T(!new)>(input: string, d: char, f: string -> Result<T>)
    ensures Scanned(input, d, 0, 0, [], f, [])
  {
    SplitStart(input, d);
    assert ScanState(input, d, 0, 0, [], f, []);
  }

  lemma ScanOn<T(!new)>(input: string, d: char, start: int, index: int, done: seq<string>,
                        f: string -> Result<T>, values: seq<T>)
    requires Scanned(input, d, start, index, done, f, values) && index < |input| && input[index] != d
    ensures Scanned(input, d, start, index + 1, done, f, values)
  {
    assert Glance(index);
    assert input[start..index+1] == input[start..index] + [input[index]];
    assert ScanState(input, d, start, index + 1, done, f, values);
  }

  lemma SegmentFails<T(!new)>(input: string, d: char, start: int, index: int, done: seq<string>,
                              f: string -> Result<T>, values: seq<T>)
    requires ScanState(input, d, start, index, done, f, values) && index <= |input|
    requires (index == |input| || input[index] == d) && f(input[start..index]).Err?
    ensures ParseAll(Split(input, d), f) == Err(f(input[start..index]).problem)
  {
    var segment := input[start..index];
    SplitNext(input, d, start, index, done);
    assert (done + [segment])[..|done|] == done;
    StopAt(input, d, index + 1, done + [segment], f);
  }

  lemma SegmentParses<T(!new)>(input: string, d: char, start: int, index: int, done: seq<string>,
                               f: string -> Result<T>, values: seq<T>)
    requires ScanState(input, d, start, index, done, f, values) && index <= |input|
    requires (index == |input| || input[index] == d) && f(input[start..index]).Ok?
    ensures ScanState(input, d, index + 1, index + 1, done + [input[start..index]], f,
                      values + [f(input[start..index]).value])
  {
    SplitNext(input, d, start, index, done);
    ParseSnoc(done, input[start..index], f);
  }

  lemma ScanSegment<T(!new)>(input: string, d: char, start: int, index: int, done: seq<string>,
                             f: string -> Result<T>, values: seq<T>)
    requires Scanned(input, d, start, index, done, f, values) && index <= |input|
    requires (index == |input| || input[index] == d)
    ensures var next := f(input[start..index]);
      if next.Err? then ParseAll(Split(input, d), f) == Err(next.problem)
      else Scanned(input, d, index + 1, index + 1, done + [input[start..index]], f, values + [next.value])
  {
    assert Glance(index);
    if f(input[start..index]).Err? {
      SegmentFails(input, d, start, index, done, f, values);
    } else {
      SegmentParses(input, d, start, index, done, f, values);
    }
  }

  lemma ScanEnd<T(!new)>(input: string, d: char, start: int, index: int, done: seq<string>,
                         f: string -> Result<T>, values: seq<T>)
    requires Scanned(input, d, start, index, done, f, values) && index == |input| + 1
    ensures ParseAll(Split(input, d), f) == Ok(values)
  {
    assert Glance(index);
  }

  /** One turn of the index-driven loop. */
  method ColumnTurn(input: string, start: int, index: int, columns: seq<string>, ghost done: seq<string>)
    returns (start': int, columns': Result<seq<string>>, ghost done': seq<string>)
    requires Scanned(input, ',', start, index, done, ColumnOf, columns) && index <= |input|
    ensures columns'.Err? ==> ParseAll(Split(input, ','), ColumnOf) == Err(columns'.problem)
    ensures columns'.Ok? ==> Scanned(input, ',', start', index + 1, done', ColumnOf, columns'.value)
  {
    if index != |input| && input[index] != ',' {
      ScanOn(input, ',', start, index, done, ColumnOf, columns);
      return start, Ok(columns), done;
    }
    ScanSegment(input, ',', start, index, done, ColumnOf, columns);
    var column := Trim(input[start..index]);
    if column == "" {
      return start, Err(EmptySegment), done;
    }
    return index + 1, Ok(columns + [column]), done + [input[start..index]];
  }

  /** The index-driven loop. */
  method ParseCommaSeparatedColumns(input: string) returns (r: Result<seq<string>>)
    ensures r == ParseColumns(input)
  {
    if input == "" {
      return Err(MissingValue);
    }
    var columns: seq<string>, start, index := [], 0, 0;
    ghost var done: seq<string> := [];
    ScanStart(input, ',', ColumnOf);
    while index <= |input|
      invariant Scanned(input, ',', start, index, done, ColumnOf, columns)
    {
      var next;
      start, next, done := ColumnTurn(input, start, index, columns, done);
      if next.Err? {
        return next;
      }
      columns, index := next.value, index + 1;
    }
    ScanEnd(input, ',', start, index, done, ColumnOf, columns);
    return Ok(columns);
  }

  method JoinColumns(columns: seq<string>) returns (joined: string)
    ensures joined == if columns == [] then "" else Join(columns, ',')
  {
    joined := "";
    var i := 0;
    while i < |columns|
      invariant 0 <= i <= |columns|
      invariant joined == if i == 0 then "" else Join(columns[..i], ',')
    {
      if i > 0 {
        joined := joined + ",";
        JoinSnoc(columns[..i], columns[i], ',');
        assert columns[..i+1] == columns[..i] + [columns[i]];
      } else {
        assert columns[..1] == [columns[0]];
      }
      joined := joined + columns[i];
      i := i + 1;
    }
    assert columns[..i] == columns;
  }

  lemma {:induction false} JoinSnoc(parts: seq<string>, last: string, d: char)
    requires parts != []
    ensures Join(parts + [last], d) == Join(parts, d) + [d] + last
  {
    if |parts| > 1 {
      assert (parts + [last])[1..] == parts[1..] + [last];
      JoinSnoc(parts[1..], last, d);
      assert parts[0] + [d] + (Join(parts[1..], d) + [d] + last) == parts[0] + [d] + Join(parts[1..], d) + [d] + last;
    } else {
      assert (parts + [last])[1..] == [last];
    }
  }

  /** An item that survives printing and parsing. */
  predicate CleanItem(s: string, d: char) { s != "" && Trimmed(s) && Free(s, d) }

  predicate CleanItems(items: seq<string>, d: char) {
    items != [] && forall i :: 0 <= i < |items| ==> CleanItem(items[i], d)
  }

  lemma {:induction false} CleanColumns(items: seq<string>)
    requires forall i :: 0 <= i < |items| ==> CleanItem(items[i], ',')
    ensures ParseAll(items, ColumnOf) == Ok(items)
  {
    if items != [] {
      TrimOfTrimmed(items[0]);
      CleanColumns(items[1..]);
      assert items == [items[0]] + items[1..];
    }
  }

  /** Parsing undoes joining. */
  lemma ParseJoined(columns: seq<string>)
    requires CleanItems(columns, ',')
    ensures ParseColumns(Join(columns, ',')) == Ok(columns)
  {
    SplitJoin(columns, ',');
    CleanColumns(columns);
    assert Join(columns, ',') != "" by { assert columns[0] != ""; }
  }

  lemma TrimFree(s: string, d: char)
    requires Free(s, d)
    ensures Free(Trim(s), d)
  {
    var a, b := TrimIs(s);
    forall i | 0 <= i < |Trim(s)| ensures Trim(s)[i] != d { assert Trim(s)[i] == s[|a| + i]; }
  }

  /** A successful parse yields clean items. */
  lemma ParsedAreClean(input: string)
    requires ParseColumns(input).Ok?
    ensures CleanItems(ParseColumns(input).value, ',')
  {
    var columns, segments := ParseColumns(input).value, Split(input, ',');
    JoinSplit(input, ',');
    ParsedEach(segments, ColumnOf, 0);
    forall i | 0 <= i < |columns| ensures CleanItem(columns[i], ',') {
      ParsedEach(segments, ColumnOf, i);
      var a, b := TrimIs(segments[i]);
      TrimFree(segments[i], ',');
    }
  }

  /** No segment is blank. */
  predicate NoneBlank(segments: seq<string>) { forall i :: 0 <= i < |segments| ==> !AllSpace(segments[i]) }

  lemma {:induction false} ColumnsParse(segments: seq<string>)
    ensures ParseAll(segments, ColumnOf).Ok? <==> NoneBlank(segments)
    ensures ParseAll(segments, ColumnOf).Err? ==> ParseAll(segments, ColumnOf).problem == EmptySegment
  {
    if segments != [] {
      ColumnsParse(segments[1..]);
      TrimNothing(segments[0]);
    }
  }

  /** Columns are accepted exactly if there is text and none of its segments is blank. */
  lemma ColumnsIff(input: string)
    ensures ParseColumns(input).Ok? <==> input != "" && NoneBlank(Split(input, ','))
    ensures ParseColumns(input).Err? ==>
      ParseColumns(input).problem == if input == "" then MissingValue else EmptySegment
  {
    ColumnsParse(Split(input, ','));
  }

  /** Parsing what was parsed and printed changes nothing. */
  lemma ParsePrintParse(input: string)
    requires ParseColumns(input).Ok?
    ensures ParseColumns(Join(ParseColumns(input).value, ',')) == ParseColumns(input)
  {
    ParsedAreClean(input);
    ParseJoined(ParseColumns(input).value);
  }

  datatype Setting = Setting(key: string, value: string)

  /** The first index of `d`; the length when there is none. */
  function Find(s: string, d: char): (r: nat)
    ensures r <= |s| && Free(s[..r], d) && (r < |s| ==> s[r] == d)
  {
    if s == "" || s[0] == d then 0 else 1 + Find(s[1..], d)
  }

  function ParseSetting(token: string): Result<Setting> {
    var segment := Trim(token);
    if segment == "" then Err(EmptySegment)
    else
      var k := Find(segment, ':');
      if k == |segment| then Err(ExpectedKeyValue)
      else
        var key, value := Trim(segment[..k]), Trim(segment[k+1..]);
        if key == "" || value == "" then Err(ExpectedKeyValue) else Ok(Setting(key, value))
  }

  function ParseOptions(input: string): Result<seq<Setting>> {
    if input == "" then Err(MissingValue) else ParseAll(Split(input, ';'), ParseSetting)
  }

  lemma CharsOf(a: string, t: string, b: string, k: int)
    requires 0 <= k < |a + t + b|
    ensures k < |a| ==> (a + t + b)[k] in a
    ensures k >= |a| + |t| ==> (a + t + b)[k] in b
  {
  }

  lemma PartsAround(a: string, t: string, b: string, j: int)
    requires 0 <= j < |t|
    ensures (a + t + b)[..|a| + j] == a + t[..j] && (a + t + b)[|a| + j + 1..] == t[j+1..] + b
    ensures (a + t + b)[|a| + j] == t[j] && t == t[..j] + [t[j]] + t[j+1..]
  {
  }

  lemma NoColon(s: string)
    requires AllSpace(s)
    ensures ':' !in s
  {
  }

  /** Trimming keeps the parts around a colon, except for whitespace at the ends. */
  lemma ColonStays(token: string, k: int) returns (a: string, left: string, right: string, b: string)
    requires 0 <= k < |token| && token[k] == ':'
    ensures Trim(token) == left + [':'] + right && AllSpace(a) && AllSpace(b)
    ensures token[..k] == a + left && token[k+1..] == right + b
  {
    a, b := TrimIs(token);
    var t := Trim(token);
    NoColon(a);
    NoColon(b);
    CharsOf(a, t, b, k);
    PartsAround(a, t, b, k - |a|);
    left, right := t[..k - |a|], t[k - |a| + 1..];
  }

  lemma FreeBoth(a: string, b: string, d: char)
    requires Free(a + b, d)
    ensures Free(b, d)
  {
    forall i | 0 <= i < |b| ensures b[i] != d { assert b[i] == (a + b)[|a| + i]; }
  }

  /** A token with a colon gives the text before its first colon and the text behind it, both without the whitespace
      around them, if neither is blank. */
  lemma SettingAt(token: string, k: int)
    requires 0 <= k < |token| && token[k] == ':' && Free(token[..k], ':')
    ensures var key, value := Trim(token[..k]), Trim(token[k+1..]);
      ParseSetting(token) == if key == "" || value == "" then Err(ExpectedKeyValue) else Ok(Setting(key, value))
  {
    var a, left, right, b := ColonStays(token, k);
    FreeBoth(a, left, ':');
    FindAt(left, ':', right);
    assert a + left == a + left + "" && right + b == "" + right + b;
    TrimPadded(a, left, "");
    TrimPadded("", right, b);
    SettingOf(token, left, right);
  }

  lemma SettingOf(token: string, left: string, right: string)
    requires Trim(token) == left + [':'] + right && Find(left + [':'] + right, ':') == |left|
    ensures var key, value := Trim(left), Trim(right);
      ParseSetting(token) == if key == "" || value == "" then Err(ExpectedKeyValue) else Ok(Setting(key, value))
  {
    var segment := left + [':'] + right;
    assert segment[..|left|] == left && segment[|left|+1..] == right;
  }

  lemma {:induction false} FindNothing(s: string, d: char)
    requires Free(s, d)
    ensures Find(s, d) == |s|
  {
    if s != "" { FindNothing(s[1..], d); }
  }

  /** A token without a colon gives nothing. */
  lemma SettingWithout(token: string)
    requires Free(token, ':')
    ensures ParseSetting(token) == Err(if AllSpace(token) then EmptySegment else ExpectedKeyValue)
  {
    TrimNothing(token);
    TrimFree(token, ':');
    FindNothing(Trim(token), ':');
  }

  /** The parsing of one token. */
  method ParseToken(token: string) returns (r: Result<Setting>)
    ensures r == ParseSetting(token)
  {
    var segment := Trim(token);
    if segment == "" {
      return Err(EmptySegment);
    }
    var separator := Find(segment, ':');
    if separator == |segment| {
      return Err(ExpectedKeyValue);
    }
    var key, value := Trim(segment[..separator]), Trim(segment[separator+1..]);
    if key == "" || value == "" {
      return Err(ExpectedKeyValue);
    }
    return Ok(Setting(key, value));
  }

  /** One turn of the loop with a token buffer. */
  method OptionTurn(input: string, ghost start: int, index: int, token: string, parsed: seq<Setting>,
                    ghost done: seq<string>)
    returns (ghost start': int, token': string, parsed': Result<seq<Setting>>, ghost done': seq<string>)
    requires Scanned(input, ';', start, index, done, ParseSetting, parsed) && index <= |input|
    requires token == input[start..index]
    ensures parsed'.Err? ==> ParseAll(Split(input, ';'), ParseSetting) == Err(parsed'.problem)
    ensures parsed'.Ok? ==> Scanned(input, ';', start', index + 1, done', ParseSetting, parsed'.value)
    ensures parsed'.Ok? && index < |input| ==> token' == input[start'..index+1]
  {
    if index != |input| && input[index] != ';' {
      ScanOn(input, ';', start, index, done, ParseSetting, parsed);
      return start, token + [input[index]], Ok(parsed), done;
    }
    ScanSegment(input, ';', start, index, done, ParseSetting, parsed);
    var next := ParseToken(token);
    if next.Err? {
      return start, token, Err(next.problem), done;
    }
    return index + 1, "", Ok(parsed + [next.value]), done + [token];
  }

  /** The loop with a token buffer. */
  method ParseDelimitedOptions(input: string) returns (r: Result<seq<Setting>>)
    ensures r == ParseOptions(input)
  {
    if input == "" {
      return Err(MissingValue);
    }
    var parsed: seq<Setting>, token, index := [], "", 0;
    ghost var done: seq<string>, start := [], 0;
    ScanStart(input, ';', ParseSetting);
    while index <= |input|
      invariant Scanned(input, ';', start, index, done, ParseSetting, parsed)
      invariant index <= |input| ==> token == input[start..index]
    {
      var next;
      start, token, next, done := OptionTurn(input, start, index, token, parsed, done);
      if next.Err? {
        return next;
      }
      parsed, index := next.value, index + 1;
    }
    ScanEnd(input, ';', start, index, done, ParseSetting, parsed);
    return Ok(parsed);
  }

  function PrintSetting(s: Setting): string { s.key + ":" + s.value }

  function PrintAll(settings: seq<Setting>): (r: seq<string>)
    ensures |r| == |settings| && forall i :: 0 <= i < |r| ==> r[i] == PrintSetting(settings[i])
  {
    seq(|settings|, i requires 0 <= i < |settings| => PrintSetting(settings[i]))
  }

  predicate CleanSetting(s: Setting) {
    CleanItem(s.key, ';') && Free(s.key, ':') && CleanItem(s.value, ';')
  }

  lemma PrintedParses(s: Setting)
    requires CleanSetting(s)
    ensures ParseSetting(PrintSetting(s)) == Ok(s) && Free(PrintSetting(s), ';')
  {
    var t := PrintSetting(s);
    assert t[0] == s.key[0] && t[|t|-1] == s.value[|s.value|-1];
    TrimOfTrimmed(t);
    FindAt(s.key, ':', s.value);
    assert t[..|s.key|] == s.key && t[|s.key|+1..] == s.value;
    TrimOfTrimmed(s.key);
    TrimOfTrimmed(s.value);
  }

  lemma {:induction false} FindAt(a: string, d: char, b: string)
    requires Free(a, d)
    ensures Find(a + [d] + b, d) == |a|
  {
    if a != "" {
      FindAt(a[1..], d, b);
      assert (a + [d] + b)[1..] == a[1..] + [d] + b;
    }
  }

  lemma {:induction false} AllPrintedParse(settings: seq<Setting>)
    requires forall i :: 0 <= i < |settings| ==> CleanSetting(settings[i])
    ensures ParseAll(PrintAll(settings), ParseSetting) == Ok(settings)
  {
    if settings != [] {
      PrintedParses(settings[0]);
      AllPrintedParse(settings[1..]);
      assert PrintAll(settings)[0] == PrintSetting(settings[0]);
      assert PrintAll(settings)[1..] == PrintAll(settings[1..]);
      FirstAndRest(PrintAll(settings), ParseSetting, settings);
    }
  }

  lemma FirstAndRest<T>(segments: seq<string>, f: string -> Result<T>, values: seq<T>)
    requires segments != [] && values != [] && f(segments[0]) == Ok(values[0])
    requires ParseAll(segments[1..], f) == Ok(values[1..])
    ensures ParseAll(segments, f) == Ok(values)
  {
    assert values == [values[0]] + values[1..];
  }

  /** Parsing undoes printing. */
  lemma ParsePrinted(settings: seq<Setting>)
    requires settings != [] && forall i :: 0 <= i < |settings| ==> CleanSetting(settings[i])
    ensures ParseOptions(Join(PrintAll(settings), ';')) == Ok(settings)
  {
    var parts := PrintAll(settings);
    forall i | 0 <= i < |parts| ensures Free(parts[i], ';') { PrintedParses(settings[i]); }
    SplitJoin(parts, ';');
    AllPrintedParse(settings);
    assert Join(parts, ';') != "" by { assert parts[0] == PrintSetting(settings[0]) != ""; }
  }

  lemma ParsedSettingIsClean(token: string)
    requires Free(token, ';') && ParseSetting(token).Ok?
    ensures CleanSetting(ParseSetting(token).value)
  {
    var segment := Trim(token);
    TrimFree(token, ';');
    var k := Find(segment, ':');
    var left, right := segment[..k], segment[k+1..];
    assert Free(left, ';') && Free(right, ';');
    TrimFree(left, ';');
    TrimFree(left, ':');
    TrimFree(right, ';');
    var a, b := TrimIs(left);
    var c, d := TrimIs(right);
  }

  /** A successful parse yields clean settings, and printing and parsing them changes nothing. */
  lemma OptionsPrintParse(input: string)
    requires ParseOptions(input).Ok?
    ensures var settings := ParseOptions(input).value;
      && settings != [] && (forall i :: 0 <= i < |settings| ==> CleanSetting(settings[i]))
      && ParseOptions(Join(PrintAll(settings), ';')) == ParseOptions(input)
  {
    var settings, tokens := ParseOptions(input).value, Split(input, ';');
    JoinSplit(input, ';');
    ParsedEach(tokens, ParseSetting, 0);
    forall i | 0 <= i < |settings| ensures CleanSetting(settings[i]) {
      ParsedEach(tokens, ParseSetting, i);
      ParsedSettingIsClean(tokens[i]);
    }
    ParsePrinted(settings);
  }
}
