/** The three pages that print lost or processed luminosity sections as ranges, and the one
    that expands ranges. */
module LumiPages {
  import opened Common
  import opened Sorting
  import opened LumiRanges

  predicate IntLeq(a: int, b: int) {
    a <= b
  }

  /** `sort(function(a, b) { return a - b })` */
  function Sorted(lumis: seq<int>): seq<int> {
    Sort(lumis, IntLeq)
  }

  lemma SortedAre(lumis: seq<int>)
    ensures |Sorted(lumis)| == |lumis| && forall x :: x in Sorted(lumis) <==> x in lumis
    ensures forall i, j | 0 <= i < j < |Sorted(lumis)| :: Sorted(lumis)[i] <= Sorted(lumis)[j]
  {
    SortIs(lumis, IntLeq);
    var s := Sorted(lumis);
    assert |multiset(s)| == |multiset(lumis)|;
    forall x ensures x in s <==> x in lumis {
      assert x in s <==> x in multiset(s);
      assert x in lumis <==> x in multiset(lumis);
    }
    forall i, j | 0 <= i < j < |s| ensures s[i] <= s[j] { assert IntLeq(s[i], s[j]); }
  }

  lemma OneMore(s: seq<int>, i: nat)
    requires i < |s|
    ensures s[..i + 1] == s[..i] + [s[i]]
  {
  }

  // ----- lumiList.js -----

  /** The numbers listed for each run. */
  type Runs = map<string, seq<int>>

  /** The runs of all rows, with the numbers of a run in the order they come. */
  method Merge(rows: seq<Runs>) returns (lumiList: map<string, seq<int>>)
    ensures forall run :: run in lumiList <==> exists i :: 0 <= i < |rows| && run in rows[i]
    ensures forall run, x | run in lumiList :: x in lumiList[run] <==> Listed(rows, |rows|, run, x)
  {
    lumiList := map[];
    for i := 0 to |rows|
      invariant forall run :: run in lumiList <==> exists j :: 0 <= j < i && run in rows[j]
      invariant forall run, x | run in lumiList :: x in lumiList[run] <==> Listed(rows, i, run, x)
    {
      var runs := rows[i];
      var todo := runs.Keys;
      ghost var before := lumiList;
      while todo != {}
        invariant todo <= runs.Keys
        invariant forall run :: run in lumiList <==> run in before || (run in runs && run !in todo)
        invariant forall run | run in lumiList ::
                    lumiList[run] == (if run in before then before[run] else [])
                                     + (if run in runs && run !in todo then runs[run] else [])
        decreases todo
      {
        var run :| run in todo;
        lumiList := if run in lumiList then lumiList[run := lumiList[run] + runs[run]] else lumiList[run := runs[run]];
        todo := todo - {run};
      }
      forall run, x
        ensures Listed(rows, i + 1, run, x) <==> Listed(rows, i, run, x) || (run in rows[i] && x in rows[i][run])
      {
      }
    }
  }

  /** One of the first `n` rows lists the number for the run. */
  ghost predicate Listed(rows: seq<Runs>, n: nat, run: string, x: int)
    requires n <= |rows|
  {
    exists i :: 0 <= i < n && run in rows[i] && x in rows[i][run]
  }

  /** "Compact the list": duplicates are skipped as they come. `None` is the single pair of
      `NaN` that an empty list gives. */
  method CompactList(lumis: seq<int>) returns (pairs: Option<seq<Range>>)
    ensures pairs.None? <==> lumis == []
    ensures pairs.Some? ==> Canonical(pairs.value) && Covers(pairs.value, lumis)
  {
    var list := Sorted(lumis);
    SortedAre(lumis);
    if list == [] {
      return None;
    }
    var begLumi, endLumi := list[0], list[0];
    var ranges: seq<Range> := [];
    Start(list[0]);
    assert list[..1] == [list[0]];
    ghost var seen := [list[0]];
    for i := 0 to |list|
      invariant i > 0 ==> endLumi == list[i - 1]
      invariant i == 0 ==> endLumi == list[0]
      invariant Compacting(ranges, begLumi, endLumi, seen) && forall x :: x in seen <==> x in list[..i] || x == list[0]
    {
      var lumi := list[i];
      OneMore(list, i);
      if lumi == endLumi {
        Extend(ranges, begLumi, endLumi, seen, lumi);
      } else if lumi == endLumi + 1 {
        Extend(ranges, begLumi, endLumi, seen, lumi);
        endLumi := lumi;
      } else {
        Open(ranges, begLumi, endLumi, seen, lumi);
        ranges := ranges + [Range(begLumi, endLumi)];
        begLumi, endLumi := lumi, lumi;
      }
      seen := seen + [lumi];
    }
    assert list[..|list|] == list;
    pairs := Some(ranges + [Range(begLumi, endLumi)]);
  }

  /** The whole page: for each run of any row, the canonical ranges of exactly its numbers. */
  method LumiList(rows: seq<Runs>) returns (compactList: map<string, Option<seq<Range>>>)
    ensures forall run :: run in compactList <==> exists i :: 0 <= i < |rows| && run in rows[i]
    ensures forall run | run in compactList :: CompactOf(compactList[run], rows, run)
  {
    var lumiList := Merge(rows);
    compactList := map[];
    var todo := lumiList.Keys;
    while todo != {}
      invariant todo <= lumiList.Keys && compactList.Keys == lumiList.Keys - todo
      invariant forall run | run in compactList :: CompactOf(compactList[run], rows, run)
      decreases todo
    {
      var run :| run in todo;
      var pairs := CompactList(lumiList[run]);
      assert lumiList[run] != [] ==> lumiList[run][0] in lumiList[run];
      assert forall x :: x in lumiList[run] <==> Listed(rows, |rows|, run, x);
      compactList := compactList[run := pairs];
      todo := todo - {run};
    }
  }

  ghost predicate CompactOf(pairs: Option<seq<Range>>, rows: seq<Runs>, run: string) {
    match pairs
    case None => forall x :: !Listed(rows, |rows|, run, x)
    case Some(ranges) => Canonical(ranges) && forall x :: InRanges(x, ranges) <==> Listed(rows, |rows|, run, x)
  }

  // ----- lumiMissingByWorkflow.js -----

  /** For each task, the run lists of the errors in its steps and exit codes. */
  type Errors = map<string, seq<Runs>>

  /** For each output dataset, the tasks it comes from, if the document says so. */
  type Output = map<string, Option<seq<string>>>

  type Lost = map<string, set<int>>

  /** `lumiLost`: the numbers each run lost in any step with any exit code. */
  method LostOfTask(runs: seq<Runs>) returns (lumiLost: Lost)
    ensures forall run :: run in lumiLost <==> exists i :: 0 <= i < |runs| && run in runs[i]
    ensures forall run, x | run in lumiLost :: x in lumiLost[run] <==> Listed(runs, |runs|, run, x)
  {
    lumiLost := map[];
    for i := 0 to |runs|
      invariant forall run :: run in lumiLost <==> exists j :: 0 <= j < i && run in runs[j]
      invariant forall run, x | run in lumiLost :: x in lumiLost[run] <==> Listed(runs, i, run, x)
    {
      ghost var before := lumiLost;
      var more := map run | run in runs[i] :: set k | 0 <= k < |runs[i][run]| :: runs[i][run][k];
      lumiLost := AddLost(lumiLost, more);
      forall run, x
        ensures Listed(runs, i + 1, run, x) <==> Listed(runs, i, run, x) || (run in runs[i] && x in runs[i][run])
      {
      }
      forall run | run in lumiLost ensures lumiLost[run] == Of(before, run) + Of(more, run) {
        assert lumiLost[run] == Of(lumiLost, run);
      }
    }
  }

  function Of(lost: Lost, run: string): set<int> {
    if run in lost then lost[run] else {}
  }

  /** `result[key][run][lumi] = true` for all that is lost. */
  method AddLost(before: Lost, more: Lost) returns (after: Lost)
    ensures after.Keys == before.Keys + more.Keys
    ensures forall run :: Of(after, run) == Of(before, run) + Of(more, run)
  {
    after := before;
    var todo := more.Keys;
    while todo != {}
      invariant todo <= more.Keys && Added(before, more, after, todo)
      decreases todo
    {
      var run :| run in todo;
      AddedOne(before, more, after, todo, run);
      after := after[run := Of(after, run) + more[run]];
      todo := todo - {run};
    }
  }

  /** `after` is `before` with what is in `more`, except under the runs in `todo`. */
  ghost predicate Added(before: Lost, more: Lost, after: Lost, todo: set<string>) {
    after.Keys == before.Keys + (more.Keys - todo)
    && forall run :: Of(after, run) == Of(before, run) + if run in todo then {} else Of(more, run)
  }

  lemma AddedOne(before: Lost, more: Lost, after: Lost, todo: set<string>, run: string)
    requires Added(before, more, after, todo) && run in todo && run in more
    ensures Added(before, more, after[run := Of(after, run) + more[run]], todo - {run})
  {
    var after' := after[run := Of(after, run) + more[run]];
    forall r ensures Of(after', r) == Of(before, r) + if r in todo - {run} then {} else Of(more, r) {
      assert Of(after, r) == Of(before, r) + if r in todo then {} else Of(more, r);
    }
  }

  /** A task is reported under the datasets it writes to; under its own name if there are none. */
  ghost function ReportKeys(output: Output, task: string): set<string> {
    var datasets := set d | d in output && output[d].Some? && task in output[d].value;
    if datasets == {} then {task} else datasets
  }

  method ResultKeys(output: Output, task: string) returns (resultKeys: seq<string>)
    ensures Elements(resultKeys) == ReportKeys(output, task)
  {
    resultKeys := [];
    var todo := output.Keys;
    while todo != {}
      invariant todo <= output.Keys
      invariant Elements(resultKeys) == set d | d in output && d !in todo && output[d].Some? && task in output[d].value
      decreases todo
    {
      var outputDataset :| outputDataset in todo;
      if output[outputDataset].Some? && task in output[outputDataset].value {
        Snoc(resultKeys, outputDataset);
        resultKeys := resultKeys + [outputDataset];
      }
      todo := todo - {outputDataset};
    }
    assert resultKeys != [] ==> resultKeys[0] in Elements(resultKeys);
    if |resultKeys| == 0 {
      assert Elements(resultKeys) == {} && Elements([task]) == {task};
      resultKeys := [task];
    }
  }

  /** Some task with errors is reported under the key. */
  ghost predicate Reported(errors: Errors, output: Output, key: string) {
    exists task :: task in errors && key in ReportKeys(output, task)
  }

  /** The number was lost in the run, in a task that is reported under the key and not among `todo`. */
  ghost predicate LostIn(errors: Errors, output: Output, todo: set<string>, key: string, run: string, x: int) {
    exists task :: task in errors && task !in todo && key in ReportKeys(output, task)
                   && Listed(errors[task], |errors[task]|, run, x)
  }

  /** Some step of the task lists the number for the run. */
  ghost predicate LostBy(errors: Errors, task: string, run: string, x: int) {
    task in errors && exists i :: 0 <= i < |errors[task]| && run in errors[task][i] && x in errors[task][i][run]
  }

  /** Under a key is what was lost by the tasks that the dataset of that name comes from, and by
      the task of that name if no dataset comes from it. */
  lemma LostUnder(errors: Errors, output: Output, key: string, run: string, x: int)
    ensures LostIn(errors, output, {}, key, run, x) <==>
            || (key in output && output[key].Some?
                && exists task :: task in output[key].value && LostBy(errors, task, run, x))
            || (LostBy(errors, key, run, x) && forall d | d in output && output[d].Some? :: key !in output[d].value)
  {
    forall task ensures key in ReportKeys(output, task) <==>
        || (key in output && output[key].Some? && task in output[key].value)
        || (key == task && forall d | d in output && output[d].Some? :: task !in output[d].value)
    {
      var datasets := set d | d in output && output[d].Some? && task in output[d].value;
      if datasets != {} {
        var d :| d in datasets;
      }
      assert forall d :: d in datasets <==> d in output && output[d].Some? && task in output[d].value;
    }
    if LostIn(errors, output, {}, key, run, x) {
      var task :| task in errors && key in ReportKeys(output, task) && Listed(errors[task], |errors[task]|, run, x);
      assert LostBy(errors, task, run, x);
    }
    forall task | LostBy(errors, task, run, x) ensures Listed(errors[task], |errors[task]|, run, x) { }
  }

  ghost predicate Holds(result: map<string, Lost>, key: string, run: string, x: int) {
    key in result && x in Of(result[key], run)
  }

  /** The first half of the page: under each key, each number once. */
  method Gather(errors: Errors, output: Output) returns (result: map<string, Lost>)
    ensures forall key :: key in result <==> Reported(errors, output, key)
    ensures forall key, run, x :: Holds(result, key, run, x) <==> LostIn(errors, output, {}, key, run, x)
  {
    result := map[];
    var todo := errors.Keys;
    while todo != {}
      invariant todo <= errors.Keys
      invariant forall key :: key in result <==>
                  exists task :: task in errors && task !in todo && key in ReportKeys(output, task)
      invariant forall key, run, x :: Holds(result, key, run, x) <==> LostIn(errors, output, todo, key, run, x)
      decreases todo
    {
      var task :| task in todo;
      var resultKeys := ResultKeys(output, task);
      var lumiLost := LostOfTask(errors[task]);
      ghost var before := result;
      result := Record(result, resultKeys, lumiLost);
      forall key, run, x
        ensures LostIn(errors, output, todo - {task}, key, run, x) <==>
                (LostIn(errors, output, todo, key, run, x) || (key in Elements(resultKeys) && x in Of(lumiLost, run)))
      {
        assert x in Of(lumiLost, run) <==> Listed(errors[task], |errors[task]|, run, x) by {
          if Listed(errors[task], |errors[task]|, run, x) { assert run in lumiLost; }
        }
      }
      todo := todo - {task};
    }
  }

  /** What one task lost, under each of its keys. */
  method Record(before: map<string, Lost>, resultKeys: seq<string>, lumiLost: Lost) returns (result: map<string, Lost>)
    ensures result.Keys == before.Keys + Elements(resultKeys)
    ensures forall key, run, x :: Holds(result, key, run, x) <==>
              Holds(before, key, run, x) || (key in Elements(resultKeys) && x in Of(lumiLost, run))
  {
    result := before;
    for k := 0 to |resultKeys|
      invariant result.Keys == before.Keys + Elements(resultKeys[..k])
      invariant forall key, run, x :: Holds(result, key, run, x) <==>
                  (Holds(before, key, run, x) || (key in Elements(resultKeys[..k]) && x in Of(lumiLost, run)))
    {
      var individualKey := resultKeys[k];
      var sum := AddLost(if individualKey in result then result[individualKey] else map[], lumiLost);
      assert resultKeys[..k + 1] == resultKeys[..k] + [individualKey];
      Snoc(resultKeys[..k], individualKey);
      result := result[individualKey := sum];
    }
    assert resultKeys[..|resultKeys|] == resultKeys;
  }

  /** The ranges of all runs under one key. */
  method RunBlocks(lost: Lost) returns (json: map<string, seq<Range>>)
    ensures json.Keys == lost.Keys
    ensures forall run | run in json :: Canonical(json[run]) && forall x :: InRanges(x, json[run]) <==> x in lost[run]
  {
    json := map[];
    var todo := lost.Keys;
    while todo != {}
      invariant todo <= lost.Keys && json.Keys == lost.Keys - todo
      invariant forall run | run in json ::
                  Canonical(json[run]) && forall x :: InRanges(x, json[run]) <==> x in lost[run]
      decreases todo
    {
      var run :| run in todo;
      var blocks := BlocksOf(lost[run]);
      json := json[run := blocks];
      todo := todo - {run};
    }
  }

  /** The ranges printed for a key are canonical, and hold exactly what was lost under it. */
  ghost predicate PageOf(json: map<string, seq<Range>>, errors: Errors, output: Output, key: string) {
    && (forall run | run in json :: Canonical(json[run]))
    && forall run, x :: (run in json && InRanges(x, json[run])) <==> LostIn(errors, output, {}, key, run, x)
  }

  /** The whole page, for all keys or for the one dataset that was asked for. */
  method LumiMissing(errors: Errors, output: Output, searchKey: Option<string>)
    returns (jsonResult: map<string, map<string, seq<Range>>>)
    ensures forall key ::
              key in jsonResult <==> (searchKey.Some? ==> key == searchKey.value) && Reported(errors, output, key)
    ensures forall key | key in jsonResult :: PageOf(jsonResult[key], errors, output, key)
  {
    var result := Gather(errors, output);
    jsonResult := map[];
    var todo := result.Keys;
    while todo != {}
      invariant todo <= result.Keys
      invariant forall key ::
                  key in jsonResult <==> (searchKey.Some? ==> key == searchKey.value) && key in result && key !in todo
      invariant forall key | key in jsonResult :: PageOf(jsonResult[key], errors, output, key)
      decreases todo
    {
      var indexingKey :| indexingKey in todo;
      todo := todo - {indexingKey};
      if searchKey.Some? && searchKey.value != indexingKey {
        continue;
      }
      var blocks := RunBlocks(result[indexingKey]);
      forall run, x
        ensures (run in blocks && InRanges(x, blocks[run])) <==> LostIn(errors, output, {}, indexingKey, run, x)
      {
        assert Holds(result, indexingKey, run, x) <==> LostIn(errors, output, {}, indexingKey, run, x);
      }
      jsonResult := jsonResult[indexingKey := blocks];
    }
  }

  /** The ranges of one run; none for a run without numbers. */
  method BlocksOf(lumis: set<int>) returns (ranges: seq<Range>)
    ensures Canonical(ranges) && forall x :: InRanges(x, ranges) <==> x in lumis
  {
    var allLumis := InSomeOrder(lumis);
    assert forall x :: x in allLumis <==> x in Elements(allLumis);
    SortedAre(allLumis);
    var list := Sorted(allLumis);
    if |list| == 0 {
      assert forall x :: x !in list;
      return [];
    }
    NoDupSorted(allLumis);
    var lastLumi := list[0];
    var lumiBlock := lastLumi;
    ranges := [];
    Start(lastLumi);
    assert list[..1] == [list[0]];
    for i := 1 to |list|
      invariant lastLumi == list[i - 1] && Compacting(ranges, lumiBlock, lastLumi, list[..i])
    {
      var currentLumi := list[i];
      OneMore(list, i);
      if currentLumi != lastLumi + 1 {
        Open(ranges, lumiBlock, lastLumi, list[..i], currentLumi);
        ranges := ranges + [Range(lumiBlock, lastLumi)];
        lumiBlock := currentLumi;
      } else {
        Extend(ranges, lumiBlock, lastLumi, list[..i], currentLumi);
      }
      lastLumi := currentLumi;
    }
    assert list[..|list|] == list;
    ranges := ranges + [Range(lumiBlock, lastLumi)];
  }

  lemma NoDupSorted(lumis: seq<int>)
    requires NoDup(lumis)
    ensures Increasing(Sorted(lumis))
  {
    SortedAre(lumis);
    SortKeepsDistinct(lumis, IntLeq);
  }

  // ----- workflowSummary.js -----

  /** `removeArrayDuplicates(someArray, "numerical")` */
  method RemoveArrayDuplicates(someArray: seq<int>) returns (uniqueValues: seq<int>)
    ensures Increasing(uniqueValues) && forall x :: x in uniqueValues <==> x in someArray
  {
    var list := Sorted(someArray);
    SortedAre(someArray);
    uniqueValues := [];
    var prevValue: Option<int> := None;
    for i := 0 to |list|
      invariant Increasing(uniqueValues) && forall x :: x in uniqueValues <==> x in list[..i]
      invariant i == 0 ==> prevValue == None && uniqueValues == []
      invariant i > 0 ==>
                  && prevValue == Some(list[i - 1])
                  && uniqueValues != [] && uniqueValues[|uniqueValues| - 1] == list[i - 1]
    {
      OneMore(list, i);
      if prevValue != Some(list[i]) {
        uniqueValues := uniqueValues + [list[i]];
        prevValue := Some(list[i]);
      }
    }
    assert list[..|list|] == list;
  }

  /** One piece of the text: a single number, `first-last`, or the text of a variable that
      was never set. */
  datatype Token = One(n: int) | Span(first: int, last: int) | Undefined

  function TokenOf(r: Range): Token {
    if r.last == r.first then One(r.first) else Span(r.first, r.last)
  }

  function Tokens(ranges: seq<Range>): (r: seq<Token>)
    ensures |r| == |ranges|
  {
    seq(|ranges|, i requires 0 <= i < |ranges| => TokenOf(ranges[i]))
  }

  /** The numbers a token stands for. */
  function NumbersOf(token: Token): seq<int> {
    match token
    case One(n) => [n]
    case Span(first, last) => Numbers(first, last)
    case Undefined => []
  }

  /** Reading a text back. */
  function ReadBack(text: seq<Token>): seq<int>
    decreases |text|
  {
    if text == [] then [] else NumbersOf(text[0]) + ReadBack(text[1..])
  }

  lemma {:induction false} TokensReadBack(ranges: seq<Range>)
    requires forall i | 0 <= i < |ranges| :: ranges[i].first <= ranges[i].last
    ensures ReadBack(Tokens(ranges)) == Expanded(ranges)
    decreases |ranges|
  {
    if ranges != [] {
      TokensReadBack(ranges[1..]);
      TokenReadsBack(ranges[0]);
      assert Tokens(ranges)[1..] == Tokens(ranges[1..]) && Tokens(ranges)[0] == TokenOf(ranges[0]);
    }
  }

  lemma TokenReadsBack(r: Range)
    requires r.first <= r.last
    ensures NumbersOf(TokenOf(r)) == Numbers(r.first, r.last)
  {
    if r.first == r.last {
      assert Numbers(r.first, r.last) == [r.first] + Numbers(r.first + 1, r.last);
      assert Numbers(r.first + 1, r.last) == [];
    }
  }

  /** The text of a run reads back as its numbers in increasing order, and gives a range with a
      first and a last number exactly where there are several. */
  lemma TextReadsBack(text: seq<Token>, lumis: seq<int>)
    requires TextOf(text, lumis)
    ensures Increasing(ReadBack(text)) && forall x :: x in ReadBack(text) <==> x in lumis
    ensures forall i | 0 <= i < |text| :: text[i].One? || (text[i].Span? && text[i].first < text[i].last)
  {
    var ranges: seq<Range> :| Canonical(ranges) && Covers(ranges, lumis) && text == Tokens(ranges);
    TokensReadBack(ranges);
    ExpandedIncreases(ranges);
    forall x ensures x in ReadBack(text) <==> x in lumis { ExpandedAre(ranges, x); }
  }

  /** What is printed for the two variables of the range that was met last. */
  function Shown(range: Option<Range>): Token {
    if range.Some? then TokenOf(range.value) else Undefined
  }

  /** The inner loop of `renderRunLumiDetails`, over one run. `rangeBottom` and `rangeTop` are
      declared inside the loop over the runs, but JavaScript gives them to the function: the
      first number sets them anew, a run without numbers sees those of the run before. */
  method RenderRun(lumis: seq<int>, last: Option<Range>)
    returns (text: seq<Token>, range: Option<Range>, ghost ranges: seq<Range>)
    ensures lumis != [] ==> Canonical(ranges) && Covers(ranges, lumis) && text == Tokens(ranges)
    ensures lumis != [] ==> ranges != [] && range == Some(Last(ranges))
    ensures lumis == [] ==> range == last && text == [Shown(last)]
  {
    var uniqueLumis := RemoveArrayDuplicates(lumis);
    text, range, ranges := [], last, [];
    BothEmpty(uniqueLumis, lumis);
    for i := 0 to |uniqueLumis|
      invariant i == 0 ==> range == last && text == [] && ranges == []
      invariant i > 0 ==> range.Some? && range.value.last == uniqueLumis[i - 1] && text == Tokens(ranges)
                          && Compacting(ranges, range.value.first, range.value.last, uniqueLumis[..i])
    {
      var currentLumi := uniqueLumis[i];
      OneMore(uniqueLumis, i);
      if i == 0 {
        Start(currentLumi);
        range := Some(Range(currentLumi, currentLumi));
      } else if range.value.last + 1 == currentLumi {
        Extend(ranges, range.value.first, range.value.last, uniqueLumis[..i], currentLumi);
        range := Some(Range(range.value.first, currentLumi));
      } else {
        Open(ranges, range.value.first, range.value.last, uniqueLumis[..i], currentLumi);
        TokensSnoc(ranges, range.value);
        text := text + [TokenOf(range.value)];
        ranges := ranges + [range.value];
        range := Some(Range(currentLumi, currentLumi));
      }
    }
    assert uniqueLumis[..|uniqueLumis|] == uniqueLumis;
    if range.Some? {
      TokensSnoc(ranges, range.value);
      assert Range(range.value.first, range.value.last) == range.value;
    }
    text := text + [Shown(range)];
    if range.Some? {
      ranges := ranges + [range.value];
    }
  }

  /** One run of the page, in the order in which the runs are visited. */
  datatype RunLumis = RunLumis(run: string, lumis: seq<int>)

  /** The text is that of the canonical ranges of the numbers. */
  ghost predicate TextOf(text: seq<Token>, lumis: seq<int>) {
    exists ranges :: Canonical(ranges) && Covers(ranges, lumis) && text == Tokens(ranges)
  }

  /** The text of each run with numbers is that of its canonical ranges; a run without numbers
      prints what the run before it printed last, or, as the first one, an unset variable. */
  ghost predicate Rendered(runs: seq<RunLumis>, texts: seq<seq<Token>>) {
    |texts| == |runs| && forall i | 0 <= i < |runs| :: RenderedAt(runs, texts, i)
  }

  ghost predicate RenderedAt(runs: seq<RunLumis>, texts: seq<seq<Token>>, i: nat)
    requires i < |runs| && i < |texts|
  {
    && texts[i] != []
    && if runs[i].lumis != [] then TextOf(texts[i], runs[i].lumis)
       else texts[i] == [if i > 0 && texts[i - 1] != [] then Last(texts[i - 1]) else Undefined]
  }

  /** The loop of `renderRunLumiDetails` over the runs. */
  method RenderRuns(runs: seq<RunLumis>) returns (texts: seq<seq<Token>>)
    ensures Rendered(runs, texts)
  {
    texts := [];
    var range: Option<Range> := None;
    for i := 0 to |runs|
      invariant |texts| == i && RenderedSoFar(runs, texts, range)
    {
      var text, range', ranges := RenderRun(runs[i].lumis, range);
      RenderedOneMore(runs, texts, text, range, range', ranges);
      texts, range := texts + [text], range';
    }
  }

  /** The first runs are printed, and `range` is what was met last. */
  ghost predicate RenderedSoFar(runs: seq<RunLumis>, texts: seq<seq<Token>>, range: Option<Range>) {
    && |texts| <= |runs| && (forall j | 0 <= j < |texts| :: RenderedAt(runs, texts, j))
    && if texts == [] then range == None else Last(texts) != [] && Last(Last(texts)) == Shown(range)
  }

  lemma RenderedOneMore(runs: seq<RunLumis>, texts: seq<seq<Token>>, text: seq<Token>, last: Option<Range>,
                        range: Option<Range>, ranges: seq<Range>)
    requires RenderedSoFar(runs, texts, last) && |texts| < |runs|
    requires var lumis := runs[|texts|].lumis;
             if lumis == [] then range == last && text == [Shown(last)]
             else Canonical(ranges) && Covers(ranges, lumis) && text == Tokens(ranges)
                  && ranges != [] && range == Some(Last(ranges))
    ensures RenderedSoFar(runs, texts + [text], range)
  {
    var i, texts' := |texts|, texts + [text];
    assert text != [] && Last(text) == Shown(range);
    forall j | 0 <= j < |texts'| ensures RenderedAt(runs, texts', j) {
      assert j < i ==> RenderedAt(runs, texts, j);
      assert j == i && runs[i].lumis != [] ==> TextOf(text, runs[i].lumis);
    }
  }

  lemma NumbersCovered(ranges: seq<Range>, lumis: seq<int>)
    requires Canonical(ranges) && Covers(ranges, lumis)
    ensures ranges != [] ==> lumis != []
  {
    if ranges != [] {
      assert InRanges(ranges[0].first, ranges);
    }
  }

  lemma NoNumbersNoText(text: seq<Token>)
    requires TextOf(text, [])
    ensures text == []
  {
    var ranges: seq<Range> :| Canonical(ranges) && Covers(ranges, []) && text == Tokens(ranges);
    NumbersCovered(ranges, []);
  }

  /** So the text of a run is that of its canonical ranges if and only if it has numbers. */
  lemma TextIsRightIff(runs: seq<RunLumis>, texts: seq<seq<Token>>, i: nat)
    requires Rendered(runs, texts) && i < |runs|
    ensures TextOf(texts[i], runs[i].lumis) <==> runs[i].lumis != []
  {
    assert RenderedAt(runs, texts, i);
    if runs[i].lumis == [] && TextOf(texts[i], []) {
      NoNumbersNoText(texts[i]);
    }
  }

  /** Runs without numbers, however many in a row, repeat the last range printed before them. */
  lemma {:induction false} EmptyRunRepeats(runs: seq<RunLumis>, texts: seq<seq<Token>>, i: nat, j: nat)
    requires Rendered(runs, texts) && i < j < |runs| && forall k | i < k <= j :: runs[k].lumis == []
    ensures texts[i] != [] && texts[j] == [Last(texts[i])]
    decreases j
  {
    assert RenderedAt(runs, texts, i) && RenderedAt(runs, texts, j);
    if i < j - 1 {
      EmptyRunRepeats(runs, texts, i, j - 1);
    }
  }

  /** If there is no such range, they print an unset variable. */
  lemma {:induction false} EmptyRunsFirst(runs: seq<RunLumis>, texts: seq<seq<Token>>, j: nat)
    requires Rendered(runs, texts) && j < |runs| && forall k | 0 <= k <= j :: runs[k].lumis == []
    ensures texts[j] == [Undefined]
    decreases j
  {
    assert RenderedAt(runs, texts, j);
    if j > 0 { EmptyRunsFirst(runs, texts, j - 1); }
  }

  /** A page with the number 5 in run 1 and none in run 2 says that run 2 has the number 5. */
  lemma StaleRange(texts: seq<seq<Token>>)
    requires Rendered([RunLumis("1", [5]), RunLumis("2", [])], texts)
    ensures texts == [[One(5)], [One(5)]]
  {
    var runs := [RunLumis("1", [5]), RunLumis("2", [])];
    assert RenderedAt(runs, texts, 0);
    var ranges: seq<Range> :| Canonical(ranges) && Covers(ranges, [5]) && texts[0] == Tokens(ranges);
    OnlyFive(ranges);
    assert texts[0] == [One(5)];
    EmptyRunRepeats(runs, texts, 0, 1);
  }

  lemma OnlyFive(ranges: seq<Range>)
    requires Canonical(ranges) && Covers(ranges, [5])
    ensures ranges == [Range(5, 5)]
  {
    var five := [Range(5, 5)];
    forall x ensures InRanges(x, five) <==> InRanges(x, ranges) {
      assert five[0] == Range(5, 5);
      assert InRanges(x, five) <==> x == 5;
      assert InRanges(x, ranges) <==> x in [5];
    }
    CanonicalUnique(ranges, five);
  }

  lemma BothEmpty(a: seq<int>, b: seq<int>)
    requires forall x :: x in a <==> x in b
    ensures a == [] <==> b == []
  {
    if a != [] {
      var x := a[0];
      assert x in a;
      assert x in b;
    }
    if b != [] {
      var x := b[0];
      assert x in b;
      assert x in a;
    }
  }

  lemma TokensSnoc(ranges: seq<Range>, r: Range)
    ensures Tokens(ranges + [r]) == Tokens(ranges) + [TokenOf(r)]
  {
  }

  /** One pair of the expansion. */
  method ExpandRange(first: int, lastLumi: int) returns (lumis: seq<int>)
    ensures lumis == Numbers(first, lastLumi)
  {
    lumis := [];
    var firstLumi := first;
    while firstLumi <= lastLumi
      invariant lumis + Numbers(firstLumi, lastLumi) == Numbers(first, lastLumi)
      decreases lastLumi - firstLumi
    {
      assert lumis + ([firstLumi] + Numbers(firstLumi + 1, lastLumi)) ==
             (lumis + [firstLumi]) + Numbers(firstLumi + 1, lastLumi);
      lumis := lumis + [firstLumi];
      firstLumi := firstLumi + 1;
    }
  }

  /** The expansion in `collateFailureInfo`; a pair with its ends swapped gives nothing. */
  method ExpandRanges(pairs: seq<Range>) returns (lumis: seq<int>)
    ensures lumis == Expanded(pairs)
  {
    lumis := [];
    for i := 0 to |pairs|
      invariant lumis + Expanded(pairs[i..]) == Expanded(pairs)
    {
      assert pairs[i..][0] == pairs[i] && pairs[i..][1..] == pairs[i + 1..];
      var some := ExpandRange(pairs[i].first, pairs[i].last);
      assert lumis + (some + Expanded(pairs[i + 1..])) == (lumis + some) + Expanded(pairs[i + 1..]);
      lumis := lumis + some;
    }
    assert pairs[|pairs|..] == [];
  }
}
