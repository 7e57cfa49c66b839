/**
 * The DV360 (Bid Manager) report source (`classes/dbm.py`): which finished
 * report file is the latest, what state the latest run is in, when a run is
 * started, how the query's details are flattened, and how the report CSV is
 * streamed in chunks with the "Group By"/totals footer trimmed from the last
 * chunk. The Bid Manager API responses are inputs; the upload queue is the
 * sequence of chunks the stream produces.
 */
module DBM {
  import opened Values
  import opened Text

  // ---------------------------------------------------------------- picking the latest

  /**
   * `'finishTimeMs' in item.get('metadata', {}).get('status', {})`. The
   * API's items are dictionaries; a non-dictionary has no `get`, and a
   * membership test on a status that is not a dictionary is not modelled.
   */
  function IsFinished(item: Value): (r: Result<bool>)
    ensures r.Ok? <==> item.Obj? && Get(item.fields, "metadata", Obj(map[])).Obj? &&
                       Get(Get(item.fields, "metadata", Obj(map[])).fields, "status", Obj(map[])).Obj?
    ensures r.Ok? ==> (r.value <==>
      "finishTimeMs" in Get(Get(item.fields, "metadata", Obj(map[])).fields, "status", Obj(map[])).fields)
  {
    if !item.Obj? then Err(AttributeError("get"))
    else
      var metadata := Get(item.fields, "metadata", Obj(map[]));
      if !metadata.Obj? then Err(AttributeError("get"))
      else
        var status := Get(metadata.fields, "status", Obj(map[]));
        if !status.Obj? then Err(TypeError)
        else Ok("finishTimeMs" in status.fields)
  }

  /** `filter(...)`: the finished items, in their order. */
  function Finished(items: seq<Value>): (r: Result<seq<Value>>)
    ensures r.Ok? ==> |r.value| <= |items|
    ensures r.Ok? ==> forall x :: x in r.value ==> x in items && IsFinished(x) == Ok(true)
    ensures r.Ok? ==> forall x :: x in items && IsFinished(x) == Ok(true) ==> x in r.value
    ensures r.Ok? <==> forall i :: 0 <= i < |items| ==> IsFinished(items[i]).Ok?
  {
    if items == [] then Ok([])
    else
      var keep :- IsFinished(items[0]);
      var rest :- Finished(items[1..]);
      Ok(if keep then [items[0]] + rest else rest)
  }

  /** `r` is the subsequence of `s` at the increasing positions `pos`. */
  ghost predicate PicksFrom<T>(s: seq<T>, r: seq<T>, pos: seq<int>)
  {
    && |pos| == |r|
    && (forall k :: 0 <= k < |pos| ==> 0 <= pos[k] < |s| && r[k] == s[pos[k]])
    && (forall k, l :: 0 <= k < l < |pos| ==> pos[k] < pos[l])
  }

  /** Picking from a tail is picking from the whole at positions one further on. */
  lemma ShiftPicks<T>(x: T, tail: seq<T>, r: seq<T>, rest: seq<int>) returns (shifted: seq<int>)
    requires PicksFrom(tail, r, rest)
    ensures PicksFrom([x] + tail, r, shifted)
    ensures forall k :: 0 <= k < |shifted| ==> shifted[k] >= 1
    ensures forall i :: 0 <= i < |tail| && i in rest ==> i + 1 in shifted
  {
    shifted := seq(|rest|, k requires 0 <= k < |rest| => rest[k] + 1);
    var s := [x] + tail;
    forall k | 0 <= k < |rest|
      ensures s[shifted[k]] == tail[rest[k]]
    {
    }
    forall i | 0 <= i < |tail| && i in rest
      ensures i + 1 in shifted
    {
      var k :| 0 <= k < |rest| && rest[k] == i;
      assert shifted[k] == i + 1;
    }
  }

  /** Picking the head too puts position 0 in front. */
  lemma HeadPicks<T>(s: seq<T>, r: seq<T>, shifted: seq<int>)
    requires |s| > 0 && PicksFrom(s, r, shifted)
    requires forall k :: 0 <= k < |shifted| ==> shifted[k] >= 1
    ensures PicksFrom(s, [s[0]] + r, [0] + shifted)
    ensures forall j :: j in shifted ==> j in [0] + shifted
  {
    var pos := [0] + shifted;
    var out := [s[0]] + r;
    forall k | 0 <= k < |pos|
      ensures 0 <= pos[k] < |s| && out[k] == s[pos[k]]
    {
      if k > 0 {
        assert pos[k] == shifted[k - 1] && out[k] == r[k - 1];
      }
    }
    forall k, l | 0 <= k < l < |pos|
      ensures pos[k] < pos[l]
    {
      assert pos[l] == shifted[l - 1];
      if k > 0 {
        assert pos[k] == shifted[k - 1];
      }
    }
  }

  /** Picking from a tail, then perhaps the head: the positions shift by one. */
  lemma ConsPicks<T>(x: T, keep: bool, tail: seq<T>, r: seq<T>, rest: seq<int>) returns (pos: seq<int>)
    requires PicksFrom(tail, r, rest)
    ensures PicksFrom([x] + tail, if keep then [x] + r else r, pos)
    ensures keep ==> 0 in pos
    ensures forall i :: 0 <= i < |tail| && i in rest ==> i + 1 in pos
  {
    var shifted := ShiftPicks(x, tail, r, rest);
    if keep {
      HeadPicks([x] + tail, r, shifted);
      pos := [0] + shifted;
      assert pos[0] == 0;
    } else {
      pos := shifted;
    }
  }

  /**
   * The filter keeps the input's order and repeats: the finished items are
   * the items at increasing positions, and every finished item's position
   * is among them.
   */
  lemma {:induction false} FinishedOrder(items: seq<Value>) returns (pos: seq<int>)
    requires Finished(items).Ok?
    ensures PicksFrom(items, Finished(items).value, pos)
    ensures forall i :: 0 <= i < |items| && IsFinished(items[i]) == Ok(true) ==> i in pos
    decreases |items|
  {
    if items == [] {
      pos := [];
    } else {
      var tail := items[1..];
      assert items == [items[0]] + tail;
      var rest := FinishedOrder(tail);
      var keep := IsFinished(items[0]).value;
      assert Finished(items).value == if keep then [items[0]] + Finished(tail).value else Finished(tail).value;
      pos := ConsPicks(items[0], keep, tail, Finished(tail).value, rest);
      forall i | 1 <= i < |items| && IsFinished(items[i]) == Ok(true)
        ensures i in pos
      {
        assert tail[i - 1] == items[i];
      }
    }
  }

  /** A failing filter raises the error of the first item whose status cannot be tested. */
  lemma {:induction false} FinishedFirstError(items: seq<Value>)
    requires Finished(items).Err?
    ensures exists i :: (0 <= i < |items| && IsFinished(items[i]).Err? &&
      (forall j :: 0 <= j < i ==> IsFinished(items[j]).Ok?) &&
      Finished(items).error == IsFinished(items[i]).error)
    decreases |items|
  {
    if IsFinished(items[0]).Err? {
      assert IsFinished(items[0]).Err? && Finished(items).error == IsFinished(items[0]).error;
    } else {
      var rest := items[1..];
      FinishedFirstError(rest);
      var i :| 0 <= i < |rest| && IsFinished(rest[i]).Err? &&
        (forall j :: 0 <= j < i ==> IsFinished(rest[j]).Ok?) &&
        Finished(rest).error == IsFinished(rest[i]).error;
      assert items[i + 1] == rest[i];
      forall j | 0 <= j < i + 1
        ensures IsFinished(items[j]).Ok?
      {
        if j > 0 {
          assert items[j] == rest[j - 1];
        }
      }
    }
  }

  /** The sort key of a finished report file: `int(k['metadata']['status']['finishTimeMs'])`. */
  function FinishKey(item: Value): Result<int>
  {
    var metadata :- Field(item, "metadata");
    var status :- Field(metadata, "status");
    var finish :- Field(status, "finishTimeMs");
    IntOf(finish)
  }

  /** The sort key of a run: `int(k['metadata']['reportDataStartTimeMs'])`. */
  function StartKey(item: Value): Result<int>
  {
    var metadata :- Field(item, "metadata");
    var start :- Field(metadata, "reportDataStartTimeMs");
    IntOf(start)
  }

  /** `sorted` computes every key first: the keys in order, or the first failure. */
  function SortKeys(items: seq<Value>, key: Value -> Result<int>): (r: Result<seq<int>>)
    ensures r.Ok? ==> |r.value| == |items|
    ensures r.Ok? ==> forall i :: 0 <= i < |items| ==> key(items[i]) == Ok(r.value[i])
    ensures r.Ok? <==> forall i :: 0 <= i < |items| ==> key(items[i]).Ok?
  {
    if items == [] then Ok([])
    else
      var k :- key(items[0]);
      var rest :- SortKeys(items[1..], key);
      Ok([k] + rest)
  }

  /**
   * The position `sorted(...)[-1]` takes its element from: a greatest key,
   * and (the sort being stable) the last of the greatest.
   */
  function LastMax(keys: seq<int>): (i: nat)
    requires keys != []
    ensures i < |keys|
    ensures forall j :: 0 <= j < |keys| ==> keys[j] <= keys[i]
    ensures forall j :: i < j < |keys| ==> keys[j] < keys[i]
  {
    if |keys| == 1 then 0
    else
      var m := LastMax(keys[..|keys| - 1]);
      if keys[|keys| - 1] >= keys[m] then |keys| - 1 else m
  }

  /** The element of a non-empty sequence `sorted(items, key=...)[-1]` yields. */
  function Latest(items: seq<Value>, key: Value -> Result<int>): (r: Result<Value>)
    requires items != []
    ensures r.Ok? <==> SortKeys(items, key).Ok?
    ensures r.Ok? ==> r.value in items
  {
    var keys :- SortKeys(items, key);
    Ok(items[LastMax(keys)])
  }

  /** Nothing later in the sequence has a key as great as the latest's, nothing earlier a greater one. */
  lemma LatestIsLastGreatest(items: seq<Value>, key: Value -> Result<int>)
    requires items != [] && SortKeys(items, key).Ok?
    ensures var i := LastMax(SortKeys(items, key).value);
      && Latest(items, key) == Ok(items[i])
      && (forall j :: 0 <= j < |items| ==> SortKeys(items, key).value[j] <= SortKeys(items, key).value[i])
      && (forall j :: i < j < |items| ==> SortKeys(items, key).value[j] < SortKeys(items, key).value[i])
  {
  }

  /** The report file `get_latest_report_file` picks from a list of reports, as written. */
  function LatestOfReportsAsWritten(items: seq<Value>): Result<Value>
  {
    var finished :- Finished(items);
    var keys :- SortKeys(finished, FinishKey);
    if finished == [] then Err(IndexError) else Latest(finished, FinishKey)
  }

  /**
   * `get_latest_report_file` as written: `fetched` is what `listreports`
   * returned. With reports but none finished, `ordered[-1]` raises
   * IndexError, where the documented result is an empty dictionary.
   */
  function LatestReportFileAsWritten(fetched: Value): (r: Result<Value>)
    ensures !Truthy(fetched) ==> r == Ok(Obj(map[]))
  {
    if !Truthy(fetched) then Ok(Obj(map[]))
    else
      var all :- AsDict(fetched);
      if "reports" !in all then Ok(Obj(map[]))
      else
        var items :- if all["reports"].Arr? then Ok(all["reports"].items) else Err(TypeError);
        LatestOfReportsAsWritten(items)
  }

  /** The failing input: one report that is still running. */
  lemma UnfinishedReportFails()
    ensures var running := Obj(map["metadata" := Obj(map["status" := Obj(map["state" := Str("RUNNING")])])]);
      LatestReportFileAsWritten(Obj(map["reports" := Arr([running])])) == Err(IndexError)
  {
    var status := Obj(map["state" := Str("RUNNING")]);
    var running := Obj(map["metadata" := Obj(map["status" := status])]);
    assert Get(running.fields, "metadata", Obj(map[])) == Obj(map["status" := status]);
    assert IsFinished(running) == Ok(false);
    assert [running][1..] == [];
    assert Finished([running]) == Ok([]);
    assert LatestOfReportsAsWritten([running]) == Err(IndexError);
    var fetched := Obj(map["reports" := Arr([running])]);
    assert "reports" in fetched.fields;
    assert fetched.fields != map[];
    assert AsDict(fetched) == Ok(map["reports" := Arr([running])]);
  }

  /** The report file picked from a list of reports: `{}` when none has finished. */
  function LatestOfReports(items: seq<Value>): Result<Value>
  {
    var finished :- Finished(items);
    if finished == [] then Ok(Obj(map[])) else Latest(finished, FinishKey)
  }

  /** `get_latest_report_file` as documented: an empty dictionary when nothing has finished. */
  function LatestReportFile(fetched: Value): (r: Result<Value>)
    ensures !Truthy(fetched) ==> r == Ok(Obj(map[]))
    ensures fetched.Obj? && "reports" !in fetched.fields ==> r == Ok(Obj(map[]))
    ensures fetched.Obj? && "reports" in fetched.fields && fetched.fields["reports"].Arr? ==>
      r == LatestOfReports(fetched.fields["reports"].items)
  {
    if !Truthy(fetched) then Ok(Obj(map[]))
    else
      var all :- AsDict(fetched);
      if "reports" !in all then Ok(Obj(map[]))
      else
        var items :- if all["reports"].Arr? then Ok(all["reports"].items) else Err(TypeError);
        LatestOfReports(items)
  }

  /**
   * The report file picked is a finished one with the greatest finish time,
   * the last such; with none finished it is `{}`.
   */
  lemma LatestOfReportsMeaning(reports: seq<Value>)
    requires Finished(reports).Ok? && SortKeys(Finished(reports).value, FinishKey).Ok?
    ensures var r := LatestOfReports(reports);
      var finished := Finished(reports).value;
      && (finished == [] ==> r == Ok(Obj(map[])))
      && (finished != [] ==>
            r.Ok? && r.value in reports && IsFinished(r.value) == Ok(true) &&
            r == Ok(finished[LastMax(SortKeys(finished, FinishKey).value)]))
  {
    var finished := Finished(reports).value;
    if finished != [] {
      assert Latest(finished, FinishKey).value in finished;
    }
  }

  /** The corrected version differs from the code as written only where the code raises. */
  lemma LatestReportFileAgrees(fetched: Value)
    requires LatestReportFileAsWritten(fetched).Ok?
    ensures LatestReportFile(fetched) == LatestReportFileAsWritten(fetched)
  {
  }

  /** `run['metadata']['status']['state']`. */
  function RunState(run: Value): Result<Value>
  {
    var metadata :- Field(run, "metadata");
    var status :- Field(metadata, "status");
    Field(status, "state")
  }

  /** `report_state`: the state of the run with the greatest start time, or 'UNKNOWN'. */
  function ReportState(results: Dict): (r: Result<Value>)
    ensures !Truthy(Get(results, "reports")) ==> r == Ok(Str("UNKNOWN"))
  {
    var reports := Get(results, "reports");
    if !Truthy(reports) then Ok(Str("UNKNOWN"))
    else
      var items :- if reports.Arr? then Ok(reports.items) else Err(TypeError);
      var latest :- Latest(items, StartKey);
      RunState(latest)
  }

  /** The state comes from the last of the runs that started latest. */
  lemma ReportStateMeaning(runs: seq<Value>)
    requires runs != [] && SortKeys(runs, StartKey).Ok?
    ensures var keys := SortKeys(runs, StartKey).value;
      var i := LastMax(keys);
      && (forall j :: 0 <= j < |runs| ==> keys[j] <= keys[i])
      && (forall j :: i < j < |runs| ==> keys[j] < keys[i])
      && ReportState(map["reports" := Arr(runs)]) == RunState(runs[i])
  {
    var results := map["reports" := Arr(runs)];
    assert Get(results, "reports") == Arr(runs);
    LatestIsLastGreatest(runs, StartKey);
    var latest := runs[LastMax(SortKeys(runs, StartKey).value)];
    assert Latest(runs, StartKey) == Ok(latest);
    assert ReportState(results) == RunState(latest);
  }

  /**
   * `run_report`: with the current state 'RUNNING' nothing is started and
   * the result is `{}`; otherwise the query is run and its response returned.
   */
  function RunReport(state: Value, response: Dict): (r: (bool, Dict))
    ensures r.0 <==> state != Str("RUNNING")
    ensures r.0 ==> r.1 == response
    ensures !r.0 ==> r.1 == map[]
  {
    if state == Str("RUNNING") then (false, map[]) else (true, response)
  }

  // ---------------------------------------------------------------- normalize_report_details

  /** The flattened report details (the run time before its date formatting). */
  datatype ReportDetails = ReportDetails(
    id: Value, name: Value, kind: Value, currentPath: Value, latestRuntime: Value, updateCadence: Value)

  /**
   * `normalize_report_details` on the `getquery` response: a metadata
   * lacking either the GCS path or the run time (a KeyError the `try`
   * catches) gives the path '' and the run time 0, and so does a missing
   * metadata, whose KeyError then comes from the lookups after the `try`;
   * a metadata that is not an object raises a TypeError the `try` lets
   * through.
   */
  function NormalizeReportDetails(query: Dict): (r: Result<ReportDetails>)
    ensures r.Ok? ==> "queryId" in query && r.value.id == query["queryId"]
    ensures r.Ok? ==> "metadata" in query
    ensures r.Ok? && !(query["metadata"].Obj? &&
                       "googleCloudStoragePathForLatestReport" in query["metadata"].fields &&
                       "latestReportRunTimeMs" in query["metadata"].fields) ==>
      r.value.currentPath == Str("") && r.value.latestRuntime == Int(0)
    ensures r.Ok? && query["metadata"].Obj? &&
            "googleCloudStoragePathForLatestReport" in query["metadata"].fields &&
            "latestReportRunTimeMs" in query["metadata"].fields ==>
      r.value.currentPath == query["metadata"].fields["googleCloudStoragePathForLatestReport"] &&
      r.value.latestRuntime == query["metadata"].fields["latestReportRunTimeMs"]
    ensures r.Ok? && "schedule" !in query ==> r.value.updateCadence == Null
    ensures "metadata" in query && !query["metadata"].Obj? ==> r == Err(TypeError)
    ensures "queryId" !in query && ("metadata" !in query || query["metadata"].Obj?) ==> r == Err(KeyError("queryId"))
    ensures r.Ok? <==>
      && "metadata" in query && query["metadata"].Obj? && "queryId" in query
      && "title" in query["metadata"].fields
      && "params" in query && query["params"].Obj? && "type" in query["params"].fields
      && Get(query, "schedule", Obj(map[])).Obj?
    ensures r.Ok? ==> r.value.name == query["metadata"].fields["title"] && r.value.kind == query["params"].fields["type"]
  {
    var paths :- if "metadata" !in query then Ok((Str(""), Int(0)))
                 else if !query["metadata"].Obj? then Err(TypeError)
                 else
                   var fields := query["metadata"].fields;
                   if "googleCloudStoragePathForLatestReport" in fields && "latestReportRunTimeMs" in fields
                   then Ok((fields["googleCloudStoragePathForLatestReport"], fields["latestReportRunTimeMs"]))
                   else Ok((Str(""), Int(0)));
    var id :- Index(query, "queryId");
    var metadata :- Index(query, "metadata");
    var title :- Field(metadata, "title");
    var params :- Index(query, "params");
    var kind :- Field(params, "type");
    var schedule := Get(query, "schedule", Obj(map[]));
    var cadence :- if schedule.Obj? then Ok(Get(schedule.fields, "frequency")) else Err(AttributeError("get"));
    Ok(ReportDetails(id, title, kind, paths.0, paths.1, cadence))
  }

  // ---------------------------------------------------------------- the footer trim

  const NL: byte := 10
  const COMMA: byte := 44
  /** The bytes of "Group By:". */
  const GroupBy: seq<byte> := [71, 114, 111, 117, 112, 32, 66, 121, 58]

  function Repeat(b: byte, n: nat): (r: seq<byte>)
    ensures |r| == n && forall i :: 0 <= i < n ==> r[i] == b
  {
    if n == 0 then [] else [b] + Repeat(b, n - 1)
  }

  /** `readlines()`: the lines of `s`, each with its '\n' (the last one may lack it). */
  function ReadLines(s: seq<byte>): (lines: seq<seq<byte>>)
    ensures forall i :: 0 <= i < |lines| ==> lines[i] != []
    decreases |s|
  {
    if s == [] then []
    else
      var k := IndexOf(s, NL);
      if k == -1 then [s] else [s[..k + 1]] + ReadLines(s[k + 1..])
  }

  function Concat(lines: seq<seq<byte>>): seq<byte>
  {
    if lines == [] then [] else lines[0] + Concat(lines[1..])
  }

  /** Putting the lines back together gives the text. */
  lemma {:induction false} ReadLinesConcat(s: seq<byte>)
    ensures Concat(ReadLines(s)) == s
    decreases |s|
  {
    if s != [] {
      var k := IndexOf(s, NL);
      if k != -1 {
        var rest := ReadLines(s[k + 1..]);
        ReadLinesConcat(s[k + 1..]);
        var lines := ReadLines(s);
        assert lines == [s[..k + 1]] + rest;
        assert lines[1..] == rest;
        assert s == s[..k + 1] + s[k + 1..];
      }
    }
  }

  /** Every line but the last ends with its '\n', and no line holds one before its end. */
  lemma {:induction false} ReadLinesBreaks(s: seq<byte>)
    ensures forall i :: 0 <= i < |ReadLines(s)| - 1 ==> Last(ReadLines(s)[i]) == NL
    ensures forall i :: 0 <= i < |ReadLines(s)| ==> NL !in ReadLines(s)[i][..|ReadLines(s)[i]| - 1]
    decreases |s|
  {
    if s != [] {
      var k := IndexOf(s, NL);
      IndexOfSpec(s, NL);
      var lines := ReadLines(s);
      if k != -1 {
        var rest := ReadLines(s[k + 1..]);
        ReadLinesBreaks(s[k + 1..]);
        assert lines == [s[..k + 1]] + rest;
        assert lines[0][..k] == s[..k];
        forall i | 1 <= i < |lines| ensures lines[i] == rest[i - 1] {
        }
      } else {
        assert lines == [s];
        assert s[..|s| - 1] <= s;
      }
    }
  }

  /** `sum(g.startswith(b'Group By:') for g in lines)`. */
  function GroupCount(lines: seq<seq<byte>>): (n: nat)
    ensures n <= |lines|
  {
    if lines == [] then 0
    else (if StartsWith(lines[0], GroupBy) then 1 else 0) + GroupCount(lines[1..])
  }

  /**
   * The trim of the final chunk: without a blank line ("\n\n") the chunk is
   * kept; otherwise the "Group By:" lines of the footer (from the last blank
   * line on) are counted, and the chunk is cut at the last '\n' followed by
   * that many commas, or at the blank line when there is no such place.
   */
  function TrimFooter(chunk: seq<byte>): (r: seq<byte>)
    ensures |r| <= |chunk| && r == chunk[..|r|]
    ensures RFind(chunk, [NL, NL]) == -1 ==> r == chunk
  {
    var blank := RFind(chunk, [NL, NL]);
    if blank == -1 then chunk
    else
      var groups := GroupCount(ReadLines(chunk[blank..]));
      var totals := RFind(chunk, [NL] + Repeat(COMMA, groups));
      if totals == -1 then chunk[..blank] else chunk[..totals]
  }

  /** The cut is at the last totals row when there is one, else at the blank line. */
  lemma TrimFooterCut(chunk: seq<byte>)
    requires RFind(chunk, [NL, NL]) != -1
    ensures var blank := RFind(chunk, [NL, NL]);
      var pattern := [NL] + Repeat(COMMA, GroupCount(ReadLines(chunk[blank..])));
      && (RFind(chunk, pattern) == -1 ==> TrimFooter(chunk) == chunk[..blank])
      && (RFind(chunk, pattern) != -1 ==>
            TrimFooter(chunk) == chunk[..RFind(chunk, pattern)] && MatchAt(chunk, pattern, |TrimFooter(chunk)|) &&
            forall j :: |TrimFooter(chunk)| < j <= |chunk| ==> !MatchAt(chunk, pattern, j))
  {
  }

  /**
   * With no "Group By:" line in the footer, the pattern is a lone '\n', so
   * the chunk is cut at its last line break, which the blank line guarantees.
   */
  lemma TrimWithoutGroups(chunk: seq<byte>)
    requires RFind(chunk, [NL, NL]) != -1
    requires GroupCount(ReadLines(chunk[RFind(chunk, [NL, NL])..])) == 0
    ensures 0 <= LastIndexOf(chunk, NL) && TrimFooter(chunk) == chunk[..LastIndexOf(chunk, NL)]
  {
    var blank := RFind(chunk, [NL, NL]);
    TrimFooterCut(chunk);
    assert [NL] + Repeat(COMMA, 0) == [NL];
    LastBreak(chunk, blank);
  }

  /** A blank line at `blank` means there is a last line break, which `rfind` of "\n" finds. */
  lemma LastBreak(chunk: seq<byte>, blank: int)
    requires MatchAt(chunk, [NL, NL], blank)
    ensures 0 <= LastIndexOf(chunk, NL) && RFind(chunk, [NL]) == LastIndexOf(chunk, NL)
  {
    RFindSingle(chunk, NL);
    assert chunk[blank] == NL by {
      assert chunk[blank..blank + 2] == [NL, NL];
    }
    LastIndexOfSpec(chunk, NL);
  }

  // ---------------------------------------------------------------- stream_to_gcs

  /** How far the body has been read after `k` reads of `chunkSize` bytes. */
  function Reached(data: seq<byte>, chunkSize: nat, k: nat): (n: nat)
    ensures n <= |data|
  {
    if k == 0 then 0
    else if Reached(data, chunkSize, k - 1) + chunkSize <= |data| then Reached(data, chunkSize, k - 1) + chunkSize
    else |data|
  }

  /** After `k` reads, `k * chunkSize` bytes are in, or the whole body. */
  lemma {:induction false} ReachedIsProduct(data: seq<byte>, chunkSize: nat, k: nat)
    ensures Reached(data, chunkSize, k) == if k * chunkSize <= |data| then k * chunkSize else |data|
  {
    if k > 0 {
      ReachedIsProduct(data, chunkSize, k - 1);
      assert k * chunkSize == (k - 1) * chunkSize + chunkSize;
    }
  }

  /** The `k`-th read (from 0) of `chunkSize` bytes from the response body. */
  function Chunk(data: seq<byte>, chunkSize: nat, k: nat): seq<byte>
  {
    data[Reached(data, chunkSize, k)..Reached(data, chunkSize, k + 1)]
  }

  /** The first `n` reads, unchanged. */
  function Chunks(data: seq<byte>, chunkSize: nat, n: nat): (r: seq<seq<byte>>)
    ensures |r| == n
  {
    if n == 0 then [] else Chunks(data, chunkSize, n - 1) + [Chunk(data, chunkSize, n - 1)]
  }

  /** The `k`-th of the nRead is the `k`-th chunk. */
  lemma {:induction false} ChunksAt(data: seq<byte>, chunkSize: nat, n: nat, k: nat)
    requires k < n
    ensures Chunks(data, chunkSize, n)[k] == Chunk(data, chunkSize, k)
  {
    if k < n - 1 {
      ChunksAt(data, chunkSize, n - 1, k);
    }
  }

  /** Together the nRead are the body up to where they reached. */
  lemma {:induction false} ChunksCover(data: seq<byte>, chunkSize: nat, n: nat)
    ensures Concat(Chunks(data, chunkSize, n)) == data[..Reached(data, chunkSize, n)]
  {
    if n > 0 {
      ChunksCover(data, chunkSize, n - 1);
      ConcatSnoc(Chunks(data, chunkSize, n - 1), Chunk(data, chunkSize, n - 1));
      assert data[..Reached(data, chunkSize, n)] ==
        data[..Reached(data, chunkSize, n - 1)] + Chunk(data, chunkSize, n - 1);
    }
  }

  lemma {:induction false} ConcatSnoc(lines: seq<seq<byte>>, x: seq<byte>)
    ensures Concat(lines + [x]) == Concat(lines) + x
  {
    if lines != [] {
      assert (lines + [x])[1..] == lines[1..] + [x];
      ConcatSnoc(lines[1..], x);
    } else {
      assert lines + [x] == [x];
    }
  }

  /** What the first `n` reads put in the queue: each chunk, trimmed once the count reaches `reportSize`. */
  function Queued(data: seq<byte>, chunkSize: nat, reportSize: nat, n: nat): (r: seq<seq<byte>>)
    ensures |r| == n
  {
    if n == 0 then []
    else
      var c := Chunk(data, chunkSize, n - 1);
      Queued(data, chunkSize, reportSize, n - 1) + [if Reached(data, chunkSize, n) >= reportSize then TrimFooter(c) else c]
  }

  /**
   * The read after the first `k`: from where they reached, `chunkSize`
   * bytes or the rest, queued trimmed when it brings the count to
   * `reportSize`.
   */
  lemma QueuedStep(data: seq<byte>, chunkSize: nat, reportSize: nat, k: nat)
    ensures var from := Reached(data, chunkSize, k);
      var chunk := data[from..if from + chunkSize <= |data| then from + chunkSize else |data|];
      && Reached(data, chunkSize, k + 1) == from + |chunk|
      && Queued(data, chunkSize, reportSize, k + 1) ==
         Queued(data, chunkSize, reportSize, k) + [if from + |chunk| >= reportSize then TrimFooter(chunk) else chunk]
  {
  }

  /** Before the count reaches `reportSize`, the chunks are queued unchanged. */
  lemma {:induction false} QueuedUntrimmed(data: seq<byte>, chunkSize: nat, reportSize: nat, n: nat)
    requires Reached(data, chunkSize, n) < reportSize
    ensures Queued(data, chunkSize, reportSize, n) == Chunks(data, chunkSize, n)
  {
    if n > 0 {
      assert Reached(data, chunkSize, n - 1) <= Reached(data, chunkSize, n);
      QueuedUntrimmed(data, chunkSize, reportSize, n - 1);
    }
  }

  /** The read that reaches `reportSize` is the last, and the only one trimmed. */
  lemma QueuedLast(data: seq<byte>, chunkSize: nat, reportSize: nat, n: nat)
    requires n > 0 && Reached(data, chunkSize, n - 1) < reportSize <= Reached(data, chunkSize, n)
    ensures Queued(data, chunkSize, reportSize, n) ==
      Chunks(data, chunkSize, n - 1) + [TrimFooter(Chunk(data, chunkSize, n - 1))]
  {
    QueuedUntrimmed(data, chunkSize, reportSize, n - 1);
  }

  /**
   * `stream_to_gcs`: reads `chunkSize` bytes at a time from a body of
   * `reportSize` bytes (the content-length; the body holds at least that
   * many) and queues each chunk unchanged and in order, except the last,
   * which is trimmed. The reading stops with the first read that brings the
   * count to the content-length. Nothing is read without a report path.
   */
  method StreamToGcs(currentPath: Value, data: seq<byte>, reportSize: nat, chunkSize: nat)
    returns (queue: seq<seq<byte>>)
    requires chunkSize > 0 && reportSize <= |data|
    ensures !Truthy(currentPath) || reportSize == 0 ==> queue == []
    ensures Truthy(currentPath) && reportSize > 0 ==>
      queue != [] &&
      Reached(data, chunkSize, |queue| - 1) < reportSize <= Reached(data, chunkSize, |queue|) &&
      queue == Chunks(data, chunkSize, |queue| - 1) + [TrimFooter(Chunk(data, chunkSize, |queue| - 1))]
  {
    queue := [];
    if !Truthy(currentPath) {
      return;
    }
    var downloaded := 0;
    var chunkId := 1;
    ghost var nRead := 0;
    while downloaded < reportSize
      invariant chunkId == nRead + 1 && |queue| == nRead
      invariant downloaded == Reached(data, chunkSize, nRead)
      invariant forall j :: 0 <= j < nRead ==> Reached(data, chunkSize, j) < reportSize
      invariant queue == Queued(data, chunkSize, reportSize, nRead)
      decreases reportSize - downloaded
    {
      downloaded, queue := ReadChunk(data, chunkSize, reportSize, downloaded, queue, nRead);
      nRead := nRead + 1;
      chunkId := chunkId + 1;
    }
    if nRead > 0 {
      assert Reached(data, chunkSize, nRead - 1) < reportSize;
      QueuedLast(data, chunkSize, reportSize, nRead);
    }
  }

  /**
   * One pass of the loop: the next read, counted into `downloaded`, and
   * queued, trimmed when it brings the count to `reportSize`.
   */
  method ReadChunk(data: seq<byte>, chunkSize: nat, reportSize: nat, downloaded: int, queue: seq<seq<byte>>, ghost nRead: nat)
    returns (downloaded': int, queue': seq<seq<byte>>)
    requires chunkSize > 0 && reportSize <= |data|
    requires downloaded == Reached(data, chunkSize, nRead) < reportSize
    requires queue == Queued(data, chunkSize, reportSize, nRead)
    ensures downloaded < downloaded' == Reached(data, chunkSize, nRead + 1)
    ensures queue' == Queued(data, chunkSize, reportSize, nRead + 1)
  {
    var end := if downloaded + chunkSize <= |data| then downloaded + chunkSize else |data|;
    var chunk := data[downloaded..end];
    QueuedStep(data, chunkSize, reportSize, nRead);
    downloaded' := downloaded + |chunk|;
    if downloaded' >= reportSize {
      queue' := queue + [TrimFooter(chunk)];
    } else {
      queue' := queue + [chunk];
    }
  }
}
