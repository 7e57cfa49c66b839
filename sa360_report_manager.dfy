/**
 * The SA360 report manager (`classes/sa360_report_manager.py`): how
 * `manage` derives the arguments of an action, how a report definition is
 * checked column by column against the SA360 validator (`_file_based`), and
 * what `install` and `validate` do with each definition.
 *
 * The validator, the SA360 service behind it, Firestore, the scheduler and
 * `stringcase.camelcase` are parameters; the Firestore collection of SA360
 * report runners and the jobs sent to the scheduler are fields of
 * `SA360Manager`.
 */
module SA360ReportManager {
  import opened Values
  import opened Text
  import RM = ReportManager
  import EventRouting

  // ---------------------------------------------------------------- Validity

  /** The verdict recorded for one custom column. */
  datatype Validity = VALID | INVALID | UNDEFINED

  /** The enumeration's value, which is also its `str` and `repr`. */
  function ValidityText(v: Validity): (s: string)
    ensures s == "valid" || s == "invalid" || s == ""
  {
    match v
    case VALID => "valid"
    case INVALID => "invalid"
    case UNDEFINED => ""
  }

  /** `Validity(s)`: the member whose value is `s`, if any. */
  function ValidityOf(s: string): (r: Option<Validity>)
    ensures r.Some? <==> s == "valid" || s == "invalid" || s == ""
  {
    if s == "valid" then Some(VALID)
    else if s == "invalid" then Some(INVALID)
    else if s == "" then Some(UNDEFINED)
    else None
  }

  /** The values are exactly 'valid', 'invalid' and '', one per member. */
  lemma ValidityRoundTrip(v: Validity, s: string)
    ensures ValidityOf(ValidityText(v)) == Some(v)
    ensures ValidityOf(s).Some? ==> ValidityText(ValidityOf(s).value) == s
  {
  }

  // ---------------------------------------------------------------- Validation

  /**
   * The `Validation` record: the ids it was built with and the attributes
   * `setattr` wrote, by name. `conversionMetric` and `revenueMetric` start
   * UNDEFINED. A custom column whose camel-cased name is `agency` or
   * `advertiser` overwrites that field with its validity; any other name
   * that is not a field adds an attribute that `keys`, `to_dict` and `repr`
   * do not show.
   */
  datatype Validation = Validation(agency: Value, advertiser: Value, attrs: map<string, Validity>)

  const InitialAttrs: map<string, Validity> :=
    map["conversionMetric" := UNDEFINED, "revenueMetric" := UNDEFINED]

  /** `Validation.keys()`: the record's fields in declaration order. */
  const ValidationKeys: seq<string> := ["agency", "advertiser", "conversionMetric", "revenueMetric"]

  /** What a field of the record holds: an id, or a validity. */
  datatype Attr = Id(value: Value) | Verdict(validity: Validity)

  /** `getattr(validation, name)` for a field: what `setattr` wrote last, else the field's initial value. */
  function FieldOf(v: Validation, name: string): Attr
  {
    if name in v.attrs then Verdict(v.attrs[name])
    else if name == "agency" then Id(v.agency)
    else if name == "advertiser" then Id(v.advertiser)
    else Verdict(UNDEFINED)
  }

  /** `str` of a field; a validity's `str` is its value. */
  function AttrText(a: Attr): string
  {
    match a
    case Id(x) => Format(x)
    case Verdict(x) => ValidityText(x)
  }

  /** The CSV row of a validation (`to_dict`, written with `str`): the four fields, nothing else. */
  function ValidationRow(v: Validation): (row: map<string, string>)
    ensures row.Keys == Elements(ValidationKeys)
    ensures "agency" !in v.attrs ==> row["agency"] == Format(v.agency)
    ensures "advertiser" !in v.attrs ==> row["advertiser"] == Format(v.advertiser)
  {
    assert Elements(ValidationKeys) == {"agency", "advertiser", "conversionMetric", "revenueMetric"};
    map["agency" := AttrText(FieldOf(v, "agency")), "advertiser" := AttrText(FieldOf(v, "advertiser")),
        "conversionMetric" := AttrText(FieldOf(v, "conversionMetric")),
        "revenueMetric" := AttrText(FieldOf(v, "revenueMetric"))]
  }

  /** Every field `setattr` wrote shows its validity in the row, and the two metrics always parse back. */
  lemma ValidationRowVerdicts(v: Validation)
    ensures var row := ValidationRow(v);
      && (forall k :: k in v.attrs && k in row ==> ValidityOf(row[k]) == Some(v.attrs[k]))
      && ValidityOf(row["conversionMetric"]).Some? && ValidityOf(row["revenueMetric"]).Some?
  {
    var row := ValidationRow(v);
    ValidityRoundTrip(UNDEFINED, "");
    forall k | k in v.attrs && k in row
      ensures ValidityOf(row[k]) == Some(v.attrs[k])
    {
      ValidityRoundTrip(v.attrs[k], "");
    }
  }

  /** Python's `repr` of a value: strings are quoted. */
  function Repr(v: Value): string
  {
    if v.Str? then "'" + v.s + "'" else Format(v)
  }

  /** `repr` of a field; a validity's `repr` is its value, unquoted. */
  function AttrRepr(a: Attr): string
  {
    match a
    case Id(x) => Repr(x)
    case Verdict(x) => ValidityText(x)
  }

  /** The dataclass `repr` of a validation, which `f'{validity}'` substitutes. */
  function ValidationRepr(v: Validation): string
  {
    "Validation(agency=" + AttrRepr(FieldOf(v, "agency")) + ", advertiser=" + AttrRepr(FieldOf(v, "advertiser")) +
    ", conversionMetric=" + AttrRepr(FieldOf(v, "conversionMetric")) +
    ", revenueMetric=" + AttrRepr(FieldOf(v, "revenueMetric")) + ")"
  }

  // ---------------------------------------------------------------- manage

  /** The actions the SA360 manager offers. */
  const SA360Actions: set<string> := {"list", "show", "add", "delete", "validate", "install"}

  /**
   * The SA360 manager's action table: `validate` and `install` are defined
   * here, and `inherited` are the actions it inherits from `ReportManager`
   * (whose source is not part of this model).
   */
  function SA360(inherited: set<string>): RM.Manager
  {
    RM.Manager(SA360_RPT, SA360Actions, {"validate", "install"} + inherited)
  }

  /** `self.bucket` as `manage` sets it. */
  function SA360Bucket(project: Value): string
  {
    Format(project) + "-report2bq-sa360-manager"
  }

  /** The bucket `manage` works in is the one whose uploads route to this manager. */
  lemma SA360BucketRoutes(project: Value)
    ensures EventRouting.ManagerFor(SA360Bucket(project), project) == Some(EventRouting.SA360Manager)
  {
    assert SA360Bucket(project) == EventRouting.ManagerBucket(project, EventRouting.SA360Manager);
    var g := EventRouting.ManagerBucket(project, EventRouting.GA360Manager);
    assert SA360Bucket(project)[|Format(project)| + 11] == 's';
    assert g[|Format(project)| + 11] == 'g';
  }

  /** `kwargs['file'].split('/')[-1].split('.')[0]`; a non-string has no `split`. */
  function NameFromFile(file: Value): (r: Result<Value>)
    ensures r.Ok? <==> file.Str?
  {
    if file.Str? then Ok(Str(Split(Last(Split(file.s, '/')), '.')[0]))
    else Err(AttributeError("split"))
  }

  /** The report name: `name`, else the file's base name up to its first '.', else None. */
  function ReportName(kwargs: Dict): (r: Result<Value>)
    ensures "name" in kwargs ==> r == Ok(kwargs["name"])
    ensures "name" !in kwargs && "file" !in kwargs ==> r == Ok(Null)
    ensures "name" !in kwargs && "file" in kwargs ==> r == NameFromFile(kwargs["file"])
  {
    if "name" in kwargs then Ok(kwargs["name"])
    else if "file" in kwargs then NameFromFile(kwargs["file"])
    else Ok(Null)
  }

  /** The name taken from a file is its base name up to the first '.'. */
  lemma NameFromFileMeaning(file: string)
    ensures var base := file[LastIndexOf(file, '/') + 1..];
      NameFromFile(Str(file)) == Ok(Str(if IndexOf(base, '.') >= 0 then base[..IndexOf(base, '.')] else base))
    ensures '.' !in NameFromFile(Str(file)).value.s
  {
    var base := file[LastIndexOf(file, '/') + 1..];
    LastPiece(file, '/');
    FirstPiece(base, '.');
  }

  /** The arguments handed to the action: the derived ones, overridden by `kwargs`. */
  function ActionArgs(kwargs: Dict, project: Value, email: Value, report: Value): Dict
  {
    map["report" := report, "file" := Get(kwargs, "file"), "project" := project, "email" := email] + kwargs
  }

  /** Every caller argument wins; the derived ones fill the gaps. */
  lemma ActionArgsOverride(kwargs: Dict, project: Value, email: Value, report: Value)
    ensures var args := ActionArgs(kwargs, project, email, report);
      && args.Keys == kwargs.Keys + {"report", "file", "project", "email"}
      && (forall k :: k in kwargs ==> args[k] == kwargs[k])
      && ("report" !in kwargs ==> args["report"] == report)
      && ("file" !in kwargs ==> args["file"] == Null)
      && ("email" !in kwargs ==> args["email"] == email)
  {
  }

  /**
   * `manage` as written: a non-None `api_key` makes it read `kwargs['API_KEY']`,
   * a different key, which raises KeyError unless the caller passed both.
   */
  function ManageAsWritten(kwargs: Dict, inherited: set<string>, run: (string, Dict) -> Result<()>): (r: Result<()>)
    ensures "project" !in kwargs ==> r == Err(KeyError("project"))
    ensures "project" in kwargs && Get(kwargs, "api_key") != Null && "API_KEY" !in kwargs ==>
      r == Err(KeyError("API_KEY"))
  {
    var project :- Index(kwargs, "project");
    var email := Get(kwargs, "email");
    var _ :- if Get(kwargs, "api_key") != Null then Index(kwargs, "API_KEY") else Ok(Null);
    var report :- ReportName(kwargs);
    var action :- RM.GetAction(SA360(inherited), Get(kwargs, "action"));
    run(action, ActionArgs(kwargs, project, email, report))
  }

  /** The failure: an API key passed as `api_key` alone aborts every action. */
  lemma ApiKeyLookupFails(inherited: set<string>, run: (string, Dict) -> Result<()>)
    ensures ManageAsWritten(map["project" := Str("p"), "api_key" := Str("k"),
                                "action" := Str("install")], inherited, run) == Err(KeyError("API_KEY"))
  {
  }

  /**
   * `manage` as intended: the API key is read from the key that was tested
   * (the environment write itself is not modelled), so only `project`, the
   * file name and the action can make it fail before the action runs.
   */
  function Manage(kwargs: Dict, inherited: set<string>, run: (string, Dict) -> Result<()>): (r: Result<()>)
    ensures "project" !in kwargs ==> r == Err(KeyError("project"))
    ensures "project" in kwargs && ReportName(kwargs).Ok? &&
            RM.GetAction(SA360(inherited), Get(kwargs, "action")).Ok? ==>
      r == run(RM.GetAction(SA360(inherited), Get(kwargs, "action")).value,
               ActionArgs(kwargs, kwargs["project"], Get(kwargs, "email"), ReportName(kwargs).value))
  {
    var project :- Index(kwargs, "project");
    var email := Get(kwargs, "email");
    var report :- ReportName(kwargs);
    var action :- RM.GetAction(SA360(inherited), Get(kwargs, "action"));
    run(action, ActionArgs(kwargs, project, email, report))
  }

  /** With the lookup corrected, an API key passed as `api_key` reaches the action. */
  lemma ApiKeyAccepted(inherited: set<string>, run: (string, Dict) -> Result<()>)
    ensures var kwargs := map["project" := Str("p"), "api_key" := Str("k"), "action" := Str("install")];
      Manage(kwargs, inherited, run) == run("install", ActionArgs(kwargs, Str("p"), Null, Null))
  {
  }

  /** Without an `api_key` the two agree. */
  lemma ApiKeyAbsent(kwargs: Dict, inherited: set<string>, run: (string, Dict) -> Result<()>)
    requires "api_key" !in kwargs
    ensures ManageAsWritten(kwargs, inherited, run) == Manage(kwargs, inherited, run)
  {
  }

  /**
   * Which actions run: `validate` and `install` always; `list`, `show`,
   * `add` and `delete` exactly when the base class implements them, and
   * otherwise 'Not implemented'.
   */
  lemma ManageActions(kwargs: Dict, inherited: set<string>, run: (string, Dict) -> Result<()>, a: string)
    requires "project" in kwargs && ReportName(kwargs).Ok? && Get(kwargs, "action") == Str(a)
    ensures var args := ActionArgs(kwargs, kwargs["project"], Get(kwargs, "email"), ReportName(kwargs).value);
      && (a in {"validate", "install"} ==> Manage(kwargs, inherited, run) == run(a, args))
      && (a in SA360Actions - {"validate", "install"} && a in inherited ==> Manage(kwargs, inherited, run) == run(a, args))
      && (a in SA360Actions - {"validate", "install"} && a !in inherited ==>
            Manage(kwargs, inherited, run) == Err(NotImplementedError("Not implemented")))
      && (a !in SA360Actions ==> Manage(kwargs, inherited, run).Err?)
  {
  }

  // ---------------------------------------------------------------- _file_based

  /** A custom column: a parameter dictionary carrying `is_list`. */
  predicate IsCustomColumn(c: Value)
  {
    c.Obj? && "is_list" in c.fields
  }

  /** `column['name']`: a dictionary's name, which must be a string; nothing else is indexed by a string. */
  function ColumnName(c: Value): Result<string>
  {
    var fields :- if c.Obj? then Ok(c.fields) else Err(TypeError);
    var name :- Index(fields, "name");
    if name.Str? then Ok(name.s) else Err(TypeError)
  }

  /** What the comprehension makes of one parameter: skipped, a name, or the error it raises. */
  function ColumnOutcome(c: Value): Result<Option<string>>
  {
    var custom :- Contains(c, "is_list");
    if !custom then Ok(None)
    else
      var name :- ColumnName(c);
      Ok(Some(name))
  }

  /** The custom columns among the parameters, in order: the reference the extraction is checked against. */
  function CustomOf(params: seq<Value>): (r: seq<Value>)
    ensures |r| <= |params|
    ensures forall i :: 0 <= i < |r| ==> IsCustomColumn(r[i])
  {
    if params == [] then []
    else (if IsCustomColumn(params[0]) then [params[0]] else []) + CustomOf(params[1..])
  }

  /**
   * `[column['name'] for column in parameters if 'is_list' in column]`,
   * evaluated from the first parameter on: it fails exactly when some
   * parameter fails, and otherwise gives the names of the custom columns,
   * in order and with repeats.
   */
  function CustomColumns(params: seq<Value>): (r: Result<seq<string>>)
    ensures r.Ok? <==> forall i :: 0 <= i < |params| ==> ColumnOutcome(params[i]).Ok?
    ensures r.Ok? ==> |r.value| == |CustomOf(params)|
    ensures r.Ok? ==> forall i :: 0 <= i < |r.value| ==> ColumnName(CustomOf(params)[i]) == Ok(r.value[i])
    decreases |params|
  {
    if params == [] then Ok([])
    else
      var head :- ColumnOutcome(params[0]);
      var rest :- CustomColumns(params[1..]);
      assert forall i :: 0 <= i < |params| - 1 ==> params[1..][i] == params[i + 1];
      CustomColumnsCons(params, head, rest);
      if head.Some? then Ok([head.value] + rest) else Ok(rest)
  }

  /** One step of the extraction: the head's name, if any, goes before the names of the rest. */
  lemma CustomColumnsCons(params: seq<Value>, head: Option<string>, rest: seq<string>)
    requires params != [] && ColumnOutcome(params[0]) == Ok(head)
    requires |rest| == |CustomOf(params[1..])|
    requires forall i :: 0 <= i < |rest| ==> ColumnName(CustomOf(params[1..])[i]) == Ok(rest[i])
    ensures var names := if head.Some? then [head.value] + rest else rest;
      && |names| == |CustomOf(params)|
      && forall i :: 0 <= i < |names| ==> ColumnName(CustomOf(params)[i]) == Ok(names[i])
  {
    assert head.Some? <==> IsCustomColumn(params[0]);
    var tail := CustomOf(params[1..]);
    if head.Some? {
      assert CustomOf(params) == [params[0]] + tail;
      assert ColumnName(params[0]) == Ok(head.value);
    } else {
      assert CustomOf(params) == tail;
    }
  }

  /** A failed extraction raises the error of the first parameter that fails. */
  lemma {:induction false} CustomColumnsFirstError(params: seq<Value>)
    requires CustomColumns(params).Err?
    ensures exists i :: (0 <= i < |params| && ColumnOutcome(params[i]).Err? &&
      (forall j :: 0 <= j < i ==> ColumnOutcome(params[j]).Ok?) &&
      CustomColumns(params).error == ColumnOutcome(params[i]).error)
    decreases |params|
  {
    if ColumnOutcome(params[0]).Err? {
      assert ColumnOutcome(params[0]).Err? && CustomColumns(params).error == ColumnOutcome(params[0]).error;
    } else {
      var rest := params[1..];
      CustomColumnsFirstError(rest);
      var i :| 0 <= i < |rest| && ColumnOutcome(rest[i]).Err? &&
        (forall j :: 0 <= j < i ==> ColumnOutcome(rest[j]).Ok?) &&
        CustomColumns(rest).error == ColumnOutcome(rest[i]).error;
      assert params[i + 1] == rest[i];
      forall j | 0 <= j < i + 1
        ensures ColumnOutcome(params[j]).Ok?
      {
        if j > 0 {
          assert params[j] == rest[j - 1];
        }
      }
    }
  }

  /** Two custom columns, in the order of the parameters, appear in the same order among the custom columns. */
  lemma {:induction false} CustomOfPositions(params: seq<Value>, i: int, j: int) returns (a: int, b: int)
    requires 0 <= i < j < |params| && IsCustomColumn(params[i]) && IsCustomColumn(params[j])
    ensures 0 <= a < b < |CustomOf(params)| && CustomOf(params)[a] == params[i] && CustomOf(params)[b] == params[j]
    decreases |params|
  {
    var rest := params[1..];
    var head := if IsCustomColumn(params[0]) then [params[0]] else [];
    assert CustomOf(params) == head + CustomOf(rest);
    if i == 0 {
      var c := CustomOfIndex(rest, j - 1);
      a, b := 0, |head| + c;
    } else {
      var c, d := CustomOfPositions(rest, i - 1, j - 1);
      a, b := |head| + c, |head| + d;
    }
  }

  /** A custom column has a position among the custom columns. */
  lemma {:induction false} CustomOfIndex(params: seq<Value>, j: int) returns (b: int)
    requires 0 <= j < |params| && IsCustomColumn(params[j])
    ensures 0 <= b < |CustomOf(params)| && CustomOf(params)[b] == params[j]
    decreases |params|
  {
    var rest := params[1..];
    var head := if IsCustomColumn(params[0]) then [params[0]] else [];
    assert CustomOf(params) == head + CustomOf(rest);
    if j == 0 {
      b := 0;
    } else {
      var c := CustomOfIndex(rest, j - 1);
      b := |head| + c;
    }
  }

  /**
   * The validity recorded for a checked column once the running verdict is
   * `valid`: INVALID when it is false, else VALID exactly when the column's
   * `value` is truthy.
   */
  function ColumnValidity(valid: bool, column: Value): (r: Result<Validity>)
    ensures !valid ==> r == Ok(INVALID)
    ensures valid ==> (r.Ok? <==> column.Obj? && "value" in column.fields)
    ensures valid && r.Ok? ==> (r.value == VALID <==> Truthy(column.fields["value"]))
    ensures valid && r.Ok? ==> r.value != INVALID
  {
    if !valid then Ok(INVALID)
    else
      var value :- Field(column, "value");
      if Truthy(value) then Ok(VALID) else Ok(UNDEFINED)
  }

  /**
   * The column loop of `_file_based` after the columns `cols` (read from the
   * last one back, so that a loop over a prefix extends it by one step): the
   * running verdict and the attributes written.
   */
  function CheckColumns(report: Dict, cols: seq<string>, validate: Value -> bool,
                        camel: string -> string, attrs0: map<string, Validity>): Result<(bool, map<string, Validity>)>
  {
    if cols == [] then Ok((true, attrs0))
    else ColumnStep(CheckColumns(report, cols[..|cols| - 1], validate, camel, attrs0), report, Last(cols), validate, camel)
  }

  /** One iteration of the column loop, for column `c`, after the iterations that gave `prior`. */
  function ColumnStep(prior: Result<(bool, map<string, Validity>)>, report: Dict, c: string,
                      validate: Value -> bool, camel: string -> string): Result<(bool, map<string, Validity>)>
  {
    var p :- prior;
    var v :- Index(report, c);
    if !Truthy(v) then Ok(p)
    else
      var valid := p.0 && validate(v);
      var validity :- ColumnValidity(valid, v);
      Ok((valid, p.1[camel(c) := validity]))
  }

  /** The check over one more column is one more step. */
  lemma CheckColumnsStep(report: Dict, cols: seq<string>, i: nat, validate: Value -> bool,
                         camel: string -> string, attrs0: map<string, Validity>)
    requires i < |cols|
    ensures CheckColumns(report, cols[..i + 1], validate, camel, attrs0) ==
      ColumnStep(CheckColumns(report, cols[..i], validate, camel, attrs0), report, cols[i], validate, camel)
  {
    assert cols[..i + 1][..i] == cols[..i];
  }

  /** The verdict over the first `n` columns: every checked one validated. */
  predicate VerdictThrough(report: Dict, cols: seq<string>, validate: Value -> bool, n: nat)
    requires n <= |cols|
    requires forall j :: 0 <= j < |cols| ==> cols[j] in report
  {
    forall j :: 0 <= j < n && Truthy(report[cols[j]]) ==> validate(report[cols[j]])
  }

  /** A successful check read every column, and its verdict is the conjunction. */
  lemma {:induction false} CheckColumnsVerdict(report: Dict, cols: seq<string>, validate: Value -> bool,
                                               camel: string -> string, attrs0: map<string, Validity>)
    requires CheckColumns(report, cols, validate, camel, attrs0).Ok?
    ensures forall j :: 0 <= j < |cols| ==> cols[j] in report
    ensures CheckColumns(report, cols, validate, camel, attrs0).value.0 <==>
      VerdictThrough(report, cols, validate, |cols|)
  {
    if cols != [] {
      var init := cols[..|cols| - 1];
      CheckColumnsVerdict(report, init, validate, camel, attrs0);
      assert forall j :: 0 <= j < |init| ==> init[j] == cols[j];
    }
  }

  /** A column missing from the report raises KeyError, and so does the whole check. */
  lemma {:induction false} CheckColumnsMissing(report: Dict, cols: seq<string>, validate: Value -> bool,
                                               camel: string -> string, attrs0: map<string, Validity>, i: int)
    requires 0 <= i < |cols| && cols[i] !in report
    ensures CheckColumns(report, cols, validate, camel, attrs0).Err?
  {
    if CheckColumns(report, cols, validate, camel, attrs0).Ok? {
      CheckColumnsVerdict(report, cols, validate, camel, attrs0);
    }
  }

  /** A failed check fails for good: more columns do not undo it. */
  lemma {:induction false} CheckColumnsErr(report: Dict, cols: seq<string>, n: nat, validate: Value -> bool,
                                           camel: string -> string, attrs0: map<string, Validity>)
    requires n <= |cols|
    requires CheckColumns(report, cols[..n], validate, camel, attrs0).Err?
    ensures CheckColumns(report, cols, validate, camel, attrs0) == CheckColumns(report, cols[..n], validate, camel, attrs0)
    decreases |cols| - n
  {
    if n < |cols| {
      var longer := cols[..n + 1];
      assert longer[..n] == cols[..n];
      CheckColumnsErr(report, cols, n + 1, validate, camel, attrs0);
    } else {
      assert cols[..n] == cols;
    }
  }

  /**
   * The validity `_file_based` records for a checked column `i`: INVALID
   * once the verdict through it has turned false, else VALID or UNDEFINED by
   * its `value`.
   */
  function ExpectedValidity(report: Dict, cols: seq<string>, validate: Value -> bool, i: nat): Validity
    requires i < |cols|
    requires forall j :: 0 <= j < |cols| ==> cols[j] in report
  {
    var v := report[cols[i]];
    if !VerdictThrough(report, cols, validate, i + 1) then INVALID
    else if v.Obj? && "value" in v.fields && Truthy(v.fields["value"]) then VALID
    else UNDEFINED
  }

  /** The attribute of the last checked column with a given camel-cased name holds its validity. */
  lemma {:induction false} CheckColumnsWrites(report: Dict, cols: seq<string>, validate: Value -> bool,
                                              camel: string -> string, attrs0: map<string, Validity>, i: nat)
    requires CheckColumns(report, cols, validate, camel, attrs0).Ok?
    requires forall j :: 0 <= j < |cols| ==> cols[j] in report
    requires i < |cols| && Truthy(report[cols[i]])
    requires forall j :: i < j < |cols| && Truthy(report[cols[j]]) ==> camel(cols[j]) != camel(cols[i])
    ensures camel(cols[i]) in CheckColumns(report, cols, validate, camel, attrs0).value.1
    ensures CheckColumns(report, cols, validate, camel, attrs0).value.1[camel(cols[i])] ==
      ExpectedValidity(report, cols, validate, i)
  {
    var n := |cols|;
    var init := cols[..n - 1];
    var prior := CheckColumns(report, init, validate, camel, attrs0);
    assert forall j :: 0 <= j < n - 1 ==> init[j] == cols[j];
    ColumnStepEffect(prior, report, cols[n - 1], validate, camel);
    CheckColumnsVerdict(report, init, validate, camel, attrs0);
    if i == n - 1 {
      assert VerdictThrough(report, cols, validate, n) <==>
        VerdictThrough(report, init, validate, n - 1) && validate(report[cols[i]]);
    } else {
      CheckColumnsWrites(report, init, validate, camel, attrs0, i);
      assert VerdictThrough(report, cols, validate, i + 1) == VerdictThrough(report, init, validate, i + 1);
    }
  }

  /** What one step does to the verdict and the attributes. */
  lemma ColumnStepEffect(prior: Result<(bool, map<string, Validity>)>, report: Dict, c: string,
                         validate: Value -> bool, camel: string -> string)
    requires ColumnStep(prior, report, c, validate, camel).Ok?
    ensures prior.Ok? && c in report
    ensures var p, r, v := prior.value, ColumnStep(prior, report, c, validate, camel).value, report[c];
      && (!Truthy(v) ==> r == p)
      && (Truthy(v) ==> r.0 == (p.0 && validate(v)))
      && (Truthy(v) ==> r.1 == p.1[camel(c) := if !r.0 then INVALID
                                             else if v.Obj? && "value" in v.fields && Truthy(v.fields["value"]) then VALID
                                             else UNDEFINED])
  {
  }

  /** An attribute no checked column writes keeps its initial state. */
  lemma {:induction false} CheckColumnsUntouched(report: Dict, cols: seq<string>, validate: Value -> bool,
                                                 camel: string -> string, attrs0: map<string, Validity>, name: string)
    requires CheckColumns(report, cols, validate, camel, attrs0).Ok?
    requires forall j :: 0 <= j < |cols| ==> cols[j] in report
    requires forall j :: 0 <= j < |cols| && Truthy(report[cols[j]]) ==> camel(cols[j]) != name
    ensures var attrs := CheckColumns(report, cols, validate, camel, attrs0).value.1;
      (name in attrs <==> name in attrs0) && (name in attrs0 ==> attrs[name] == attrs0[name])
  {
    if cols != [] {
      var init := cols[..|cols| - 1];
      assert forall j :: 0 <= j < |init| ==> init[j] == cols[j];
      CheckColumnsUntouched(report, init, validate, camel, attrs0, name);
    }
  }

  /** The camel-cased names of the checked columns: the attributes the loop writes. */
  function Written(report: Dict, cols: seq<string>, camel: string -> string): set<string>
  {
    set j | 0 <= j < |cols| && cols[j] in report && Truthy(report[cols[j]]) :: camel(cols[j])
  }

  /** The loop writes exactly one attribute per checked column's camel-cased name. */
  lemma {:induction false} CheckColumnsKeys(report: Dict, cols: seq<string>, validate: Value -> bool,
                                            camel: string -> string, attrs0: map<string, Validity>)
    requires CheckColumns(report, cols, validate, camel, attrs0).Ok?
    ensures CheckColumns(report, cols, validate, camel, attrs0).value.1.Keys == attrs0.Keys + Written(report, cols, camel)
  {
    if cols != [] {
      var init := cols[..|cols| - 1];
      var c := Last(cols);
      var prior := CheckColumns(report, init, validate, camel, attrs0);
      ColumnStepEffect(prior, report, c, validate, camel);
      CheckColumnsKeys(report, init, validate, camel, attrs0);
      assert forall j :: 0 <= j < |init| ==> init[j] == cols[j];
      assert Written(report, cols, camel) ==
        Written(report, init, camel) + (if Truthy(report[c]) then {camel(c)} else {});
    }
  }

  /** What `_file_based` reads from a report and its definition before the column loop. */
  datatype Target = Target(agency: Value, advertiser: Value, reportType: Value, params: seq<Value>, cols: seq<string>)

  /**
   * The reads before the loop, in the order they happen: the ids and report
   * name (for the log line), the definition of the named report, its
   * report type (for the validator) and its custom columns.
   */
  function TargetOf(definitions: Dict, report: Dict): (r: Result<Target>)
    ensures r.Ok? ==> "AgencyId" in report && r.value.agency == report["AgencyId"]
    ensures r.Ok? ==> "AdvertiserId" in report && r.value.advertiser == report["AdvertiserId"]
    ensures "AgencyId" !in report ==> r == Err(KeyError("AgencyId"))
    ensures r.Ok? <==>
      && "AgencyId" in report && "AdvertiserId" in report && "report" in report
      && report["report"].Str? && report["report"].s in definitions
      && var target := definitions[report["report"].s];
      && target.Obj? && "report" in target.fields && target.fields["report"].Obj?
      && "reportType" in target.fields["report"].fields
      && "parameters" in target.fields && target.fields["parameters"].Arr?
      && CustomColumns(target.fields["parameters"].items).Ok?
  {
    var agency :- Index(report, "AgencyId");
    var advertiser :- Index(report, "AdvertiserId");
    var name :- Index(report, "report");
    var target :- if name.Str? then Index(definitions, name.s) else Err(KeyError(Format(name)));
    var targetReport :- Field(target, "report");
    var reportType :- Field(targetReport, "reportType");
    var params :- Field(target, "parameters");
    var list :- if params.Arr? then Ok(params.items) else Err(TypeError);
    var cols :- CustomColumns(list);
    Ok(Target(agency, advertiser, reportType, list, cols))
  }

  /** The columns checked are the names extracted from the definition's parameters. */
  lemma TargetColumns(definitions: Dict, report: Dict)
    requires TargetOf(definitions, report).Ok?
    ensures var t := TargetOf(definitions, report).value;
      CustomColumns(t.params) == Ok(t.cols)
  {
  }

  /**
   * `_file_based` as a value: the verdict and the validation record. The
   * validator the factory builds is `validators(email, reportType, agency,
   * advertiser)`; `camel` is `stringcase.camelcase`.
   */
  function FileBasedSpec(definitions: Dict, report: Dict, email: Value,
                         validators: (Value, Value, Value, Value) -> (Value -> bool),
                         camel: string -> string): Result<(bool, Validation)>
  {
    var t :- TargetOf(definitions, report);
    var checked :- CheckColumns(report, t.cols, validators(email, t.reportType, t.agency, t.advertiser),
                                camel, InitialAttrs);
    Ok((checked.0 && |Elements(t.cols)| == |t.cols|, Validation(t.agency, t.advertiser, checked.1)))
  }

  /**
   * The verdict of `_file_based` is true exactly when every checked column
   * validates and no custom column is named twice.
   */
  lemma FileBasedVerdict(definitions: Dict, report: Dict, email: Value,
                         validators: (Value, Value, Value, Value) -> (Value -> bool), camel: string -> string)
    requires FileBasedSpec(definitions, report, email, validators, camel).Ok?
    ensures var t := TargetOf(definitions, report).value;
      && (forall j :: 0 <= j < |t.cols| ==> t.cols[j] in report)
      && (FileBasedSpec(definitions, report, email, validators, camel).value.0 <==>
            VerdictThrough(report, t.cols, validators(email, t.reportType, t.agency, t.advertiser), |t.cols|) &&
            Distinct(t.cols))
  {
    var t := TargetOf(definitions, report).value;
    CheckColumnsVerdict(report, t.cols, validators(email, t.reportType, t.agency, t.advertiser), camel, InitialAttrs);
    DistinctCard(t.cols);
  }

  /**
   * The record `_file_based` returns: built from the report's ids, with one
   * attribute per checked column's camel-cased name; a column named so
   * overwrites the `agency` or `advertiser` field.
   */
  lemma FileBasedRecord(definitions: Dict, report: Dict, email: Value,
                        validators: (Value, Value, Value, Value) -> (Value -> bool), camel: string -> string)
    requires FileBasedSpec(definitions, report, email, validators, camel).Ok?
    ensures var t := TargetOf(definitions, report).value;
      var v := FileBasedSpec(definitions, report, email, validators, camel).value.1;
      && v.agency == report["AgencyId"] && v.advertiser == report["AdvertiserId"]
      && v.attrs.Keys == InitialAttrs.Keys + Written(report, t.cols, camel)
      && (FieldOf(v, "agency") == Id(report["AgencyId"]) <==> "agency" !in Written(report, t.cols, camel))
      && (FieldOf(v, "advertiser") == Id(report["AdvertiserId"]) <==> "advertiser" !in Written(report, t.cols, camel))
  {
    var t := TargetOf(definitions, report).value;
    var validate := validators(email, t.reportType, t.agency, t.advertiser);
    var attrs := CheckColumns(report, t.cols, validate, camel, InitialAttrs).value.1;
    assert FileBasedSpec(definitions, report, email, validators, camel).value.1 ==
      Validation(report["AgencyId"], report["AdvertiserId"], attrs);
    CheckColumnsKeys(report, t.cols, validate, camel, InitialAttrs);
    RecordFields(report["AgencyId"], report["AdvertiserId"], attrs, Written(report, t.cols, camel));
  }

  /** A record's id fields show through exactly when no attribute of that name was written. */
  lemma RecordFields(agency: Value, advertiser: Value, attrs: map<string, Validity>, written: set<string>)
    requires attrs.Keys == InitialAttrs.Keys + written
    ensures var v := Validation(agency, advertiser, attrs);
      && (FieldOf(v, "agency") == Id(agency) <==> "agency" !in written)
      && (FieldOf(v, "advertiser") == Id(advertiser) <==> "advertiser" !in written)
  {
    assert "agency" !in InitialAttrs && "advertiser" !in InitialAttrs;
  }

  /** Two custom columns of the definition with the same name make the verdict false. */
  lemma DuplicateColumnInvalid(definitions: Dict, report: Dict, email: Value,
                               validators: (Value, Value, Value, Value) -> (Value -> bool), camel: string -> string,
                               i: int, j: int)
    requires FileBasedSpec(definitions, report, email, validators, camel).Ok?
    requires var params := TargetOf(definitions, report).value.params;
      && 0 <= i < j < |params| && IsCustomColumn(params[i]) && IsCustomColumn(params[j])
      && "name" in params[i].fields && "name" in params[j].fields
      && params[i].fields["name"] == params[j].fields["name"]
    ensures !FileBasedSpec(definitions, report, email, validators, camel).value.0
  {
    var t := TargetOf(definitions, report).value;
    TargetColumns(definitions, report);
    var a, b := CustomOfPositions(t.params, i, j);
    assert t.cols[a] == t.cols[b];
    FileBasedVerdict(definitions, report, email, validators, camel);
  }

  /** `_file_based`: the column loop over the custom columns of the report's definition. */
  method FileBased(definitions: Dict, report: Dict, email: Value,
                   validators: (Value, Value, Value, Value) -> (Value -> bool),
                   camel: string -> string) returns (r: Result<(bool, Validation)>)
    ensures r == FileBasedSpec(definitions, report, email, validators, camel)
  {
    var t :- TargetOf(definitions, report);
    var validate := validators(email, t.reportType, t.agency, t.advertiser);
    var cols := t.cols;
    var valid := true;
    var attrs := InitialAttrs;
    var i := 0;
    while i < |cols|
      invariant 0 <= i <= |cols|
      invariant CheckColumns(report, cols[..i], validate, camel, InitialAttrs) == Ok((valid, attrs))
    {
      CheckColumnsStep(report, cols, i, validate, camel, InitialAttrs);
      var c := cols[i];
      if c !in report {
        CheckColumnsErr(report, cols, i + 1, validate, camel, InitialAttrs);
        return Err(KeyError(c));
      }
      var v := report[c];
      if Truthy(v) {
        valid := valid && validate(v);
        var validity := ColumnValidity(valid, v);
        if validity.Err? {
          CheckColumnsErr(report, cols, i + 1, validate, camel, InitialAttrs);
          return Err(validity.error);
        }
        attrs := attrs[camel(c) := validity.value];
      }
      i := i + 1;
    }
    assert cols[..i] == cols;
    if |Elements(cols)| != |cols| {
      valid := false;
    }
    r := Ok((valid, Validation(t.agency, t.advertiser, attrs)));
  }

  // ---------------------------------------------------------------- install

  /** The job id `{report}_{AgencyId}_{AdvertiserId}`. */
  function JobId(runner: Dict): (r: Result<string>)
    ensures r.Ok? <==> "report" in runner && "AgencyId" in runner && "AdvertiserId" in runner
    ensures r.Ok? ==> r.value == Format(runner["report"]) + "_" + Format(runner["AgencyId"]) + "_" +
                                 Format(runner["AdvertiserId"])
  {
    var report :- Index(runner, "report");
    var agency :- Index(runner, "AgencyId");
    var advertiser :- Index(runner, "AdvertiserId");
    Ok(Format(report) + "_" + Format(agency) + "_" + Format(advertiser))
  }

  /** The default description `(title or report): agencyName/advertiserName`. */
  function DefaultDescription(runner: Dict): Result<string>
  {
    var title :- Index(runner, if "title" in runner then "title" else "report");
    var agency :- Index(runner, "agencyName");
    var advertiser :- Index(runner, "advertiserName");
    Ok(Format(title) + ": " + Format(agency) + "/" + Format(advertiser))
  }

  /** The runner as it is scheduled: a truthy description is kept, else the default is written in. */
  function Described(runner: Dict): (r: Result<Dict>)
    ensures Truthy(Get(runner, "description")) ==> r == Ok(runner)
    ensures !Truthy(Get(runner, "description")) ==>
      (r.Ok? <==> DefaultDescription(runner).Ok?) &&
      (r.Ok? ==> r.value == runner["description" := Str(DefaultDescription(runner).value)])
  {
    if Truthy(Get(runner, "description")) then Ok(runner)
    else
      var description :- DefaultDescription(runner);
      Ok(runner["description" := Str(description)])
  }

  /** A described runner differs from the original at most in its description, which is truthy. */
  lemma DescribedChangesOnlyDescription(runner: Dict)
    requires Described(runner).Ok?
    ensures var d := Described(runner).value;
      && d.Keys == runner.Keys + {"description"}
      && (forall k :: k in runner && k != "description" ==> d[k] == runner[k])
      && Truthy(d["description"])
      && (Truthy(Get(runner, "description")) ==> d["description"] == runner["description"])
  {
    if !Truthy(Get(runner, "description")) {
      var description := DefaultDescription(runner).value;
      assert description != [];
    }
  }

  /** Where `install` stands: the stored runners, the jobs scheduled, the result lines, an escaped error. */
  datatype Progress = Progress(store: map<string, Dict>, jobs: seq<(string, Dict)>,
                               results: seq<string>, failure: Option<Error>)

  /** The part of one runner's handling that reads before anything is written. */
  function InstallCheck(runner: Value, definitions: Dict,
                        validators: (Value, Value, Value, Value) -> (Value -> bool),
                        camel: string -> string): Result<(Dict, string, bool, Validation)>
  {
    var r :- AsDict(runner);
    var id :- JobId(r);
    var email :- Index(r, "email");
    var checked :- FileBasedSpec(definitions, r, email, validators, camel);
    Ok((r, id, checked.0, checked.1))
  }

  /**
   * One iteration of `install`'s loop: a valid runner is stored under its id
   * and, with a scheduler, described and scheduled (`schedule` gives the
   * result line); an invalid one adds one failure line; an exception stops
   * the loop with what was written so far.
   */
  function InstallStep(p: Progress, runner: Value, hasScheduler: bool, definitions: Dict,
                       validators: (Value, Value, Value, Value) -> (Value -> bool),
                       camel: string -> string, schedule: (string, Dict) -> string): (q: Progress)
    requires p.failure.None?
  {
    match InstallCheck(runner, definitions, validators, camel)
    case Err(e) => p.(failure := Some(e))
    case Ok((r, id, valid, validation)) =>
      if !valid then
        p.(results := p.results + [id + " - Validation failed: " + ValidationRepr(validation)])
      else
        var stored := p.(store := UpdateDocument(p.store, id, r));
        if !hasScheduler then stored
        else
          match Described(r)
          case Err(e) => stored.(failure := Some(e))
          case Ok(d) => stored.(jobs := stored.jobs + [(id, d)], results := stored.results + [schedule(id, d)])
  }

  /** `install` over the runners, from the state `p0`. */
  function InstallAll(p0: Progress, runners: seq<Value>, hasScheduler: bool, definitions: Dict,
                      validators: (Value, Value, Value, Value) -> (Value -> bool),
                      camel: string -> string, schedule: (string, Dict) -> string): Progress
    requires p0.failure.None?
  {
    if runners == [] then p0
    else
      var p := InstallAll(p0, runners[..|runners| - 1], hasScheduler, definitions, validators, camel, schedule);
      if p.failure.Some? then p
      else InstallStep(p, Last(runners), hasScheduler, definitions, validators, camel, schedule)
  }

  /** A valid runner is stored under its id, and scheduled with its description when there is a scheduler. */
  lemma InstallValid(p: Progress, runner: Value, hasScheduler: bool, definitions: Dict,
                     validators: (Value, Value, Value, Value) -> (Value -> bool),
                     camel: string -> string, schedule: (string, Dict) -> string)
    requires p.failure.None?
    requires InstallCheck(runner, definitions, validators, camel).Ok?
    requires InstallCheck(runner, definitions, validators, camel).value.2
    ensures var q := InstallStep(p, runner, hasScheduler, definitions, validators, camel, schedule);
      var id := JobId(runner.fields).value;
      && q.store == UpdateDocument(p.store, id, runner.fields)
      && (!hasScheduler ==> q == p.(store := q.store))
      && (hasScheduler && Described(runner.fields).Ok? ==>
            q.failure.None? &&
            q.jobs == p.jobs + [(id, Described(runner.fields).value)] &&
            q.results == p.results + [schedule(id, Described(runner.fields).value)])
  {
    var q := InstallStep(p, runner, hasScheduler, definitions, validators, camel, schedule);
    var id := JobId(runner.fields).value;
    var c := InstallCheck(runner, definitions, validators, camel);
    assert c.value.0 == runner.fields && c.value.1 == id;
    var stored := p.(store := UpdateDocument(p.store, id, runner.fields));
    if !hasScheduler {
      assert q == stored;
    } else if Described(runner.fields).Ok? {
      var d := Described(runner.fields).value;
      assert q == stored.(jobs := p.jobs + [(id, d)], results := p.results + [schedule(id, d)]);
    } else {
      assert q.store == stored.store;
    }
  }

  /** An invalid runner is not stored and adds exactly one line naming its id. */
  lemma InstallInvalid(p: Progress, runner: Value, hasScheduler: bool, definitions: Dict,
                       validators: (Value, Value, Value, Value) -> (Value -> bool),
                       camel: string -> string, schedule: (string, Dict) -> string)
    requires p.failure.None?
    requires InstallCheck(runner, definitions, validators, camel).Ok?
    requires !InstallCheck(runner, definitions, validators, camel).value.2
    ensures var q := InstallStep(p, runner, hasScheduler, definitions, validators, camel, schedule);
      var id := JobId(runner.fields).value;
      && q.store == p.store && q.jobs == p.jobs && q.failure.None?
      && |q.results| == |p.results| + 1
      && StartsWith(Last(q.results), id + " - Validation failed: ")
  {
    var q := InstallStep(p, runner, hasScheduler, definitions, validators, camel, schedule);
    var id := JobId(runner.fields).value;
    var c := InstallCheck(runner, definitions, validators, camel);
    var line := id + " - Validation failed: " + ValidationRepr(c.value.3);
    assert c.value.1 == id;
    assert q == p.(results := p.results + [line]);
    assert Last(q.results) == line;
    assert line[..|id + " - Validation failed: "|] == id + " - Validation failed: ";
  }

  /** `install` only adds: stored runners stay, jobs and results only grow, by at most one line per runner. */
  lemma {:induction false} InstallAllGrows(p0: Progress, runners: seq<Value>, hasScheduler: bool, definitions: Dict,
                                           validators: (Value, Value, Value, Value) -> (Value -> bool),
                                           camel: string -> string, schedule: (string, Dict) -> string)
    requires p0.failure.None?
    ensures var p := InstallAll(p0, runners, hasScheduler, definitions, validators, camel, schedule);
      && p0.store.Keys <= p.store.Keys
      && p0.results <= p.results && |p.results| <= |p0.results| + |runners|
      && p0.jobs <= p.jobs
      && (!hasScheduler ==> p.jobs == p0.jobs)
  {
    if runners != [] {
      InstallAllGrows(p0, runners[..|runners| - 1], hasScheduler, definitions, validators, camel, schedule);
      var p := InstallAll(p0, runners[..|runners| - 1], hasScheduler, definitions, validators, camel, schedule);
      if p.failure.None? {
        InstallStepGrows(p, Last(runners), hasScheduler, definitions, validators, camel, schedule);
      }
    }
  }

  /** One step of `install` adds at most one result line and keeps what was stored and scheduled. */
  lemma InstallStepGrows(p: Progress, runner: Value, hasScheduler: bool, definitions: Dict,
                         validators: (Value, Value, Value, Value) -> (Value -> bool),
                         camel: string -> string, schedule: (string, Dict) -> string)
    requires p.failure.None?
    ensures var q := InstallStep(p, runner, hasScheduler, definitions, validators, camel, schedule);
      && p.store.Keys <= q.store.Keys
      && p.results <= q.results && |q.results| <= |p.results| + 1
      && p.jobs <= q.jobs
      && (!hasScheduler ==> q.jobs == p.jobs)
  {
    var q := InstallStep(p, runner, hasScheduler, definitions, validators, camel, schedule);
    var c := InstallCheck(runner, definitions, validators, camel);
    if c.Ok? && c.value.2 {
      var stored := p.(store := UpdateDocument(p.store, c.value.1, c.value.0));
      assert hasScheduler && Described(c.value.0).Ok? ==>
        q == stored.(jobs := stored.jobs + [(c.value.1, Described(c.value.0).value)],
                     results := stored.results + [schedule(c.value.1, Described(c.value.0).value)]);
    }
  }

  /** Once a runner has raised, the later ones are not looked at. */
  lemma {:induction false} InstallAllStops(p0: Progress, runners: seq<Value>, n: nat, hasScheduler: bool,
                                           definitions: Dict,
                                           validators: (Value, Value, Value, Value) -> (Value -> bool),
                                           camel: string -> string, schedule: (string, Dict) -> string)
    requires p0.failure.None? && n <= |runners|
    requires InstallAll(p0, runners[..n], hasScheduler, definitions, validators, camel, schedule).failure.Some?
    ensures InstallAll(p0, runners, hasScheduler, definitions, validators, camel, schedule) ==
            InstallAll(p0, runners[..n], hasScheduler, definitions, validators, camel, schedule)
    decreases |runners| - n
  {
    if n < |runners| {
      assert runners[..n + 1][..n] == runners[..n];
      InstallAllStops(p0, runners, n + 1, hasScheduler, definitions, validators, camel, schedule);
    } else {
      assert runners[..n] == runners;
    }
  }

  /** `validate` over the documents: `_reports` is skipped, every other one is checked. */
  function ValidateAll(objects: seq<Value>, definitions: Dict,
                       validators: (Value, Value, Value, Value) -> (Value -> bool),
                       camel: string -> string): Result<seq<Validation>>
  {
    if objects == [] then Ok([])
    else
      var prior :- ValidateAll(objects[..|objects| - 1], definitions, validators, camel);
      var o := Last(objects);
      if o == Str("_reports") then Ok(prior)
      else
        var r :- AsDict(o);
        var email :- Index(r, "email");
        var checked :- FileBasedSpec(definitions, r, email, validators, camel);
        Ok(prior + [checked.1])
  }

  /** One validation per document other than `_reports`. */
  lemma {:induction false} ValidateAllCount(objects: seq<Value>, definitions: Dict,
                                            validators: (Value, Value, Value, Value) -> (Value -> bool),
                                            camel: string -> string)
    requires ValidateAll(objects, definitions, validators, camel).Ok?
    ensures |ValidateAll(objects, definitions, validators, camel).value| ==
            |objects| - multiset(objects)[Str("_reports")]
  {
    if objects != [] {
      var init := objects[..|objects| - 1];
      ValidateAllLength(objects, definitions, validators, camel);
      ValidateAllCount(init, definitions, validators, camel);
      assert objects == init + [Last(objects)];
      assert multiset(objects) == multiset(init) + multiset{Last(objects)};
    }
  }

  /** One more document adds one validation, or none for `_reports`. */
  lemma ValidateAllLength(objects: seq<Value>, definitions: Dict,
                          validators: (Value, Value, Value, Value) -> (Value -> bool),
                          camel: string -> string)
    requires objects != [] && ValidateAll(objects, definitions, validators, camel).Ok?
    ensures var init := objects[..|objects| - 1];
      && ValidateAll(init, definitions, validators, camel).Ok?
      && |ValidateAll(objects, definitions, validators, camel).value| ==
         |ValidateAll(init, definitions, validators, camel).value| + (if Last(objects) == Str("_reports") then 0 else 1)
  {
  }

  /** Once a document has raised, `validate` stops. */
  lemma {:induction false} ValidateAllStops(objects: seq<Value>, n: nat, definitions: Dict,
                                            validators: (Value, Value, Value, Value) -> (Value -> bool),
                                            camel: string -> string)
    requires n <= |objects|
    requires ValidateAll(objects[..n], definitions, validators, camel).Err?
    ensures ValidateAll(objects, definitions, validators, camel) == ValidateAll(objects[..n], definitions, validators, camel)
    decreases |objects| - n
  {
    if n < |objects| {
      assert objects[..n + 1][..n] == objects[..n];
      ValidateAllStops(objects, n + 1, definitions, validators, camel);
    } else {
      assert objects[..n] == objects;
    }
  }

  /**
   * The manager's state: the Firestore documents of type SA360_RPT by id,
   * the jobs handed to the scheduler, and whether there is a scheduler.
   */
  class SA360Manager {
    var store: map<string, Dict>
    var jobs: seq<(string, Dict)>
    const hasScheduler: bool

    constructor(store: map<string, Dict>, hasScheduler: bool)
      ensures this.store == store && jobs == [] && this.hasScheduler == hasScheduler
    {
      this.store := store;
      jobs := [];
      this.hasScheduler := hasScheduler;
    }

    /**
     * `install`: every runner is handled in order (the loop above); the
     * result lines are returned (writing them out is not modelled) with the
     * exception that ended the loop, if any.
     */
    method Install(runners: seq<Value>, definitions: Dict,
                   validators: (Value, Value, Value, Value) -> (Value -> bool),
                   camel: string -> string, schedule: (string, Dict) -> string)
      returns (results: seq<string>, failure: Option<Error>)
      modifies this
      ensures Progress(store, jobs, results, failure) ==
        InstallAll(Progress(old(store), old(jobs), [], None), runners, hasScheduler, definitions,
                   validators, camel, schedule)
    {
      ghost var p0 := Progress(store, jobs, [], None);
      results, failure := [], None;
      var i := 0;
      while i < |runners|
        invariant 0 <= i <= |runners|
        invariant Progress(store, jobs, results, failure) ==
          InstallAll(p0, runners[..i], hasScheduler, definitions, validators, camel, schedule)
        invariant failure.None?
      {
        assert runners[..i + 1][..i] == runners[..i];
        var check := InstallCheck(runners[i], definitions, validators, camel);
        if check.Err? {
          failure := Some(check.error);
          InstallAllStops(p0, runners, i + 1, hasScheduler, definitions, validators, camel, schedule);
          return;
        }
        var (runner, id, valid, validation) := check.value;
        if valid {
          store := UpdateDocument(store, id, runner);
          if hasScheduler {
            var described := Described(runner);
            if described.Err? {
              failure := Some(described.error);
              InstallAllStops(p0, runners, i + 1, hasScheduler, definitions, validators, camel, schedule);
              return;
            }
            jobs := jobs + [(id, described.value)];
            results := results + [schedule(id, described.value)];
          }
        } else {
          results := results + [id + " - Validation failed: " + ValidationRepr(validation)];
        }
        i := i + 1;
      }
      assert runners[..i] == runners;
    }

    /** `validate`: the validation of every document but `_reports` (the CSV output is not modelled). */
    method Validate(objects: seq<Value>, definitions: Dict,
                    validators: (Value, Value, Value, Value) -> (Value -> bool),
                    camel: string -> string) returns (r: Result<seq<Validation>>)
      ensures r == ValidateAll(objects, definitions, validators, camel)
    {
      var validations := [];
      var i := 0;
      while i < |objects|
        invariant 0 <= i <= |objects|
        invariant ValidateAll(objects[..i], definitions, validators, camel) == Ok(validations)
      {
        assert objects[..i + 1][..i] == objects[..i];
        var o := objects[i];
        if o != Str("_reports") {
          var d := AsDict(o);
          var email := if d.Ok? then Index(d.value, "email") else Err(TypeError);
          if email.Err? {
            ValidateAllStops(objects, i + 1, definitions, validators, camel);
            return Err(email.error);
          }
          var checked := FileBased(definitions, d.value, email.value, validators, camel);
          if checked.Err? {
            ValidateAllStops(objects, i + 1, definitions, validators, camel);
            return Err(checked.error);
          }
          validations := validations + [checked.value.1];
        }
        i := i + 1;
      }
      assert objects[..i] == objects;
      r := Ok(validations);
    }
  }
}
