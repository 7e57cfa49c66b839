/**
 * The Cloud Function entry points of `main.py` that route events:
 * `report_fetch` (which product to fetch, with which keyword arguments),
 * `report_runner` (which runner to start, with which arguments) and
 * `report_manager` (which manager handles an uploaded file, with which action).
 * The runners, managers and Cloud Storage are parameters of the model.
 */
module EventRouting {
  import opened Values
  import opened Text

  // ---------------------------------------------------------------- report_fetch

  /** The keys of the keyword arguments `report_fetch` lays down before the attributes. */
  const FetchKeys: set<string> := {
    "email", "project", "report_id", "profile", "sa360_url", "force", "append",
    "infer_schema", "dest_project", "dest_dataset", "notify_message", "partition"
  }

  /** The value `report_fetch` lays down for key `k` of `FetchKeys`. */
  function DefaultFor(attributes: Dict, k: string): Value
  {
    if k == "report_id" then
      Or(Or(Get(attributes, "report_id"), Get(attributes, "dv360_id")), Get(attributes, "cm_id"))
    else if k in {"force", "append", "infer_schema"} then Get(attributes, k, Bool(false))
    else if k == "dest_dataset" then Get(attributes, k, Str("report2bq"))
    else Get(attributes, k)
  }

  /** The keyword arguments `report_fetch` builds before merging the attributes in. */
  function FetchDefaults(attributes: Dict): Dict
  {
    map k | k in FetchKeys :: DefaultFor(attributes, k)
  }

  /**
   * The product to fetch: an explicit `type` attribute (parsed by the
   * `Type` enumeration, which raises ValueError for an unknown value), else
   * SA360 for a truthy `sa360_url`, else CM for a truthy `profile`, else DV360.
   */
  function InferProduct(attributes: Dict, parse: Value -> Option<ReportType>): Result<ReportType>
  {
    if "type" in attributes then
      match parse(attributes["type"])
      case Some(t) => Ok(t)
      case None => Err(ValueError)
    else if Truthy(Get(attributes, "sa360_url")) then Ok(SA360)
    else if Truthy(Get(attributes, "profile")) then Ok(CM)
    else Ok(DV360)
  }

  datatype FetchOutcome =
    | NoAttributes                                   // the event carries no attributes: nothing happens
    | Fetched(kwargs: Dict)                          // Report2BQ(**kwargs).run() completed
    | FetchFailed(error: Error, notify: Option<Value>)  // the exception path: error e-mail to `notify`, if any

  /**
   * The keyword arguments `report_fetch` hands to `Report2BQ`: the defaults,
   * overridden by every attribute (`kwargs.update`), and finally `product`.
   */
  function FetchKwargs(attributes: Dict, t: ReportType): Dict
  {
    (FetchDefaults(attributes) + attributes)["product" := Product(t)]
  }

  /** Whom the `except` branch mails: a truthy `email` attribute, or nobody. */
  function Notify(attributes: Dict): (r: Option<Value>)
    ensures r.Some? <==> Truthy(Get(attributes, "email"))
    ensures r.Some? ==> "email" in attributes && r.value == attributes["email"]
  {
    var email := Get(attributes, "email");
    if Truthy(email) then Some(email) else None
  }

  /**
   * `report_fetch`: `attributes` is the event's `attributes` entry (empty when
   * absent) and `run(kwargs)` stands for `Report2BQ(**kwargs).run()`. The
   * defaults are laid down, every attribute is merged over them
   * (`kwargs.update`) and `product` is set last. An unknown `type`, or a
   * fetch that raises, ends in the `except` branch, which e-mails the error
   * to a truthy `email` attribute.
   */
  method ReportFetch(attributes: Dict, parse: Value -> Option<ReportType>, run: Dict -> Result<()>)
    returns (r: FetchOutcome)
    ensures r.NoAttributes? <==> attributes == map[]
    ensures attributes != map[] && InferProduct(attributes, parse).Err? ==>
      r == FetchFailed(InferProduct(attributes, parse).error, Notify(attributes))
    ensures attributes != map[] && InferProduct(attributes, parse).Ok? ==>
      var kwargs := FetchKwargs(attributes, InferProduct(attributes, parse).value);
      && (run(kwargs).Ok? ==> r == Fetched(kwargs))
      && (run(kwargs).Err? ==> r == FetchFailed(run(kwargs).error, Notify(attributes)))
  {
    if attributes == map[] {
      return NoAttributes;
    }
    var kwargs := FetchDefaults(attributes);
    kwargs := kwargs + attributes;
    var product := InferProduct(attributes, parse);
    if product.Err? {
      return FetchFailed(product.error, Notify(attributes));
    }
    kwargs := kwargs["product" := Product(product.value)];
    var fetched := run(kwargs);
    if fetched.Err? {
      return FetchFailed(fetched.error, Notify(attributes));
    }
    r := Fetched(kwargs);
  }

  /** An unknown `type` is a ValueError, which is mailed like any failure of the fetch. */
  lemma UnknownTypeFails(attributes: Dict, parse: Value -> Option<ReportType>)
    requires "type" in attributes && parse(attributes["type"]).None?
    ensures InferProduct(attributes, parse) == Err(ValueError)
  {
  }

  /** Which keys the fetch arguments carry, and that the attributes win. */
  lemma FetchKwargsKeys(attributes: Dict, t: ReportType)
    ensures FetchKwargs(attributes, t).Keys == FetchKeys + attributes.Keys + {"product"}
    ensures forall k :: k in attributes && k != "product" ==> FetchKwargs(attributes, t)[k] == attributes[k]
    ensures FetchKwargs(attributes, t)["product"] == Product(t)
  {
    assert FetchDefaults(attributes).Keys == FetchKeys;
  }

  /** The flags an event leaves out are false. */
  lemma FetchKwargsFlagDefault(attributes: Dict, t: ReportType, k: string)
    requires k in {"force", "append", "infer_schema"} && k !in attributes
    ensures FetchKwargs(attributes, t)[k] == Bool(false)
  {
  }

  /** Without a `dest_dataset` attribute the dataset is `report2bq`. */
  lemma FetchKwargsDatasetDefault(attributes: Dict, t: ReportType)
    requires "dest_dataset" !in attributes
    ensures FetchKwargs(attributes, t)["dest_dataset"] == Str("report2bq")
  {
  }

  /** `report_id` falls back to the first truthy of `dv360_id` and `cm_id`. */
  lemma FetchKwargsReportId(attributes: Dict, t: ReportType)
    requires "report_id" !in attributes
    ensures FetchKwargs(attributes, t)["report_id"] == Or(Get(attributes, "dv360_id"), Get(attributes, "cm_id"))
  {
  }

  /** The other keys an event leaves out are None. */
  lemma FetchKwargsNoneDefault(attributes: Dict, t: ReportType, k: string)
    requires k in FetchKeys - {"report_id", "force", "append", "infer_schema", "dest_dataset"}
    requires k !in attributes
    ensures FetchKwargs(attributes, t)[k] == Null
  {
  }

  /** The priority chain of `InferProduct`, case by case. */
  lemma ProductPriority(attributes: Dict, parse: Value -> Option<ReportType>)
    ensures "type" in attributes ==>
      (InferProduct(attributes, parse).Ok? <==> parse(attributes["type"]).Some?)
    ensures "type" in attributes && parse(attributes["type"]).Some? ==>
      InferProduct(attributes, parse) == Ok(parse(attributes["type"]).value)
    ensures "type" !in attributes ==> InferProduct(attributes, parse).Ok?
    ensures "type" !in attributes && Truthy(Get(attributes, "sa360_url")) ==>
      InferProduct(attributes, parse) == Ok(SA360)
    ensures ("type" !in attributes && !Truthy(Get(attributes, "sa360_url")) &&
             Truthy(Get(attributes, "profile"))) ==> InferProduct(attributes, parse) == Ok(CM)
    ensures ("type" !in attributes && !Truthy(Get(attributes, "sa360_url")) &&
             !Truthy(Get(attributes, "profile"))) ==> InferProduct(attributes, parse) == Ok(DV360)
  {
  }

  // ---------------------------------------------------------------- report_runner

  datatype Runner = DBMReportRunner | DCMReportRunner | SA360ReportRunner | ADHRunner | GA360ReportRunner

  datatype RunnerOutcome =
    | NoRunnerAttributes          // the event carries no attributes: nothing happens
    | InvalidType                 // `Type(...)` raises ValueError, which escapes
    | UnknownType                 // no runner for the type: an error is logged, nothing runs
    | Run(runner: Runner, args: Dict)

  /** The runner `report_runner` starts for each type, when there is one. */
  function RunnerFor(t: ReportType): Option<Runner>
  {
    match t
    case DV360 => Some(DBMReportRunner)
    case CM => Some(DCMReportRunner)
    case SA360_RPT => Some(SA360ReportRunner)
    case ADH => Some(ADHRunner)
    case GA360_RPT => Some(GA360ReportRunner)
    case _ => None
  }

  /** The arguments shared by every runner: `email`, and `project` defaulting to the environment. */
  function BaseArgs(attributes: Dict, envProject: Value): Dict
  {
    map["email" := Get(attributes, "email"), "project" := Get(attributes, "project", envProject)]
  }

  /** The runner-specific arguments of `report_runner`'s table. */
  function RunnerArgs(runner: Runner, attributes: Dict): Dict
  {
    match runner
    case DBMReportRunner =>
      map["dbm_id" := Or(Get(attributes, "dv360_id"), Get(attributes, "report_id"))]
    case DCMReportRunner =>
      map["cm_id" := Or(Get(attributes, "cm_id"), Get(attributes, "report_id")),
          "profile" := Get(attributes, "profile")]
    case SA360ReportRunner =>
      map["report_id" := Get(attributes, "report_id"), "timezone" := Get(attributes, "timezone")]
    case ADHRunner =>
      map["adh_customer" := Get(attributes, "adh_customer"),
          "adh_query" := Get(attributes, "adh_query"),
          "api_key" := Get(attributes, "api_key"),
          "days" := Get(attributes, "days", Int(60)),
          "dest_project" := Get(attributes, "dest_project"),
          "dest_dataset" := Get(attributes, "dest_dataset")]
    case GA360ReportRunner =>
      map["report_id" := Get(attributes, "report_id")]
  }

  /** `report_runner`: `envProject` is the GCP_PROJECT environment value (Null when unset). */
  function ReportRunner(attributes: Dict, envProject: Value,
                        parse: Value -> Option<ReportType>): (r: RunnerOutcome)
    ensures r.NoRunnerAttributes? <==> attributes == map[]
    ensures r.InvalidType? <==> attributes != map[] && parse(Get(attributes, "type")).None?
    ensures r.UnknownType? <==> (attributes != map[] && parse(Get(attributes, "type")).Some? &&
                                 parse(Get(attributes, "type")).value in {SA360, ADMIN})
    ensures r.Run? ==> Some(r.runner) == RunnerFor(parse(Get(attributes, "type")).value)
    ensures r.Run? ==> r.args.Keys == RunnerArgs(r.runner, attributes).Keys + {"email", "project"}
    // the base arguments: the e-mail, and the project falling back to the environment
    ensures r.Run? ==> r.args["email"] == Get(attributes, "email")
    ensures r.Run? ==> r.args["project"] == if "project" in attributes then attributes["project"] else envProject
  {
    if attributes == map[] then NoRunnerAttributes
    else
      match parse(Get(attributes, "type"))
      case None => InvalidType
      case Some(t) =>
        match RunnerFor(t)
        case None => UnknownType
        case Some(runner) => Run(runner, RunnerArgs(runner, attributes) + BaseArgs(attributes, envProject))
  }

  /** The id fallbacks and defaults of `report_runner`'s table. */
  lemma RunnerFallbacks(attributes: Dict, envProject: Value, parse: Value -> Option<ReportType>)
    requires attributes != map[] && parse(Get(attributes, "type")).Some?
    ensures var r := ReportRunner(attributes, envProject, parse);
      && (r.Run? && r.runner == DBMReportRunner ==>
            r.args["dbm_id"] == if Truthy(Get(attributes, "dv360_id")) then attributes["dv360_id"]
                                else Get(attributes, "report_id"))
      && (r.Run? && r.runner == DCMReportRunner ==>
            r.args["cm_id"] == if Truthy(Get(attributes, "cm_id")) then attributes["cm_id"]
                               else Get(attributes, "report_id"))
      && (r.Run? && r.runner == ADHRunner && "days" !in attributes ==> r.args["days"] == Int(60))
  {
    var r := ReportRunner(attributes, envProject, parse);
    if r.Run? {
      var own, base := RunnerArgs(r.runner, attributes), BaseArgs(attributes, envProject);
      assert r.args == own + base;
      assert base.Keys == {"email", "project"};
      match r.runner
      case DBMReportRunner =>
        assert r.args["dbm_id"] == own["dbm_id"] == Or(Get(attributes, "dv360_id"), Get(attributes, "report_id"));
      case DCMReportRunner =>
        assert r.args["cm_id"] == own["cm_id"] == Or(Get(attributes, "cm_id"), Get(attributes, "report_id"));
      case ADHRunner =>
        assert r.args["days"] == own["days"] == Get(attributes, "days", Int(60));
      case _ =>
    }
  }

  // ---------------------------------------------------------------- report_manager

  datatype Manager = GA360Manager | SA360Manager

  /** The bucket whose uploads a manager handles: `{project}-report2bq-...-manager`. */
  function ManagerBucket(project: Value, m: Manager): string
  {
    Format(project) + (if m == GA360Manager then "-report2bq-ga360-manager" else "-report2bq-sa360-manager")
  }

  function ManagerFor(bucket: string, project: Value): (r: Option<Manager>)
    ensures r.Some? <==> bucket == ManagerBucket(project, GA360Manager) ||
                         bucket == ManagerBucket(project, SA360Manager)
    ensures r.Some? ==> bucket == ManagerBucket(project, r.value)
  {
    if bucket == ManagerBucket(project, GA360Manager) then Some(GA360Manager)
    else if bucket == ManagerBucket(project, SA360Manager) then Some(SA360Manager)
    else None
  }

  /**
   * `*n, e = file_name.split('/')[-1].split('.')`, then the name is
   * `'.'.join(n).lower()` and the action is `e.lower()`.
   */
  function SplitFileName(fileName: string): (string, string)
  {
    SplitBase(Last(Split(fileName, '/')))
  }

  /** The name and action of the text after the last '/'. */
  function SplitBase(base: string): (string, string)
  {
    var pieces := Split(base, '.');
    (Lower(Join(pieces[..|pieces| - 1], '.')), Lower(Last(pieces)))
  }

  /** The name and action of a base name (the text after the last '/'). */
  lemma {:induction false} SplitBaseName(base: string)
    ensures var pieces := Split(base, '.');
      && '.' !in Last(pieces)
      && ('.' in base ==>
            var k := LastIndexOf(base, '.');
            0 <= k && Join(pieces[..|pieces| - 1], '.') == base[..k] && Last(pieces) == base[k + 1..])
      && ('.' !in base ==> Join(pieces[..|pieces| - 1], '.') == [] && Last(pieces) == base)
  {
    var pieces := Split(base, '.');
    SplitPiecesFree(base, '.');
    LastIndexOfSpec(base, '.');
    if '.' in base {
      var k := LastIndexOf(base, '.');
      SplitAtLast(base, '.');
      assert pieces[..|pieces| - 1] == Split(base[..k], '.');
      JoinSplit(base[..k], '.');
    } else {
      SplitNone(base, '.');
    }
  }

  /** Lower-casing keeps a '.' out. */
  lemma LowerKeepsDotOut(s: string)
    requires '.' !in s
    ensures '.' !in Lower(s)
  {
    var l := Lower(s);
    forall i | 0 <= i < |l| ensures l[i] != '.' {
      assert l[i] == LowerChar(s[i]);
    }
  }

  /**
   * The split only looks at the text after the last '/', which holds no '/'
   * itself.
   */
  lemma SplitFileNameMeaning(fileName: string)
    ensures var base := fileName[LastIndexOf(fileName, '/') + 1..];
      '/' !in base && SplitFileName(fileName) == SplitBase(base)
  {
    LastPiece(fileName, '/');
    LastIndexOfSpec(fileName, '/');
  }

  /**
   * The action of a base name is the text after its last '.' and holds no
   * '.'; the name is the text before it, empty when there is no '.'; both
   * are lower-cased.
   */
  lemma SplitBaseMeaning(base: string)
    ensures '.' !in SplitBase(base).1
    ensures '.' in base ==>
      var k := LastIndexOf(base, '.');
      0 <= k && SplitBase(base) == (Lower(base[..k]), Lower(base[k + 1..]))
    ensures '.' !in base ==> SplitBase(base) == ("", Lower(base))
  {
    SplitBaseName(base);
    LowerKeepsDotOut(Last(Split(base, '.')));
  }

  datatype ManagerEvent =
    | InvalidRequest                                        // unknown bucket: logged, nothing called
    | Processed(manager: Manager, args: Dict, renamedTo: string)  // managed, then renamed
    | ActionIgnored(manager: Manager, args: Dict)           // NotImplementedError: logged, no rename
    | Raised(manager: Manager, args: Dict, error: Error)    // any other exception escapes

  /** The arguments `report_manager` passes to `manage`. */
  function ManageArgs(fileName: string, project: Value): Dict
  {
    var (name, extension) := SplitFileName(fileName);
    map["report" := Str(name), "project" := project, "file" := Str(fileName),
        "gcs_stored" := Bool(true), "action" := Str(extension)]
  }

  /**
   * `report_manager`: `project` is the GCP_PROJECT environment value and
   * `manage` stands for `f().manage(**args)` of the chosen manager.
   */
  function ReportManagerEvent(bucket: string, fileName: string, project: Value,
                              manage: (Manager, Dict) -> Result<()>): (r: ManagerEvent)
    ensures r.InvalidRequest? <==> ManagerFor(bucket, project).None?
    ensures !r.InvalidRequest? ==> Some(r.manager) == ManagerFor(bucket, project) &&
                                   r.args == ManageArgs(fileName, project)
    ensures r.Processed? <==> !r.InvalidRequest? && manage(r.manager, r.args).Ok?
    ensures r.Processed? ==> r.renamedTo == fileName + ".processed"
    ensures r.ActionIgnored? <==>
      !r.InvalidRequest? && manage(r.manager, r.args).Err? &&
      manage(r.manager, r.args).error.NotImplementedError?
    ensures r.Raised? ==> manage(r.manager, r.args) == Err(r.error)
  {
    match ManagerFor(bucket, project)
    case None => InvalidRequest
    case Some(m) =>
      var args := ManageArgs(fileName, project);
      match manage(m, args)
      case Ok(_) => Processed(m, args, fileName + ".processed")
      case Err(NotImplementedError(_)) => ActionIgnored(m, args)
      case Err(e) => Raised(m, args, e)
  }
}
