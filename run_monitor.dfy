/**
 * The run monitor (`RunMonitor`): a periodic job that walks the documents
 * of the running DV360, CM and SA360 reports, asks each product whether the
 * report is done, and then triggers the fetch by publishing a message,
 * removes the runner from the running set, or leaves it alone. A failure in
 * one document is mailed to the administrator and the walk goes on.
 *
 * Firestore, the scheduler, the DV360/CM report-state calls and Pub/Sub are
 * not part of this model: their answers are the functions of `Services`,
 * and what the monitor does to them is the state of the `RunMonitor` class.
 */
module RunMonitor {
  import opened Values
  import opened Text

  /** One running document: its id and what `document.get().to_dict()` returned. */
  datatype Document = Document(id: string, config: Value)

  /** A Pub/Sub message: the topic, the data `b'RUN'` and the attributes as keyword arguments. */
  datatype Message = Message(topic: Value, data: string, attributes: Dict)

  /** An error e-mail: recipients, copies, subject and the account it is sent with. */
  datatype Email = Email(to: seq<Value>, cc: seq<Value>, subject: string, sender: Value)

  /**
   * The answers of the services the monitor consults: the `Type` enumeration
   * (None for a value it rejects), the scheduler's `get` of the job
   * (`(success, job_config)`), the DV360 and CM report states, the
   * `ADMINISTRATOR_EMAIL` environment value and the Firestore admin document.
   */
  datatype Services = Services(
    parse: Value -> Option<ReportType>,
    schedule: (ReportType, Dict) -> Result<(bool, Dict)>,
    dv360State: (Value, Value) -> Result<Value>,
    cmState: (Value, Value, Value, Value) -> Result<Value>,
    adminEnv: Value,
    adminDoc: Dict)

  /** What checking one document does: at most one message published and at most one runner removed. */
  datatype Effect = Effect(publish: Option<Message>, remove: Option<Value>)

  const Nothing: Effect := Effect(None, None)

  /** The topic that triggers the fetcher, `projects/{project}/topics/report2bq-fetcher`. */
  function FetcherTopic(project: string): (r: Value)
    ensures r.Str? && StartsWith(r.s, "projects/" + project + "/topics/")
    ensures r.s[|"projects/" + project + "/topics/"|..] == "report2bq-fetcher"
  {
    Str("projects/" + project + "/topics/report2bq-fetcher")
  }

  /** `job_config['pubsubTarget']['attributes']`. */
  function JobAttributes(jobConfig: Dict): (r: Result<Dict>)
    ensures r.Ok? <==> "pubsubTarget" in jobConfig && jobConfig["pubsubTarget"].Obj? &&
                       "attributes" in jobConfig["pubsubTarget"].fields &&
                       jobConfig["pubsubTarget"].fields["attributes"].Obj?
    ensures r.Ok? ==> r.value == jobConfig["pubsubTarget"].fields["attributes"].fields
  {
    var target :- Index(jobConfig, "pubsubTarget");
    var attributes :- Field(target, "attributes");
    AsDict(attributes)
  }

  /**
   * `_check_dv360_report`: 'DONE' publishes `b'RUN'` with the job's
   * attributes to the job's `topicName` and removes the runner; 'FAILED'
   * only removes it; any other state changes nothing.
   */
  function CheckDV360(jobConfig: Dict, runConfig: Dict, env: Services): (r: Result<Effect>)
    ensures r.Ok? ==> JobAttributes(jobConfig).Ok? && "report_id" in runConfig
    ensures r.Ok? ==>
      var attributes := JobAttributes(jobConfig).value;
      && "email" in attributes
      && var status := env.dv360State(attributes["email"], runConfig["report_id"]);
      && status.Ok?
      && (status.value == Str("DONE") ==>
            "topicName" in jobConfig["pubsubTarget"].fields &&
            r.value == Effect(Some(Message(jobConfig["pubsubTarget"].fields["topicName"], "RUN", attributes)),
                              Some(runConfig["report_id"])))
      && (status.value == Str("FAILED") ==> r.value == Effect(None, Some(runConfig["report_id"])))
      && (status.value != Str("DONE") && status.value != Str("FAILED") ==> r.value == Nothing)
    ensures r.Ok? <==>
      && JobAttributes(jobConfig).Ok? && "email" in JobAttributes(jobConfig).value && "report_id" in runConfig
      && var status := env.dv360State(JobAttributes(jobConfig).value["email"], runConfig["report_id"]);
      && status.Ok?
      && (status.value == Str("DONE") ==> "topicName" in jobConfig["pubsubTarget"].fields)
  {
    var attributes :- JobAttributes(jobConfig);
    var email :- Index(attributes, "email");
    var reportId :- Index(runConfig, "report_id");
    var status :- env.dv360State(email, reportId);
    if status == Str("DONE") then
      var topic :- Field(jobConfig["pubsubTarget"], "topicName");
      Ok(Effect(Some(Message(topic, "RUN", attributes)), Some(reportId)))
    else if status == Str("FAILED") then Ok(Effect(None, Some(reportId)))
    else Ok(Nothing)
  }

  /**
   * The CM status: the response's `status` when it has one, else 'UNKNOWN'.
   * A truthy response that is not a dictionary either has no `in` or, when
   * the test finds 'status', cannot be indexed by it: both raise TypeError.
   */
  function CmStatus(response: Value): (r: Result<Value>)
    ensures !Truthy(response) ==> r == Ok(Str("UNKNOWN"))
    ensures Truthy(response) && response.Obj? ==>
      r == Ok(if "status" in response.fields then response.fields["status"] else Str("UNKNOWN"))
    ensures Truthy(response) && !response.Obj? ==>
      (r.Ok? <==> Contains(response, "status") == Ok(false)) && (r.Ok? ==> r.value == Str("UNKNOWN"))
    ensures r.Err? ==> r.error == TypeError
  {
    if !Truthy(response) then Ok(Str("UNKNOWN"))
    else
      var has :- Contains(response, "status");
      if has then Field(response, "status") else Ok(Str("UNKNOWN"))
  }

  /**
   * `_check_cm_report`: 'REPORT_AVAILABLE' publishes the job's attributes to
   * the fetcher topic and removes the runner; 'FAILED' or 'CANCELLED' only
   * removes it; any other status, 'UNKNOWN' included, changes nothing.
   */
  function CheckCM(project: string, jobConfig: Dict, runConfig: Dict, env: Services): (r: Result<Effect>)
    ensures r.Ok? ==> JobAttributes(jobConfig).Ok? && "report_id" in runConfig
    ensures r.Ok? ==>
      var attributes := JobAttributes(jobConfig).value;
      var reportId := runConfig["report_id"];
      && "email" in attributes && "profile" in attributes && "file_id" in runConfig
      && var response := env.cmState(attributes["email"], attributes["profile"], reportId, runConfig["file_id"]);
      && response.Ok?
      && CmStatus(response.value).Ok?
      && var status := CmStatus(response.value).value;
      && (status == Str("REPORT_AVAILABLE") ==>
            r.value == Effect(Some(Message(FetcherTopic(project), "RUN", attributes)), Some(reportId)))
      && (status == Str("FAILED") || status == Str("CANCELLED") ==> r.value == Effect(None, Some(reportId)))
      && (status != Str("REPORT_AVAILABLE") && status != Str("FAILED") && status != Str("CANCELLED") ==>
            r.value == Nothing)
    ensures r.Ok? <==>
      && JobAttributes(jobConfig).Ok?
      && var attributes := JobAttributes(jobConfig).value;
      && "email" in attributes && "profile" in attributes && "report_id" in runConfig && "file_id" in runConfig
      && var response := env.cmState(attributes["email"], attributes["profile"], runConfig["report_id"],
                                     runConfig["file_id"]);
      && response.Ok? && CmStatus(response.value).Ok?
  {
    var attributes :- JobAttributes(jobConfig);
    var email :- Index(attributes, "email");
    var profile :- Index(attributes, "profile");
    var reportId :- Index(runConfig, "report_id");
    var fileId :- Index(runConfig, "file_id");
    var response :- env.cmState(email, profile, reportId, fileId);
    var status :- CmStatus(response);
    if status == Str("REPORT_AVAILABLE") then
      Ok(Effect(Some(Message(FetcherTopic(project), "RUN", attributes)), Some(reportId)))
    else if status == Str("FAILED") || status == Str("CANCELLED") then Ok(Effect(None, Some(reportId)))
    else Ok(Nothing)
  }

  /**
   * The configuration `_check_sa360_report` publishes: the run configuration
   * overridden by the job's attributes, or the run configuration alone when
   * the job has no `pubsubTarget`.
   */
  function SA360Config(jobConfig: Dict, runConfig: Dict): (r: Result<Dict>)
    ensures "pubsubTarget" !in jobConfig ==> r == Ok(runConfig)
    ensures "pubsubTarget" in jobConfig && JobAttributes(jobConfig).Ok? ==>
      r == Ok(runConfig + JobAttributes(jobConfig).value)
    ensures "pubsubTarget" in jobConfig && JobAttributes(jobConfig).Err? ==>
      r == Err(JobAttributes(jobConfig).error)
  {
    if "pubsubTarget" in jobConfig then
      var attributes :- JobAttributes(jobConfig);
      Ok(runConfig + attributes)
    else Ok(runConfig)
  }

  /** Every key of the run configuration is published, with the job's value where it has one. */
  lemma SA360ConfigMerges(jobConfig: Dict, runConfig: Dict)
    requires SA360Config(jobConfig, runConfig).Ok?
    ensures var config := SA360Config(jobConfig, runConfig).value;
      && runConfig.Keys <= config.Keys
      && (forall k :: k in config && k !in runConfig ==>
            JobAttributes(jobConfig).Ok? && k in JobAttributes(jobConfig).value)
      && (forall k :: k in runConfig ==>
            config[k] == if JobAttributes(jobConfig).Ok? && k in JobAttributes(jobConfig).value
                         then JobAttributes(jobConfig).value[k] else runConfig[k])
  {
  }

  /** `_check_sa360_report`: always publishes the merged configuration to the fetcher topic, never removes. */
  function CheckSA360(project: string, jobConfig: Dict, runConfig: Dict): (r: Result<Effect>)
    ensures r.Ok? <==> SA360Config(jobConfig, runConfig).Ok?
    ensures r.Ok? ==>
      r.value == Effect(Some(Message(FetcherTopic(project), "RUN", SA360Config(jobConfig, runConfig).value)), None)
  {
    var config :- SA360Config(jobConfig, runConfig);
    Ok(Effect(Some(Message(FetcherTopic(project), "RUN", config)), None))
  }

  /** The checker `report_checker.get(T, self._invalid_type)` runs; the others raise NotImplementedError. */
  function Check(t: ReportType, project: string, jobConfig: Dict, runConfig: Dict, env: Services): (r: Result<Effect>)
    ensures t !in {DV360, CM, SA360, SA360_RPT} ==>
      r == Err(NotImplementedError("Invalid job type requested"))
    ensures t == DV360 ==> r == CheckDV360(jobConfig, runConfig, env)
    ensures t == CM ==> r == CheckCM(project, jobConfig, runConfig, env)
    ensures t == SA360 || t == SA360_RPT ==> r == CheckSA360(project, jobConfig, runConfig)
  {
    match t
    case DV360 => CheckDV360(jobConfig, runConfig, env)
    case CM => CheckCM(project, jobConfig, runConfig, env)
    case SA360 => CheckSA360(project, jobConfig, runConfig)
    case SA360_RPT => CheckSA360(project, jobConfig, runConfig)
    case _ => Err(NotImplementedError("Invalid job type requested"))
  }

  /**
   * The body of the `try` for one document: read the run configuration,
   * parse its type, fetch the schedule; on success run the type's checker,
   * otherwise remove the runner by the document's id.
   */
  function DocumentEffect(project: string, d: Document, env: Services): (r: Result<Effect>)
    ensures !d.config.Obj? ==> r.Err?
    ensures d.config.Obj? && env.parse(Get(d.config.fields, "type")).None? ==> r == Err(ValueError)
    ensures d.config.Obj? && env.parse(Get(d.config.fields, "type")).Some? ==>
      var t := env.parse(Get(d.config.fields, "type")).value;
      var fetched := env.schedule(t, d.config.fields);
      && (fetched.Err? ==> r == Err(fetched.error))
      && (fetched.Ok? && !fetched.value.0 ==> r == Ok(Effect(None, Some(Str(d.id)))))
      && (fetched.Ok? && fetched.value.0 ==> r == Check(t, project, fetched.value.1, d.config.fields, env))
  {
    var runConfig :- if d.config.Obj? then Ok(d.config.fields) else Err(AttributeError("get"));
    var t :- match env.parse(Get(runConfig, "type"))
             case Some(t) => Ok(t)
             case None => Err(ValueError);
    var fetched :- env.schedule(t, runConfig);
    if fetched.0 then Check(t, project, fetched.1, runConfig, env)
    else Ok(Effect(None, Some(Str(d.id))))
  }

  /** A document whose schedule cannot be found is removed whatever its type, and nothing is published. */
  lemma UnscheduledRemoved(project: string, d: Document, env: Services)
    requires d.config.Obj? && env.parse(Get(d.config.fields, "type")).Some?
    requires var t := env.parse(Get(d.config.fields, "type")).value;
      env.schedule(t, d.config.fields).Ok? && !env.schedule(t, d.config.fields).value.0
    ensures DocumentEffect(project, d, env) == Ok(Effect(None, Some(Str(d.id))))
    ensures DocumentEffect(project, d, env).value.publish.None?
  {
  }

  /** An installed job of a type without a checker raises, so the document has no effect. */
  lemma InvalidTypeRaises(project: string, d: Document, env: Services)
    requires d.config.Obj? && env.parse(Get(d.config.fields, "type")).Some?
    requires env.parse(Get(d.config.fields, "type")).value in {ADH, GA360_RPT, ADMIN}
    requires var t := env.parse(Get(d.config.fields, "type")).value;
      env.schedule(t, d.config.fields).Ok? && env.schedule(t, d.config.fields).value.0
    ensures DocumentEffect(project, d, env) == Err(NotImplementedError("Invalid job type requested"))
  {
  }

  /** The administrator the error mail is copied to, as written: `self.FIRESTORE` does not exist. */
  function AdministratorAsWritten(env: Services): (r: Result<Value>)
    ensures Truthy(env.adminEnv) ==> r == Ok(env.adminEnv)
    ensures !Truthy(env.adminEnv) ==> r == Err(AttributeError("FIRESTORE"))
  {
    if Truthy(env.adminEnv) then Ok(env.adminEnv) else Err(AttributeError("FIRESTORE"))
  }

  /** The administrator: `ADMINISTRATOR_EMAIL`, else the `email` of the Firestore admin document. */
  function Administrator(env: Services): (r: Value)
    ensures Truthy(env.adminEnv) ==> r == env.adminEnv
    ensures !Truthy(env.adminEnv) ==> r == Get(env.adminDoc, "email")
  {
    Or(env.adminEnv, Get(env.adminDoc, "email"))
  }

  /**
   * `_email_error`'s recipient rule: to `[email]` when an address is given,
   * copied to the administrator when there is one, and sent only when
   * there is somebody to send it to, with the given address's account or
   * else the administrator's.
   */
  function ErrorEmail(email: Value, administrator: Value): (r: Option<Email>)
    ensures r.Some? <==> Truthy(email) || Truthy(administrator)
    ensures r.Some? ==> r.value.to == (if Truthy(email) then [email] else [])
    ensures r.Some? ==> r.value.cc == (if Truthy(administrator) then [administrator] else [])
    ensures r.Some? ==> r.value.subject == "Error in run-monitor" && Truthy(r.value.sender)
    ensures r.Some? && Truthy(email) ==> r.value.sender == email
    ensures r.Some? && !Truthy(email) ==> r.value.sender == administrator
  {
    var to := if Truthy(email) then [email] else [];
    var cc := if Truthy(administrator) then [administrator] else [];
    if to != [] || cc != [] then Some(Email(to, cc, "Error in run-monitor", Or(email, administrator)))
    else None
  }

  /** What the monitor has done so far: the runners still running, the messages published and the mails sent. */
  datatype Monitor = Monitor(running: set<Value>, published: seq<Message>, sent: seq<Email>)

  function Apply(s: Monitor, e: Effect): (r: Monitor)
    ensures r.sent == s.sent
    ensures r.published == s.published + (if e.publish.Some? then [e.publish.value] else [])
    ensures r.running == s.running - (if e.remove.Some? then {e.remove.value} else {})
  {
    var s1 := if e.publish.Some? then s.(published := s.published + [e.publish.value]) else s;
    if e.remove.Some? then s1.(running := s1.running - {e.remove.value}) else s1
  }

  /** The mail `process` sends for a failed document (it passes no address of its own). */
  function FailureMail(env: Services): Option<Email>
  {
    ErrorEmail(Null, Administrator(env))
  }

  /** One document, with its failure caught and mailed. */
  function Handle(s: Monitor, project: string, d: Document, env: Services): Monitor
  {
    match DocumentEffect(project, d, env)
    case Ok(e) => Apply(s, e)
    case Err(_) =>
      var mail := FailureMail(env);
      if mail.Some? then s.(sent := s.sent + [mail.value]) else s
  }

  /** `process` over the documents, in order. */
  function ProcessAll(s: Monitor, project: string, docs: seq<Document>, env: Services): Monitor
    decreases |docs|
  {
    if docs == [] then s
    else Handle(ProcessAll(s, project, docs[..|docs| - 1], env), project, Last(docs), env)
  }

  /** The messages one document triggers on its own. */
  function PublishedBy(project: string, d: Document, env: Services): seq<Message>
  {
    var e := DocumentEffect(project, d, env);
    if e.Ok? && e.value.publish.Some? then [e.value.publish.value] else []
  }

  function AllPublished(project: string, docs: seq<Document>, env: Services): seq<Message>
    decreases |docs|
  {
    if docs == [] then [] else AllPublished(project, docs[..|docs| - 1], env) + PublishedBy(project, Last(docs), env)
  }

  /** The runner one document removes on its own, if any. */
  function RemovedBy(project: string, d: Document, env: Services): set<Value>
  {
    var e := DocumentEffect(project, d, env);
    if e.Ok? && e.value.remove.Some? then {e.value.remove.value} else {}
  }

  function AllRemoved(project: string, docs: seq<Document>, env: Services): set<Value>
    decreases |docs|
  {
    if docs == [] then {} else AllRemoved(project, docs[..|docs| - 1], env) + RemovedBy(project, Last(docs), env)
  }

  /** How many documents raise. */
  function Failures(project: string, docs: seq<Document>, env: Services): (n: nat)
    ensures n <= |docs|
    decreases |docs|
  {
    if docs == [] then 0
    else Failures(project, docs[..|docs| - 1], env) + (if DocumentEffect(project, Last(docs), env).Err? then 1 else 0)
  }

  /**
   * A failing document does not stop the others: what is published is, in
   * order, what each document publishes on its own.
   */
  lemma {:induction false} ProcessAllPublishes(s: Monitor, project: string, docs: seq<Document>, env: Services)
    ensures ProcessAll(s, project, docs, env).published == s.published + AllPublished(project, docs, env)
    decreases |docs|
  {
    if docs != [] {
      ProcessAllPublishes(s, project, docs[..|docs| - 1], env);
    }
  }

  /** The runners left are those no document removed on its own. */
  lemma {:induction false} ProcessAllRemoves(s: Monitor, project: string, docs: seq<Document>, env: Services)
    ensures ProcessAll(s, project, docs, env).running == s.running - AllRemoved(project, docs, env)
    decreases |docs|
  {
    if docs != [] {
      ProcessAllRemoves(s, project, docs[..|docs| - 1], env);
    }
  }

  /** One mail per failing document when there is an administrator, none otherwise. */
  lemma {:induction false} ProcessAllMails(s: Monitor, project: string, docs: seq<Document>, env: Services)
    ensures |ProcessAll(s, project, docs, env).sent| ==
      |s.sent| + (if Truthy(Administrator(env)) then Failures(project, docs, env) else 0)
    ensures forall i :: |s.sent| <= i < |ProcessAll(s, project, docs, env).sent| ==>
      ProcessAll(s, project, docs, env).sent[i] == FailureMail(env).value
    decreases |docs|
  {
    if docs != [] {
      ProcessAllMails(s, project, docs[..|docs| - 1], env);
    }
  }

  /** `process` as written: the failure mail looks up the administrator through `self.FIRESTORE`. */
  function HandleAsWritten(s: Monitor, project: string, d: Document, env: Services): (Monitor, Option<Error>)
  {
    match DocumentEffect(project, d, env)
    case Ok(e) => (Apply(s, e), None)
    case Err(_) =>
      match AdministratorAsWritten(env)
      case Err(x) => (s, Some(x))
      case Ok(administrator) =>
        var mail := ErrorEmail(Null, administrator);
        (if mail.Some? then s.(sent := s.sent + [mail.value]) else s, None)
  }

  /**
   * `process` as written: an exception raised in the handler escapes the
   * loop, so the documents after it are never looked at.
   */
  function ProcessAllAsWritten(s: Monitor, project: string, docs: seq<Document>, env: Services): (Monitor, Option<Error>)
    decreases |docs|
  {
    if docs == [] then (s, None)
    else
      var (p, escaped) := ProcessAllAsWritten(s, project, docs[..|docs| - 1], env);
      if escaped.Some? then (p, escaped) else HandleAsWritten(p, project, Last(docs), env)
  }

  /** With `ADMINISTRATOR_EMAIL` set the code as written and the corrected one agree. */
  lemma {:induction false} AsWrittenAgrees(s: Monitor, project: string, docs: seq<Document>, env: Services)
    requires Truthy(env.adminEnv)
    ensures ProcessAllAsWritten(s, project, docs, env) == (ProcessAll(s, project, docs, env), None)
    decreases |docs|
  {
    if docs != [] {
      AsWrittenAgrees(s, project, docs[..|docs| - 1], env);
    }
  }

  /**
   * The failing input: without `ADMINISTRATOR_EMAIL`, a document of a type
   * without a checker makes `process` raise AttributeError, and the SA360
   * document after it is never triggered; the corrected monitor triggers it.
   */
  lemma AdministratorLookupAborts()
    ensures
      var env := Services((v: Value) => if v == Str("ADH") then Some(ADH) else Some(SA360),
                          (t: ReportType, c: Dict) => Ok((true, map[])),
                          (e: Value, id: Value) => Ok(Str("DONE")),
                          (e: Value, p: Value, id: Value, f: Value) => Ok(Null),
                          Null, map[]);
      var docs := [Document("a", Obj(map["type" := Str("ADH")])), Document("b", Obj(map["type" := Str("SA360")]))];
      var s0 := Monitor({}, [], []);
      && ProcessAllAsWritten(s0, "p", docs, env) == (s0, Some(AttributeError("FIRESTORE")))
      && ProcessAll(s0, "p", docs, env).published ==
           [Message(FetcherTopic("p"), "RUN", map["type" := Str("SA360")])]
  {
    var env := Services((v: Value) => if v == Str("ADH") then Some(ADH) else Some(SA360),
                        (t: ReportType, c: Dict) => Ok((true, map[])),
                        (e: Value, id: Value) => Ok(Str("DONE")),
                        (e: Value, p: Value, id: Value, f: Value) => Ok(Null),
                        Null, map[]);
    var a := Document("a", Obj(map["type" := Str("ADH")]));
    var b := Document("b", Obj(map["type" := Str("SA360")]));
    var docs := [a, b];
    var s0 := Monitor({}, [], []);
    assert DocumentEffect("p", a, env) == Err(NotImplementedError("Invalid job type requested"));
    assert DocumentEffect("p", b, env) ==
      Ok(Effect(Some(Message(FetcherTopic("p"), "RUN", map["type" := Str("SA360")])), None));
    assert docs[..1] == [a] && [a][..0] == [];
    assert ProcessAllAsWritten(s0, "p", [a], env) == (s0, Some(AttributeError("FIRESTORE")));
    assert FailureMail(env) == None;
    assert ProcessAll(s0, "p", [a], env) == s0;
  }

  /**
   * The monitor's view of the outside world: the runners Firestore still
   * lists as running, the messages published and the error mails sent.
   */
  class RunMonitor {
    var running: set<Value>
    var published: seq<Message>
    var sent: seq<Email>

    constructor(running: set<Value>)
      ensures this.running == running && published == [] && sent == []
    {
      this.running := running;
      published := [];
      sent := [];
    }

    /**
     * `process`: `project` is the `GCP_PROJECT` environment value (KeyError
     * when unset); every document is checked in turn and a failure in one
     * is mailed and does not stop the next.
     */
    method Process(project: Option<string>, documents: seq<Document>, env: Services) returns (r: Result<()>)
      modifies this
      ensures project.None? ==> r == Err(KeyError("GCP_PROJECT")) && unchanged(this)
      ensures project.Some? ==> (r == Ok(()) &&
        Monitor(running, published, sent) ==
          ProcessAll(Monitor(old(running), old(published), old(sent)), project.value, documents, env))
    {
      if project.None? {
        return Err(KeyError("GCP_PROJECT"));
      }
      ghost var s0 := Monitor(running, published, sent);
      var i := 0;
      while i < |documents|
        invariant 0 <= i <= |documents|
        invariant Monitor(running, published, sent) == ProcessAll(s0, project.value, documents[..i], env)
      {
        assert documents[..i + 1][..i] == documents[..i];
        var d := documents[i];
        var effect := DocumentEffect(project.value, d, env);
        if effect.Ok? {
          if effect.value.publish.Some? {
            published := published + [effect.value.publish.value];
          }
          if effect.value.remove.Some? {
            running := running - {effect.value.remove.value};
          }
        } else {
          var mail := ErrorEmail(Null, Administrator(env));
          if mail.Some? {
            sent := sent + [mail.value];
          }
        }
        i := i + 1;
      }
      assert documents[..i] == documents;
      r := Ok(());
    }
  }
}
