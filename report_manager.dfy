/**
 * The action dispatch shared by the report managers (`ReportManager`): a
 * manager lists the actions it offers, implements some of them, and
 * `manage(**kwargs)` looks up `project` and then runs the named action.
 * The base class is not part of this model; its behaviour is the one the
 * GA360 manager's tests pin down.
 */
module ReportManager {
  import opened Values
  import opened Text

  /** A manager: its report type, the actions it offers and those it implements. */
  datatype Manager = Manager(reportType: ReportType, actions: set<string>, implemented: set<string>)

  /** The GA360 manager, as far as its tests show it: `list` is offered and implemented. */
  const GA360: Manager := Manager(GA360_RPT, {"list"}, {"list"})

  /** The text of an action as it appears in the error message (`f'{action}'`). */
  function ActionText(action: Value): string
  {
    Format(action)
  }

  /**
   * `_get_action`: an offered action with an implementation is returned;
   * an offered one without raises `NotImplementedError('Not implemented')`;
   * anything else raises `NotImplementedError('Action "<action>" ...')`.
   */
  function GetAction(m: Manager, action: Value): (r: Result<string>)
    ensures r.Ok? <==> action.Str? && action.s in m.actions && action.s in m.implemented
    ensures r.Ok? ==> r.value == action.s
    ensures r.Err? ==> r.error.NotImplementedError?
    ensures r.Err? && action.Str? && action.s in m.actions ==> r.error.message == "Not implemented"
    ensures r.Err? && !(action.Str? && action.s in m.actions) ==>
      StartsWith(r.error.message, "Action \"" + ActionText(action) + "\"")
  {
    if action.Str? && action.s in m.actions then
      if action.s in m.implemented then Ok(action.s) else Err(NotImplementedError("Not implemented"))
    else
      Err(NotImplementedError("Action \"" + ActionText(action) + "\" is not supported"))
  }

  /**
   * `manage(**kwargs)`: `project` is required (KeyError), the action comes
   * from `kwargs.get('action')`, and `run` stands for invoking the chosen
   * action method with the arguments.
   */
  function Manage(m: Manager, kwargs: Dict, run: (string, Dict) -> Result<()>): (r: Result<()>)
    ensures "project" !in kwargs ==> r == Err(KeyError("project"))
    ensures "project" in kwargs ==> GetAction(m, Get(kwargs, "action")).Err? ==>
      r == Err(GetAction(m, Get(kwargs, "action")).error)
    ensures "project" in kwargs ==> GetAction(m, Get(kwargs, "action")).Ok? ==>
      r == run(GetAction(m, Get(kwargs, "action")).value, kwargs)
  {
    var _ :- Index(kwargs, "project");
    var action :- GetAction(m, Get(kwargs, "action"));
    run(action, kwargs)
  }

  /** Without `project`, `manage` raises KeyError whatever the action. */
  lemma MissingProject(m: Manager, run: (string, Dict) -> Result<()>)
    ensures Manage(m, map["action" := Str("list")], run).Err?
    ensures Manage(m, map["action" := Str("list")], run).error.KeyError?
  {
  }

  /** `list` with a project runs the listing, and succeeds when it does. */
  lemma ValidList(run: (string, Dict) -> Result<()>)
    requires run("list", map["action" := Str("list"), "project" := Str("foo"),
                             "file" := Str("foo.csv"), "gcs_stored" := Bool(true)]).Ok?
    ensures Manage(GA360, map["action" := Str("list"), "project" := Str("foo"),
                              "file" := Str("foo.csv"), "gcs_stored" := Bool(true)], run).Ok?
  {
  }

  /** An offered action without an implementation raises 'Not implemented'. */
  lemma UnimplementedAction(run: (string, Dict) -> Result<()>)
    ensures var m := GA360.(actions := {"validate"});
      Manage(m, map["action" := Str("validate"), "project" := Str("foo"),
                    "file" := Str("foo.csv"), "gcs_stored" := Bool(true)], run)
        == Err(NotImplementedError("Not implemented"))
  {
  }

  /** An action that is not offered raises an error naming it. */
  lemma UnknownAction(run: (string, Dict) -> Result<()>)
    ensures var r := Manage(GA360, map["action" := Str("wibble"), "project" := Str("foo"),
                                       "file" := Str("foo.csv"), "gcs_stored" := Bool(true)], run);
      r.Err? && r.error.NotImplementedError? && StartsWith(r.error.message, "Action \"wibble\"")
  {
  }
}
