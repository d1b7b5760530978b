/** `CustomObjectPermissions.perms_map`: the permission an HTTP method needs
    on an object, with Django's "<app_label>.<action>_<model_name>" codenames. */
module Permissions {
  import opened Outcomes

  /** The permission templates of the table, by their action word. */
  datatype Template = View | Add | Change | Delete

  /** The fixed text between `%(app_label)s` and `%(model_name)s`. */
  function Infix(t: Template): string {
    match t
    case View => ".view_"
    case Add => ".add_"
    case Change => ".change_"
    case Delete => ".delete_"
  }

  /** The method → template table; `None` for a method the table lacks. */
  function PermsMap(httpMethod: string): (r: Option<seq<Template>>)
    ensures r.Some? <==> httpMethod in ["GET", "OPTIONS", "HEAD", "POST", "PUT", "PATCH", "DELETE"]
    ensures r.Some? ==> |r.value| == 1
  {
    match httpMethod
    case "GET" => Some([View])
    case "OPTIONS" => Some([View])
    case "HEAD" => Some([View])
    case "POST" => Some([Add])
    case "PUT" => Some([Change])
    case "PATCH" => Some([Change])
    case "DELETE" => Some([Delete])
    case _ => None
  }

  /** `'%(app_label)s.<action>_%(model_name)s' % kwargs` */
  function Render(t: Template, appLabel: string, modelName: string): string {
    appLabel + Infix(t) + modelName
  }

  /** The codenames a request with this method needs on a model. */
  function RequiredPermissions(httpMethod: string, appLabel: string, modelName: string): (r: Option<seq<string>>)
    ensures r.Some? <==> PermsMap(httpMethod).Some?
    ensures r.Some? ==> |r.value| == 1 && r.value[0] == Render(PermsMap(httpMethod).value[0], appLabel, modelName)
  {
    match PermsMap(httpMethod)
    case None => None
    case Some(ts) => Some(RenderAll(ts, appLabel, modelName))
  }

  function RenderAll(ts: seq<Template>, appLabel: string, modelName: string): (codes: seq<string>)
    ensures |codes| == |ts|
    ensures forall i :: 0 <= i < |ts| ==> codes[i] == Render(ts[i], appLabel, modelName)
  {
    if ts == [] then [] else [Render(ts[0], appLabel, modelName)] + RenderAll(ts[1..], appLabel, modelName)
  }

  /** Reading methods need the view permission, POST the add permission, PUT and
      PATCH the change permission, DELETE the delete permission. */
  lemma PermissionPerMethod(appLabel: string, modelName: string)
    ensures RequiredPermissions("GET", appLabel, modelName) == Some([appLabel + ".view_" + modelName])
    ensures RequiredPermissions("OPTIONS", appLabel, modelName) == Some([appLabel + ".view_" + modelName])
    ensures RequiredPermissions("HEAD", appLabel, modelName) == Some([appLabel + ".view_" + modelName])
    ensures RequiredPermissions("POST", appLabel, modelName) == Some([appLabel + ".add_" + modelName])
    ensures RequiredPermissions("PUT", appLabel, modelName) == Some([appLabel + ".change_" + modelName])
    ensures RequiredPermissions("PATCH", appLabel, modelName) == Some([appLabel + ".change_" + modelName])
    ensures RequiredPermissions("DELETE", appLabel, modelName) == Some([appLabel + ".delete_" + modelName])
  {
    assert PermsMap("GET") == Some([View]) && PermsMap("POST") == Some([Add]);
    assert PermsMap("PUT") == Some([Change]) && PermsMap("DELETE") == Some([Delete]);
    assert RenderAll([View], appLabel, modelName) == [appLabel + ".view_" + modelName];
    assert RenderAll([Add], appLabel, modelName) == [appLabel + ".add_" + modelName];
    assert RenderAll([Change], appLabel, modelName) == [appLabel + ".change_" + modelName];
    assert RenderAll([Delete], appLabel, modelName) == [appLabel + ".delete_" + modelName];
  }

  /** Different actions give different codenames for the same model. */
  lemma {:induction false} DistinctActions(t: Template, u: Template, appLabel: string, modelName: string)
    requires t != u
    ensures Render(t, appLabel, modelName) != Render(u, appLabel, modelName)
  {
    var a, b := Render(t, appLabel, modelName), Render(u, appLabel, modelName);
    var k := |appLabel| + 1;
    assert a[k] == Infix(t)[1] && b[k] == Infix(u)[1];
  }
}
