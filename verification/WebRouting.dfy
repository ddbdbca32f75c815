/**
 The group of tunnels behind the web console (webui/controller/i2p_tunnel_group.go): the new-tunnel form that
 grows it and the loops that find a tunnel by its ID. Writing and loading a configuration file is an oracle:
 None, or the name and type that loading returned.
 */
module WebRouting {
  import opened Wrappers
  import opened WebPaths
  import opened WebRedirect
  import Prometheus

  // ---------- the group ----------

  datatype Labels = Labels(name: string, id: string, kind: string)

  /** A loaded tunnel, with the labels under which its counters are reported. */
  datatype Tunnel = Tunnel(name: string, kind: string, labels: Option<Labels>)

  datatype Group = Group(tunnels: seq<Tunnel>, registry: Option<map<string, Labels>>)

  datatype Form = Form(name: string, kind: string)

  datatype FormError = NameRequired | TypeRequired | NameTaken

  /** SeeOther carries the URL that is given to http.Redirect. */
  datatype Reply = Refused(e: FormError) | NotCreated | SeeOther(url: string)

  /** Index of the first tunnel with this ID, or -1. */
  function Find(tunnels: seq<Tunnel>, id: string): (i: int)
    ensures -1 <= i < |tunnels|
    ensures i >= 0 ==> Clean(tunnels[i].name) == id
    ensures forall k :: 0 <= k < (if i < 0 then |tunnels| else i) ==> Clean(tunnels[k].name) != id
  {
    if tunnels == [] then -1
    else if Clean(tunnels[0].name) == id then 0
    else
      var i := Find(tunnels[1..], id);
      if i < 0 then -1 else i + 1
  }

  ghost function FormCheck(f: Form, tunnels: seq<Tunnel>): Option<FormError> {
    if f.name == "" then Some(NameRequired)
    else if f.kind == "" then Some(TypeRequired)
    else if exists k :: 0 <= k < |tunnels| && Clean(tunnels[k].name) == Clean(f.name) then Some(NameTaken)
    else None
  }

  /** Registry.Register: an ID that is registered already keeps its labels. */
  function Registered(reg: map<string, Labels>, l: Labels): (map<string, Labels>, Labels) {
    if l.id in reg then (reg, reg[l.id]) else (reg[l.id := l], l)
  }

  function Added(g: Group, name: string, kind: string): Group {
    if g.registry.None? then Group(g.tunnels + [Tunnel(name, kind, None)], None)
    else
      var (reg, l) := Registered(g.registry.value, Labels(name, Clean(name), kind));
      Group(g.tunnels + [Tunnel(name, kind, Some(l))], Some(reg))
  }

  ghost function Posted(g: Group, f: Form, loaded: Option<(string, string)>): (Group, Reply) {
    var e := FormCheck(f, g.tunnels);
    if e.Some? then (g, Refused(e.value))
    else if loaded.None? then (g, NotCreated)
    else (Added(g, loaded.value.0, loaded.value.1), SeeOther(ActionPath(Clean(loaded.value.0), "control")))
  }

  /** What the client receives: the status and the Location header. */
  datatype Answer = Answer(status: int, location: Option<string>)

  function AnswerTo(reply: Reply, location: Option<string>): Answer {
    if reply.SeeOther? && reply.url != "" && reply.url[0] == '/' then Answer(303, Some(Location(reply.url)))
    else Answer(400, location)
  }

  /** An http.ResponseWriter: the first write fixes the status and the headers. */
  class ResponseWriter {
    var location: Option<string>
    var sent: Option<Answer>

    constructor ()
      ensures location == None && sent == None
    {
      location, sent := None, None;
    }

    method WriteHeader(status: int)
      modifies this`sent
      ensures sent == if old(sent).Some? then old(sent) else Some(Answer(status, location))
    {
      if sent == None {
        sent := Some(Answer(status, location));
      }
    }

    /** Any part of a body. */
    method Write()
      modifies this`sent
      ensures sent == if old(sent).Some? then old(sent) else Some(Answer(200, location))
    {
      WriteHeader(200);
    }

    /** http.Redirect with 303 See Other. */
    method Redirect(url: string)
      requires url != "" && url[0] == '/'
      modifies this
      ensures sent == if old(sent).Some? then old(sent) else Some(Answer(303, Some(Location(url))))
    {
      location := Some(Location(url));
      WriteHeader(303);
    }
  }

  class ControllerGroup {
    var tunnels: seq<Tunnel>
    var registry: Option<map<string, Labels>>

    constructor (withMetrics: bool)
      ensures View() == Group([], if withMetrics then Some(map[]) else None)
    {
      tunnels := [];
      registry := if withMetrics then Some(map[]) else None;
    }

    ghost function View(): Group
      reads this
    {
      Group(tunnels, registry)
    }

    method ValidateNewTunnelForm(f: Form) returns (e: Option<FormError>)
      ensures e == FormCheck(f, tunnels)
    {
      if f.name == "" {
        return Some(NameRequired);
      }
      if f.kind == "" {
        return Some(TypeRequired);
      }
      var clean := Clean(f.name);
      for i := 0 to |tunnels|
        invariant forall k :: 0 <= k < i ==> Clean(tunnels[k].name) != clean
      {
        if Clean(tunnels[i].name) == clean {
          return Some(NameTaken);
        }
      }
      return None;
    }

    method CreateAndRegisterController(name: string, kind: string)
      modifies this
      ensures View() == Added(old(View()), name, kind)
    {
      var labels: Option<Labels> := None;
      if registry.Some? {
        var id := Clean(name);
        if id !in registry.value {
          registry := Some(registry.value[id := Labels(name, id, kind)]);
        }
        labels := Some(registry.value[id]);
      }
      tunnels := tunnels + [Tunnel(name, kind, labels)];
    }

    /** A form that nothing overlaps; its answer reaches the client unless something was written before. */
    method HandlePostNew(w: ResponseWriter, f: Form, loaded: Option<(string, string)>) returns (reply: Reply)
      modifies this, w
      ensures (View(), reply) == Posted(old(View()), f, loaded)
      ensures w.sent == if old(w.sent).Some? then old(w.sent) else Some(AnswerTo(reply, old(w.location)))
      ensures reply.SeeOther? ==> reply.url != "" && reply.url[0] == '/'
      ensures old(w.sent) == None && reply.SeeOther? ==> w.sent == Some(Answer(303, Some(Location(reply.url))))
      ensures old(w.sent) == None && !reply.SeeOther? ==> w.sent == Some(Answer(400, old(w.location)))
    {
      var e := ValidateNewTunnelForm(f);
      if e.Some? {
        w.WriteHeader(400);
        w.Write();
        return Refused(e.value);
      }
      if loaded.None? {
        w.WriteHeader(400);
        w.Write();
        return NotCreated;
      }
      CreateAndRegisterController(loaded.value.0, loaded.value.1);
      var url := ActionPath(Clean(loaded.value.0), "control");
      w.Redirect(url);
      return SeeOther(url);
    }

    /** ServeHTTP for a new-tunnel form: the page header goes out first, so the redirect never does. */
    method ServePostNew(w: ResponseWriter, f: Form, loaded: Option<(string, string)>) returns (reply: Reply)
      requires w.sent == None && w.location == None
      modifies this, w
      ensures (View(), reply) == Posted(old(View()), f, loaded)
      ensures w.sent == Some(Answer(200, None))
    {
      w.Write();
      reply := HandlePostNew(w, f, loaded);
      w.Write();
    }

    /** The tunnel that serves the request; -1 stands for the redirect home. */
    method RouteTunnelControl(path: string) returns (i: int)
      ensures i == Find(tunnels, TunnelOf(path))
    {
      i := 0;
      while i < |tunnels|
        invariant 0 <= i <= |tunnels|
        invariant forall k :: 0 <= k < i ==> Clean(tunnels[k].name) != TunnelOf(path)
      {
        if Clean(tunnels[i].name) == TunnelOf(path) {
          return;
        }
        i := i + 1;
      }
      i := -1;
    }

    method RouteTunnelConfig(path: string) returns (i: int)
      ensures i == Find(tunnels, TunnelOf(path))
    {
      i := 0;
      while i < |tunnels|
        invariant 0 <= i <= |tunnels|
        invariant forall k :: 0 <= k < i ==> Clean(tunnels[k].name) != TunnelOf(path)
      {
        if Clean(tunnels[i].name) == TunnelOf(path) {
          return;
        }
        i := i + 1;
      }
      i := -1;
    }
  }

  // ---------- properties ----------

  ghost predicate DistinctIDs(tunnels: seq<Tunnel>) {
    forall i, j :: 0 <= i < j < |tunnels| ==> Clean(tunnels[i].name) != Clean(tunnels[j].name)
  }

  /** With metrics, every tunnel reports under its own name, ID and type, and nothing else is registered. */
  ghost predicate RegistryOk(g: Group) {
    g.registry.Some? ==>
      && (forall i :: 0 <= i < |g.tunnels| ==> Reports(g.registry.value, g.tunnels[i]))
      && forall id :: id in g.registry.value ==> Find(g.tunnels, id) >= 0
  }

  predicate Reports(reg: map<string, Labels>, t: Tunnel) {
    var l := Labels(t.name, Clean(t.name), t.kind);
    t.labels == Some(l) && l.id in reg && reg[l.id] == l
  }

  lemma FindAppend(tunnels: seq<Tunnel>, t: Tunnel, id: string)
    ensures Find(tunnels, id) >= 0 ==> Find(tunnels + [t], id) == Find(tunnels, id)
    ensures Find(tunnels, id) < 0 ==> Find(tunnels + [t], id) == if Clean(t.name) == id then |tunnels| else -1
  {
    hide Clean;
    var all, i := tunnels + [t], Find(tunnels + [t], id);
    assert all[|tunnels|] == t;
    assert forall k :: 0 <= k < |tunnels| ==> all[k] == tunnels[k];
  }

  /** An ID that no tunnel has yet can be added; one that is taken cannot. */
  lemma AddedKeepsDistinct(g: Group, name: string, kind: string)
    requires DistinctIDs(g.tunnels)
    ensures DistinctIDs(Added(g, name, kind).tunnels) <==> Find(g.tunnels, Clean(name)) < 0
  {
    hide Clean;
    var all := Added(g, name, kind).tunnels;
    assert |all| == |g.tunnels| + 1 && all[|g.tunnels|].name == name;
    assert forall k :: 0 <= k < |g.tunnels| ==> all[k] == g.tunnels[k];
    var i := Find(g.tunnels, Clean(name));
    if i >= 0 {
      assert Clean(all[i].name) == Clean(all[|g.tunnels|].name);
    }
  }

  lemma AddedKeepsRegistry(g: Group, name: string, kind: string)
    requires RegistryOk(g) && Find(g.tunnels, Clean(name)) < 0
    ensures RegistryOk(Added(g, name, kind))
  {
    hide Clean, Find;
    var h := Added(g, name, kind);
    if g.registry.Some? {
      var t := h.tunnels[|g.tunnels|];
      assert Clean(name) !in g.registry.value;
      forall i | 0 <= i < |h.tunnels| ensures Reports(h.registry.value, h.tunnels[i]) {
        if i < |g.tunnels| {
          assert h.tunnels[i] == g.tunnels[i];
          assert Reports(g.registry.value, g.tunnels[i]);
        }
      }
      forall id | id in h.registry.value ensures Find(h.tunnels, id) >= 0 {
        FindAppend(g.tunnels, t, id);
      }
    }
  }

  /** Loading, when it succeeds, returns the name and type that the form wrote. */
  predicate Faithful(f: Form, loaded: Option<(string, string)>) {
    loaded.Some? ==> loaded.value == (f.name, f.kind)
  }

  /** A form is accepted exactly when it names a tunnel and a type and no tunnel has the ID. */
  lemma AcceptedExactlyWhen(f: Form, tunnels: seq<Tunnel>)
    ensures FormCheck(f, tunnels).None? <==>
      && f.name != "" && f.kind != ""
      && forall k :: 0 <= k < |tunnels| ==> Clean(tunnels[k].name) != Clean(f.name)
    ensures FormCheck(f, tunnels) == Some(NameTaken) ==> Find(tunnels, Clean(f.name)) >= 0
  {
    hide Clean;
  }

  /** A client that follows the redirect gets the control page of tunnel `i`. */
  predicate Leads(ua: UserAgent, tunnels: seq<Tunnel>, url: string, i: int) {
    && url != "" && url[0] == '/'
    && var p := Requested(ua, Location(url));
       p.Some? && RouteFromPath(p.value) == ControlPage && Find(tunnels, TunnelOf(p.value)) == i
  }

  /** The redirect leads to an appended tunnel exactly when its ID is new and survives the way. */
  lemma LeadsExactlyWhen(ua: UserAgent, tunnels: seq<Tunnel>, t: Tunnel)
    ensures Leads(ua, tunnels + [t], ActionPath(Clean(t.name), "control"), |tunnels|)
      <==> Find(tunnels, Clean(t.name)) < 0 && Safe(ua, Clean(t.name))
  {
    hide Clean, Find, RouteFromPath, TunnelOf, Requested, Location, Safe;
    var url := ActionPath(Clean(t.name), "control");
    RedirectReachesExactlyWhen(ua, t.name);
    FindAppend(tunnels, t, Clean(t.name));
    var p := Requested(ua, Location(url));
    if p.Some? && Find(tunnels + [t], TunnelOf(p.value)) == |tunnels| {
      assert Clean((tunnels + [t])[|tunnels|].name) == TunnelOf(p.value);
    }
  }

  /**
   A form that nothing overlaps keeps IDs distinct and labels right, and its redirect leads to the tunnel just
   made if and only if the ID survives the way through Location and request.
   */
  lemma PostedKeeps(g: Group, f: Form, loaded: Option<(string, string)>, ua: UserAgent)
    requires DistinctIDs(g.tunnels) && RegistryOk(g) && Faithful(f, loaded)
    ensures var (h, reply) := Posted(g, f, loaded);
      && DistinctIDs(h.tunnels) && RegistryOk(h)
      && (reply.SeeOther? <==> h != g)
      && (reply.SeeOther? ==> (
        && |h.tunnels| == |g.tunnels| + 1 && h.tunnels[..|g.tunnels|] == g.tunnels
        && h.tunnels[|g.tunnels|].name == f.name && h.tunnels[|g.tunnels|].kind == f.kind
        && (Leads(ua, h.tunnels, reply.url, |g.tunnels|) <==> Safe(ua, Clean(f.name)))))
  {
    hide Clean, Find, DistinctIDs, RegistryOk, Leads, Safe;
    if FormCheck(f, g.tunnels).None? && loaded.Some? {
      assert Find(g.tunnels, Clean(f.name)) < 0;
      AddedKeepsDistinct(g, f.name, f.kind);
      AddedKeepsRegistry(g, f.name, f.kind);
      var t := Added(g, f.name, f.kind).tunnels[|g.tunnels|];
      LeadsExactlyWhen(ua, g.tunnels, t);
      assert Added(g, f.name, f.kind).tunnels == g.tunnels + [t];
    }
  }

  lemma FindOnly(tunnels: seq<Tunnel>, i: nat)
    requires DistinctIDs(tunnels) && i < |tunnels|
    ensures Find(tunnels, Clean(tunnels[i].name)) == i
  {
    hide Clean;
  }

  /** Then no two tunnels share a label set in the metrics output. */
  lemma TunnelsReportApart(g: Group, i: nat, j: nat)
    requires DistinctIDs(g.tunnels) && RegistryOk(g) && g.registry.Some? && i < j < |g.tunnels|
    ensures g.tunnels[i].labels.Some? && g.tunnels[j].labels.Some?
    ensures var a, b := g.tunnels[i].labels.value, g.tunnels[j].labels.value;
      Prometheus.FormatLabels(a.name, a.id, a.kind) != Prometheus.FormatLabels(b.name, b.id, b.kind)
  {
    hide Clean, Prometheus.FormatLabels;
    assert Reports(g.registry.value, g.tunnels[i]) && Reports(g.registry.value, g.tunnels[j]);
    var a, b := g.tunnels[i].labels.value, g.tunnels[j].labels.value;
    assert a.id != b.id;
    if Prometheus.FormatLabels(a.name, a.id, a.kind) == Prometheus.FormatLabels(b.name, b.id, b.kind) {
      Prometheus.LabelsAreInjective(a.name, a.id, a.kind, b.name, b.id, b.kind);
      assert false;
    }
  }
}
