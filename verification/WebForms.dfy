/**
 New-tunnel forms that are served at the same time (webui/controller/i2p_tunnel_group.go, cmd/web/main.go): each
 request checks its name, writes a configuration file, loads it and appends the tunnel, and the steps of any
 number of requests interleave. The files are named by ID, so requests can overwrite each other's.
 */
module WebForms {
  import opened Wrappers
  import opened WebPaths
  import opened WebRedirect
  import opened WebRouting

  /** `seen` is the number of tunnels when the name was checked. */
  datatype Phase =
    | Received
    | Checked(seen: nat)
    | Written(seen: nat)
    | Loaded(seen: nat, name: string, kind: string)
    | Done(reply: Reply)

  datatype Request = Request(form: Form, phase: Phase)

  datatype Site = Site(group: Group, files: map<string, (string, string)>, requests: seq<Request>)

  /** `ok` is whether the file was written, and whether it could be loaded and made into a tunnel. */
  datatype Action =
    | Receive(form: Form)
    | Check(i: nat)
    | Write(i: nat, ok: bool)
    | Load(i: nat, ok: bool)
    | Append(i: nat)

  function IdOf(s: Site, i: nat): string
    requires i < |s.requests|
  {
    Clean(s.requests[i].form.name)
  }

  function To(s: Site, i: nat, p: Phase): Site
    requires i < |s.requests|
  {
    s.(requests := s.requests[i := s.requests[i].(phase := p)])
  }

  ghost function CheckStep(s: Site, i: nat): Site
    requires i < |s.requests|
  {
    var e := FormCheck(s.requests[i].form, s.group.tunnels);
    To(s, i, if e.Some? then Done(Refused(e.value)) else Checked(|s.group.tunnels|))
  }

  function WriteStep(s: Site, i: nat, ok: bool): Site
    requires i < |s.requests| && s.requests[i].phase.Checked?
  {
    var f := s.requests[i].form;
    if !ok then To(s, i, Done(NotCreated))
    else To(s, i, Written(s.requests[i].phase.seen)).(files := s.files[IdOf(s, i) := (f.name, f.kind)])
  }

  /** A file that cannot be loaded is removed. */
  function LoadStep(s: Site, i: nat, ok: bool): Site
    requires i < |s.requests| && s.requests[i].phase.Written?
  {
    var id := IdOf(s, i);
    if ok && id in s.files then To(s, i, Loaded(s.requests[i].phase.seen, s.files[id].0, s.files[id].1))
    else To(s, i, Done(NotCreated)).(files := s.files - {id})
  }

  function AppendStep(s: Site, i: nat): Site
    requires i < |s.requests| && s.requests[i].phase.Loaded?
  {
    var p := s.requests[i].phase;
    To(s, i, Done(SeeOther(ActionPath(Clean(p.name), "control")))).(group := Added(s.group, p.name, p.kind))
  }

  /** One step; a step that does not apply leaves the site as it is. */
  ghost function Next(s: Site, a: Action): Site {
    match a
    case Receive(form) => s.(requests := s.requests + [Request(form, Received)])
    case Check(i) => if i < |s.requests| && s.requests[i].phase.Received? then CheckStep(s, i) else s
    case Write(i, ok) => if i < |s.requests| && s.requests[i].phase.Checked? then WriteStep(s, i, ok) else s
    case Load(i, ok) => if i < |s.requests| && s.requests[i].phase.Written? then LoadStep(s, i, ok) else s
    case Append(i) => if i < |s.requests| && s.requests[i].phase.Loaded? then AppendStep(s, i) else s
  }

  ghost function Run(s: Site, steps: seq<Action>): Site {
    if steps == [] then s else Next(Run(s, steps[..|steps| - 1]), steps[|steps| - 1])
  }

  /** A site without tunnels, files and requests. */
  function Empty(withMetrics: bool): Site {
    Site(Group([], if withMetrics then Some(map[]) else None), map[], [])
  }

  // ---------- what every step keeps ----------

  /** None of the first `n` tunnels has this ID. */
  ghost predicate FreeBelow(tunnels: seq<Tunnel>, n: nat, id: string) {
    n <= |tunnels| && forall k :: 0 <= k < n ==> Clean(tunnels[k].name) != id
  }

  ghost predicate RequestOk(tunnels: seq<Tunnel>, r: Request) {
    match r.phase
    case Checked(seen) => FreeBelow(tunnels, seen, Clean(r.form.name))
    case Written(seen) => FreeBelow(tunnels, seen, Clean(r.form.name))
    case Loaded(seen, name, _) => FreeBelow(tunnels, seen, Clean(r.form.name)) && Clean(name) == Clean(r.form.name)
    case _ => true
  }

  ghost predicate FilesOk(files: map<string, (string, string)>) {
    forall id :: id in files ==> Clean(files[id].0) == id
  }

  /** What was free at a check is still free there, and whatever a file holds has the file's ID. */
  ghost predicate Inv(s: Site) {
    && FilesOk(s.files)
    && forall i :: 0 <= i < |s.requests| ==> RequestOk(s.group.tunnels, s.requests[i])
  }

  lemma RequestsAdvance(s: Site, t: Site, i: nat)
    requires Inv(s) && i < |s.requests| && FilesOk(t.files)
    requires |t.group.tunnels| >= |s.group.tunnels| && t.group.tunnels[..|s.group.tunnels|] == s.group.tunnels
    requires |t.requests| == |s.requests|
    requires forall k :: 0 <= k < |s.requests| && k != i ==> t.requests[k] == s.requests[k]
    requires RequestOk(t.group.tunnels, t.requests[i])
    ensures Inv(t)
  {
    hide Clean;
    forall k | 0 <= k < |t.requests| ensures RequestOk(t.group.tunnels, t.requests[k]) {
      if k != i {
        assert RequestOk(s.group.tunnels, s.requests[k]);
        assert forall n :: 0 <= n < |s.group.tunnels| ==> t.group.tunnels[n] == s.group.tunnels[n];
      }
    }
  }

  lemma AddedExtends(g: Group, name: string, kind: string)
    ensures var all := Added(g, name, kind).tunnels;
      |all| == |g.tunnels| + 1 && all[..|g.tunnels|] == g.tunnels && all[|g.tunnels|].name == name
  {
  }

  lemma NextKeepsInv(s: Site, a: Action)
    requires Inv(s)
    ensures Inv(Next(s, a))
  {
    hide Clean, Added, FormCheck;
    var t := Next(s, a);
    if a.Receive? || t == s {
      forall k | 0 <= k < |t.requests| ensures RequestOk(t.group.tunnels, t.requests[k]) {
        assert k < |s.requests| ==> t.requests[k] == s.requests[k] && RequestOk(s.group.tunnels, s.requests[k]);
      }
    } else {
      assert RequestOk(s.group.tunnels, s.requests[a.i]);
      if a.Check? && t.requests[a.i].phase.Checked? {
        CheckedIsFree(s.requests[a.i].form, s.group.tunnels);
      } else if a.Append? {
        AddedExtends(s.group, s.requests[a.i].phase.name, s.requests[a.i].phase.kind);
      }
      RequestsAdvance(s, t, a.i);
    }
  }

  lemma CheckedIsFree(f: Form, tunnels: seq<Tunnel>)
    requires FormCheck(f, tunnels).None?
    ensures FreeBelow(tunnels, |tunnels|, Clean(f.name))
  {
    hide Clean;
  }

  lemma {:induction false} RunKeepsInv(s: Site, steps: seq<Action>)
    requires Inv(s)
    ensures Inv(Run(s, steps))
  {
    if steps != [] {
      RunKeepsInv(s, steps[..|steps| - 1]);
      NextKeepsInv(Run(s, steps[..|steps| - 1]), steps[|steps| - 1]);
    }
  }

  // ---------- when IDs stay distinct ----------

  /** A tunnel of the ID that request `i` is about to append was appended after the request's own check. */
  ghost predicate Overtaken(s: Site, i: nat) {
    && i < |s.requests| && s.requests[i].phase.Loaded?
    && exists k :: s.requests[i].phase.seen <= k < |s.group.tunnels| && Clean(s.group.tunnels[k].name) == IdOf(s, i)
  }

  /** No append of the run finds such a tunnel. */
  ghost predicate NoneOvertaken(s: Site, steps: seq<Action>) {
    forall n :: 0 <= n < |steps| && steps[n].Append? ==> !Overtaken(Run(s, steps[..n]), steps[n].i)
  }

  lemma OvertakenIsTaken(s: Site, i: nat)
    requires Inv(s) && i < |s.requests| && s.requests[i].phase.Loaded?
    ensures Overtaken(s, i) <==> Find(s.group.tunnels, Clean(s.requests[i].phase.name)) >= 0
  {
    hide Clean, Find;
    assert RequestOk(s.group.tunnels, s.requests[i]);
  }

  lemma DistinctPrefix(tunnels: seq<Tunnel>, more: seq<Tunnel>)
    requires |more| >= |tunnels| && more[..|tunnels|] == tunnels && DistinctIDs(more)
    ensures DistinctIDs(tunnels)
  {
    hide Clean;
    assert forall k :: 0 <= k < |tunnels| ==> tunnels[k] == more[k];
  }

  /** A step keeps IDs distinct exactly when it is no append of an overtaken request, and labels with them. */
  lemma NextDistinct(s: Site, a: Action)
    requires Inv(s)
    ensures DistinctIDs(Next(s, a).group.tunnels)
      <==> DistinctIDs(s.group.tunnels) && (a.Append? ==> !Overtaken(s, a.i))
    ensures RegistryOk(s.group) && DistinctIDs(Next(s, a).group.tunnels) ==> RegistryOk(Next(s, a).group)
  {
    hide Clean, Find, DistinctIDs, RegistryOk, Added, Inv, FormCheck;
    if a.Append? && a.i < |s.requests| && s.requests[a.i].phase.Loaded? {
      var p := s.requests[a.i].phase;
      OvertakenIsTaken(s, a.i);
      AddedExtends(s.group, p.name, p.kind);
      if DistinctIDs(s.group.tunnels) {
        AddedKeepsDistinct(s.group, p.name, p.kind);
      }
      if DistinctIDs(Added(s.group, p.name, p.kind).tunnels) {
        DistinctPrefix(s.group.tunnels, Added(s.group, p.name, p.kind).tunnels);
      }
      if RegistryOk(s.group) && Find(s.group.tunnels, Clean(p.name)) < 0 {
        AddedKeepsRegistry(s.group, p.name, p.kind);
      }
    }
  }

  lemma NoneOvertakenStep(s: Site, steps: seq<Action>)
    requires steps != []
    ensures var n := |steps| - 1;
      NoneOvertaken(s, steps) <==>
        (NoneOvertaken(s, steps[..n]) && (steps[n].Append? ==> !Overtaken(Run(s, steps[..n]), steps[n].i)))
  {
    hide Next, Overtaken;
    var n := |steps| - 1;
    var before := steps[..n];
    assert forall k :: 0 <= k < n ==> before[..k] == steps[..k] && before[k] == steps[k];
    if NoneOvertaken(s, steps) {
      forall k | 0 <= k < n && before[k].Append? ensures !Overtaken(Run(s, before[..k]), before[k].i) {
        assert steps[k].Append?;
      }
    }
    if NoneOvertaken(s, before) && (steps[n].Append? ==> !Overtaken(Run(s, before), steps[n].i)) {
      forall k | 0 <= k < |steps| && steps[k].Append? ensures !Overtaken(Run(s, steps[..k]), steps[k].i) {
        assert k < n ==> before[k].Append?;
      }
    }
  }

  /**
   In every run of new-tunnel forms, IDs are distinct if and only if no request appends a tunnel whose ID was
   taken after the request's own check; and while they are, every tunnel reports under its own labels.
   */
  lemma {:induction false} GrownGroup(withMetrics: bool, steps: seq<Action>)
    ensures var g := Run(Empty(withMetrics), steps).group;
      && (DistinctIDs(g.tunnels) <==> NoneOvertaken(Empty(withMetrics), steps))
      && (DistinctIDs(g.tunnels) ==> RegistryOk(g))
  {
    hide Next, Clean, Find, Overtaken;
    var s := Empty(withMetrics);
    if steps != [] {
      var before := steps[..|steps| - 1];
      GrownGroup(withMetrics, before);
      RunKeepsInv(s, before);
      NextDistinct(Run(s, before), steps[|steps| - 1]);
      NoneOvertakenStep(s, steps);
    }
  }

  /** Then each tunnel's control and config pages reach exactly that tunnel. */
  lemma PagesReachTheirTunnel(withMetrics: bool, steps: seq<Action>, i: nat)
    requires NoneOvertaken(Empty(withMetrics), steps)
    ensures var tunnels := Run(Empty(withMetrics), steps).group.tunnels;
      i < |tunnels| ==>
        && Find(tunnels, TunnelOf(ActionPath(Clean(tunnels[i].name), "control"))) == i
        && Find(tunnels, TunnelOf(ActionPath(Clean(tunnels[i].name), "config"))) == i
  {
    hide Clean, TunnelOf, Run, Find, DistinctIDs, RegistryOk, NoneOvertaken;
    GrownGroup(withMetrics, steps);
    var tunnels := Run(Empty(withMetrics), steps).group.tunnels;
    if i < |tunnels| {
      FindOnly(tunnels, i);
      PagesRouteBack(tunnels[i].name);
    }
  }

  /**
   Whatever else is in flight, the redirect of a request leads to the tunnel that it appends if and only if the
   request was not overtaken and the ID survives the way through Location and request.
   */
  lemma RedirectLeadsExactlyWhen(withMetrics: bool, steps: seq<Action>, i: nat, ua: UserAgent)
    requires var s := Run(Empty(withMetrics), steps); i < |s.requests| && s.requests[i].phase.Loaded?
    ensures var s := Run(Empty(withMetrics), steps);
      var t := Next(s, Append(i));
      && t.requests[i].phase.Done? && t.requests[i].phase.reply.SeeOther?
      && (Leads(ua, t.group.tunnels, t.requests[i].phase.reply.url, |s.group.tunnels|)
        <==> !Overtaken(s, i) && Safe(ua, IdOf(s, i)))
  {
    hide Clean, Run, Find, Leads, Safe, Overtaken;
    var s := Run(Empty(withMetrics), steps);
    RunKeepsInv(Empty(withMetrics), steps);
    assert RequestOk(s.group.tunnels, s.requests[i]);
    OvertakenIsTaken(s, i);
    var p := s.requests[i].phase;
    var all := Added(s.group, p.name, p.kind).tunnels;
    assert all == s.group.tunnels + [all[|s.group.tunnels|]];
    LeadsExactlyWhen(ua, s.group.tunnels, all[|s.group.tunnels|]);
  }

  // ---------- one form alone, and two at once ----------

  lemma {:induction false} RunConcat(s: Site, a: seq<Action>, b: seq<Action>)
    ensures Run(s, a + b) == Run(Run(s, a), b)
  {
    hide Next;
    if b == [] {
      assert a + b == a;
    } else {
      RunConcat(s, a, b[..|b| - 1]);
      assert (a + b)[..|a + b| - 1] == a + b[..|b| - 1];
    }
  }

  lemma RunTwo(s: Site, a: Action, b: Action)
    ensures Run(s, [a, b]) == Next(Next(s, a), b)
  {
    hide Next;
    assert [a, b][..1] == [a] && [a][..0] == [];
    RunLast(s, [a]);
    RunLast(s, [a, b]);
  }

  lemma RunThree(s: Site, a: Action, b: Action, c: Action)
    ensures Run(s, [a, b, c]) == Next(Next(Next(s, a), b), c)
  {
    hide Next, Run;
    RunTwo(s, a, b);
    assert [a, b, c][..2] == [a, b];
    RunLast(s, [a, b, c]);
  }

  lemma RunLast(s: Site, steps: seq<Action>)
    requires steps != []
    ensures Run(s, steps) == Next(Run(s, steps[..|steps| - 1]), steps[|steps| - 1])
  {
    hide Next;
  }

  /** The part of a request after its check. */
  function FinishSteps(i: nat, written: bool, loaded: bool): seq<Action> {
    [Write(i, written), Load(i, loaded), Append(i)]
  }

  /** What it leaves behind when nothing comes in between. */
  lemma FinishEffect(s: Site, i: nat, written: bool, loaded: bool)
    requires i < |s.requests| && s.requests[i].phase.Checked?
    ensures var t := Run(s, FinishSteps(i, written, loaded));
      var f := s.requests[i].form;
      && |t.requests| == |s.requests|
      && (forall k :: 0 <= k < |s.requests| && k != i ==> t.requests[k] == s.requests[k])
      && t.requests[i].phase.Done?
      && t.files == (if written && loaded then s.files[IdOf(s, i) := (f.name, f.kind)]
                     else if written then s.files - {IdOf(s, i)}
                     else s.files)
      && (t.group, t.requests[i].phase.reply) ==
        (if written && loaded then (Added(s.group, f.name, f.kind), SeeOther(ActionPath(Clean(f.name), "control")))
         else (s.group, NotCreated))
  {
    hide Run, Clean, Added;
    RunThree(s, Write(i, written), Load(i, loaded), Append(i));
  }

  /** A form that nothing overlaps is a run of the step system. */
  lemma PostIsARun(s: Site, f: Form, written: bool, loaded: bool)
    ensures var n := |s.requests|;
      var t := Run(s, [Receive(f), Check(n)] + FinishSteps(n, written, loaded));
      && |t.requests| == n + 1 && t.requests[n].phase.Done?
      && t.files == (if FormCheck(f, s.group.tunnels).Some? || !written then s.files
                     else if loaded then s.files[Clean(f.name) := (f.name, f.kind)]
                     else s.files - {Clean(f.name)})
      && (t.group, t.requests[n].phase.reply) ==
        Posted(s.group, f, if written && loaded then Some((f.name, f.kind)) else None)
  {
    hide Run, Clean, Added, FormCheck;
    var n := |s.requests|;
    RunConcat(s, [Receive(f), Check(n)], FinishSteps(n, written, loaded));
    RunTwo(s, Receive(f), Check(n));
    var u := Next(Next(s, Receive(f)), Check(n));
    assert u.requests[n].form == f;
    if u.requests[n].phase.Checked? {
      FinishEffect(u, n, written, loaded);
    } else {
      RunThree(u, Write(n, written), Load(n, loaded), Append(n));
    }
  }

  /** Two requests, the second of which is checked before the first has appended. */
  function TwoAtOnce(f: Form, g: Form): seq<Action> {
    ([Receive(f), Check(0)] + [Receive(g), Check(1)]) + (FinishSteps(0, true, true) + FinishSteps(1, true, true))
  }

  /**
   Two overlapping forms with the same ID are both accepted: the second tunnel's pages reach the first tunnel,
   and its counters are reported under the first tunnel's labels.
   */
  lemma OverlapCollides(f: Form, g: Form, withMetrics: bool)
    requires f.name != "" && f.kind != "" && g.name != "" && g.kind != "" && Clean(f.name) == Clean(g.name)
    ensures var tunnels := Run(Empty(withMetrics), TwoAtOnce(f, g)).group.tunnels;
      && |tunnels| == 2 && tunnels[0].name == f.name && tunnels[1].name == g.name && !DistinctIDs(tunnels)
      && Find(tunnels, TunnelOf(ActionPath(Clean(g.name), "control"))) == 0
      && tunnels[1].labels == tunnels[0].labels
      && (withMetrics ==> tunnels[0].labels == Some(Labels(f.name, Clean(f.name), f.kind)))
  {
    hide Run, Clean, Find, TunnelOf;
    var s := Empty(withMetrics);
    var checks := [Receive(f), Check(0)] + [Receive(g), Check(1)];
    RunConcat(s, checks, FinishSteps(0, true, true) + FinishSteps(1, true, true));
    RunConcat(s, [Receive(f), Check(0)], [Receive(g), Check(1)]);
    RunTwo(s, Receive(f), Check(0));
    var a := Run(s, [Receive(f), Check(0)]);
    assert a.requests == [Request(f, Checked(0))] && a.group == s.group;
    RunTwo(a, Receive(g), Check(1));
    var b := Run(s, checks);
    assert b.requests == [Request(f, Checked(0)), Request(g, Checked(0))] && b.group == s.group;
    RunConcat(b, FinishSteps(0, true, true), FinishSteps(1, true, true));
    FinishEffect(b, 0, true, true);
    FinishEffect(Run(b, FinishSteps(0, true, true)), 1, true, true);
    var tunnels := Run(s, TwoAtOnce(f, g)).group.tunnels;
    assert Clean(tunnels[0].name) == Clean(tunnels[1].name);
    PagesRouteBack(g.name);
  }

  /** Such as "a b" and "a-b". */
  lemma SameId()
    ensures Clean("a b") == Clean("a-b") == "a-b"
  {
    hide Clean;
    CleanOne(' ');
    CleanConcat("a", " ");
    CleanConcat("a" + " ", "b");
    CleanFixes("a");
    CleanFixes("b");
    CleanFixes("a-b");
    assert "a" + " " + "b" == "a b" && "a" + "-" + "b" == "a-b";
  }
}
