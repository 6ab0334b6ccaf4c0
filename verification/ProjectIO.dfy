/** Project export and import: a bundle refers to inventories and templates by name, and import
    gives everything fresh ids and links it up again. */
module ProjectIO {
  import opened Wrappers

  // ---- projects ------------------------------------------------------------------------------

  datatype InventoryData = InventoryData(kind: string, content: string, provider: string, region: string,
                                         runnerTag: string)

  datatype Inventory = Inventory(id: string, name: string, data: InventoryData)

  /** A template: `data` stands for the settings the bundle copies unchanged. */
  datatype Template<D> = Template(id: string, name: string, data: D, inventory: Option<string>, build: Option<string>)

  datatype WfStep = WfStep(name: string, template: string, condition: string)

  datatype Workflow = Workflow(name: string, description: string, steps: seq<WfStep>)

  /** A schedule of a template; a one-time schedule has no cron expression. */
  datatype Schedule = Schedule(template: string, name: string, cron: string, active: bool)

  datatype Project<D> = Project(name: string, description: string, sourceType: string, subPath: string,
                                inventories: seq<Inventory>, templates: seq<Template<D>>,
                                workflows: seq<Workflow>, schedules: seq<Schedule>)

  // ---- bundles ---------------------------------------------------------------------------------

  datatype BundleTemplate<D> = BundleTemplate(name: string, data: D, inventoryName: string, buildName: string)

  datatype BundleStep = BundleStep(name: string, templateName: string, condition: string)

  datatype BundleWorkflow = BundleWorkflow(name: string, description: string, steps: seq<BundleStep>)

  datatype BundleSchedule = BundleSchedule(name: string, cron: string, templateName: string, active: bool)

  datatype BundleInventory = BundleInventory(name: string, data: InventoryData)

  datatype Bundle<D> = Bundle(name: string, description: string, sourceType: string, subPath: string,
                              inventories: seq<BundleInventory>, templates: seq<BundleTemplate<D>>,
                              workflows: seq<BundleWorkflow>, schedules: seq<BundleSchedule>)

  // ---- tables built by a loop --------------------------------------------------------------------

  /** Keys entered one after the other; a repeated key keeps its last value. */
  function Table(keys: seq<string>, vals: seq<string>): map<string, string>
    requires |keys| == |vals|
  {
    if keys == [] then map[]
    else Table(keys[..|keys| - 1], vals[..|keys| - 1])[keys[|keys| - 1] := vals[|keys| - 1]]
  }

  /** A missing key reads as the empty string. */
  function Get(m: map<string, string>, k: string): string { if k in m then m[k] else "" }

  ghost predicate Distinct(s: seq<string>) { forall i, j :: 0 <= i < j < |s| ==> s[i] != s[j] }

  lemma {:induction false} TableKeys(keys: seq<string>, vals: seq<string>, k: string)
    requires |keys| == |vals|
    ensures k in Table(keys, vals) <==> k in keys
  {
    if keys != [] {
      var n := |keys| - 1;
      TableKeys(keys[..n], vals[..n], k);
      assert keys == keys[..n] + [keys[n]];
    }
  }

  lemma {:induction false} TableAt(keys: seq<string>, vals: seq<string>, i: nat)
    requires |keys| == |vals| && i < |keys| && Distinct(keys)
    ensures keys[i] in Table(keys, vals) && Table(keys, vals)[keys[i]] == vals[i]
  {
    var n := |keys| - 1;
    if i < n {
      TableAt(keys[..n], vals[..n], i);
    }
  }

  // ---- export --------------------------------------------------------------------------------------

  function InvIds(s: seq<Inventory>): (r: seq<string>)
    ensures |r| == |s|
  {
    seq(|s|, i requires 0 <= i < |s| => s[i].id)
  }
  function InvNames(s: seq<Inventory>): (r: seq<string>)
    ensures |r| == |s|
  {
    seq(|s|, i requires 0 <= i < |s| => s[i].name)
  }
  function TplIds<D>(s: seq<Template<D>>): (r: seq<string>)
    ensures |r| == |s|
  {
    seq(|s|, i requires 0 <= i < |s| => s[i].id)
  }
  function TplNames<D>(s: seq<Template<D>>): (r: seq<string>)
    ensures |r| == |s|
  {
    seq(|s|, i requires 0 <= i < |s| => s[i].name)
  }

  function LinkName(names: map<string, string>, link: Option<string>): string {
    match link case None => "" case Some(id) => Get(names, id)
  }

  function ExportTemplate<D>(t: Template<D>, invs: map<string, string>, tpls: map<string, string>): BundleTemplate<D> {
    BundleTemplate(t.name, t.data, LinkName(invs, t.inventory), LinkName(tpls, t.build))
  }

  function ExportStep(s: WfStep, tpls: map<string, string>): BundleStep {
    BundleStep(s.name, Get(tpls, s.template), s.condition)
  }

  function ExportWorkflow(w: Workflow, tpls: map<string, string>): BundleWorkflow {
    BundleWorkflow(w.name, w.description, seq(|w.steps|, i requires 0 <= i < |w.steps| => ExportStep(w.steps[i], tpls)))
  }

  /** The schedules of one template, oldest first. */
  function ListSchedules(all: seq<Schedule>, template: string): (r: seq<Schedule>)
    ensures forall s :: s in r ==> s.template == template
  {
    if all == [] then []
    else (if all[0].template == template then [all[0]] else []) + ListSchedules(all[1..], template)
  }

  function ExportSchedules(scs: seq<Schedule>, templateName: string): seq<BundleSchedule> {
    if scs == [] then []
    else (if scs[0].cron == "" then [] else [BundleSchedule(scs[0].name, scs[0].cron, templateName, scs[0].active)])
         + ExportSchedules(scs[1..], templateName)
  }

  function ExportAllSchedules<D>(tpls: seq<Template<D>>, all: seq<Schedule>): seq<BundleSchedule> {
    if tpls == [] then []
    else ExportSchedules(ListSchedules(all, tpls[0].id), tpls[0].name) + ExportAllSchedules(tpls[1..], all)
  }

  function ExportInventories(s: seq<Inventory>): (r: seq<BundleInventory>)
    ensures |r| == |s|
  {
    seq(|s|, i requires 0 <= i < |s| => BundleInventory(s[i].name, s[i].data))
  }

  function ExportTemplates<D>(s: seq<Template<D>>, invs: map<string, string>, tpls: map<string, string>)
    : (r: seq<BundleTemplate<D>>)
    ensures |r| == |s|
  {
    seq(|s|, i requires 0 <= i < |s| => ExportTemplate(s[i], invs, tpls))
  }

  function ExportWorkflows(s: seq<Workflow>, tpls: map<string, string>): (r: seq<BundleWorkflow>)
    ensures |r| == |s|
  {
    seq(|s|, i requires 0 <= i < |s| => ExportWorkflow(s[i], tpls))
  }

  function Export<D>(p: Project<D>): Bundle<D> {
    var invs := Table(InvIds(p.inventories), InvNames(p.inventories));
    var tpls := Table(TplIds(p.templates), TplNames(p.templates));
    Bundle(p.name, p.description, p.sourceType, p.subPath,
      ExportInventories(p.inventories),
      ExportTemplates(p.templates, invs, tpls),
      ExportWorkflows(p.workflows, tpls),
      ExportAllSchedules(p.templates, p.schedules))
  }

  // ---- import --------------------------------------------------------------------------------------

  /** Where ids come from: the n-th id handed out, and which cron expressions parse. */
  datatype World = World(newId: nat -> string, parses: string -> bool)

  function ImportInventories(bs: seq<BundleInventory>, n: nat, w: World): (r: seq<Inventory>)
    ensures |r| == |bs|
  {
    seq(|bs|, i requires 0 <= i < |bs| => Inventory(w.newId(n + i), bs[i].name, bs[i].data))
  }

  function LinkId(ids: map<string, string>, name: string): Option<string> {
    if name != "" && name in ids then Some(ids[name]) else None
  }

  /** The first pass: templates with their inventory links. */
  function ImportTemplates<D>(bs: seq<BundleTemplate<D>>, n: nat, invIds: map<string, string>, w: World)
    : (r: seq<Template<D>>)
    ensures |r| == |bs|
  {
    seq(|bs|, i requires 0 <= i < |bs| =>
      Template(w.newId(n + i), bs[i].name, bs[i].data, LinkId(invIds, bs[i].inventoryName), None))
  }

  function SetBuild<D>(ts: seq<Template<D>>, id: string, build: string): (r: seq<Template<D>>)
    ensures |r| == |ts|
  {
    seq(|ts|, i requires 0 <= i < |ts| => if ts[i].id == id then ts[i].(build := Some(build)) else ts[i])
  }

  function LinkBuild<D>(ts: seq<Template<D>>, b: BundleTemplate<D>, ids: map<string, string>): (r: seq<Template<D>>)
    ensures |r| == |ts|
  {
    if b.buildName != "" && b.name in ids && b.buildName in ids then SetBuild(ts, ids[b.name], ids[b.buildName]) else ts
  }

  /** The second pass: build links, now that every template has an id. */
  function LinkBuilds<D>(ts: seq<Template<D>>, bs: seq<BundleTemplate<D>>, ids: map<string, string>)
    : (r: seq<Template<D>>)
    ensures |r| == |ts|
  {
    if bs == [] then ts
    else LinkBuild(LinkBuilds(ts, bs[..|bs| - 1], ids), bs[|bs| - 1], ids)
  }

  function ImportWorkflow(b: BundleWorkflow, ids: map<string, string>): Workflow {
    Workflow(b.name, b.description,
      seq(|b.steps|, i requires 0 <= i < |b.steps| =>
        WfStep(b.steps[i].name, Get(ids, b.steps[i].templateName), b.steps[i].condition)))
  }

  function ImportWorkflows(bs: seq<BundleWorkflow>, ids: map<string, string>): (r: seq<Workflow>)
    ensures |r| == |bs|
  {
    seq(|bs|, i requires 0 <= i < |bs| => ImportWorkflow(bs[i], ids))
  }

  function ImportSchedules(bs: seq<BundleSchedule>, ids: map<string, string>, w: World): seq<Schedule> {
    if bs == [] then []
    else
      (if bs[0].templateName in ids && bs[0].cron != "" && w.parses(bs[0].cron)
       then [Schedule(ids[bs[0].templateName], bs[0].name, bs[0].cron, bs[0].active)] else [])
      + ImportSchedules(bs[1..], ids, w)
  }

  /** A schedule of a bundle can be imported if the bundle has its template, and it has an expression
      that parses. */
  predicate Importable(b: BundleSchedule, ids: map<string, string>, w: World) {
    b.templateName in ids && b.cron != "" && w.parses(b.cron)
  }

  function Imported(b: BundleSchedule, ids: map<string, string>, w: World): seq<Schedule> {
    if Importable(b, ids, w) then [Schedule(ids[b.templateName], b.name, b.cron, b.active)] else []
  }

  /** Of any bundle, exactly the schedules that can be are imported, each in its place. */
  lemma {:induction false} ImportedInPlace(bs: seq<BundleSchedule>, ids: map<string, string>, w: World, i: nat)
    requires i < |bs|
    ensures ImportSchedules(bs, ids, w)
         == ImportSchedules(bs[..i], ids, w) + (Imported(bs[i], ids, w) + ImportSchedules(bs[i + 1..], ids, w))
  {
    if i == 0 {
      assert bs[..0] == [];
    } else {
      ImportedInPlace(bs[1..], ids, w, i - 1);
      assert bs[1..][..i - 1] == bs[..i][1..] && bs[1..][i..] == bs[i + 1..];
      JoinAssoc(Imported(bs[0], ids, w), ImportSchedules(bs[..i][1..], ids, w),
                Imported(bs[i], ids, w) + ImportSchedules(bs[i + 1..], ids, w));
    }
  }

  function BundleInvNames<D>(b: Bundle<D>): (r: seq<string>) ensures |r| == |b.inventories| {
    seq(|b.inventories|, i requires 0 <= i < |b.inventories| => b.inventories[i].name)
  }

  function BundleTplNames<D>(b: Bundle<D>): (r: seq<string>) ensures |r| == |b.templates| {
    seq(|b.templates|, i requires 0 <= i < |b.templates| => b.templates[i].name)
  }

  /** The imported project, ids handed out from number `n` on; refused without a project name. */
  function Import<D>(b: Bundle<D>, n: nat, w: World): Option<Project<D>> {
    if b.name == "" then None
    else
      var invs := ImportInventories(b.inventories, n, w);
      var invIds := Table(BundleInvNames(b), InvIds(invs));
      var first := ImportTemplates(b.templates, n + |invs|, invIds, w);
      var tplIds := Table(BundleTplNames(b), TplIds(first));
      Some(Project(b.name + " (imported)", b.description, "local", "", invs,
        LinkBuilds(first, b.templates, tplIds),
        ImportWorkflows(b.workflows, tplIds),
        ImportSchedules(b.schedules, tplIds, w)))
  }

  // ---- the handlers' loops ---------------------------------------------------------------------------

  method FillTable(keys: seq<string>, vals: seq<string>) returns (m: map<string, string>)
    requires |keys| == |vals|
    ensures m == Table(keys, vals)
  {
    m := map[];
    for i := 0 to |keys|
      invariant m == Table(keys[..i], vals[..i])
    {
      assert keys[..i + 1][..i] == keys[..i] && vals[..i + 1][..i] == vals[..i];
      m := m[keys[i] := vals[i]];
    }
    assert keys[..|keys|] == keys && vals[..|vals|] == vals;
  }

  method ExportTheInventories(s: seq<Inventory>) returns (invs: seq<BundleInventory>)
    ensures invs == ExportInventories(s)
  {
    invs := [];
    for i := 0 to |s|
      invariant |invs| == i && forall j :: 0 <= j < i ==> invs[j] == BundleInventory(s[j].name, s[j].data)
    {
      invs := invs + [BundleInventory(s[i].name, s[i].data)];
    }
  }

  method ExportTheTemplates<D>(s: seq<Template<D>>, invName: map<string, string>, tplName: map<string, string>)
    returns (tpls: seq<BundleTemplate<D>>)
    ensures tpls == ExportTemplates(s, invName, tplName)
  {
    tpls := [];
    for i := 0 to |s|
      invariant |tpls| == i && forall j :: 0 <= j < i ==> tpls[j] == ExportTemplate(s[j], invName, tplName)
    {
      tpls := tpls + [ExportTemplate(s[i], invName, tplName)];
    }
  }

  method ExportTheWorkflows(s: seq<Workflow>, tplName: map<string, string>) returns (wfs: seq<BundleWorkflow>)
    ensures wfs == ExportWorkflows(s, tplName)
  {
    wfs := [];
    for i := 0 to |s|
      invariant |wfs| == i && forall j :: 0 <= j < i ==> wfs[j] == ExportWorkflow(s[j], tplName)
    {
      wfs := wfs + [ExportWorkflow(s[i], tplName)];
    }
  }

  lemma ExportFrom<D>(tpls: seq<Template<D>>, all: seq<Schedule>, k: nat)
    requires k < |tpls|
    ensures ExportAllSchedules(tpls[k..], all)
         == ExportSchedules(ListSchedules(all, tpls[k].id), tpls[k].name) + ExportAllSchedules(tpls[k + 1..], all)
  {
    assert tpls[k..][0] == tpls[k] && tpls[k..][1..] == tpls[k + 1..];
  }

  lemma JoinAssoc<T>(a: seq<T>, b: seq<T>, c: seq<T>)
    ensures a + (b + c) == a + b + c
  {
  }

  method ExportTheSchedules<D>(tpls: seq<Template<D>>, all: seq<Schedule>) returns (scheds: seq<BundleSchedule>)
    ensures scheds == ExportAllSchedules(tpls, all)
  {
    scheds := [];
    assert tpls[0..] == tpls;
    for i := 0 to |tpls|
      invariant scheds + ExportAllSchedules(tpls[i..], all) == ExportAllSchedules(tpls, all)
    {
      var own := ExportSchedules(ListSchedules(all, tpls[i].id), tpls[i].name);
      ExportFrom(tpls, all, i);
      JoinAssoc(scheds, own, ExportAllSchedules(tpls[i + 1..], all));
      scheds := scheds + own;
    }
    assert tpls[|tpls|..] == [] && scheds + [] == scheds;
  }

  method ExportProject<D>(p: Project<D>) returns (b: Bundle<D>)
    ensures b == Export(p)
    ensures b.name == p.name && b.description == p.description
    ensures b.sourceType == p.sourceType && b.subPath == p.subPath
  {
    var invName := FillTable(InvIds(p.inventories), InvNames(p.inventories));
    var tplName := FillTable(TplIds(p.templates), TplNames(p.templates));
    var invs := ExportTheInventories(p.inventories);
    var tpls := ExportTheTemplates(p.templates, invName, tplName);
    var wfs := ExportTheWorkflows(p.workflows, tplName);
    var scheds := ExportTheSchedules(p.templates, p.schedules);
    b := Bundle(p.name, p.description, p.sourceType, p.subPath, invs, tpls, wfs, scheds);
  }

  /** The instance a bundle is imported into: its template rows, and the ids handed out so far. */
  class Instance<D> {
    var templates: seq<Template<D>>
    var handedOut: nat

    constructor (n: nat)
      ensures templates == [] && handedOut == n
    {
      templates, handedOut := [], n;
    }

    method NewId(w: World) returns (id: string)
      modifies this`handedOut
      ensures id == w.newId(old(handedOut)) && handedOut == old(handedOut) + 1
    {
      id := w.newId(handedOut);
      handedOut := handedOut + 1;
    }

    method UpdateTemplate(id: string, build: string)
      modifies this`templates
      ensures templates == SetBuild(old(templates), id, build)
    {
      templates := SetBuild(templates, id, build);
    }

    method CreateInventories(bs: seq<BundleInventory>, w: World) returns (invs: seq<Inventory>)
      modifies this`handedOut
      ensures invs == ImportInventories(bs, old(handedOut), w) && handedOut == old(handedOut) + |bs|
    {
      invs := [];
      for i := 0 to |bs|
        invariant handedOut == old(handedOut) + i
        invariant |invs| == i && forall j :: 0 <= j < i ==>
             invs[j] == Inventory(w.newId(old(handedOut) + j), bs[j].name, bs[j].data)
      {
        var id := NewId(w);
        invs := invs + [Inventory(id, bs[i].name, bs[i].data)];
      }
    }

    method CreateTemplates(bs: seq<BundleTemplate<D>>, invIds: map<string, string>, w: World)
      requires templates == []
      modifies this
      ensures templates == ImportTemplates(bs, old(handedOut), invIds, w)
    {
      for i := 0 to |bs|
        invariant handedOut == old(handedOut) + i
        invariant |templates| == i && forall j :: 0 <= j < i ==>
          templates[j] == Template(w.newId(old(handedOut) + j), bs[j].name, bs[j].data,
                                   LinkId(invIds, bs[j].inventoryName), None)
      {
        var id := NewId(w);
        templates := templates + [Template(id, bs[i].name, bs[i].data, LinkId(invIds, bs[i].inventoryName), None)];
      }
    }

    method LinkTemplates(bs: seq<BundleTemplate<D>>, tplIds: map<string, string>)
      modifies this`templates
      ensures templates == LinkBuilds(old(templates), bs, tplIds)
    {
      assert bs[..0] == [];
      for i := 0 to |bs|
        invariant templates == LinkBuilds(old(templates), bs[..i], tplIds)
      {
        assert bs[..i + 1][..i] == bs[..i];
        if bs[i].buildName != "" {
          if bs[i].name in tplIds && bs[i].buildName in tplIds {
            UpdateTemplate(tplIds[bs[i].name], tplIds[bs[i].buildName]);
          }
        }
      }
      assert bs[..|bs|] == bs;
    }

    method CreateWorkflows(bs: seq<BundleWorkflow>, tplIds: map<string, string>) returns (wfs: seq<Workflow>)
      ensures wfs == ImportWorkflows(bs, tplIds)
    {
      wfs := [];
      for i := 0 to |bs|
        invariant |wfs| == i && forall j :: 0 <= j < i ==> wfs[j] == ImportWorkflow(bs[j], tplIds)
      {
        wfs := wfs + [ImportWorkflow(bs[i], tplIds)];
      }
    }

    method ImportAll(b: Bundle<D>, w: World) returns (p: Option<Project<D>>)
      requires templates == []
      modifies this
      ensures p == Import(b, old(handedOut), w)
    {
      if b.name == "" {
        return None;
      }
      var invs := CreateInventories(b.inventories, w);
      var invIds := FillTable(BundleInvNames(b), InvIds(invs));
      CreateTemplates(b.templates, invIds, w);
      var tplIds := FillTable(BundleTplNames(b), TplIds(templates));
      LinkTemplates(b.templates, tplIds);
      var wfs := CreateWorkflows(b.workflows, tplIds);
      p := Some(Project(b.name + " (imported)", b.description, "local", "", invs, templates, wfs,
                        ImportSchedules(b.schedules, tplIds, w)));
    }
  }

  // ---- import of an export ------------------------------------------------------------------------------

  /** Names identify: distinct and not empty. */
  ghost predicate GoodNames(names: seq<string>) { Distinct(names) && "" !in names }

  ghost predicate Portable<D>(p: Project<D>) {
    && Distinct(InvIds(p.inventories)) && GoodNames(InvNames(p.inventories))
    && Distinct(TplIds(p.templates)) && GoodNames(TplNames(p.templates))
  }

  ghost predicate FreshIds(w: World) { forall i, j :: w.newId(i) == w.newId(j) ==> i == j }

  function NewIds(n: nat, count: nat, w: World): (r: seq<string>)
    ensures |r| == count
  {
    seq(count, i requires 0 <= i < count => w.newId(n + i))
  }

  /** A link carried along a renaming; one that leads outside is lost. */
  function Renamed(ids: map<string, string>, link: Option<string>): Option<string> {
    match link case None => None case Some(x) => if x in ids then Some(ids[x]) else None
  }

  /** From id to name to new id is the renaming of ids. */
  lemma {:induction false} ThroughNames(ids: seq<string>, names: seq<string>, fresh_: seq<string>, x: string)
    requires |ids| == |names| == |fresh_| && Distinct(ids) && GoodNames(names)
    ensures Get(Table(names, fresh_), Get(Table(ids, names), x)) == Get(Table(ids, fresh_), x)
    ensures LinkId(Table(names, fresh_), LinkName(Table(ids, names), Some(x))) == Renamed(Table(ids, fresh_), Some(x))
  {
    TableKeys(ids, names, x);
    TableKeys(ids, fresh_, x);
    TableKeys(names, fresh_, "");
    if x in ids {
      var i :| 0 <= i < |ids| && ids[i] == x;
      TableAt(ids, names, i);
      TableAt(ids, fresh_, i);
      TableAt(names, fresh_, i);
      assert names[i] in names;
    }
  }

  /** A workflow step's target, and a link, as they come back from export and import. */
  function TargetBack(ids: seq<string>, names: seq<string>, fresh_: seq<string>, x: string): string
    requires |ids| == |names| == |fresh_|
  {
    Get(Table(names, fresh_), Get(Table(ids, names), x))
  }

  function LinkBack(ids: seq<string>, names: seq<string>, fresh_: seq<string>, x: string): Option<string>
    requires |ids| == |names| == |fresh_|
  {
    LinkId(Table(names, fresh_), LinkName(Table(ids, names), Some(x)))
  }

  lemma BackThroughTable(ids: seq<string>, names: seq<string>, fresh_: seq<string>, i: nat)
    requires |ids| == |names| == |fresh_| && Distinct(ids) && i < |ids|
    ensures TargetBack(ids, names, fresh_, ids[i]) == Get(Table(names, fresh_), names[i])
    ensures LinkBack(ids, names, fresh_, ids[i])
         == if names[i] == "" then None else Some(Get(Table(names, fresh_), names[i]))
  {
    TableAt(ids, names, i);
    TableKeys(names, fresh_, names[i]);
    assert names[i] in names;
  }

  /** Exactly when references by name are safe: every step target comes back as the new id of what
      it pointed to just when no two names are equal, every link just when in addition none is empty. */
  lemma {:induction false} ReferencesKeptIff(ids: seq<string>, names: seq<string>, fresh_: seq<string>)
    requires |ids| == |names| == |fresh_| && Distinct(ids) && Distinct(fresh_)
    ensures (forall i :: 0 <= i < |ids| ==> TargetBack(ids, names, fresh_, ids[i]) == fresh_[i]) <==> Distinct(names)
    ensures (forall i :: 0 <= i < |ids| ==> LinkBack(ids, names, fresh_, ids[i]) == Some(fresh_[i]))
         <==> GoodNames(names)
  {
    forall i | 0 <= i < |ids|
      ensures TargetBack(ids, names, fresh_, ids[i]) == Get(Table(names, fresh_), names[i])
      ensures LinkBack(ids, names, fresh_, ids[i])
           == if names[i] == "" then None else Some(Get(Table(names, fresh_), names[i]))
    {
      BackThroughTable(ids, names, fresh_, i);
    }
    if Distinct(names) {
      forall i | 0 <= i < |ids| ensures Get(Table(names, fresh_), names[i]) == fresh_[i] { TableAt(names, fresh_, i); }
    } else {
      var i, j :| 0 <= i < j < |names| && names[i] == names[j];
      assert fresh_[i] != fresh_[j];
      assert TargetBack(ids, names, fresh_, ids[i]) == TargetBack(ids, names, fresh_, ids[j]);
      assert LinkBack(ids, names, fresh_, ids[i]) == LinkBack(ids, names, fresh_, ids[j]);
    }
    if "" in names {
      var i :| 0 <= i < |names| && names[i] == "";
      assert LinkBack(ids, names, fresh_, ids[i]) == None;
    }
  }

  lemma SetBuildAt<D>(ts: seq<Template<D>>, k: nat, build: string)
    requires k < |ts| && Distinct(TplIds(ts))
    ensures SetBuild(ts, ts[k].id, build) == ts[k := ts[k].(build := Some(build))]
  {
    forall i | 0 <= i < |ts| && i != k ensures ts[i].id != ts[k].id {
      assert TplIds(ts)[i] == ts[i].id && TplIds(ts)[k] == ts[k].id;
    }
  }

  /** With distinct names the second pass links each template to the template of that name. */
  lemma {:induction false} BuildsLinked<D>(ts: seq<Template<D>>, bs: seq<BundleTemplate<D>>, k: nat,
                                          ids: map<string, string>)
    requires |ts| == |bs| && k <= |bs| && Distinct(TplIds(ts))
    requires forall i :: 0 <= i < |bs| ==> ts[i].build == None && bs[i].name in ids && ids[bs[i].name] == ts[i].id
    ensures forall i :: 0 <= i < |ts| ==>
              LinkBuilds(ts, bs[..k], ids)[i] == if i < k then ts[i].(build := LinkId(ids, bs[i].buildName)) else ts[i]
  {
    if k > 0 {
      BuildsLinked(ts, bs, k - 1, ids);
      var before := LinkBuilds(ts, bs[..k - 1], ids);
      assert bs[..k][..k - 1] == bs[..k - 1] && bs[..k][k - 1] == bs[k - 1];
      assert TplIds(before) == TplIds(ts) by {
        forall i | 0 <= i < |ts| ensures before[i].id == ts[i].id {}
      }
      var b := bs[k - 1];
      if b.buildName != "" && b.buildName in ids {
        assert before[k - 1].id == ids[b.name];
        SetBuildAt(before, k - 1, ids[b.buildName]);
      }
    } else {
      assert bs[..0] == [];
    }
  }

  /** The renamings of an import of an export of `p`, ids handed out from number `n` on. */
  function InvRenaming<D>(p: Project<D>, n: nat, w: World): map<string, string> {
    Table(InvIds(p.inventories), NewIds(n, |p.inventories|, w))
  }

  function TplRenaming<D>(p: Project<D>, n: nat, w: World): map<string, string> {
    Table(TplIds(p.templates), NewIds(n + |p.inventories|, |p.templates|, w))
  }

  /** A renaming enters every id of the project, and no two ids become one. */
  lemma RenamingIsBijection(ids: seq<string>, n: nat, w: World)
    requires Distinct(ids) && FreshIds(w)
    ensures var m := Table(ids, NewIds(n, |ids|, w));
            && (forall x :: x in m <==> x in ids)
            && (forall x, y :: x in m && y in m && m[x] == m[y] ==> x == y)
  {
    var new_ := NewIds(n, |ids|, w);
    var m := Table(ids, new_);
    forall x ensures x in m <==> x in ids { TableKeys(ids, new_, x); }
    forall x, y | x in m && y in m && m[x] == m[y] ensures x == y {
      var i :| 0 <= i < |ids| && ids[i] == x;
      var j :| 0 <= j < |ids| && ids[j] == y;
      TableAt(ids, new_, i);
      TableAt(ids, new_, j);
    }
  }

  ghost predicate InventoriesCarried<D>(p: Project<D>, invs: seq<Inventory>, n: nat, w: World) {
    && |invs| == |p.inventories|
    && forall i :: 0 <= i < |p.inventories| ==>
        invs[i] == Inventory(w.newId(n + i), p.inventories[i].name, p.inventories[i].data)
  }

  /** The templates with fresh ids from number `m` on, and their links along the renamings. */
  ghost predicate TemplatesRenamed<D>(ts: seq<Template<D>>, r: seq<Template<D>>, m: nat, w: World,
                                      invs: map<string, string>, tpls: map<string, string>) {
    && |r| == |ts|
    && forall i :: 0 <= i < |ts| ==>
        r[i] == Template(w.newId(m + i), ts[i].name, ts[i].data,
                         Renamed(invs, ts[i].inventory), Renamed(tpls, ts[i].build))
  }

  ghost predicate TemplatesCarried<D>(p: Project<D>, tpls: seq<Template<D>>, n: nat, w: World) {
    TemplatesRenamed(p.templates, tpls, n + |p.inventories|, w, InvRenaming(p, n, w), TplRenaming(p, n, w))
  }

  ghost predicate WorkflowCarried(a: Workflow, b: Workflow, ids: map<string, string>) {
    && b.name == a.name && b.description == a.description && |b.steps| == |a.steps|
    && forall i :: 0 <= i < |a.steps| ==>
        b.steps[i] == WfStep(a.steps[i].name, Get(ids, a.steps[i].template), a.steps[i].condition)
  }

  ghost predicate WorkflowsCarried<D>(p: Project<D>, wfs: seq<Workflow>, n: nat, w: World) {
    && |wfs| == |p.workflows|
    && forall i :: 0 <= i < |p.workflows| ==> WorkflowCarried(p.workflows[i], wfs[i], TplRenaming(p, n, w))
  }

  /** The schedules that travel: recurring ones, with an expression that parses. */
  function Carried(scs: seq<Schedule>, template: string, w: World): (r: seq<Schedule>)
    ensures forall s :: s in r ==> s.template == template
  {
    if scs == [] then []
    else
      (if scs[0].cron != "" && w.parses(scs[0].cron) then [scs[0].(template := template)] else [])
      + Carried(scs[1..], template, w)
  }

  /** The imported schedules are those that travel, template by template, and no others. */
  ghost predicate SchedulesCarried<D>(p: Project<D>, scs: seq<Schedule>, n: nat, w: World) {
    && (forall i :: 0 <= i < |p.templates| ==>
          var id := w.newId(n + |p.inventories| + i);
          ListSchedules(scs, id) == Carried(ListSchedules(p.schedules, p.templates[i].id), id, w))
    && (forall s :: s in scs ==> s.template in NewIds(n + |p.inventories|, |p.templates|, w))
  }

  // ---- the tables an import of an export works with ---------------------------------------------------------

  /** From names to the new ids, as the import builds it. */
  function InvTable<D>(p: Project<D>, n: nat, w: World): map<string, string> {
    Table(InvNames(p.inventories), NewIds(n, |p.inventories|, w))
  }

  function TplTable<D>(p: Project<D>, n: nat, w: World): map<string, string> {
    Table(TplNames(p.templates), NewIds(n + |p.inventories|, |p.templates|, w))
  }

  lemma InvIdsOfImport(bs: seq<BundleInventory>, n: nat, w: World)
    ensures InvIds(ImportInventories(bs, n, w)) == NewIds(n, |bs|, w)
  {
  }

  lemma TplIdsOfImport<D>(bs: seq<BundleTemplate<D>>, n: nat, m: map<string, string>, w: World)
    ensures TplIds(ImportTemplates(bs, n, m, w)) == NewIds(n, |bs|, w)
  {
  }

  lemma NamesOfExport<D>(p: Project<D>)
    ensures BundleInvNames(Export(p)) == InvNames(p.inventories)
    ensures BundleTplNames(Export(p)) == TplNames(p.templates)
  {
  }

  /** The parts of an import, for the tables the handler has built. */
  lemma ImportParts<D>(b: Bundle<D>, n: nat, w: World, invIds: map<string, string>, tplIds: map<string, string>)
    requires b.name != ""
    requires invIds == Table(BundleInvNames(b), InvIds(ImportInventories(b.inventories, n, w)))
    requires tplIds == Table(BundleTplNames(b), TplIds(ImportTemplates(b.templates, n + |b.inventories|, invIds, w)))
    ensures var q := Import(b, n, w).value;
            && q.templates == LinkBuilds(ImportTemplates(b.templates, n + |b.inventories|, invIds, w),
                                         b.templates, tplIds)
            && q.workflows == ImportWorkflows(b.workflows, tplIds)
            && q.schedules == ImportSchedules(b.schedules, tplIds, w)
            && q.inventories == ImportInventories(b.inventories, n, w)
  {
  }

  lemma ExportSizes<D>(p: Project<D>)
    ensures var b := Export(p);
            b.name == p.name && |b.inventories| == |p.inventories| && |b.templates| == |p.templates|
  {
  }

  lemma TablesOfImport<D>(p: Project<D>, b: Bundle<D>, n: nat, w: World)
    requires |b.inventories| == |p.inventories| && |b.templates| == |p.templates|
    requires BundleInvNames(b) == InvNames(p.inventories) && BundleTplNames(b) == TplNames(p.templates)
    ensures Table(BundleInvNames(b), InvIds(ImportInventories(b.inventories, n, w))) == InvTable(p, n, w)
    ensures Table(BundleTplNames(b), TplIds(ImportTemplates(b.templates, n + |b.inventories|, InvTable(p, n, w), w)))
         == TplTable(p, n, w)
  {
    InvIdsOfImport(b.inventories, n, w);
    TplIdsOfImport(b.templates, n + |p.inventories|, InvTable(p, n, w), w);
  }

  lemma Unfolded<D>(p: Project<D>, n: nat, w: World)
    requires p.name != ""
    ensures var b, q := Export(p), Import(Export(p), n, w).value;
            && q.templates == LinkBuilds(ImportTemplates(b.templates, n + |p.inventories|, InvTable(p, n, w), w),
                                         b.templates, TplTable(p, n, w))
            && q.workflows == ImportWorkflows(b.workflows, TplTable(p, n, w))
            && q.schedules == ImportSchedules(b.schedules, TplTable(p, n, w), w)
            && q.inventories == ImportInventories(b.inventories, n, w)
  {
    ExportSizes(p);
    NamesOfExport(p);
    TablesOfImport(p, Export(p), n, w);
    ImportParts(Export(p), n, w, InvTable(p, n, w), TplTable(p, n, w));
  }

  lemma NewIdsDistinct(n: nat, count: nat, w: World)
    requires FreshIds(w)
    ensures Distinct(NewIds(n, count, w))
  {
    var ids := NewIds(n, count, w);
    forall i, j | 0 <= i < j < count ensures ids[i] != ids[j] {
      assert ids[i] == w.newId(n + i) && ids[j] == w.newId(n + j);
    }
  }

  lemma {:induction false} LinkThroughNames(ids: seq<string>, names: seq<string>, fresh_: seq<string>,
                                            link: Option<string>)
    requires |ids| == |names| == |fresh_| && Distinct(ids) && GoodNames(names)
    ensures LinkId(Table(names, fresh_), LinkName(Table(ids, names), link)) == Renamed(Table(ids, fresh_), link)
  {
    if link.Some? { ThroughNames(ids, names, fresh_, link.value); }
  }

  /** The two passes over templates, for tables with the right entries. */
  lemma TwoPasses<D>(bs: seq<BundleTemplate<D>>, n: nat, invIds: map<string, string>, tplIds: map<string, string>,
                     w: World)
    requires FreshIds(w)
    requires forall i :: 0 <= i < |bs| ==> bs[i].name in tplIds && tplIds[bs[i].name] == w.newId(n + i)
    ensures var r := LinkBuilds(ImportTemplates(bs, n, invIds, w), bs, tplIds);
            forall i :: 0 <= i < |bs| ==>
              r[i] == Template(w.newId(n + i), bs[i].name, bs[i].data, LinkId(invIds, bs[i].inventoryName),
                               LinkId(tplIds, bs[i].buildName))
  {
    var first := ImportTemplates(bs, n, invIds, w);
    TplIdsOfImport(bs, n, invIds, w);
    NewIdsDistinct(n, |bs|, w);
    BuildsLinked(first, bs, |bs|, tplIds);
    assert bs[..|bs|] == bs;
  }

  /** The tables read the bundle template `b` as `t`: its name as `id`, its links as the renamed links. */
  ghost predicate ReadsAs<D>(t: Template<D>, b: BundleTemplate<D>, id: string, invTable: map<string, string>,
                             tplTable: map<string, string>, invs: map<string, string>, tpls: map<string, string>) {
    && b.name == t.name && b.data == t.data
    && b.name in tplTable && tplTable[b.name] == id
    && LinkId(invTable, b.inventoryName) == Renamed(invs, t.inventory)
    && LinkId(tplTable, b.buildName) == Renamed(tpls, t.build)
  }

  lemma {:induction false} ReadsExported<D>(t: Template<D>, i: nat,
                                            invIds: seq<string>, invNames: seq<string>, newInvs: seq<string>,
                                            tplIds: seq<string>, tplNames: seq<string>, newTpls: seq<string>)
    requires |invIds| == |invNames| == |newInvs| && Distinct(invIds) && GoodNames(invNames)
    requires |tplIds| == |tplNames| == |newTpls| && Distinct(tplIds) && GoodNames(tplNames)
    requires i < |tplNames| && t.name == tplNames[i]
    ensures ReadsAs(t, ExportTemplate(t, Table(invIds, invNames), Table(tplIds, tplNames)), newTpls[i],
                    Table(invNames, newInvs), Table(tplNames, newTpls), Table(invIds, newInvs), Table(tplIds, newTpls))
  {
    TableAt(tplNames, newTpls, i);
    LinkThroughNames(invIds, invNames, newInvs, t.inventory);
    LinkThroughNames(tplIds, tplNames, newTpls, t.build);
  }

  lemma CarryTemplate<D>(p: Project<D>, n: nat, w: World, i: nat)
    requires Portable(p) && i < |p.templates|
    ensures |Export(p).templates| == |p.templates|
    ensures ReadsAs(p.templates[i], Export(p).templates[i], w.newId(n + |p.inventories| + i),
                    InvTable(p, n, w), TplTable(p, n, w), InvRenaming(p, n, w), TplRenaming(p, n, w))
  {
    ReadsExported(p.templates[i], i, InvIds(p.inventories), InvNames(p.inventories), NewIds(n, |p.inventories|, w),
                  TplIds(p.templates), TplNames(p.templates), NewIds(n + |p.inventories|, |p.templates|, w));
  }

  ghost predicate AllRead<D>(ts: seq<Template<D>>, bs: seq<BundleTemplate<D>>, m: nat, w: World,
                             invTable: map<string, string>, tplTable: map<string, string>,
                             invs: map<string, string>, tpls: map<string, string>) {
    && |bs| == |ts|
    && forall i :: 0 <= i < |ts| ==> ReadsAs(ts[i], bs[i], w.newId(m + i), invTable, tplTable, invs, tpls)
  }

  lemma PassesRead<D>(ts: seq<Template<D>>, bs: seq<BundleTemplate<D>>, m: nat, invTable: map<string, string>,
                      tplTable: map<string, string>, invs: map<string, string>, tpls: map<string, string>, w: World)
    requires FreshIds(w) && AllRead(ts, bs, m, w, invTable, tplTable, invs, tpls)
    ensures TemplatesRenamed(ts, LinkBuilds(ImportTemplates(bs, m, invTable, w), bs, tplTable), m, w, invs, tpls)
  {
    forall i | 0 <= i < |bs| ensures bs[i].name in tplTable && tplTable[bs[i].name] == w.newId(m + i) {
      assert ReadsAs(ts[i], bs[i], w.newId(m + i), invTable, tplTable, invs, tpls);
    }
    TwoPasses(bs, m, invTable, tplTable, w);
    var r := LinkBuilds(ImportTemplates(bs, m, invTable, w), bs, tplTable);
    forall i | 0 <= i < |ts|
      ensures r[i] == Template(w.newId(m + i), ts[i].name, ts[i].data,
                               Renamed(invs, ts[i].inventory), Renamed(tpls, ts[i].build))
    {
      assert ReadsAs(ts[i], bs[i], w.newId(m + i), invTable, tplTable, invs, tpls);
    }
  }

  lemma TemplatesRead<D>(p: Project<D>, n: nat, w: World)
    requires Portable(p)
    ensures AllRead(p.templates, Export(p).templates, n + |p.inventories|, w,
                    InvTable(p, n, w), TplTable(p, n, w), InvRenaming(p, n, w), TplRenaming(p, n, w))
  {
    forall i | 0 <= i < |p.templates|
      ensures ReadsAs(p.templates[i], Export(p).templates[i], w.newId(n + |p.inventories| + i),
                      InvTable(p, n, w), TplTable(p, n, w), InvRenaming(p, n, w), TplRenaming(p, n, w))
    {
      CarryTemplate(p, n, w, i);
    }
  }

  lemma {:induction false} CarryTemplates<D>(p: Project<D>, bs: seq<BundleTemplate<D>>, invTable: map<string, string>,
                                             tplTable: map<string, string>, n: nat, w: World)
    requires FreshIds(w)
    requires AllRead(p.templates, bs, n + |p.inventories|, w, invTable, tplTable,
                     InvRenaming(p, n, w), TplRenaming(p, n, w))
    ensures TemplatesCarried(p, LinkBuilds(ImportTemplates(bs, n + |p.inventories|, invTable, w), bs, tplTable), n, w)
  {
    PassesRead(p.templates, bs, n + |p.inventories|, invTable, tplTable, InvRenaming(p, n, w), TplRenaming(p, n, w), w);
  }

  lemma {:induction false} CarryWorkflow(a: Workflow, ids: seq<string>, names: seq<string>, fresh_: seq<string>)
    requires |ids| == |names| == |fresh_| && Distinct(ids) && GoodNames(names)
    ensures WorkflowCarried(a, ImportWorkflow(ExportWorkflow(a, Table(ids, names)), Table(names, fresh_)),
         Table(ids, fresh_))
  {
    forall j | 0 <= j < |a.steps|
      ensures Get(Table(names, fresh_), Get(Table(ids, names), a.steps[j].template))
           == Get(Table(ids, fresh_), a.steps[j].template)
    {
      ThroughNames(ids, names, fresh_, a.steps[j].template);
    }
  }

  lemma CarryWorkflows<D>(p: Project<D>, bs: seq<BundleWorkflow>, n: nat, w: World)
    requires Portable(p) && bs == Export(p).workflows
    ensures WorkflowsCarried(p, ImportWorkflows(bs, TplTable(p, n, w)), n, w)
  {
    var ids, names, fresh_ := TplIds(p.templates), TplNames(p.templates), NewIds(n + |p.inventories|, |p.templates|, w);
    assert |bs| == |p.workflows|;
    forall i | 0 <= i < |p.workflows|
      ensures WorkflowCarried(p.workflows[i], ImportWorkflow(bs[i], TplTable(p, n, w)), TplRenaming(p, n, w))
    {
      assert bs[i] == ExportWorkflow(p.workflows[i], Table(ids, names));
      CarryWorkflow(p.workflows[i], ids, names, fresh_);
    }
  }

  // ---- schedules ------------------------------------------------------------------------------------------

  lemma {:induction false} ListJoin(a: seq<Schedule>, b: seq<Schedule>, id: string)
    ensures ListSchedules(a + b, id) == ListSchedules(a, id) + ListSchedules(b, id)
  {
    if a == [] {
      assert a + b == b;
    } else {
      assert (a + b)[0] == a[0] && (a + b)[1..] == a[1..] + b;
      ListJoin(a[1..], b, id);
    }
  }

  lemma {:induction false} ListOfOne(scs: seq<Schedule>, id: string, other: string)
    requires forall s :: s in scs ==> s.template == other
    ensures ListSchedules(scs, id) == if id == other then scs else []
  {
    if scs != [] {
      assert scs[0] in scs && forall s :: s in scs[1..] ==> s in scs;
      ListOfOne(scs[1..], id, other);
    }
  }

  lemma {:induction false} ImportJoin(a: seq<BundleSchedule>, b: seq<BundleSchedule>, ids: map<string, string>,
                                      w: World)
    ensures ImportSchedules(a + b, ids, w) == ImportSchedules(a, ids, w) + ImportSchedules(b, ids, w)
  {
    if a == [] {
      assert a + b == b;
    } else {
      assert (a + b)[0] == a[0] && (a + b)[1..] == a[1..] + b;
      ImportJoin(a[1..], b, ids, w);
    }
  }

  lemma {:induction false} ImportOfOne(scs: seq<Schedule>, name: string, ids: map<string, string>, w: World)
    requires name in ids
    ensures ImportSchedules(ExportSchedules(scs, name), ids, w) == Carried(scs, ids[name], w)
  {
    if scs != [] {
      var one := if scs[0].cron == "" then [] else [BundleSchedule(scs[0].name, scs[0].cron, name, scs[0].active)];
      ImportJoin(one, ExportSchedules(scs[1..], name), ids, w);
      ImportOfOne(scs[1..], name, ids, w);
      if one != [] { assert one[1..] == []; }
    }
  }

  /** Importing the exported schedules of template `t`, followed by others. */
  lemma ImportFirst<D>(t: Template<D>, all: seq<Schedule>, rest: seq<BundleSchedule>, ids: map<string, string>,
                       w: World, id: string)
    requires t.name in ids
    ensures ListSchedules(ImportSchedules(ExportSchedules(ListSchedules(all, t.id), t.name) + rest, ids, w), id)
         == (if id == ids[t.name] then Carried(ListSchedules(all, t.id), id, w) else [])
             + ListSchedules(ImportSchedules(rest, ids, w), id)
  {
    var own := ListSchedules(all, t.id);
    ImportJoin(ExportSchedules(own, t.name), rest, ids, w);
    ImportOfOne(own, t.name, ids, w);
    ListJoin(Carried(own, ids[t.name], w), ImportSchedules(rest, ids, w), id);
    ListOfOne(Carried(own, ids[t.name], w), id, ids[t.name]);
  }

  /** The imported schedules of the templates from the k-th on: those of template `i`, and nothing
      of templates before them. */
  lemma {:induction false} SchedulesFrom<D>(tpls: seq<Template<D>>, all: seq<Schedule>, fresh_: seq<string>, k: nat,
                                            ids: map<string, string>, w: World, i: nat)
    requires |fresh_| == |tpls| && Distinct(fresh_) && k <= |tpls| && i < |tpls|
    requires forall j :: 0 <= j < |tpls| ==> tpls[j].name in ids && ids[tpls[j].name] == fresh_[j]
    ensures ListSchedules(ImportSchedules(ExportAllSchedules(tpls[k..], all), ids, w), fresh_[i])
         == if k <= i then Carried(ListSchedules(all, tpls[i].id), fresh_[i], w) else []
    decreases |tpls| - k
  {
    if k < |tpls| {
      SchedulesFrom(tpls, all, fresh_, k + 1, ids, w, i);
      ExportFrom(tpls, all, k);
      ImportFirst(tpls[k], all, ExportAllSchedules(tpls[k + 1..], all), ids, w, fresh_[i]);
      assert i == k <==> fresh_[i] == fresh_[k];
    } else {
      assert tpls[k..] == [];
    }
  }

  /** An imported schedule belongs to a template that the table knows by name. */
  lemma {:induction false} ImportedBelongs(bs: seq<BundleSchedule>, ids: map<string, string>, w: World, s: Schedule)
    requires s in ImportSchedules(bs, ids, w)
    ensures exists name :: name in ids && ids[name] == s.template
  {
    if bs != [] && s in ImportSchedules(bs[1..], ids, w) {
      ImportedBelongs(bs[1..], ids, w, s);
    } else {
      assert bs[0].templateName in ids;
    }
  }

  lemma ValueIsEntry(keys: seq<string>, vals: seq<string>, k: string) returns (i: nat)
    requires |keys| == |vals| && Distinct(keys) && k in Table(keys, vals)
    ensures i < |keys| && Table(keys, vals)[k] == vals[i]
  {
    TableKeys(keys, vals, k);
    i :| 0 <= i < |keys| && keys[i] == k;
    TableAt(keys, vals, i);
  }

  lemma NoOtherSchedules<D>(p: Project<D>, n: nat, w: World, bs: seq<BundleSchedule>, s: Schedule)
    requires Portable(p) && s in ImportSchedules(bs, TplTable(p, n, w), w)
    ensures s.template in NewIds(n + |p.inventories|, |p.templates|, w)
  {
    ImportedBelongs(bs, TplTable(p, n, w), w, s);
    var name :| name in TplTable(p, n, w) && TplTable(p, n, w)[name] == s.template;
    var fresh_ := NewIds(n + |p.inventories|, |p.templates|, w);
    var i := ValueIsEntry(TplNames(p.templates), fresh_, name);
    assert s.template == fresh_[i];
  }

  lemma {:induction false} CarrySchedules<D>(p: Project<D>, n: nat, w: World)
    requires Portable(p) && FreshIds(w)
    ensures SchedulesCarried(p, ImportSchedules(ExportAllSchedules(p.templates, p.schedules), TplTable(p, n, w), w),
                             n, w)
  {
    var bs, ids := ExportAllSchedules(p.templates, p.schedules), TplTable(p, n, w);
    forall i | 0 <= i < |p.templates|
      ensures var id := w.newId(n + |p.inventories| + i);
              ListSchedules(ImportSchedules(bs, ids, w), id)
              == Carried(ListSchedules(p.schedules, p.templates[i].id), id, w)
    {
      CarryOwnSchedules(p, n, w, i);
    }
    forall s | s in ImportSchedules(bs, ids, w)
      ensures s.template in NewIds(n + |p.inventories|, |p.templates|, w)
    {
      NoOtherSchedules(p, n, w, bs, s);
    }
  }

  lemma CarryOwnSchedules<D>(p: Project<D>, n: nat, w: World, i: nat)
    requires Portable(p) && FreshIds(w) && i < |p.templates|
    ensures var id := w.newId(n + |p.inventories| + i);
            ListSchedules(ImportSchedules(ExportAllSchedules(p.templates, p.schedules), TplTable(p, n, w), w), id)
            == Carried(ListSchedules(p.schedules, p.templates[i].id), id, w)
  {
    var fresh_ := NewIds(n + |p.inventories|, |p.templates|, w);
    NewIdsDistinct(n + |p.inventories|, |p.templates|, w);
    forall j | 0 <= j < |p.templates|
      ensures p.templates[j].name in TplTable(p, n, w) && TplTable(p, n, w)[p.templates[j].name] == fresh_[j]
    {
      TableAt(TplNames(p.templates), fresh_, j);
    }
    assert p.templates[0..] == p.templates;
    SchedulesFrom(p.templates, p.schedules, fresh_, 0, TplTable(p, n, w), w, i);
  }

  /** Importing an export yields a local project, whatever the source type and sub path in the
      bundle, that is the same under a renaming of ids: the same inventories and templates in the
      same order, inventory and build links, workflow steps and recurring schedules carried along
      the renaming.  A reference out of the project is dropped: a link becomes none, a step's
      template the empty string. */
  lemma ImportOfExport<D>(p: Project<D>, n: nat, w: World)
    requires Portable(p) && FreshIds(w)
    ensures Import(Export(p), n, w).Some? <==> p.name != ""
    ensures p.name != "" ==>
              var q := Import(Export(p), n, w).value;
              && q.name == p.name + " (imported)" && q.description == p.description
              && q.sourceType == "local" && q.subPath == ""
              && InventoriesCarried(p, q.inventories, n, w) && TemplatesCarried(p, q.templates, n, w)
              && WorkflowsCarried(p, q.workflows, n, w) && SchedulesCarried(p, q.schedules, n, w)
  {
    if p.name != "" {
      Unfolded(p, n, w);
      TemplatesRead(p, n, w);
      CarryTemplates(p, Export(p).templates, InvTable(p, n, w), TplTable(p, n, w), n, w);
      CarryWorkflows(p, Export(p).workflows, n, w);
      CarrySchedules(p, n, w);
    }
  }
}
