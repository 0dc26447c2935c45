/** What a program does to a configuration between making and saving it, and which of it a
    saved file cannot tell. */
module ConfigEdits {
  import opened Common
  import opened ConfigModel
  import opened ConfigReplay

  /** One call: `section_`, `component_` or `webapp_` of the configuration, or an edit of the
      section found along `path` from a top level section. */
  datatype Call =
    | MakeSection(name: string)
    | MakeComponent(name: string)
    | MakeWebapp(name: string)
    | EditIn(name: string, path: seq<string>, edit: Edit)

  function WithSection(c: Conf, n: string, s: Sec): Conf {
    c.(attrs := c.attrs[n := s])
  }

  /** `None` if the call raises. */
  function Perform(c: Conf, call: Call): Option<Conf> {
    match call
    case MakeSection(n) => Some(TopSection(c, n))
    case MakeComponent(n) => Some(Component(c, n))
    case MakeWebapp(n) => Some(Webapp(c, n))
    case EditIn(n, path, edit) =>
      if n !in c.attrs then None
      else match EditAt(c.attrs[n], path, edit)
        case None => None
        case Some(s) => Some(WithSection(c, n, s))
  }

  function PerformAll(c: Conf, calls: seq<Call>): Option<Conf>
    decreases |calls|
  {
    if calls == [] then Some(c)
    else match Perform(c, calls[0])
      case None => None
      case Some(c') => PerformAll(c', calls[1..])
  }

  // ----- which calls a saved file can tell -----

  predicate IsWebappDefault(a: string) {
    a == WEBTOOLS || a == DATABASE || a == SECURITY
  }

  /** The edit leaves alone what `component_` and `webapp_` make again when the file is loaded:
      it deletes no default, and stores no section over the directory of a component. */
  predicate DefaultsKept(c: Conf, n: string, path: seq<string>, edit: Edit) {
    path != [] ||
    match edit
    case Delete(a) => !(n in c.components && a == COMPONENT_DIR) && !(n in c.webapps && IsWebappDefault(a))
    case Store(a, _) => !(n in c.components && a == COMPONENT_DIR)
    case Do(_) => true
  }

  /** The section has a plain value where `webapp_` wants one of its sections. */
  predicate DefaultTaken(s: Sec, a: string) {
    a in s.attrs && s.attrs[a].Plain?
  }

  predicate SomeDefaultTaken(s: Sec) {
    DefaultTaken(s, WEBTOOLS) || DefaultTaken(s, DATABASE) || DefaultTaken(s, SECURITY)
  }

  /** The calls after which a saved file still tells the configuration. A name can be made a
      component unless it is a webapp or has a section called `componentDir`, and a webapp
      unless it is a component or has a plain value for one of the three default sections. */
  predicate Told(c: Conf, call: Call) {
    match call
    case MakeSection(_) => true
    case MakeComponent(n) =>
      n in c.components || (n !in c.webapps && (n in c.attrs ==> COMPONENT_DIR !in c.attrs[n].children))
    case MakeWebapp(n) =>
      n in c.webapps || (n !in c.components && (n in c.attrs ==> !SomeDefaultTaken(c.attrs[n])))
    case EditIn(n, path, edit) =>
      n in c.attrs && SectionAt(c.attrs[n], path).Some?
      && Harmless(SectionAt(c.attrs[n], path).value, edit) && DefaultsKept(c, n, path, edit)
  }

  /** What a well-formed configuration asks of the section `s` called `n`. */
  predicate FitsAs(c: Conf, n: string, s: Sec) {
    && s.name == n && WellFormed(s)
    && (n in c.components ==> COMPONENT_DIR in s.attrs && s.attrs[COMPONENT_DIR].Plain?)
    && (n in c.webapps ==> {WEBTOOLS, DATABASE, SECURITY} <= s.children)
  }

  /** `d` is `c` but for the section `n` and whether `n` is a component or a webapp. */
  ghost predicate ChangedAt(c: Conf, d: Conf, n: string) {
    && n in c.attrs && n in d.attrs && d.sections == c.sections && d.attrs == c.attrs[n := d.attrs[n]]
    && (forall m | m != n :: (m in d.components <==> m in c.components) && (m in d.webapps <==> m in c.webapps))
  }

  lemma OtherFits(c: Conf, d: Conf, n: string, m: string)
    requires WellFormedConf(c) && ChangedAt(c, d, n) && m in d.attrs && m != n
    ensures m in d.sections && FitsAs(d, m, d.attrs[m]) && !(m in d.components && m in d.webapps)
  {
    assert d.attrs[m] == c.attrs[m];
  }

  lemma ChangedFits(c: Conf, d: Conf, n: string)
    requires WellFormedConf(c) && ConfOk(c) && ChangedAt(c, d, n)
    ensures WellFormedConf(d) <==> FitsAs(d, n, d.attrs[n]) && !(n in d.components && n in d.webapps)
  {
    if FitsAs(d, n, d.attrs[n]) && !(n in d.components && n in d.webapps) {
      forall m | m in d.attrs
        ensures m in d.sections && FitsAs(d, m, d.attrs[m]) && !(m in d.components && m in d.webapps)
      {
        if m != n { OtherFits(c, d, n, m); }
      }
      forall m | m in d.components ensures m !in d.webapps {
        assert m != n ==> m in c.components;
      }
    }
  }

  lemma DefaultsKeptHere(c: Conf, n: string, edit: Edit)
    requires ConfOk(c) && WellFormedConf(c) && n in c.attrs && EditHere(c.attrs[n], edit).Some?
    requires Harmless(c.attrs[n], edit)
    ensures var s' := EditHere(c.attrs[n], edit).value;
            (n in c.components ==> COMPONENT_DIR in s'.attrs && s'.attrs[COMPONENT_DIR].Plain?)
            && (n in c.webapps ==> {WEBTOOLS, DATABASE, SECURITY} <= s'.children)
            <==> DefaultsKept(c, n, [], edit)
  {
    assert SecOk(c.attrs[n]);
    var s' := EditHere(c.attrs[n], edit).value;
    match edit
    case Delete(a) =>
      if n in c.webapps && IsWebappDefault(a) { assert a !in s'.children; }
    case Store(a, sub) => assert s'.attrs[a] == Sub(sub);
    case Do(_) =>
  }

  /** An edit keeps a whole configuration well formed if and only if it keeps the section well
      formed and the defaults in place. */
  lemma EditKeepsConfIff(c: Conf, n: string, path: seq<string>, edit: Edit)
    requires ConfOk(c) && WellFormedConf(c) && n in c.attrs && EditAt(c.attrs[n], path, edit).Some?
    ensures SectionAt(c.attrs[n], path).Some?
    ensures WellFormedConf(WithSection(c, n, EditAt(c.attrs[n], path, edit).value)) <==>
            Harmless(SectionAt(c.attrs[n], path).value, edit) && DefaultsKept(c, n, path, edit)
  {
    var s, s' := c.attrs[n], EditAt(c.attrs[n], path, edit).value;
    EditKeepsWellFormedIff(s, path, edit);
    assert ChangedAt(c, WithSection(c, n, s'), n);
    ChangedFits(c, WithSection(c, n, s'), n);
    if path != [] {
      assert s'.children == s.children && s'.attrs.Keys == s.attrs.Keys;
      assert n in c.components ==> path[0] != COMPONENT_DIR;
    } else if Harmless(s, edit) {
      DefaultsKeptHere(c, n, edit);
    }
  }

  lemma TopSectionKeeps(c: Conf, n: string)
    requires WellFormedConf(c) && ConfOk(c)
    ensures WellFormedConf(TopSection(c, n)) && n in TopSection(c, n).attrs
  {
  }

  lemma ComponentKeepsIff(c: Conf, n: string)
    requires ConfOk(c) && WellFormedConf(c) && n in c.attrs
    ensures WellFormedConf(Component(c, n)) <==> Told(c, MakeComponent(n))
  {
    var s, d := c.attrs[n], Component(c, n);
    if n !in c.components {
      assert SecOk(s) && d.attrs[n] == ComponentDefaults(s) && d.attrs[n].attrs[COMPONENT_DIR].Plain?;
      assert d.components == c.components + [n] && ChangedAt(c, d, n);
      ChangedFits(c, d, n);
    }
  }

  /** `section_` makes the section, unless there is a plain value. */
  lemma EnsureKeeps(s: Sec, a: string, b: string)
    requires SecOk(s) && WellFormed(s)
    ensures var s' := EnsureSection(s, a);
            && SecOk(s') && WellFormed(s') && s'.name == s.name
            && (a in s'.children <==> !DefaultTaken(s, a))
            && (b != a ==> (b in s'.children <==> b in s.children) && (DefaultTaken(s', b) <==> DefaultTaken(s, b)))
  {
    ApplyKeepsOk(s, [], ConfigModel.MakeSection(a));
  }

  lemma TwoDefaultsAre(s: Sec)
    requires SecOk(s) && WellFormed(s)
    ensures var s' := EnsureSection(EnsureSection(s, WEBTOOLS), DATABASE);
            && SecOk(s') && WellFormed(s') && s'.name == s.name
            && (WEBTOOLS in s'.children <==> !DefaultTaken(s, WEBTOOLS))
            && (DATABASE in s'.children <==> !DefaultTaken(s, DATABASE))
            && (DefaultTaken(s', SECURITY) <==> DefaultTaken(s, SECURITY))
  {
    var s1 := EnsureSection(s, WEBTOOLS);
    EnsureKeeps(s, WEBTOOLS, DATABASE);
    EnsureKeeps(s, WEBTOOLS, SECURITY);
    EnsureKeeps(s1, DATABASE, WEBTOOLS);
    EnsureKeeps(s1, DATABASE, SECURITY);
  }

  lemma WebappDefaultsAre(s: Sec)
    requires SecOk(s) && WellFormed(s)
    ensures var s' := WebappDefaults(s);
            && s'.name == s.name && WellFormed(s')
            && ({WEBTOOLS, DATABASE, SECURITY} <= s'.children <==> !SomeDefaultTaken(s))
  {
    var s2 := EnsureSection(EnsureSection(s, WEBTOOLS), DATABASE);
    TwoDefaultsAre(s);
    EnsureKeeps(s2, SECURITY, WEBTOOLS);
    EnsureKeeps(s2, SECURITY, DATABASE);
  }

  lemma WebappKeepsIff(c: Conf, n: string)
    requires ConfOk(c) && WellFormedConf(c) && n in c.attrs
    ensures WellFormedConf(Webapp(c, n)) <==> Told(c, MakeWebapp(n))
  {
    var s, d := c.attrs[n], Webapp(c, n);
    if n !in c.webapps {
      WebappDefaultsAre(s);
      assert d.attrs[n] == WebappDefaults(s);
      assert d.webapps == c.webapps + [n] && ChangedAt(c, d, n);
      ChangedFits(c, d, n);
    }
  }

  lemma TopSectionTells(c: Conf, n: string)
    requires ConfOk(c) && WellFormedConf(c)
    ensures Told(TopSection(c, n), MakeComponent(n)) <==> Told(c, MakeComponent(n))
    ensures Told(TopSection(c, n), MakeWebapp(n)) <==> Told(c, MakeWebapp(n))
    ensures Component(TopSection(c, n), n) == Component(c, n) && Webapp(TopSection(c, n), n) == Webapp(c, n)
  {
  }

  /** A call keeps a configuration well formed if and only if it is one of those. */
  lemma CallKeepsIff(c: Conf, call: Call)
    requires ConfOk(c) && WellFormedConf(c) && Perform(c, call).Some?
    ensures WellFormedConf(Perform(c, call).value) <==> Told(c, call)
  {
    match call
    case MakeSection(n) => TopSectionKeeps(c, n);
    case MakeComponent(n) => {
      TopSectionKeeps(c, n);
      TopSectionKeepsOk(c, n);
      TopSectionTells(c, n);
      ComponentKeepsIff(TopSection(c, n), n);
    }
    case MakeWebapp(n) => {
      TopSectionKeeps(c, n);
      TopSectionKeepsOk(c, n);
      TopSectionTells(c, n);
      WebappKeepsIff(TopSection(c, n), n);
    }
    case EditIn(n, path, edit) => EditKeepsConfIff(c, n, path, edit);
  }

  /** A section that a program stores was kept by the attribute methods too. */
  ghost predicate Sound(call: Call) {
    call.EditIn? && call.edit.Store? ==> SecOk(call.edit.section)
  }

  lemma CallKeepsOk(c: Conf, call: Call)
    requires ConfOk(c) && Perform(c, call).Some? && Sound(call)
    ensures ConfOk(Perform(c, call).value)
  {
    match call
    case MakeSection(n) => ApplyLineKeepsOk(c, SectionLine(n));
    case MakeComponent(n) => ApplyLineKeepsOk(c, ComponentLine(n));
    case MakeWebapp(n) => ApplyLineKeepsOk(c, WebappLine(n));
    case EditIn(n, path, edit) =>
      EditKeepsOk(c.attrs[n], path, edit);
      WithSectionOk(c, n, EditAt(c.attrs[n], path, edit).value);
  }

  /** A configuration that a saved file tells is still told after a call if and only if the
      call is one of those, whatever the iteration order and the options. */
  lemma CallToldIff(c: Conf, call: Call, orders: map<string, Order>, opts: Options)
    requires ConfOk(c) && WellFormedConf(c) && Perform(c, call).Some? && Sound(call)
    requires IsOrderOf(Perform(c, call).value, orders)
    ensures ConfOk(Perform(c, call).value)
    ensures Rebuilds(Perform(c, call).value, orders, opts) <==> Told(c, call)
  {
    CallKeepsOk(c, call);
    CallKeepsIff(c, call);
    SaveLoadIffWellFormed(Perform(c, call).value, orders, opts);
  }

  // ----- whole programs -----

  /** Every call succeeds, stores sound sections only, and is one of those. */
  ghost predicate AllTold(c: Conf, calls: seq<Call>)
    decreases |calls|
  {
    calls == [] ||
    (Perform(c, calls[0]).Some? && Sound(calls[0]) && Told(c, calls[0])
     && AllTold(Perform(c, calls[0]).value, calls[1..]))
  }

  lemma {:induction false} AllToldKeeps(c: Conf, calls: seq<Call>)
    requires ConfOk(c) && WellFormedConf(c) && AllTold(c, calls)
    ensures PerformAll(c, calls).Some?
    ensures ConfOk(PerformAll(c, calls).value) && WellFormedConf(PerformAll(c, calls).value)
    decreases |calls|
  {
    if calls != [] {
      CallKeepsOk(c, calls[0]);
      CallKeepsIff(c, calls[0]);
      AllToldKeeps(Perform(c, calls[0]).value, calls[1..]);
    }
  }

  /** Whatever such calls a program makes, in any number and order, starting with an empty
      configuration: saving and loading gives back what it made. */
  lemma ProgramsAreSaved(calls: seq<Call>, orders: map<string, Order>, opts: Options)
    requires AllTold(EMPTY_CONF, calls)
    requires PerformAll(EMPTY_CONF, calls).Some? ==> IsOrderOf(PerformAll(EMPTY_CONF, calls).value, orders)
    ensures PerformAll(EMPTY_CONF, calls).Some? && ConfOk(PerformAll(EMPTY_CONF, calls).value)
    ensures IsOrderOf(PerformAll(EMPTY_CONF, calls).value, orders)
    ensures Rebuilds(PerformAll(EMPTY_CONF, calls).value, orders, opts)
  {
    AllToldKeeps(EMPTY_CONF, calls);
    SaveLoadIffWellFormed(PerformAll(EMPTY_CONF, calls).value, orders, opts);
  }

  lemma TwoCalls(c: Conf, first: Call, second: Call)
    requires Perform(c, first).Some?
    ensures PerformAll(c, [first, second]) == Perform(Perform(c, first).value, second)
  {
    var calls := [first, second];
    assert calls[1..] == [second] && calls[1..][1..] == [];
    var c' := Perform(c, first).value;
    assert PerformAll(c', calls[1..]) == Perform(c', second);
  }

  /** A component without its default field is not told: loading puts the field back. */
  lemma DeletedDefaultComesBack(orders: map<string, Order>, opts: Options) returns (c: Conf)
    ensures ConfOk(c) && PerformAll(EMPTY_CONF, [MakeComponent("w"), EditIn("w", [], Delete(COMPONENT_DIR))]) == Some(c)
    ensures "w" in c.attrs && WellFormed(c.attrs["w"])
    ensures IsOrderOf(c, orders) ==> !Rebuilds(c, orders, opts)
  {
    var makes, deletes := MakeComponent("w"), EditIn("w", [], Delete(COMPONENT_DIR));
    var made := Component(EMPTY_CONF, "w");
    CallKeepsOk(EMPTY_CONF, makes);
    CallKeepsIff(EMPTY_CONF, makes);
    TwoCalls(EMPTY_CONF, makes, deletes);
    assert "w" in made.components && "w" in made.attrs && COMPONENT_DIR in made.attrs["w"].attrs;
    c := Perform(made, deletes).value;
    CallKeepsOk(made, deletes);
    if IsOrderOf(c, orders) {
      CallToldIff(made, deletes, orders, opts);
    }
  }
}
