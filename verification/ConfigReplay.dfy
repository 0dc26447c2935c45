/** Saving a configuration and running the saved file. */
module ConfigReplay {
  import opened Common
  import opened ConfigModel

  // ----- running lists of statements -----

  lemma {:induction false} RunAppend(s: Sec, xs: seq<Stmt>, ys: seq<Stmt>)
    ensures Run(s, xs + ys) == match Run(s, xs) case None => None case Some(s') => Run(s', ys)
    decreases |xs|
  {
    if xs == [] {
      assert xs + ys == ys;
    } else {
      assert (xs + ys)[1..] == xs[1..] + ys;
      match Apply(s, xs[0].path, xs[0].op)
      case None =>
      case Some(s') => RunAppend(s', xs[1..], ys);
    }
  }

  /** Statements aimed at a child change that child alone, as if they ran on it. */
  lemma {:induction false} RunUnder(s: Sec, c: string, stmts: seq<Stmt>)
    requires c in s.attrs && s.attrs[c].Sub?
    ensures Run(s, Under(c, stmts)) ==
            match Run(s.attrs[c].sec, stmts)
            case None => None
            case Some(sub) => Some(s.(attrs := s.attrs[c := Sub(sub)]))
    decreases |stmts|
  {
    var all := Under(c, stmts);
    if stmts == [] {
      assert s.attrs[c := Sub(s.attrs[c].sec)] == s.attrs;
    } else {
      assert all[0].path[0] == c && all[0].path[1..] == stmts[0].path;
      assert all[1..] == Under(c, stmts[1..]);
      match Apply(s.attrs[c].sec, stmts[0].path, stmts[0].op)
      case None =>
      case Some(sub) =>
        var s' := s.(attrs := s.attrs[c := Sub(sub)]);
        RunUnder(s', c, stmts[1..]);
        match Run(sub, stmts[1..])
        case None =>
        case Some(sub') => assert s'.attrs[c := Sub(sub')] == s.attrs[c := Sub(sub')];
    }
  }

  lemma {:induction false} RunLinesAppend(c: Conf, xs: seq<Line>, ys: seq<Line>)
    ensures RunLines(c, xs + ys) == match RunLines(c, xs) case None => None case Some(c') => RunLines(c', ys)
    decreases |xs|
  {
    if xs == [] {
      assert xs + ys == ys;
    } else {
      assert (xs + ys)[1..] == xs[1..] + ys;
      match ApplyLine(c, xs[0])
      case None =>
      case Some(c') => RunLinesAppend(c', xs[1..], ys);
    }
  }

  lemma {:induction false} RunInSection(c: Conf, n: string, stmts: seq<Stmt>)
    requires n in c.attrs
    ensures RunLines(c, InSectionLines(n, stmts)) ==
            match Run(c.attrs[n], stmts)
            case None => None
            case Some(s) => Some(c.(attrs := c.attrs[n := s]))
    decreases |stmts|
  {
    var all := InSectionLines(n, stmts);
    if stmts == [] {
      assert c.attrs[n := c.attrs[n]] == c.attrs;
    } else {
      assert all[1..] == InSectionLines(n, stmts[1..]);
      match Apply(c.attrs[n], stmts[0].path, stmts[0].op)
      case None =>
      case Some(s) =>
        var c' := c.(attrs := c.attrs[n := s]);
        RunInSection(c', n, stmts[1..]);
        match Run(s, stmts[1..])
        case None =>
        case Some(s') => assert c'.attrs[n := s'] == c.attrs[n := s'];
    }
  }

  /** No assignment, deletion or statement, at any depth, breaks what the attribute methods
      maintain. */
  lemma {:induction false} EditKeepsOk(s: Sec, path: seq<string>, edit: Edit)
    requires SecOk(s) && EditAt(s, path, edit).Some? && (edit.Store? ==> SecOk(edit.section))
    ensures SecOk(EditAt(s, path, edit).value)
    decreases |path|
  {
    if path != [] {
      EditKeepsOk(s.attrs[path[0]].sec, path[1..], edit);
    }
  }

  lemma {:induction false} ApplyIsEdit(s: Sec, path: seq<string>, op: Op)
    ensures Apply(s, path, op) == EditAt(s, path, Do(op))
    decreases |path|
  {
    if path != [] && path[0] in s.attrs && s.attrs[path[0]].Sub? {
      ApplyIsEdit(s.attrs[path[0]].sec, path[1..], op);
    }
  }

  lemma ApplyKeepsOk(s: Sec, path: seq<string>, op: Op)
    requires SecOk(s) && Apply(s, path, op).Some?
    ensures SecOk(Apply(s, path, op).value)
  {
    ApplyIsEdit(s, path, op);
    EditKeepsOk(s, path, Do(op));
  }

  // ----- what is saved, and when it is enough -----

  /** The part of a section that a saved file keeps: everything but documentation when
      `document` is off, and with it on everything but docstrings of child sections. */
  function Saved(s: Sec, document: bool): Sec {
    Sec(if document then s.doc else "", s.name, s.settings, SavedDocs(s, document), s.children,
        map a | a in s.attrs :: SavedAttr(s.attrs[a], document))
  }

  function SavedAttr(a: Attr, document: bool): Attr {
    match a
    case Plain(v) => Plain(v)
    case Sub(sub) => Sub(Saved(sub, document))
  }

  function SavedDocs(s: Sec, document: bool): map<string, string> {
    if document then map a | a in s.docstrings && a in s.attrs && s.attrs[a].Plain? :: s.docstrings[a] else map[]
  }

  /** Every child is still a section, and is stored under its own internal name. */
  predicate WellFormed(s: Sec) {
    && (forall c | c in s.children :: c in s.attrs && s.attrs[c].Sub?)
    && (forall a | a in s.attrs ::
          match s.attrs[a]
          case Plain(_) => true
          case Sub(sub) => sub.name == a && WellFormed(sub))
  }

  /** What keeps `s` well formed: sections stored under their own names, and no plain value
      assigned over a section. */
  predicate Harmless(s: Sec, edit: Edit) {
    match edit
    case Store(a, sub) => sub.name == a && WellFormed(sub)
    case Do(Assign(a, _)) => a !in s.children
    case _ => true
  }

  /** These calls, at any depth, and no others keep a section well formed. */
  lemma {:induction false} EditKeepsWellFormedIff(s: Sec, path: seq<string>, edit: Edit)
    requires SecOk(s) && WellFormed(s) && EditAt(s, path, edit).Some?
    ensures SectionAt(s, path).Some? && EditAt(s, path, edit).value.name == s.name
    ensures WellFormed(EditAt(s, path, edit).value) <==> Harmless(SectionAt(s, path).value, edit)
    decreases |path|
  {
    var s' := EditAt(s, path, edit).value;
    if path == [] {
      HarmlessHere(s, edit);
    } else {
      EditKeepsWellFormedIff(s.attrs[path[0]].sec, path[1..], edit);
      assert s'.attrs[path[0]].Sub?;
    }
  }

  lemma HarmlessHere(s: Sec, edit: Edit)
    requires SecOk(s) && WellFormed(s) && EditHere(s, edit).Some?
    ensures WellFormed(EditHere(s, edit).value) <==> Harmless(s, edit)
  {
    var s' := EditHere(s, edit).value;
    match edit
    case Store(a, sub) => assert s'.attrs[a] == Sub(sub);
    case Do(Assign(a, v)) => assert s'.attrs[a] == Plain(v);
    case _ =>
  }

  predicate WellFormedConf(c: Conf) {
    && (forall n | n in c.attrs :: n in c.sections && c.attrs[n].name == n && WellFormed(c.attrs[n]))
    && (forall n | n in c.components :: n !in c.webapps)
    && (forall n | n in c.components && n in c.attrs ::
          COMPONENT_DIR in c.attrs[n].attrs && c.attrs[n].attrs[COMPONENT_DIR].Plain?)
    && (forall n | n in c.webapps && n in c.attrs :: {WEBTOOLS, DATABASE, SECURITY} <= c.attrs[n].children)
  }

  /** `cur` is an undocumented section whose attributes are among those of `tgt`. */
  ghost predicate Partial(cur: Sec, tgt: Sec) {
    && cur.name == tgt.name && cur.doc == "" && cur.docstrings == map[]
    && cur.settings == cur.attrs.Keys
    && cur.children == (set a | a in cur.attrs && cur.attrs[a].Sub?)
    && forall a | a in cur.attrs ::
         && a in tgt.attrs
         && match cur.attrs[a]
            case Plain(_) => tgt.attrs[a].Plain?
            case Sub(sub) => tgt.attrs[a].Sub? && Partial(sub, tgt.attrs[a].sec)
  }

  // ----- a well-formed section is rebuilt -----

  /** The section being rebuilt once the settings in `done` have been printed and run. */
  ghost function Rebuilt(cur: Sec, tgt: Sec, done: set<string>, document: bool): Sec
    requires done <= tgt.attrs.Keys
  {
    Sec(if document then tgt.doc else "", cur.name, cur.settings + done,
        map a | a in SavedDocs(tgt, document) && a in done :: SavedDocs(tgt, document)[a],
        cur.children + done * tgt.children,
        map a | a in cur.attrs.Keys + done :: if a in done then SavedAttr(tgt.attrs[a], document) else cur.attrs[a])
  }

  lemma RunHeader(cur: Sec, tgt: Sec, opts: Options)
    requires Partial(cur, tgt)
    ensures Run(cur, Header(tgt, opts)) == Some(Rebuilt(cur, tgt, {}, opts.document))
  {
    var r := Rebuilt(cur, tgt, {}, opts.document);
    assert r.attrs == cur.attrs && r.docstrings == cur.docstrings;
    assert r.settings == cur.settings && r.children == cur.children;
    var doc := if opts.document then [At([], Document(tgt.doc))] else [];
    var com := if opts.comment then [At([], Comment(tgt.doc))] else [];
    RunAppend(cur, doc, com);
    assert Run(cur, doc) == Some(r);
    assert Run(r, com) == Some(r);
  }

  lemma RunPlainLines(mid: Sec, s: Sec, a: string, v: Value, opts: Options)
    requires Supported(v)
    ensures Run(mid, PlainLines(s, a, v, opts)) ==
            Some(mid.(attrs := mid.attrs[a := Plain(v)], settings := mid.settings + {a},
                      docstrings := if opts.document && a in s.docstrings
                                    then mid.docstrings[a := s.docstrings[a]] else mid.docstrings))
  {
    var com := if a in s.docstrings && opts.comment then [At([], Comment(s.docstrings[a]))] else [];
    var set_ := [At([], Assign(a, v))];
    var doc := if a in s.docstrings && opts.document then [At([], DocumentParam(s.docstrings[a], a))] else [];
    var mid' := mid.(attrs := mid.attrs[a := Plain(v)], settings := mid.settings + {a});
    RunAppend(mid, com + set_, doc);
    RunAppend(mid, com, set_);
    assert Run(mid, com) == Some(mid);
    assert Run(mid, set_) == Some(mid');
  }

  lemma RebuiltAll(cur: Sec, tgt: Sec, document: bool)
    requires SecOk(tgt) && WellFormed(tgt) && Partial(cur, tgt)
    ensures Rebuilt(cur, tgt, tgt.attrs.Keys, document) == Saved(tgt, document)
  {
    var r := Rebuilt(cur, tgt, tgt.attrs.Keys, document);
    var saved := Saved(tgt, document);
    assert r.docstrings == saved.docstrings;
    assert r.attrs == saved.attrs;
    assert r.settings == saved.settings;
    assert r.children == saved.children by {
      assert forall a | a in cur.children :: a in tgt.children;
    }
  }

  lemma RebuiltPlain(cur: Sec, tgt: Sec, done: set<string>, a: string, document: bool)
    requires done <= tgt.attrs.Keys && a in tgt.attrs && tgt.attrs[a].Plain? && a !in tgt.children && a !in done
    ensures var mid := Rebuilt(cur, tgt, done, document);
            Rebuilt(cur, tgt, done + {a}, document) ==
            mid.(attrs := mid.attrs[a := tgt.attrs[a]], settings := mid.settings + {a},
                 docstrings := if document && a in tgt.docstrings
                               then mid.docstrings[a := tgt.docstrings[a]] else mid.docstrings)
  {
    var mid := Rebuilt(cur, tgt, done, document);
    var end := Rebuilt(cur, tgt, done + {a}, document);
    assert mid.attrs[a := tgt.attrs[a]] == end.attrs;
    assert mid.settings + {a} == end.settings;
    assert mid.children == end.children;
    assert end.docstrings == if document && a in tgt.docstrings
                             then mid.docstrings[a := tgt.docstrings[a]] else mid.docstrings;
  }

  lemma RebuiltSub(cur: Sec, tgt: Sec, done: set<string>, a: string, document: bool)
    requires done <= tgt.attrs.Keys && a in tgt.attrs && tgt.attrs[a].Sub? && a in tgt.children && a !in done
    requires a in cur.attrs ==> a in cur.settings && a in cur.children
    ensures var made := EnsureSection(Rebuilt(cur, tgt, done, document), a);
            a in made.attrs && made.attrs[a] == (if a in cur.attrs then cur.attrs[a] else Sub(Fresh(a)))
    ensures var made := EnsureSection(Rebuilt(cur, tgt, done, document), a);
            made.(attrs := made.attrs[a := SavedAttr(tgt.attrs[a], document)])
            == Rebuilt(cur, tgt, done + {a}, document)
  {
    var mid := Rebuilt(cur, tgt, done, document);
    var made := EnsureSection(mid, a);
    var end := Rebuilt(cur, tgt, done + {a}, document);
    assert made.attrs[a := SavedAttr(tgt.attrs[a], document)] == end.attrs;
    assert made.settings == end.settings;
    assert made.children == end.children;
    assert made.docstrings == end.docstrings;
  }

  lemma FreshPartial(tgt: Sec)
    ensures Partial(Fresh(tgt.name), tgt)
  {
  }

  /** What the recursive predicates say about one child `a`. */
  lemma ChildFacts(cur: Sec, tgt: Sec, o: Order, a: string)
    requires SecOk(tgt) && WellFormed(tgt) && IsOrder(tgt, o) && Partial(cur, tgt)
    requires a in tgt.attrs && tgt.attrs[a].Sub?
    ensures a in tgt.children && a in o.subs
    ensures var sub := tgt.attrs[a].sec;
            && SecOk(sub) && WellFormed(sub) && IsOrder(sub, o.subs[a]) && sub.name == a
            && (a in cur.attrs ==>
                  a in cur.settings && a in cur.children && cur.attrs[a].Sub? && Partial(cur.attrs[a].sec, sub))
  {
  }

  /** Printing a well-formed section and running the lines on a partial copy
      of it, whatever the iteration orders, gives the saved section. */
  lemma {:induction false} RunPrint(cur: Sec, tgt: Sec, o: Order, opts: Options)
    requires SecOk(tgt) && WellFormed(tgt) && IsOrder(tgt, o) && Partial(cur, tgt)
    ensures Print(tgt, o, opts).Some?
    ensures Run(cur, Print(tgt, o, opts).value) == Some(Saved(tgt, opts.document))
    decreases tgt, |o.names| + 1
  {
    assert o.names[0..] == o.names && Names(o, 0) == {};
    RunHeader(cur, tgt, opts);
    RunPrintAttrs(cur, tgt, o, 0, opts);
    RunAppend(cur, Header(tgt, opts), PrintAttrs(tgt, o, o.names, opts).value);
    RebuiltAll(cur, tgt, opts.document);
  }

  ghost function Names(o: Order, k: nat): set<string>
    requires k <= |o.names|
  {
    set i | 0 <= i < k :: o.names[i]
  }

  lemma NamesStep(s: Sec, o: Order, k: nat)
    requires IsOrder(s, o) && s.settings == s.attrs.Keys && k <= |o.names|
    ensures Names(o, k) <= s.attrs.Keys
    ensures k == |o.names| ==> Names(o, k) == s.attrs.Keys
    ensures k < |o.names| ==> o.names[k] in s.attrs && o.names[k] !in Names(o, k)
    ensures k < |o.names| ==> Names(o, k + 1) == Names(o, k) + {o.names[k]}
  {
    var all := Elements(o.names);
    forall n | n in Names(o, k) ensures n in all { }
    if k == |o.names| {
      forall n | n in all ensures n in Names(o, k) { }
    } else {
      assert o.names[k] in all;
    }
  }

  lemma {:induction false} RunPrintAttrs(cur: Sec, tgt: Sec, o: Order, k: nat, opts: Options)
    requires SecOk(tgt) && WellFormed(tgt) && IsOrder(tgt, o) && Partial(cur, tgt)
    requires k <= |o.names| && Names(o, k) <= tgt.attrs.Keys
    ensures PrintAttrs(tgt, o, o.names[k..], opts).Some?
    ensures Run(Rebuilt(cur, tgt, Names(o, k), opts.document), PrintAttrs(tgt, o, o.names[k..], opts).value)
            == Some(Rebuilt(cur, tgt, tgt.attrs.Keys, opts.document))
    decreases tgt, |o.names| - k
  {
    NamesStep(tgt, o, k);
    if k < |o.names| {
      var a := o.names[k];
      RunPrintAttr(cur, tgt, o, Names(o, k), a, opts);
      RunPrintAttrs(cur, tgt, o, k + 1, opts);
      assert o.names[k..][1..] == o.names[k + 1..];
      RunAppend(Rebuilt(cur, tgt, Names(o, k), opts.document), PrintAttr(tgt, o, a, opts).value,
                PrintAttrs(tgt, o, o.names[k + 1..], opts).value);
    }
  }

  lemma {:induction false} RunPrintAttr(cur: Sec, tgt: Sec, o: Order, done: set<string>, a: string, opts: Options)
    requires SecOk(tgt) && WellFormed(tgt) && IsOrder(tgt, o) && Partial(cur, tgt)
    requires done <= tgt.attrs.Keys && a in tgt.attrs && a !in done
    ensures PrintAttr(tgt, o, a, opts).Some?
    ensures Run(Rebuilt(cur, tgt, done, opts.document), PrintAttr(tgt, o, a, opts).value)
            == Some(Rebuilt(cur, tgt, done + {a}, opts.document))
    decreases tgt, 0
  {
    var mid := Rebuilt(cur, tgt, done, opts.document);
    match tgt.attrs[a]
    case Plain(v) =>
      RebuiltPlain(cur, tgt, done, a, opts.document);
      RunPlainLines(mid, tgt, a, v, opts);
    case Sub(sub) =>
      ChildFacts(cur, tgt, o, a);
      RebuiltSub(cur, tgt, done, a, opts.document);
      var before := if a in cur.attrs then cur.attrs[a].sec else Fresh(a);
      FreshPartial(sub);
      RunPrint(before, sub, o.subs[a], opts);
      RunMakeThenUnder(mid, a, Print(sub, o.subs[a], opts).value, before, Saved(sub, opts.document));
  }

  lemma RunMakeThenUnder(mid: Sec, a: string, body: seq<Stmt>, before: Sec, after: Sec)
    requires EnsureSection(mid, a).attrs[a] == Sub(before)
    requires Run(before, body) == Some(after)
    ensures var made := EnsureSection(mid, a);
            Run(mid, [At([], MakeSection(a))] + Under(a, body)) == Some(made.(attrs := made.attrs[a := Sub(after)]))
  {
    var made := EnsureSection(mid, a);
    RunAppend(mid, [At([], MakeSection(a))], Under(a, body));
    assert Run(mid, [At([], MakeSection(a))]) == Some(made);
    RunUnder(made, a, body);
  }

  // ----- the whole configuration -----

  /** What a rebuilt configuration agrees on with the one that was saved: the order of the
      sections, which of them are components and webapps, and everything saved of them. */
  ghost predicate SameConf(r: Conf, c: Conf, document: bool) {
    && r.sections == c.sections
    && (forall n :: n in r.components <==> n in c.components)
    && (forall n :: n in r.webapps <==> n in c.webapps)
    && r.attrs == map n | n in c.attrs :: Saved(c.attrs[n], document)
  }

  /** Saving succeeds, the saved file runs, and the result is the same configuration. */
  ghost predicate Rebuilds(c: Conf, orders: map<string, Order>, opts: Options)
    requires ConfOk(c) && IsOrderOf(c, orders)
  {
    var file := PrintConf(c, orders, c.sections, opts);
    && file.Some?
    && RunLines(EMPTY_CONF, file.value).Some?
    && SameConf(RunLines(EMPTY_CONF, file.value).value, c, opts.document)
  }

  ghost function FirstNames(c: Conf, k: nat): set<string>
    requires k <= |c.sections|
  {
    set i | 0 <= i < k :: c.sections[i]
  }

  lemma FirstNamesStep(c: Conf, k: nat)
    requires NoDup(c.sections) && k < |c.sections|
    ensures c.sections[k] !in FirstNames(c, k)
    ensures FirstNames(c, k + 1) == FirstNames(c, k) + {c.sections[k]}
    ensures c.sections[..k + 1] == c.sections[..k] + [c.sections[k]]
    ensures c.sections[k..][0] == c.sections[k] && c.sections[k..][1..] == c.sections[k + 1..]
  {
  }

  lemma FirstNamesAll(c: Conf)
    ensures FirstNames(c, 0) == {} && c.sections[..0] == [] && c.sections[0..] == c.sections
    ensures c.sections[..|c.sections|] == c.sections && c.sections[|c.sections|..] == []
    ensures forall n :: n in FirstNames(c, |c.sections|) <==> n in c.sections
  {
  }

  /** The replay has finished the first `k` sections. */
  ghost predicate Progress(cur: Conf, c: Conf, k: nat, document: bool)
    requires k <= |c.sections|
  {
    var done := FirstNames(c, k);
    && done <= c.attrs.Keys
    && cur.sections == c.sections[..k]
    && (forall n :: n in cur.components <==> n in c.components && n in done)
    && (forall n :: n in cur.webapps <==> n in c.webapps && n in done)
    && cur.attrs == map n | n in done :: Saved(c.attrs[n], document)
  }

  /** What the first line printed for section `n` puts under a name not in use yet. */
  function Defaults(c: Conf, n: string): Sec {
    if n in c.components then ComponentDefaults(Fresh(n))
    else if n in c.webapps then WebappDefaults(Fresh(n))
    else Fresh(n)
  }

  lemma RunKindLine(cur: Conf, c: Conf, n: string)
    requires n !in cur.attrs && n !in cur.components && n !in cur.webapps
    ensures ApplyLine(cur, KindLine(c, n)) == Some(AddSection(cur, c, n, Defaults(c, n)))
  {
    var top := TopSection(cur, n);
    assert top.attrs[n := ComponentDefaults(Fresh(n))] == cur.attrs[n := ComponentDefaults(Fresh(n))];
    assert top.attrs[n := WebappDefaults(Fresh(n))] == cur.attrs[n := WebappDefaults(Fresh(n))];
  }

  lemma WebappDefaultsAre(n: string)
    ensures WebappDefaults(Fresh(n)) ==
            Sec("", n, {WEBTOOLS, DATABASE, SECURITY}, map[], {WEBTOOLS, DATABASE, SECURITY},
                map[WEBTOOLS := Sub(Fresh(WEBTOOLS)), DATABASE := Sub(Fresh(DATABASE)),
                    SECURITY := Sub(Fresh(SECURITY))])
  {
    var w := WebappDefaults(Fresh(n));
    assert w.settings == {WEBTOOLS, DATABASE, SECURITY};
    assert w.children == {WEBTOOLS, DATABASE, SECURITY};
  }

  lemma DefaultsPartial(c: Conf, n: string)
    requires ConfOk(c) && WellFormedConf(c) && n in c.attrs
    ensures Partial(Defaults(c, n), c.attrs[n])
  {
    var tgt := c.attrs[n];
    WebappDefaultsAre(n);
    if n in c.webapps {
      var w := WebappDefaults(Fresh(n));
      assert WEBTOOLS in tgt.children && DATABASE in tgt.children && SECURITY in tgt.children;
      forall a | a in w.attrs
        ensures w.attrs[a].Sub? && a in tgt.attrs && tgt.attrs[a].Sub? && Partial(w.attrs[a].sec, tgt.attrs[a].sec)
      {
        assert tgt.attrs[a].sec.name == a;
        FreshPartial(tgt.attrs[a].sec);
      }
      assert w.children == set a | a in w.attrs && w.attrs[a].Sub?;
    }
  }

  /** Running the lines of one section, first line and body, from any state
      in which its name is free. */
  lemma RunTopLines(cur: Conf, c: Conf, n: string, body: seq<Stmt>, s: Sec)
    requires n !in cur.attrs && n !in cur.components && n !in cur.webapps
    requires Run(Defaults(c, n), body) == Some(s)
    ensures RunLines(cur, [KindLine(c, n)] + InSectionLines(n, body)) == Some(AddSection(cur, c, n, s))
  {
    RunKindLine(cur, c, n);
    var made := ApplyLine(cur, KindLine(c, n)).value;
    RunLinesAppend(cur, [KindLine(c, n)], InSectionLines(n, body));
    assert RunLines(cur, [KindLine(c, n)]) == Some(made);
    RunInSection(made, n, body);
    assert made.attrs[n := s] == cur.attrs[n := s];
  }

  /** The state reached by running the lines of section `n`, when it becomes `s`. */
  function AddSection(cur: Conf, c: Conf, n: string, s: Sec): Conf {
    Conf(cur.sections + [n],
         if n in c.components then cur.components + [n] else cur.components,
         if n !in c.components && n in c.webapps then cur.webapps + [n] else cur.webapps,
         cur.attrs[n := s])
  }

  lemma ProgressStep(cur: Conf, c: Conf, k: nat, document: bool)
    requires k < |c.sections| && NoDup(c.sections) && c.sections[k] in c.attrs && Progress(cur, c, k, document)
    requires c.sections[k] in c.components ==> c.sections[k] !in c.webapps
    ensures var n := c.sections[k];
            && n !in cur.attrs && n !in cur.components && n !in cur.webapps
            && Progress(AddSection(cur, c, n, Saved(c.attrs[n], document)), c, k + 1, document)
  {
    FirstNamesStep(c, k);
    var n := c.sections[k];
    assert cur.attrs[n := Saved(c.attrs[n], document)]
        == map m | m in FirstNames(c, k + 1) :: Saved(c.attrs[m], document);
  }

  lemma RunTop(cur: Conf, c: Conf, orders: map<string, Order>, k: nat, opts: Options)
    requires ConfOk(c) && WellFormedConf(c) && IsOrderOf(c, orders)
    requires k < |c.sections| && Progress(cur, c, k, opts.document)
    ensures var top := PrintTop(c, orders, c.sections[k], opts);
            && top.Some? && RunLines(cur, top.value).Some?
            && Progress(RunLines(cur, top.value).value, c, k + 1, opts.document)
  {
    var n := c.sections[k];
    ProgressStep(cur, c, k, opts.document);
    var body, saved := PrintedBody(c, orders, n, opts);
    RunTopLines(cur, c, n, body, saved);
  }

  lemma PrintedBody(c: Conf, orders: map<string, Order>, n: string, opts: Options) returns (body: seq<Stmt>, saved: Sec)
    requires ConfOk(c) && WellFormedConf(c) && IsOrderOf(c, orders) && n in c.attrs
    ensures Print(c.attrs[n], orders[n], opts) == Some(body) && c.attrs[n].name == n
    ensures saved == Saved(c.attrs[n], opts.document) && Run(Defaults(c, n), body) == Some(saved)
  {
    DefaultsPartial(c, n);
    RunPrint(Defaults(c, n), c.attrs[n], orders[n], opts);
    body := Print(c.attrs[n], orders[n], opts).value;
    saved := Saved(c.attrs[n], opts.document);
  }

  lemma RunTwoParts(cur: Conf, c: Conf, orders: map<string, Order>, k: nat, opts: Options, top: seq<Line>,
                    rest: seq<Line>)
    requires k < |c.sections| && forall n | n in c.sections :: n in c.attrs && n in orders
    requires PrintTop(c, orders, c.sections[k], opts) == Some(top) && RunLines(cur, top).Some?
    requires PrintConf(c, orders, c.sections[k + 1..], opts) == Some(rest)
    ensures PrintConf(c, orders, c.sections[k..], opts) == Some(top + rest)
    ensures RunLines(cur, top + rest) == RunLines(RunLines(cur, top).value, rest)
  {
    assert c.sections[k..][0] == c.sections[k] && c.sections[k..][1..] == c.sections[k + 1..];
    RunLinesAppend(cur, top, rest);
  }

  lemma {:induction false} RunConf(cur: Conf, c: Conf, orders: map<string, Order>, k: nat, opts: Options)
    requires ConfOk(c) && WellFormedConf(c) && IsOrderOf(c, orders)
    requires k <= |c.sections| && Progress(cur, c, k, opts.document)
    ensures var file := PrintConf(c, orders, c.sections[k..], opts);
            && file.Some? && RunLines(cur, file.value).Some?
            && Progress(RunLines(cur, file.value).value, c, |c.sections|, opts.document)
    decreases |c.sections| - k
  {
    if k < |c.sections| {
      RunTop(cur, c, orders, k, opts);
      var top := PrintTop(c, orders, c.sections[k], opts).value;
      RunConf(RunLines(cur, top).value, c, orders, k + 1, opts);
      RunTwoParts(cur, c, orders, k, opts, top, PrintConf(c, orders, c.sections[k + 1..], opts).value);
    }
  }

  lemma ProgressDone(cur: Conf, c: Conf, document: bool)
    requires Progress(cur, c, |c.sections|, document)
    requires forall n :: n in c.attrs ==> n in c.sections
    requires forall n :: n in c.components ==> n in c.sections
    requires forall n :: n in c.webapps ==> n in c.sections
    ensures SameConf(cur, c, document)
  {
    FirstNamesAll(c);
    assert FirstNames(c, |c.sections|) == c.attrs.Keys;
  }

  lemma WellFormedRebuilds(c: Conf, orders: map<string, Order>, opts: Options)
    requires ConfOk(c) && IsOrderOf(c, orders) && WellFormedConf(c)
    ensures Rebuilds(c, orders, opts)
  {
    FirstNamesAll(c);
    RunConf(EMPTY_CONF, c, orders, 0, opts);
    ProgressDone(RunLines(EMPTY_CONF, PrintConf(c, orders, c.sections, opts).value).value, c, opts.document);
  }

  // ----- a configuration that is rebuilt is well formed -----

  /** Every section is stored under its internal name. Replaying never breaks this. */
  ghost predicate Named(s: Sec) {
    forall a | a in s.attrs && s.attrs[a].Sub? :: s.attrs[a].sec.name == a && Named(s.attrs[a].sec)
  }

  lemma {:induction false} ApplyNamed(s: Sec, path: seq<string>, op: Op)
    requires Named(s) && Apply(s, path, op).Some?
    ensures var s' := Apply(s, path, op).value;
            && Named(s') && s'.name == s.name && s.children <= s'.children
            && (forall a | a in s.attrs && s.attrs[a].Plain? :: a in s'.attrs && s'.attrs[a].Plain?)
    decreases |path|
  {
    if path != [] {
      ApplyNamed(s.attrs[path[0]].sec, path[1..], op);
    }
  }

  /** What holds of every state of the replay of `c`'s own saved file. */
  ghost predicate ReplayOk(cur: Conf, c: Conf) {
    && (forall n | n in cur.attrs :: n in cur.sections && cur.attrs[n].name == n && Named(cur.attrs[n]))
    && (forall n | n in cur.components :: n in c.components && n in cur.attrs
          && COMPONENT_DIR in cur.attrs[n].attrs && cur.attrs[n].attrs[COMPONENT_DIR].Plain?)
    && (forall n | n in cur.webapps :: n !in c.components && n in cur.attrs
          && {WEBTOOLS, DATABASE, SECURITY} <= cur.attrs[n].children)
  }

  lemma KindLineOk(cur: Conf, c: Conf, n: string)
    requires ReplayOk(cur, c) && n !in cur.attrs
    ensures ReplayOk(ApplyLine(cur, KindLine(c, n)).value, c)
    ensures ApplyLine(cur, KindLine(c, n)).value.attrs.Keys == cur.attrs.Keys + {n}
  {
    RunKindLine(cur, c, n);
    WebappDefaultsAre(n);
    var next := ApplyLine(cur, KindLine(c, n)).value;
    assert Named(Defaults(c, n)) && Defaults(c, n).name == n;
    forall m | m in next.attrs ensures m in next.sections && next.attrs[m].name == m && Named(next.attrs[m]) { }
  }

  lemma {:induction false} BodyOk(cur: Conf, c: Conf, n: string, stmts: seq<Stmt>)
    requires ReplayOk(cur, c) && RunLines(cur, InSectionLines(n, stmts)).Some?
    ensures ReplayOk(RunLines(cur, InSectionLines(n, stmts)).value, c)
    ensures RunLines(cur, InSectionLines(n, stmts)).value.attrs.Keys == cur.attrs.Keys
    decreases |stmts|
  {
    var all := InSectionLines(n, stmts);
    if stmts != [] {
      assert all[1..] == InSectionLines(n, stmts[1..]);
      ApplyNamed(cur.attrs[n], stmts[0].path, stmts[0].op);
      BodyOk(ApplyLine(cur, all[0]).value, c, n, stmts[1..]);
    }
  }

  lemma TopKeepsOk(cur: Conf, c: Conf, n: string, name: string, body: seq<Stmt>)
    requires ReplayOk(cur, c) && n !in cur.attrs
    requires RunLines(cur, [KindLine(c, n)] + InSectionLines(name, body)).Some?
    ensures var next := RunLines(cur, [KindLine(c, n)] + InSectionLines(name, body)).value;
            ReplayOk(next, c) && next.attrs.Keys == cur.attrs.Keys + {n}
  {
    KindLineOk(cur, c, n);
    var made := ApplyLine(cur, KindLine(c, n)).value;
    RunLinesAppend(cur, [KindLine(c, n)], InSectionLines(name, body));
    assert RunLines(cur, [KindLine(c, n)]) == Some(made);
    BodyOk(made, c, name, body);
  }

  lemma {:induction false} ReplayKeepsOk(cur: Conf, c: Conf, orders: map<string, Order>, k: nat, opts: Options)
    requires NoDup(c.sections) && k <= |c.sections|
    requires forall n :: n in c.sections ==> n in c.attrs && n in orders
    requires ReplayOk(cur, c) && cur.attrs.Keys == FirstNames(c, k)
    requires PrintConf(c, orders, c.sections[k..], opts).Some?
    requires RunLines(cur, PrintConf(c, orders, c.sections[k..], opts).value).Some?
    ensures ReplayOk(RunLines(cur, PrintConf(c, orders, c.sections[k..], opts).value).value, c)
    decreases |c.sections| - k
  {
    if k < |c.sections| {
      FirstNamesStep(c, k);
      var n := c.sections[k];
      var body := Print(c.attrs[n], orders[n], opts).value;
      var top := [KindLine(c, n)] + InSectionLines(c.attrs[n].name, body);
      RunLinesAppend(cur, top, PrintConf(c, orders, c.sections[k + 1..], opts).value);
      TopKeepsOk(cur, c, n, c.attrs[n].name, body);
      ReplayKeepsOk(RunLines(cur, top).value, c, orders, k + 1, opts);
    }
  }

  /** What can be printed at all has no child that stopped being a section. */
  predicate ChildrenAreSections(s: Sec) {
    && (forall a | a in s.children :: a in s.attrs && s.attrs[a].Sub?)
    && (forall a | a in s.attrs ::
          match s.attrs[a]
          case Plain(_) => true
          case Sub(sub) => ChildrenAreSections(sub))
  }

  lemma {:induction false} PrintAttrsReaches(s: Sec, o: Order, names: seq<string>, opts: Options, a: string)
    requires PrintAttrs(s, o, names, opts).Some? && a in names
    ensures PrintAttr(s, o, a, opts).Some?
    decreases |names|
  {
    if names[0] != a {
      PrintAttrsReaches(s, o, names[1..], opts, a);
    }
  }

  lemma {:induction false} PrintableChildren(s: Sec, o: Order, opts: Options)
    requires SecOk(s) && IsOrder(s, o) && Print(s, o, opts).Some?
    ensures ChildrenAreSections(s)
    decreases s
  {
    forall a | a in s.attrs
      ensures a in s.children ==> s.attrs[a].Sub?
      ensures s.attrs[a].Sub? ==> ChildrenAreSections(s.attrs[a].sec)
    {
      assert a in Elements(o.names);
      PrintAttrsReaches(s, o, o.names, opts, a);
      if s.attrs[a].Sub? {
        PrintableChildren(s.attrs[a].sec, o.subs[a], opts);
      }
    }
  }

  lemma {:induction false} NamedSaved(s: Sec, document: bool)
    requires Named(Saved(s, document)) && ChildrenAreSections(s)
    ensures WellFormed(s)
    decreases s
  {
    var saved := Saved(s, document);
    forall a | a in s.attrs && s.attrs[a].Sub?
      ensures s.attrs[a].sec.name == a && WellFormed(s.attrs[a].sec)
    {
      assert saved.attrs[a] == SavedAttr(s.attrs[a], document);
      NamedSaved(s.attrs[a].sec, document);
    }
  }

  lemma {:induction false} PrintConfReaches(c: Conf, orders: map<string, Order>, names: seq<string>, opts: Options,
                                            n: string)
    requires forall m | m in names :: m in c.attrs && m in orders
    requires PrintConf(c, orders, names, opts).Some? && n in names
    ensures Print(c.attrs[n], orders[n], opts).Some?
    decreases |names|
  {
    if names[0] != n {
      PrintConfReaches(c, orders, names[1..], opts, n);
    }
  }

  lemma RebuildsWellFormed(c: Conf, orders: map<string, Order>, opts: Options)
    requires ConfOk(c) && IsOrderOf(c, orders) && Rebuilds(c, orders, opts)
    ensures WellFormedConf(c)
  {
    var file := PrintConf(c, orders, c.sections, opts).value;
    var r := RunLines(EMPTY_CONF, file).value;
    FirstNamesAll(c);
    assert ReplayOk(EMPTY_CONF, c);
    ReplayKeepsOk(EMPTY_CONF, c, orders, 0, opts);
    assert r.attrs.Keys == c.attrs.Keys;
    forall n | n in c.attrs
      ensures n in c.sections && c.attrs[n].name == n && WellFormed(c.attrs[n])
    {
      assert r.attrs[n] == Saved(c.attrs[n], opts.document);
      PrintConfReaches(c, orders, c.sections, opts, n);
      PrintableChildren(c.attrs[n], orders[n], opts);
      NamedSaved(c.attrs[n], opts.document);
    }
    forall n | n in c.components && n in c.attrs
      ensures COMPONENT_DIR in c.attrs[n].attrs && c.attrs[n].attrs[COMPONENT_DIR].Plain?
    {
      assert n in r.components && r.attrs[n] == Saved(c.attrs[n], opts.document);
      assert r.attrs[n].attrs[COMPONENT_DIR] == SavedAttr(c.attrs[n].attrs[COMPONENT_DIR], opts.document);
    }
    forall n | n in c.webapps && n in c.attrs
      ensures {WEBTOOLS, DATABASE, SECURITY} <= c.attrs[n].children
    {
      assert n in r.webapps && r.attrs[n] == Saved(c.attrs[n], opts.document);
    }
  }

  /** Saving a configuration and running the saved file rebuilds it, in every iteration
      order and with every choice of options, if and only if it is well formed. */
  lemma SaveLoadIffWellFormed(c: Conf, orders: map<string, Order>, opts: Options)
    requires ConfOk(c) && IsOrderOf(c, orders)
    ensures Rebuilds(c, orders, opts) <==> WellFormedConf(c)
  {
    if WellFormedConf(c) {
      WellFormedRebuilds(c, orders, opts);
    }
    if Rebuilds(c, orders, opts) {
      RebuildsWellFormed(c, orders, opts);
    }
  }

  // ----- what every file keeps -----

  lemma DefaultsKeepOk(s: Sec)
    requires SecOk(s)
    ensures SecOk(ComponentDefaults(s)) && SecOk(WebappDefaults(s))
  {
    ApplyKeepsOk(s, [], MakeSection(WEBTOOLS));
    ApplyKeepsOk(EnsureSection(s, WEBTOOLS), [], MakeSection(DATABASE));
    ApplyKeepsOk(EnsureSection(EnsureSection(s, WEBTOOLS), DATABASE), [], MakeSection(SECURITY));
    ApplyKeepsOk(s, [], Assign(COMPONENT_DIR, NoneValue));
  }

  lemma TopSectionKeepsOk(c: Conf, n: string)
    requires ConfOk(c)
    ensures ConfOk(TopSection(c, n))
  {
  }

  lemma WithSectionOk(c: Conf, n: string, s: Sec)
    requires ConfOk(c) && n in c.attrs && SecOk(s)
    ensures ConfOk(c.(attrs := c.attrs[n := s]))
  {
  }

  lemma EnrollKeepsOk(c: Conf, n: string)
    requires ConfOk(c) && n in c.attrs
    ensures ConfOk(Component(c, n)) && ConfOk(Webapp(c, n))
  {
    DefaultsKeepOk(c.attrs[n]);
    WithSectionOk(c, n, ComponentDefaults(c.attrs[n]));
    WithSectionOk(c, n, WebappDefaults(c.attrs[n]));
  }

  lemma ApplyLineKeepsOk(c: Conf, line: Line)
    requires ConfOk(c) && ApplyLine(c, line).Some?
    ensures ConfOk(ApplyLine(c, line).value)
  {
    match line
    case SectionLine(n) => TopSectionKeepsOk(c, n);
    case ComponentLine(n) =>
      TopSectionKeepsOk(c, n);
      EnrollKeepsOk(TopSection(c, n), n);
    case WebappLine(n) =>
      TopSectionKeepsOk(c, n);
      EnrollKeepsOk(TopSection(c, n), n);
    case InSection(n, stmt) =>
      ApplyKeepsOk(c.attrs[n], stmt.path, stmt.op);
      WithSectionOk(c, n, Apply(c.attrs[n], stmt.path, stmt.op).value);
  }

  /** Whatever lines a configuration file holds, in any order, what it builds has no name
      listed twice, only supported values, and every section listed as a child. */
  lemma {:induction false} RunLinesKeepsOk(c: Conf, lines: seq<Line>)
    requires ConfOk(c) && RunLines(c, lines).Some?
    ensures ConfOk(RunLines(c, lines).value)
    decreases |lines|
  {
    if lines != [] {
      ApplyLineKeepsOk(c, lines[0]);
      RunLinesKeepsOk(ApplyLine(c, lines[0]).value, lines[1..]);
    }
  }
}
