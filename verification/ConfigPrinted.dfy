/** What configuration files hold and give back, said on the fields of the sections. */
module ConfigPrinted {
  import opened Common
  import opened ConfigModel
  import opened ConfigReplay

  // ----- values -----

  /** `w` is `v`, or occurs in it at some depth. */
  ghost predicate Within(w: Value, v: Value) {
    w == v ||
    match v
    case Sequence(items) => exists i :: 0 <= i < |items| && Within(w, items[i])
    case Dict(entries) => exists k :: k in entries && Within(w, entries[k])
    case _ => false
  }

  /** A value is accepted if and only if nothing of a foreign type occurs in it. */
  lemma {:induction false} SupportedIff(v: Value)
    ensures Supported(v) <==> !Within(Foreign, v)
  {
    match v
    case Sequence(items) =>
      forall i | 0 <= i < |items| ensures Supported(items[i]) <==> !Within(Foreign, items[i]) {
        SupportedIff(items[i]);
      }
    case Dict(entries) =>
      forall k | k in entries ensures Supported(entries[k]) <==> !Within(Foreign, entries[k]) {
        SupportedIff(entries[k]);
      }
    case _ =>
  }

  // ----- default fields -----

  /** A new component has one setting, called `componentDir` and not set. */
  lemma NewComponent(c: Conf, n: string)
    requires n !in c.attrs && n !in c.components
    ensures Component(c, n).attrs ==
            c.attrs[n := Sec("", n, {"componentDir"}, map[], {}, map["componentDir" := Plain(NoneValue)])]
    ensures Component(c, n).components == c.components + [n] && Component(c, n).sections == c.sections + [n]
    ensures Component(c, n).webapps == c.webapps
  {
    assert ComponentDefaults(Fresh(n)).settings == {"componentDir"};
  }

  /** A new webapp has three empty sections. */
  lemma NewWebapp(c: Conf, n: string)
    requires n !in c.attrs && n !in c.webapps
    ensures Webapp(c, n).webapps == c.webapps + [n] && Webapp(c, n).sections == c.sections + [n]
    ensures Webapp(c, n).components == c.components
    ensures Webapp(c, n).attrs == c.attrs[n := Webapp(c, n).attrs[n]]
    ensures Webapp(c, n).attrs[n].children == Webapp(c, n).attrs[n].settings == {"Webtools", "database", "security"}
    ensures forall a | a in {"Webtools", "database", "security"} ::
              var attrs := Webapp(c, n).attrs[n].attrs;
              a in attrs && attrs[a] == Sub(Sec("", a, {}, map[], {}, map[]))
  {
    WebappDefaultsAre(n);
  }

  // ----- what is given back -----

  lemma {:induction false} SavedAt(s: Sec, document: bool, path: seq<string>)
    ensures SectionAt(Saved(s, document), path) ==
            match SectionAt(s, path)
            case None => None
            case Some(t) => Some(Saved(t, document))
    decreases |path|
  {
    if path != [] && path[0] in s.attrs {
      assert Saved(s, document).attrs[path[0]] == SavedAttr(s.attrs[path[0]], document);
      if s.attrs[path[0]].Sub? { SavedAt(s.attrs[path[0]].sec, document, path[1..]); }
    }
  }

  /** When a configuration is rebuilt, the sections are the same at all depths: their names,
      their settings with their values, their children, and, if asked for, the documentation
      of sections and settings. */
  lemma RebuiltEverywhere(c: Conf, orders: map<string, Order>, opts: Options, n: string, path: seq<string>)
    requires ConfOk(c) && IsOrderOf(c, orders) && Rebuilds(c, orders, opts) && n in c.attrs
    ensures var r := RunLines(EMPTY_CONF, PrintConf(c, orders, c.sections, opts).value).value;
            && r.sections == c.sections && n in r.attrs
            && (SectionAt(c.attrs[n], path).Some? <==> SectionAt(r.attrs[n], path).Some?)
            && (SectionAt(c.attrs[n], path).Some? ==>
                  var s, t := SectionAt(c.attrs[n], path).value, SectionAt(r.attrs[n], path).value;
                  && t.name == s.name && t.settings == s.settings && t.children == s.children
                  && t.attrs.Keys == s.attrs.Keys
                  && (forall a | a in s.attrs && s.attrs[a].Plain? :: t.attrs[a] == s.attrs[a])
                  && (opts.document ==> t.doc == s.doc)
                  && (opts.document ==> forall a | a in s.docstrings && a in s.attrs && s.attrs[a].Plain? ::
                        a in t.docstrings && t.docstrings[a] == s.docstrings[a]))
  {
    SavedAt(c.attrs[n], opts.document, path);
  }

  // ----- what is printed -----

  ghost predicate StandsAt(part: seq<Stmt>, all: seq<Stmt>, i: nat) {
    i + |part| <= |all| && forall j | 0 <= j < |part| :: all[i + j] == part[j]
  }

  /** The lines `part` stand together somewhere in `all`. */
  ghost predicate Infix(part: seq<Stmt>, all: seq<Stmt>) {
    exists i: nat :: StandsAt(part, all, i)
  }

  lemma InfixWithin(before: seq<Stmt>, part: seq<Stmt>, all: seq<Stmt>)
    requires Infix(part, all)
    ensures Infix(part, before + all)
  {
    var i: nat :| StandsAt(part, all, i);
    assert StandsAt(part, before + all, |before| + i);
  }

  lemma {:induction false} PrintedWithin(s: Sec, o: Order, names: seq<string>, opts: Options, a: string)
    requires PrintAttrs(s, o, names, opts).Some? && a in names
    ensures PrintAttr(s, o, a, opts).Some? && Infix(PrintAttr(s, o, a, opts).value, PrintAttrs(s, o, names, opts).value)
    decreases |names|
  {
    var first, rest := PrintAttr(s, o, names[0], opts).value, PrintAttrs(s, o, names[1..], opts).value;
    if names[0] == a {
      assert StandsAt(first, first + rest, 0);
    } else {
      PrintedWithin(s, o, names[1..], opts, a);
      InfixWithin(first, PrintAttr(s, o, a, opts).value, rest);
    }
  }

  /** What a saved section starts with: as the options say, its documentation as a statement and
      as a comment. The lines of the settings follow. */
  lemma SectionStarts(s: Sec, o: Order, opts: Options)
    requires Print(s, o, opts).Some?
    ensures var lines, body := Print(s, o, opts).value, PrintAttrs(s, o, o.names, opts).value;
            match (opts.document, opts.comment)
            case (false, false) => lines == body
            case (false, true) => lines == [At([], Comment(s.doc))] + body
            case (true, false) => lines == [At([], Document(s.doc))] + body
            case (true, true) => lines == [At([], Document(s.doc)), At([], Comment(s.doc))] + body
  {
  }

  /** The lines of a top level section: one that makes it a component, a webapp or a section, and
      the statements about it. */
  lemma TopLines(c: Conf, orders: map<string, Order>, n: string, opts: Options)
    requires n in c.attrs && n in orders && PrintTop(c, orders, n, opts).Some?
    ensures var lines, body := PrintTop(c, orders, n, opts).value, Print(c.attrs[n], orders[n], opts);
            && body.Some? && |lines| == |body.value| + 1
            && (n in c.components ==> lines[0] == ComponentLine(n))
            && (n !in c.components && n in c.webapps ==> lines[0] == WebappLine(n))
            && (n !in c.components && n !in c.webapps ==> lines[0] == SectionLine(n))
            && forall i | 0 <= i < |body.value| :: lines[i + 1] == InSection(c.attrs[n].name, body.value[i])
  {
  }

  /** What is printed for a setting: as the options say, its documentation as a comment, then the
      assignment, then its documentation as a statement. */
  lemma SettingLines(s: Sec, o: Order, opts: Options, a: string) returns (block: seq<Stmt>)
    requires IsOrder(s, o) && Print(s, o, opts).Some?
    requires a in s.settings && a !in s.children
    ensures a in s.attrs && s.attrs[a].Plain?
    ensures PrintAttr(s, o, a, opts) == Some(block) && Infix(block, Print(s, o, opts).value)
    ensures var assign := At([], Assign(a, s.attrs[a].v));
            if a !in s.docstrings then block == [assign]
            else
              var comment, document := At([], Comment(s.docstrings[a])), At([], DocumentParam(s.docstrings[a], a));
              match (opts.comment, opts.document)
              case (false, false) => block == [assign]
              case (false, true) => block == [assign, document]
              case (true, false) => block == [comment, assign]
              case (true, true) => block == [comment, assign, document]
  {
    assert a in Elements(o.names);
    PrintedWithin(s, o, o.names, opts, a);
    block := PrintAttr(s, o, a, opts).value;
    InfixWithin(Header(s, opts), block, PrintAttrs(s, o, o.names, opts).value);
    assert block == PlainLines(s, a, s.attrs[a].v, opts);
  }
}
