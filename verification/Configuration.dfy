/** The mutable objects of `WMCore.Configuration`, and what their methods do to the
    value of a whole tree of sections. */
module Configuration {
  import opened Common
  import opened ConfigModel
  import opened ConfigReplay

  /** The value of an entry of a section's dictionary. */
  datatype Entry = Setting(v: Value) | Child(section: ConfigSection)

  /** Everything one section object holds. */
  datatype Fields = Fields(
    doc: string,
    name: string,
    settings: set<string>,
    docstrings: map<string, string>,
    children: set<string>,
    attrs: map<string, Entry>)

  class ConfigSection {
    var documentation: string
    var name: string
    var settings: set<string>
    var docstrings: map<string, string>
    var children: set<string>
    var attrs: map<string, Entry>

    function State(): Fields
      reads this
    {
      Fields(documentation, name, settings, docstrings, children, attrs)
    }

    constructor (sectionName: string)
      ensures State() == Fields("", sectionName, {}, map[], {}, map[])
    {
      documentation, name := "", sectionName;
      settings, docstrings, children, attrs := {}, map[], {}, map[];
    }

    /** `__setattr__`; a plain value the type check rejects raises before anything changes. */
    method SetAttr(a: string, entry: Entry) returns (ok: bool)
      modifies this
      ensures ok == (entry.Child? || Supported(entry.v))
      ensures State() == if !ok then old(State())
                         else old(State()).(attrs := old(attrs)[a := entry], settings := old(settings) + {a},
                                            children := if entry.Child? then old(children) + {a} else old(children))
    {
      match entry
      case Child(_) => {
        children := children + {a};
        settings := settings + {a};
        attrs := attrs[a := entry];
        ok := true;
      }
      case Setting(v) => {
        ok := Supported(v);
        if ok {
          attrs := attrs[a := entry];
          settings := settings + {a};
        }
      }
    }

    /** `__delattr__`; an unknown name raises. */
    method DelAttr(a: string) returns (ok: bool)
      modifies this
      ensures ok == (a in old(attrs))
      ensures State() == old(State()).(attrs := old(attrs) - {a}, settings := old(settings) - {a},
                                       children := old(children) - {a})
    {
      children := children - {a};
      settings := settings - {a};
      ok := a in attrs;
      attrs := attrs - {a};
    }

    /** `section_`: what is stored under `c`, a new section if nothing is. */
    method Section_(c: string) returns (found: Entry)
      modifies this
      ensures c in attrs && found == attrs[c]
      ensures c in old(attrs) ==> State() == old(State())
      ensures c !in old(attrs) ==>
                && found.Child? && fresh(found.section)
                && found.section.State() == Fields("", c, {}, map[], {}, map[])
                && State() == old(State()).(attrs := old(attrs)[c := found], settings := old(settings) + {c},
                                            children := old(children) + {c})
    {
      if c in attrs {
        return attrs[c];
      }
      var newSection := new ConfigSection(c);
      var _ := SetAttr(c, Child(newSection));
      found := attrs[c];
    }

    method Document_(doc: string, parameter: Option<string>)
      modifies this
      ensures State() == match parameter
                         case None => old(State()).(doc := doc)
                         case Some(p) => old(State()).(docstrings := old(docstrings)[p := doc])
    {
      match parameter
      case None => documentation := doc;
      case Some(p) => docstrings := docstrings[p := doc];
    }
  }

  // ----- trees of section objects -----

  /** The objects of a tree of sections, arranged as the tree is; `foot` is all of them. */
  datatype Shape = Shape(obj: ConfigSection, kids: map<string, Shape>, foot: set<object>)

  /** No object occurs twice. */
  ghost predicate IsTree(t: Shape) {
    && t.obj in t.foot
    && (forall k | k in t.kids :: t.kids[k].foot <= t.foot - {t.obj} && IsTree(t.kids[k]))
    && (forall k, l | k in t.kids && l in t.kids && k != l :: t.kids[k].foot !! t.kids[l].foot)
  }

  /** The fields of `obj` are those of `s`, given the objects of its children. */
  ghost predicate Shows(fields: Fields, kids: map<string, Shape>, s: Sec) {
    && fields.doc == s.doc && fields.name == s.name && fields.settings == s.settings
    && fields.docstrings == s.docstrings && fields.children == s.children
    && fields.attrs.Keys == s.attrs.Keys
    && (forall k | k in kids :: k in s.attrs && s.attrs[k].Sub?)
    && (forall a | a in s.attrs ::
          match s.attrs[a]
          case Plain(v) => fields.attrs[a] == Setting(v)
          case Sub(_) => a in kids && fields.attrs[a] == Child(kids[a].obj))
  }

  /** The objects of `t` hold the section `s`. */
  ghost predicate Holds(t: Shape, s: Sec)
    requires IsTree(t)
    reads t.foot
    decreases t
  {
    && Shows(t.obj.State(), t.kids, s)
    && (forall k | k in t.kids :: Holds(t.kids[k], s.attrs[k].sec))
  }

  /** A tree in which the child at `c` is new, or was replaced by a tree over new objects. */
  ghost function WithKid(t: Shape, c: string, kid: Shape): Shape {
    Shape(t.obj, t.kids[c := kid], t.foot + kid.foot)
  }

  lemma WithKidIsTree(t: Shape, c: string, kid: Shape)
    requires IsTree(t) && IsTree(kid)
    requires kid.foot * t.foot <= if c in t.kids then t.kids[c].foot else {}
    ensures IsTree(WithKid(t, c, kid))
  {
    var t' := WithKid(t, c, kid);
    forall k, l | k in t'.kids && l in t'.kids && k != l ensures t'.kids[k].foot !! t'.kids[l].foot {
    }
  }

  lemma {:induction false} HoldsWithKid(t: Shape, s: Sec, c: string, kid: Shape, sub: Sec)
    requires IsTree(t) && IsTree(kid) && IsTree(WithKid(t, c, kid))
    requires Shows(t.obj.State(), t.kids, s) && c in t.kids && kid.obj == t.kids[c].obj
    requires Holds(kid, sub)
    requires forall k | k in t.kids && k != c :: Holds(t.kids[k], s.attrs[k].sec)
    ensures Holds(WithKid(t, c, kid), s.(attrs := s.attrs[c := Sub(sub)]))
  {
    var t', s' := WithKid(t, c, kid), s.(attrs := s.attrs[c := Sub(sub)]);
    assert Shows(t.obj.State(), t'.kids, s');
    forall k | k in t'.kids ensures Holds(t'.kids[k], s'.attrs[k].sec) { }
  }

  lemma {:induction false} HoldsRoot(t: Shape, s: Sec)
    requires IsTree(t) && Shows(t.obj.State(), t.kids, s)
    requires forall k | k in t.kids :: Holds(t.kids[k], s.attrs[k].sec)
    ensures Holds(t, s)
  {
  }

  method CallSection(section: ConfigSection, c: string, ghost t: Shape, ghost s: Sec) returns (ghost t': Shape)
    requires IsTree(t) && Holds(t, s) && t.obj == section
    modifies section
    ensures IsTree(t') && t'.obj == section && (forall o | o in t'.foot && o !in t.foot :: fresh(o))
    ensures Holds(t', EnsureSection(s, c))
  {
    ghost var before := section.State();
    var found := section.Section_(c);
    forall k | k in t.kids ensures Holds(t.kids[k], s.attrs[k].sec) {
      assert old(Holds(t.kids[k], s.attrs[k].sec));
    }
    if c in s.attrs {
      t' := t;
      HoldsRoot(t, s);
    } else {
      ghost var kid := Shape(found.section, map[], {found.section});
      HoldsRoot(kid, Fresh(c));
      Graft(t, s, before, c, kid, Fresh(c));
      t' := WithKid(t, c, kid);
    }
  }

  /** The tree after the tree `kid` of other objects was stored at `a`. */
  lemma Graft(t: Shape, s: Sec, before: Fields, a: string, kid: Shape, sub: Sec)
    requires IsTree(t) && IsTree(kid) && kid.foot !! t.foot && Holds(kid, sub)
    requires Shows(before, t.kids, s)
    requires t.obj.State() == before.(attrs := before.attrs[a := Child(kid.obj)], settings := s.settings + {a},
                                      children := s.children + {a})
    requires forall k | k in t.kids :: Holds(t.kids[k], s.attrs[k].sec)
    ensures IsTree(WithKid(t, a, kid)) && Holds(WithKid(t, a, kid), StoreSection(s, a, sub))
  {
    var t', s' := WithKid(t, a, kid), StoreSection(s, a, sub);
    WithKidIsTree(t, a, kid);
    GraftShows(t.kids, s, before, a, kid, sub);
    HoldsRoot(t', s');
  }

  lemma GraftShows(kids: map<string, Shape>, s: Sec, before: Fields, a: string, kid: Shape, sub: Sec)
    requires Shows(before, kids, s)
    ensures Shows(before.(attrs := before.attrs[a := Child(kid.obj)], settings := s.settings + {a},
                          children := s.children + {a}),
                  kids[a := kid], StoreSection(s, a, sub))
  {
  }

  method CallAssign(section: ConfigSection, a: string, v: Value, ghost t: Shape, ghost s: Sec)
    returns (ok: bool, ghost t': Shape)
    requires IsTree(t) && Holds(t, s) && t.obj == section
    modifies section
    ensures ok == AssignAttr(s, a, v).Some?
    ensures IsTree(t') && t'.obj == section && t'.foot == t.foot
    ensures Holds(t', if ok then AssignAttr(s, a, v).value else s)
  {
    t' := t;
    ghost var s' := s;
    ok := section.SetAttr(a, Setting(v));
    forall k | k in t.kids ensures Holds(t.kids[k], s.attrs[k].sec) {
      assert old(Holds(t.kids[k], s.attrs[k].sec));
    }
    if ok {
      t', s' := Shape(section, t.kids - {a}, t.foot), AssignAttr(s, a, v).value;
    }
    HoldsRoot(t', s');
  }

  /** Store a section of another tree, over whatever was there. */
  method CallStore(section: ConfigSection, a: string, child: ConfigSection, ghost t: Shape, ghost s: Sec,
                   ghost kid: Shape, ghost sub: Sec)
    returns (ghost t': Shape)
    requires IsTree(t) && Holds(t, s) && t.obj == section
    requires IsTree(kid) && Holds(kid, sub) && kid.obj == child && kid.foot !! t.foot
    modifies section
    ensures IsTree(t') && t'.obj == section && t'.foot == t.foot + kid.foot
    ensures Holds(t', StoreSection(s, a, sub))
  {
    ghost var before := section.State();
    var _ := section.SetAttr(a, Child(child));
    forall k | k in t.kids ensures Holds(t.kids[k], s.attrs[k].sec) {
      assert old(Holds(t.kids[k], s.attrs[k].sec));
    }
    Graft(t, s, before, a, kid, sub);
    t' := WithKid(t, a, kid);
  }

  method CallDelete(section: ConfigSection, a: string, ghost t: Shape, ghost s: Sec)
    returns (ok: bool, ghost t': Shape)
    requires IsTree(t) && Holds(t, s) && t.obj == section && SecOk(s)
    modifies section
    ensures ok == DeleteAttr(s, a).Some?
    ensures IsTree(t') && t'.obj == section && t'.foot == t.foot
    ensures Holds(t', if ok then DeleteAttr(s, a).value else s)
  {
    ok := section.DelAttr(a);
    forall k | k in t.kids ensures Holds(t.kids[k], s.attrs[k].sec) {
      assert old(Holds(t.kids[k], s.attrs[k].sec));
    }
    t' := Shape(section, t.kids - {a}, t.foot);
    HoldsRoot(t', if ok then DeleteAttr(s, a).value else s);
  }

  method CallDocument(section: ConfigSection, doc: string, parameter: Option<string>, ghost t: Shape, ghost s: Sec)
    requires IsTree(t) && Holds(t, s) && t.obj == section
    modifies section
    ensures Holds(t, match parameter
                     case None => s.(doc := doc)
                     case Some(p) => s.(docstrings := s.docstrings[p := doc]))
  {
    section.Document_(doc, parameter);
    forall k | k in t.kids ensures Holds(t.kids[k], s.attrs[k].sec) {
      assert old(Holds(t.kids[k], s.attrs[k].sec));
    }
    HoldsRoot(t, match parameter
                 case None => s.(doc := doc)
                 case Some(p) => s.(docstrings := s.docstrings[p := doc]));
  }

  /** Call one method of a section. */
  method Call(section: ConfigSection, op: Op, ghost t: Shape, ghost s: Sec) returns (ok: bool, ghost t': Shape)
    requires IsTree(t) && Holds(t, s) && t.obj == section
    modifies section
    ensures ok == ApplyHere(s, op).Some?
    ensures IsTree(t') && t'.obj == section && (forall o | o in t'.foot && o !in t.foot :: fresh(o))
    ensures Holds(t', if ok then ApplyHere(s, op).value else s)
  {
    ok, t' := true, t;
    match op
    case MakeSection(c) => t' := CallSection(section, c, t, s);
    case Assign(a, v) => ok, t' := CallAssign(section, a, v, t, s);
    case Document(d) => CallDocument(section, d, None, t, s);
    case DocumentParam(d, a) => CallDocument(section, d, Some(a), t, s);
    case Comment(_) =>
  }

  /** Execute `<path>.<op>` as the Python interpreter does: follow the attributes,
      then call the method of the section found. */
  method Execute(section: ConfigSection, path: seq<string>, op: Op, ghost t: Shape, ghost s: Sec)
    returns (ok: bool, ghost t': Shape)
    requires IsTree(t) && Holds(t, s) && t.obj == section
    modifies t.foot
    ensures ok == Apply(s, path, op).Some?
    ensures IsTree(t') && t'.obj == section && (forall o | o in t'.foot && o !in t.foot :: fresh(o))
    ensures Holds(t', if ok then Apply(s, path, op).value else s)
    decreases |path|
  {
    if path == [] {
      ok, t' := Call(section, op, t, s);
    } else if path[0] in section.attrs && section.attrs[path[0]].Child? {
      ghost var kid := t.kids[path[0]];
      ghost var sub, kid' := s.attrs[path[0]].sec, kid;
      ghost var sub' := if Apply(sub, path[1..], op).Some? then Apply(sub, path[1..], op).value else sub;
      assert s.attrs[path[0] := Sub(sub)] == s.attrs;
      assert s.(attrs := s.attrs[path[0] := Sub(sub')]) ==
             if Apply(s, path, op).Some? then Apply(s, path, op).value else s;
      ok, kid' := Execute(section.attrs[path[0]].section, path[1..], op, kid, sub);
      t' := WithKid(t, path[0], kid');
      WithKidIsTree(t, path[0], kid');
      forall k | k in t.kids && k != path[0] ensures Holds(t.kids[k], s.attrs[k].sec) {
        assert old(Holds(t.kids[k], s.attrs[k].sec));
      }
      HoldsWithKid(t, s, path[0], kid', sub');
    } else {
      ok, t' := false, t;
    }
  }

  /** The lines for one name of the settings. */
  method PythoniseAttr(section: ConfigSection, a: string, opts: Options, ghost t: Shape, ghost s: Sec)
    returns (r: Option<seq<Stmt>>, ghost o: Order)
    requires IsTree(t) && Holds(t, s) && t.obj == section && SecOk(s) && a in s.attrs
    ensures r.Some? ==> (s.attrs[a].Sub? ==> IsOrder(s.attrs[a].sec, o))
                        && r == PrintAttr(s, Order([], map[a := o]), a, opts)
    ensures r.None? ==> !ChildrenAreSections(s)
    decreases t, 0
  {
    o := Order([], map[]);
    if a in section.children {
      if section.attrs[a].Setting? {
        return None, o;
      }
      var child := section.attrs[a].section;
      var body;
      body, o := Pythonise(child, opts, t.kids[a], s.attrs[a].sec);
      if body.None? {
        return None, o;
      }
      r := Some([At([], MakeSection(a))] + Under(child.name, body.value));
    } else {
      r := Some((if a in section.docstrings && opts.comment then [At([], Comment(section.docstrings[a]))] else []) +
                [At([], Assign(a, section.attrs[a].v))] +
                (if a in section.docstrings && opts.document then [At([], DocumentParam(section.docstrings[a], a))]
                 else []));
    }
  }

  /** `pythonise_`. The set of settings is visited in an order Python promises nothing
      about; `o` is the order this call happened to take. */
  method Pythonise(section: ConfigSection, opts: Options, ghost t: Shape, ghost s: Sec)
    returns (r: Option<seq<Stmt>>, ghost o: Order)
    requires IsTree(t) && Holds(t, s) && t.obj == section && SecOk(s)
    ensures r.Some? ==> IsOrder(s, o) && r == Print(s, o, opts)
    ensures r.None? ==> !ChildrenAreSections(s)
    decreases t
  {
    var lines: seq<Stmt> := [];
    var todo := section.settings;
    o := Order([], map[]);
    ghost var done := {};
    while todo != {}
      invariant done !! todo && done + todo == s.settings
      invariant PrintedSoFar(s, o, done, lines, opts)
      decreases todo
    {
      var a :| a in todo;
      var some, o' := PythoniseAttr(section, a, opts, t, s);
      if some.None? {
        return None, o;
      }
      PrintedOneMore(s, o, done, lines, a, o', some.value, opts);
      lines, o := lines + some.value, Visit(o, a, o');
      todo, done := todo - {a}, done + {a};
    }
    r := Some((if opts.document then [At([], Document(section.documentation))] else []) +
              (if opts.comment then [At([], Comment(section.documentation))] else []) + lines);
  }

  /** The part of an order taken so far: the names in `done`. */
  ghost predicate Visited(s: Sec, o: Order, done: set<string>) {
    && NoDup(o.names) && Elements(o.names) == done
    && forall a | a in s.attrs && s.attrs[a].Sub? && a in done :: a in o.subs && IsOrder(s.attrs[a].sec, o.subs[a])
  }

  ghost function Visit(o: Order, a: string, o': Order): Order {
    Order(o.names + [a], o.subs[a := o'])
  }

  ghost predicate PrintedSoFar(s: Sec, o: Order, done: set<string>, lines: seq<Stmt>, opts: Options) {
    Visited(s, o, done) && PrintAttrs(s, o, o.names, opts) == Some(lines)
  }

  lemma PrintedOneMore(s: Sec, o: Order, done: set<string>, lines: seq<Stmt>, a: string, o': Order, some: seq<Stmt>,
                       opts: Options)
    requires PrintedSoFar(s, o, done, lines, opts) && a in s.attrs && a !in done
    requires s.attrs[a].Sub? ==> IsOrder(s.attrs[a].sec, o')
    requires PrintAttr(s, Order([], map[a := o']), a, opts) == Some(some)
    ensures PrintedSoFar(s, Visit(o, a, o'), done + {a}, lines + some, opts)
  {
    assert a !in Elements(o.names);
    Snoc(o.names, a);
    PrintAttrsExtend(s, o, o.names, Visit(o, a, o'), a, opts);
  }

  /** The text printed for some names depends on the child orders of those names only,
      and grows at its end when one more name is visited. */
  lemma {:induction false} PrintAttrsExtend(s: Sec, o: Order, names: seq<string>, o': Order, a: string, opts: Options)
    requires forall n | n in names && n in o.subs :: n in o'.subs && o'.subs[n] == o.subs[n]
    requires PrintAttrs(s, o, names, opts).Some? && PrintAttr(s, o', a, opts).Some?
    ensures PrintAttrs(s, o', names + [a], opts) ==
            Some(PrintAttrs(s, o, names, opts).value + PrintAttr(s, o', a, opts).value)
    decreases |names|
  {
    var last := PrintAttr(s, o', a, opts).value;
    if names == [] {
      assert [a][1..] == [] && names + [a] == [a];
      assert last + [] == last && [] + last == last;
      assert PrintAttrs(s, o', [], opts) == Some([]);
    } else {
      PrintAttrsExtend(s, o, names[1..], o', a, opts);
      assert (names + [a])[1..] == names[1..] + [a];
      assert names[0] in names;
      var first, rest := PrintAttr(s, o, names[0], opts).value, PrintAttrs(s, o, names[1..], opts).value;
      assert PrintAttr(s, o', names[0], opts) == Some(first);
      assert (first + rest) + last == first + (rest + last);
    }
  }

  // ----- the top level object -----

  /** The trees of the sections of one configuration share no object. */
  ghost predicate IsForest(kids: map<string, Shape>, foot: set<object>) {
    && (forall n | n in kids :: IsTree(kids[n]) && kids[n].foot <= foot)
    && (forall n, m | n in kids && m in kids && n != m :: kids[n].foot !! kids[m].foot)
  }

  /** The objects of `kids` hold the sections `secs`. */
  ghost predicate HoldsAll(kids: map<string, Shape>, foot: set<object>, secs: map<string, Sec>)
    requires IsForest(kids, foot)
    reads foot
  {
    && kids.Keys == secs.Keys
    && forall n | n in kids :: Holds(kids[n], secs[n])
  }

  /** Without the tree at `n`, the other trees live in objects of their own. */
  lemma Split(kids: map<string, Shape>, foot: set<object>, secs: map<string, Sec>, n: string)
    requires IsForest(kids, foot) && HoldsAll(kids, foot, secs) && n in kids
    ensures IsForest(kids - {n}, foot - kids[n].foot) && HoldsAll(kids - {n}, foot - kids[n].foot, secs - {n})
  {
  }

  /** Put a tree over objects of its own beside the others. */
  lemma Join(kids: map<string, Shape>, foot: set<object>, secs: map<string, Sec>, n: string, t: Shape, s: Sec)
    requires n !in kids && IsForest(kids, foot) && HoldsAll(kids, foot, secs)
    requires IsTree(t) && Holds(t, s) && t.foot !! foot
    ensures IsForest(kids[n := t], foot + t.foot) && HoldsAll(kids[n := t], foot + t.foot, secs[n := s])
  {
    forall m | m in kids ensures kids[m].foot !! t.foot { }
  }

  /** Put a tree in the place of the one at `n`, which the others did not touch. */
  lemma Rejoin(kids: map<string, Shape>, foot: set<object>, secs: map<string, Sec>, n: string, t: Shape, s: Sec)
    requires n in kids && IsForest(kids, foot) && IsTree(t) && Holds(t, s)
    requires IsForest(kids - {n}, foot - kids[n].foot) && HoldsAll(kids - {n}, foot - kids[n].foot, secs - {n})
    requires n in secs && t.foot !! foot - kids[n].foot
    ensures IsForest(kids[n := t], foot + t.foot) && HoldsAll(kids[n := t], foot + t.foot, secs[n := s])
  {
    var rest := kids - {n};
    Join(rest, foot - kids[n].foot, secs - {n}, n, t, s);
    assert kids[n := t] == rest[n := t] && secs[n := s] == (secs - {n})[n := s];
  }

  class Configuration {
    var sections: seq<string>
    var components: seq<string>
    var webapps: seq<string>
    var attrs: map<string, ConfigSection>

    constructor ()
      ensures sections == [] && components == [] && webapps == [] && attrs == map[]
    {
      sections, components, webapps, attrs := [], [], [], map[];
    }

    method Section_(n: string) returns (section: ConfigSection)
      modifies this
      ensures n in attrs && section == attrs[n]
      ensures components == old(components) && webapps == old(webapps)
      ensures n in old(attrs) ==> attrs == old(attrs) && sections == old(sections)
      ensures n !in old(attrs) ==>
                && fresh(section) && section.State() == Fields("", n, {}, map[], {}, map[])
                && attrs == old(attrs)[n := section] && sections == old(sections) + [n]
    {
      if n in attrs {
        return attrs[n];
      }
      section := new ConfigSection(n);
      attrs := attrs[n := section];
      sections := sections + [n];
    }
  }

  /** The objects of `config` and of the trees `kids` hold the configuration `c`. */
  ghost predicate HoldsConf(config: Configuration, kids: map<string, Shape>, foot: set<object>, c: Conf)
    reads config, foot
  {
    && config !in foot && IsForest(kids, foot)
    && c.sections == config.sections && c.components == config.components && c.webapps == config.webapps
    && config.attrs.Keys == kids.Keys && (forall n | n in kids :: kids[n].obj == config.attrs[n])
    && HoldsAll(kids, foot, c.attrs)
  }

  method CallNewSection(config: Configuration, n: string, ghost kids: map<string, Shape>, ghost foot: set<object>,
                        ghost c: Conf)
    returns (ghost kids': map<string, Shape>, ghost foot': set<object>)
    requires HoldsConf(config, kids, foot, c) && n !in c.attrs
    modifies config
    ensures HoldsConf(config, kids', foot', TopSection(c, n)) && (forall o | o in foot' && o !in foot :: fresh(o))
  {
    var section := config.Section_(n);
    assert HoldsAll(kids, foot, c.attrs);
    kids', foot' := kids[n := Shape(section, map[], {section})], foot + {section};
    NewSectionHolds(config, kids, foot, c, n, section);
  }

  lemma NewSectionHolds(config: Configuration, kids: map<string, Shape>, foot: set<object>, c: Conf, n: string,
                        section: ConfigSection)
    requires n !in kids && IsForest(kids, foot) && HoldsAll(kids, foot, c.attrs)
    requires config !in foot && section !in foot
    requires section.State() == Fields("", n, {}, map[], {}, map[])
    requires config.sections == c.sections + [n] && config.components == c.components && config.webapps == c.webapps
    requires config.attrs.Keys == kids.Keys + {n} && config.attrs[n] == section
    requires forall m | m in kids :: kids[m].obj == config.attrs[m]
    ensures HoldsConf(config, kids[n := Shape(section, map[], {section})], foot + {section}, TopSection(c, n))
  {
    JoinFresh(kids, foot, c.attrs, n, section);
  }

  /** `section_`: make a section if it is missing. */
  method CallTopSection(config: Configuration, n: string, ghost kids: map<string, Shape>, ghost foot: set<object>,
                        ghost c: Conf)
    returns (ghost kids': map<string, Shape>, ghost foot': set<object>)
    requires HoldsConf(config, kids, foot, c)
    modifies config
    ensures HoldsConf(config, kids', foot', TopSection(c, n)) && (forall o | o in foot' && o !in foot :: fresh(o))
  {
    if n in config.attrs {
      var _ := config.Section_(n);
      kids', foot' := kids, foot;
      assert HoldsAll(kids, foot, c.attrs);
    } else {
      kids', foot' := CallNewSection(config, n, kids, foot, c);
    }
  }

  lemma JoinFresh(kids: map<string, Shape>, foot: set<object>, secs: map<string, Sec>, n: string,
                  section: ConfigSection)
    requires n !in kids && IsForest(kids, foot) && HoldsAll(kids, foot, secs) && section !in foot
    requires section.State() == Fields("", n, {}, map[], {}, map[])
    ensures var t := Shape(section, map[], {section});
            IsForest(kids[n := t], foot + {section}) && HoldsAll(kids[n := t], foot + {section}, secs[n := Fresh(n)])
  {
    var t := Shape(section, map[], {section});
    HoldsRoot(t, Fresh(n));
    Join(kids, foot, secs, n, t, Fresh(n));
  }

  /** The configuration after the tree of the section `n` alone was changed. */
  lemma ConfWithTree(config: Configuration, kids: map<string, Shape>, foot: set<object>, c: Conf, n: string,
                     t: Shape, s: Sec)
    requires config !in foot && config !in t.foot
    requires c.sections == config.sections && c.components == config.components && c.webapps == config.webapps
    requires config.attrs.Keys == kids.Keys && (forall m | m in kids :: kids[m].obj == config.attrs[m])
    requires n in kids && n in c.attrs && IsForest(kids, foot) && IsTree(t) && Holds(t, s) && t.obj == kids[n].obj
    requires IsForest(kids - {n}, foot - kids[n].foot) && HoldsAll(kids - {n}, foot - kids[n].foot, c.attrs - {n})
    requires t.foot !! foot - kids[n].foot
    ensures HoldsConf(config, kids[n := t], foot + t.foot, c.(attrs := c.attrs[n := s]))
  {
    Rejoin(kids, foot, c.attrs, n, t, s);
  }

  /** Run one line that names the section `n`. */
  method ExecuteInSection(config: Configuration, n: string, path: seq<string>, op: Op,
                          ghost kids: map<string, Shape>, ghost foot: set<object>, ghost c: Conf)
    returns (ok: bool, ghost kids': map<string, Shape>, ghost foot': set<object>)
    requires HoldsConf(config, kids, foot, c)
    modifies foot
    ensures ok == ApplyLine(c, InSection(n, At(path, op))).Some?
    ensures HoldsConf(config, kids', foot', if ok then ApplyLine(c, InSection(n, At(path, op))).value else c)
    ensures (forall o | o in foot' && o !in foot :: fresh(o))
  {
    if n !in config.attrs {
      return false, kids, foot;
    }
    ghost var s := c.attrs[n];
    ghost var s' := if Apply(s, path, op).Some? then Apply(s, path, op).value else s;
    assert c.attrs[n := s] == c.attrs;
    assert c.(attrs := c.attrs[n := s']) ==
           if Apply(s, path, op).Some? then ApplyLine(c, InSection(n, At(path, op))).value else c;
    ghost var rest, others := kids - {n}, foot - kids[n].foot;
    Split(kids, foot, c.attrs, n);
    ghost var t';
    ok, t' := Execute(config.attrs[n], path, op, kids[n], s);
    assert HoldsAll(rest, others, c.attrs - {n});
    ConfWithTree(config, kids, foot, c, n, t', s');
    kids', foot' := kids[n := t'], foot + t'.foot;
  }

  /** `section_` twice. */
  method CallSections(section: ConfigSection, c: string, d: string, ghost t: Shape, ghost s: Sec)
    returns (ghost t': Shape)
    requires IsTree(t) && Holds(t, s) && t.obj == section
    modifies section
    ensures IsTree(t') && t'.obj == section && (forall o | o in t'.foot && o !in t.foot :: fresh(o))
    ensures Holds(t', EnsureSection(EnsureSection(s, c), d))
  {
    ghost var t1 := CallSection(section, c, t, s);
    t' := CallSection(section, d, t1, EnsureSection(s, c));
  }

  /** The default fields of a component, or the default sections of a webapp. */
  method AddDefaults(section: ConfigSection, component: bool, ghost t: Shape, ghost s: Sec) returns (ghost t': Shape)
    requires IsTree(t) && Holds(t, s) && t.obj == section
    modifies section
    ensures IsTree(t') && t'.obj == section && (forall o | o in t'.foot && o !in t.foot :: fresh(o))
    ensures Holds(t', if component then ComponentDefaults(s) else WebappDefaults(s))
  {
    if component {
      var ok;
      ok, t' := CallAssign(section, COMPONENT_DIR, NoneValue, t, s);
    } else {
      ghost var t1 := CallSections(section, WEBTOOLS, DATABASE, t, s);
      t' := CallSection(section, SECURITY, t1, EnsureSection(EnsureSection(s, WEBTOOLS), DATABASE));
    }
  }

  method AddName(config: Configuration, n: string, component: bool,
                 ghost kids: map<string, Shape>, ghost foot: set<object>, ghost c: Conf)
    requires HoldsConf(config, kids, foot, c)
    modifies config
    ensures HoldsConf(config, kids, foot, if component then c.(components := c.components + [n])
                                          else c.(webapps := c.webapps + [n]))
  {
    if component {
      config.components := config.components + [n];
    } else {
      config.webapps := config.webapps + [n];
    }
    assert HoldsAll(kids, foot, c.attrs);
  }

  method Equip(config: Configuration, n: string, component: bool,
               ghost kids: map<string, Shape>, ghost foot: set<object>, ghost c: Conf)
    returns (ghost kids': map<string, Shape>, ghost foot': set<object>)
    requires HoldsConf(config, kids, foot, c) && n in c.attrs
    modifies foot
    ensures forall o | o in foot' && o !in foot :: fresh(o)
    ensures HoldsConf(config, kids', foot', c.(attrs := c.attrs[n :=
              if component then ComponentDefaults(c.attrs[n]) else WebappDefaults(c.attrs[n])]))
  {
    ghost var rest, others := kids - {n}, foot - kids[n].foot;
    Split(kids, foot, c.attrs, n);
    ghost var s' := if component then ComponentDefaults(c.attrs[n]) else WebappDefaults(c.attrs[n]);
    ghost var t' := AddDefaults(config.attrs[n], component, kids[n], c.attrs[n]);
    assert HoldsAll(rest, others, c.attrs - {n});
    ConfWithTree(config, kids, foot, c, n, t', s');
    kids', foot' := kids[n := t'], foot + t'.foot;
  }

  /** Record `n` as a component or a webapp and give its section the defaults. */
  method Enroll(config: Configuration, n: string, component: bool,
                ghost kids: map<string, Shape>, ghost foot: set<object>, ghost c: Conf)
    returns (ghost kids': map<string, Shape>, ghost foot': set<object>)
    requires HoldsConf(config, kids, foot, c) && n in c.attrs
    modifies config, foot
    ensures forall o | o in foot' && o !in foot :: fresh(o)
    ensures HoldsConf(config, kids', foot',
              if component then c.(components := c.components + [n],
                                   attrs := c.attrs[n := ComponentDefaults(c.attrs[n])])
              else c.(webapps := c.webapps + [n], attrs := c.attrs[n := WebappDefaults(c.attrs[n])]))
  {
    AddName(config, n, component, kids, foot, c);
    kids', foot' := Equip(config, n, component, kids, foot,
                          if component then c.(components := c.components + [n]) else c.(webapps := c.webapps + [n]));
  }

  /** `component_`: the default field is set the first time only, over any value it had. */
  method CallComponent(config: Configuration, n: string, ghost kids: map<string, Shape>, ghost foot: set<object>,
                       ghost c: Conf)
    returns (ghost kids': map<string, Shape>, ghost foot': set<object>)
    requires HoldsConf(config, kids, foot, c)
    modifies config, foot
    ensures HoldsConf(config, kids', foot', Component(c, n)) && (forall o | o in foot' && o !in foot :: fresh(o))
  {
    kids', foot' := CallTopSection(config, n, kids, foot, c);
    if n !in config.components {
      kids', foot' := Enroll(config, n, true, kids', foot', TopSection(c, n));
    }
  }

  /** `webapp_`: the three default sections are made the first time only. */
  method CallWebapp(config: Configuration, n: string, ghost kids: map<string, Shape>, ghost foot: set<object>,
                    ghost c: Conf)
    returns (ghost kids': map<string, Shape>, ghost foot': set<object>)
    requires HoldsConf(config, kids, foot, c)
    modifies config, foot
    ensures HoldsConf(config, kids', foot', Webapp(c, n)) && (forall o | o in foot' && o !in foot :: fresh(o))
  {
    kids', foot' := CallTopSection(config, n, kids, foot, c);
    if n !in config.webapps {
      kids', foot' := Enroll(config, n, false, kids', foot', TopSection(c, n));
    }
  }

  /** Run one line of a saved file. */
  method ExecuteLine(config: Configuration, line: Line, ghost kids: map<string, Shape>, ghost foot: set<object>,
                     ghost c: Conf)
    returns (ok: bool, ghost kids': map<string, Shape>, ghost foot': set<object>)
    requires HoldsConf(config, kids, foot, c)
    modifies config, foot
    ensures ok == ApplyLine(c, line).Some?
    ensures HoldsConf(config, kids', foot', if ok then ApplyLine(c, line).value else c)
            && (forall o | o in foot' && o !in foot :: fresh(o))
  {
    ok := true;
    match line
    case SectionLine(n) => kids', foot' := CallTopSection(config, n, kids, foot, c);
    case ComponentLine(n) => kids', foot' := CallComponent(config, n, kids, foot, c);
    case WebappLine(n) => kids', foot' := CallWebapp(config, n, kids, foot, c);
    case InSection(n, stmt) => ok, kids', foot' := ExecuteInSection(config, n, stmt.path, stmt.op, kids, foot, c);
  }

  /** Load a saved file into a new configuration. */
  method Load(lines: seq<Line>)
    returns (config: Configuration, ok: bool, ghost kids: map<string, Shape>, ghost foot: set<object>)
    ensures ok == RunLines(EMPTY_CONF, lines).Some?
    ensures fresh(config) && (ok ==> HoldsConf(config, kids, foot, RunLines(EMPTY_CONF, lines).value))
  {
    config := new Configuration();
    kids, foot, ok := map[], {}, true;
    ghost var c := EMPTY_CONF;
    var i := 0;
    while i < |lines|
      invariant 0 <= i <= |lines| && fresh(config) && fresh(foot) && ok
      invariant HoldsConf(config, kids, foot, c)
      invariant RunLines(EMPTY_CONF, lines) == RunLines(c, lines[i..])
    {
      ok, kids, foot := ExecuteLine(config, lines[i], kids, foot, c);
      if !ok {
        return;
      }
      c := ApplyLine(c, lines[i]).value;
      assert lines[i..][1..] == lines[i + 1..];
      i := i + 1;
    }
  }

  /** The lines of one top level section. */
  method PythoniseTop(config: Configuration, n: string, opts: Options, ghost t: Shape, ghost c: Conf)
    returns (r: Option<seq<Line>>, ghost o: Order)
    requires n in config.attrs && n in c.attrs && config.attrs[n] == t.obj && IsTree(t) && Holds(t, c.attrs[n])
             && SecOk(c.attrs[n])
    requires config.components == c.components && config.webapps == c.webapps
    ensures r.Some? ==> IsOrder(c.attrs[n], o) && r == PrintTop(c, map[n := o], n, opts)
    ensures r.None? ==> !ChildrenAreSections(c.attrs[n])
  {
    var body;
    body, o := Pythonise(config.attrs[n], opts, t, c.attrs[n]);
    if body.None? {
      return None, o;
    }
    var kind := if n in config.components then ComponentLine(n)
                else if n in config.webapps then WebappLine(n)
                else SectionLine(n);
    r := Some([kind] + InSectionLines(config.attrs[n].name, body.value));
  }

  /** `Configuration.pythonise_`. */
  method PythoniseConf(config: Configuration, opts: Options, ghost kids: map<string, Shape>, ghost foot: set<object>,
                       ghost c: Conf)
    returns (r: Option<seq<Line>>, ghost orders: map<string, Order>)
    requires HoldsConf(config, kids, foot, c) && ConfOk(c)
    ensures r.Some? ==> (forall n | n in c.sections :: n in orders && IsOrder(c.attrs[n], orders[n]))
                        && r == PrintConf(c, orders, c.sections, opts)
    ensures r.None? ==> exists n :: n in c.sections && !ChildrenAreSections(c.attrs[n])
  {
    var lines: seq<Line> := [];
    orders := map[];
    var i := 0;
    while i < |config.sections|
      invariant 0 <= i <= |config.sections|
      invariant ConfPrintedSoFar(c, orders, i, lines, opts)
    {
      var n := config.sections[i];
      assert n in c.sections;
      var top, o := PythoniseTop(config, n, opts, kids[n], c);
      if top.None? {
        return None, orders;
      }
      ConfPrintedOneMore(c, orders, i, lines, o, top.value, opts);
      lines, orders, i := lines + top.value, orders[n := o], i + 1;
    }
    assert c.sections[..i] == c.sections;
    r := Some(lines);
  }

  ghost predicate ConfPrintedSoFar(c: Conf, orders: map<string, Order>, i: nat, lines: seq<Line>, opts: Options)
    requires i <= |c.sections|
  {
    && (forall n | n in c.sections[..i] :: n in c.attrs && n in orders && IsOrder(c.attrs[n], orders[n]))
    && PrintConf(c, orders, c.sections[..i], opts) == Some(lines)
  }

  lemma ConfPrintedOneMore(c: Conf, orders: map<string, Order>, i: nat, lines: seq<Line>, o: Order, top: seq<Line>,
                           opts: Options)
    requires i < |c.sections| && NoDup(c.sections) && ConfPrintedSoFar(c, orders, i, lines, opts)
    requires c.sections[i] in c.attrs && IsOrder(c.attrs[c.sections[i]], o)
    requires PrintTop(c, map[c.sections[i] := o], c.sections[i], opts) == Some(top)
    ensures ConfPrintedSoFar(c, orders[c.sections[i] := o], i + 1, lines + top, opts)
  {
    var n := c.sections[i];
    assert c.sections[..i + 1] == c.sections[..i] + [n];
    PrintConfExtend(c, orders, c.sections[..i], orders[n := o], n, opts);
  }

  lemma {:induction false} PrintConfExtend(c: Conf, orders: map<string, Order>, names: seq<string>,
                                           orders': map<string, Order>, n: string, opts: Options)
    requires forall m | m in names :: m in c.attrs && m in orders && m in orders' && orders'[m] == orders[m]
    requires n in c.attrs && n in orders'
    requires PrintConf(c, orders, names, opts).Some? && PrintTop(c, orders', n, opts).Some?
    ensures PrintConf(c, orders', names + [n], opts) ==
            Some(PrintConf(c, orders, names, opts).value + PrintTop(c, orders', n, opts).value)
    decreases |names|
  {
    var last := PrintTop(c, orders', n, opts).value;
    if names == [] {
      assert [n][1..] == [] && names + [n] == [n];
      assert last + [] == last && [] + last == last;
      assert PrintConf(c, orders', [], opts) == Some([]);
    } else {
      PrintConfExtend(c, orders, names[1..], orders', n, opts);
      assert (names + [n])[1..] == names[1..] + [n];
      var first, rest := PrintTop(c, orders, names[0], opts).value, PrintConf(c, orders, names[1..], opts).value;
      assert PrintTop(c, orders', names[0], opts) == Some(first);
      assert (first + rest) + last == first + (rest + last);
    }
  }

  /** Save a well-formed configuration and load it back: the objects of the copy hold
      the same configuration, in whatever order the settings were written. */
  method SaveAndLoad(config: Configuration, opts: Options, ghost kids: map<string, Shape>, ghost foot: set<object>,
                     ghost c: Conf)
    returns (copy: Configuration, ghost kids': map<string, Shape>, ghost foot': set<object>, ghost r: Conf)
    requires HoldsConf(config, kids, foot, c) && ConfOk(c) && WellFormedConf(c)
    ensures fresh(copy) && HoldsConf(copy, kids', foot', r) && SameConf(r, c, opts.document)
  {
    var file, orders := PythoniseConf(config, opts, kids, foot, c);
    forall n | n in c.sections ensures ChildrenAreSections(c.attrs[n]) {
      WellFormedChildren(c.attrs[n]);
    }
    WellFormedRebuilds(c, orders, opts);
    var ok;
    copy, ok, kids', foot' := Load(file.value);
    r := RunLines(EMPTY_CONF, file.value).value;
  }

  lemma {:induction false} WellFormedChildren(s: Sec)
    requires WellFormed(s)
    ensures ChildrenAreSections(s)
    decreases s
  {
    forall a | a in s.attrs && s.attrs[a].Sub? ensures ChildrenAreSections(s.attrs[a].sec) {
      WellFormedChildren(s.attrs[a].sec);
    }
  }
}
