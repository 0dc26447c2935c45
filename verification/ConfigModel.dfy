/** The values behind `ConfigSection` and `Configuration`: what one object tree
    looks like, and what each statement of a saved configuration file does to it. */
module ConfigModel {
  import opened Common

  /** Python values; `Foreign` stands for any type outside `_SupportedTypes`. */
  datatype Value =
    | NoneValue
    | Scalar(text: string)
    | Sequence(items: seq<Value>)
    | Dict(entries: map<string, Value>)
    | Foreign

  /** `_complexTypeCheck`: true iff the check does not raise. */
  predicate Supported(v: Value) {
    match v
    case Foreign => false
    case Sequence(items) => forall i | 0 <= i < |items| :: Supported(items[i])
    case Dict(entries) => forall k | k in entries :: Supported(entries[k])
    case _ => true
  }

  /** An attribute of a section: a plain setting or a child section. */
  datatype Attr = Plain(v: Value) | Sub(sec: Sec)

  datatype Sec = Sec(
    doc: string,
    name: string,
    settings: set<string>,
    docstrings: map<string, string>,
    children: set<string>,
    attrs: map<string, Attr>)

  function Fresh(name: string): Sec {
    Sec("", name, {}, map[], {}, map[])
  }

  /** What `__setattr__` and `__delattr__` keep true of every section. */
  ghost predicate SecOk(s: Sec) {
    && s.settings == s.attrs.Keys
    && s.children <= s.settings
    && forall a | a in s.attrs ::
         match s.attrs[a]
         case Plain(v) => Supported(v)
         case Sub(sub) => a in s.children && SecOk(sub)
  }

  // ----- single operations on one section -----

  /** `self.a = v` for a plain value; a type the check rejects raises. */
  function AssignAttr(s: Sec, a: string, v: Value): Option<Sec> {
    if Supported(v)
    then Some(s.(attrs := s.attrs[a := Plain(v)], settings := s.settings + {a}))
    else None
  }

  /** `self.section_(c)` */
  function EnsureSection(s: Sec, c: string): Sec {
    if c in s.attrs then s
    else s.(attrs := s.attrs[c := Sub(Fresh(c))], settings := s.settings + {c}, children := s.children + {c})
  }

  datatype Op =
    | MakeSection(child: string)
    | Assign(attr: string, value: Value)
    | Document(doc: string)
    | DocumentParam(doc: string, attr: string)
    | Comment(text: string)

  function ApplyHere(s: Sec, op: Op): Option<Sec> {
    match op
    case MakeSection(c) => Some(EnsureSection(s, c))
    case Assign(a, v) => AssignAttr(s, a, v)
    case Document(d) => Some(s.(doc := d))
    case DocumentParam(d, a) => Some(s.(docstrings := s.docstrings[a := d]))
    case Comment(_) => Some(s)
  }

  /** One line of a saved file, with the section it names relative to some section. */
  datatype Stmt = At(path: seq<string>, op: Op)

  /** Follow `path` by attribute access and apply `op` to the section found.
      A missing attribute, or one that is not a section, raises. */
  function Apply(s: Sec, path: seq<string>, op: Op): Option<Sec>
    decreases |path|
  {
    if path == [] then ApplyHere(s, op)
    else if path[0] in s.attrs && s.attrs[path[0]].Sub? then
      match Apply(s.attrs[path[0]].sec, path[1..], op)
      case None => None
      case Some(sub) => Some(s.(attrs := s.attrs[path[0] := Sub(sub)]))
    else None
  }

  /** `self.a = sub` for a section. */
  function StoreSection(s: Sec, a: string, sub: Sec): Sec {
    s.(attrs := s.attrs[a := Sub(sub)], settings := s.settings + {a}, children := s.children + {a})
  }

  /** `del self.a`; an unknown name raises. */
  function DeleteAttr(s: Sec, a: string): Option<Sec> {
    if a in s.attrs
    then Some(s.(attrs := s.attrs - {a}, settings := s.settings - {a}, children := s.children - {a}))
    else None
  }

  /** What a program can do to a section: besides the statements of saved files, it can store
      sections under any name and delete attributes. */
  datatype Edit = Store(attr: string, section: Sec) | Delete(attr: string) | Do(op: Op)

  function EditHere(s: Sec, edit: Edit): Option<Sec> {
    match edit
    case Store(a, sub) => Some(StoreSection(s, a, sub))
    case Delete(a) => DeleteAttr(s, a)
    case Do(op) => ApplyHere(s, op)
  }

  /** The same at the section found along `path`. */
  function EditAt(s: Sec, path: seq<string>, edit: Edit): Option<Sec>
    decreases |path|
  {
    if path == [] then EditHere(s, edit)
    else if path[0] in s.attrs && s.attrs[path[0]].Sub? then
      match EditAt(s.attrs[path[0]].sec, path[1..], edit)
      case None => None
      case Some(sub) => Some(s.(attrs := s.attrs[path[0] := Sub(sub)]))
    else None
  }

  /** The section that `path` leads to, if there is one. */
  function SectionAt(s: Sec, path: seq<string>): Option<Sec>
    decreases |path|
  {
    if path == [] then Some(s)
    else if path[0] in s.attrs && s.attrs[path[0]].Sub? then SectionAt(s.attrs[path[0]].sec, path[1..])
    else None
  }

  function Run(s: Sec, stmts: seq<Stmt>): Option<Sec>
    decreases |stmts|
  {
    if stmts == [] then Some(s)
    else
      match Apply(s, stmts[0].path, stmts[0].op)
      case None => None
      case Some(s') => Run(s', stmts[1..])
  }

  // ----- the top level object -----

  datatype Conf = Conf(
    sections: seq<string>,
    components: seq<string>,
    webapps: seq<string>,
    attrs: map<string, Sec>)

  const EMPTY_CONF := Conf([], [], [], map[])

  ghost predicate ConfOk(c: Conf) {
    && NoDup(c.sections) && NoDup(c.components) && NoDup(c.webapps)
    && (forall n | n in c.sections :: n in c.attrs)
    && (forall n | n in c.components :: n in c.attrs)
    && (forall n | n in c.webapps :: n in c.attrs)
    && (forall n | n in c.attrs :: SecOk(c.attrs[n]))
  }

  const COMPONENT_DIR := "componentDir"
  const WEBTOOLS := "Webtools"
  const DATABASE := "database"
  const SECURITY := "security"

  function TopSection(c: Conf, n: string): (r: Conf)
    ensures n in r.attrs
  {
    if n in c.attrs then c
    else c.(attrs := c.attrs[n := Fresh(n)], sections := c.sections + [n])
  }

  function WebappDefaults(s: Sec): Sec {
    EnsureSection(EnsureSection(EnsureSection(s, WEBTOOLS), DATABASE), SECURITY)
  }

  function ComponentDefaults(s: Sec): Sec {
    s.(attrs := s.attrs[COMPONENT_DIR := Plain(NoneValue)], settings := s.settings + {COMPONENT_DIR})
  }

  function Component(c: Conf, n: string): Conf {
    var c' := TopSection(c, n);
    if n in c'.components then c'
    else c'.(components := c'.components + [n], attrs := c'.attrs[n := ComponentDefaults(c'.attrs[n])])
  }

  function Webapp(c: Conf, n: string): Conf {
    var c' := TopSection(c, n);
    if n in c'.webapps then c'
    else c'.(webapps := c'.webapps + [n], attrs := c'.attrs[n := WebappDefaults(c'.attrs[n])])
  }

  datatype Line =
    | SectionLine(name: string)
    | ComponentLine(name: string)
    | WebappLine(name: string)
    | InSection(name: string, stmt: Stmt)

  function ApplyLine(c: Conf, line: Line): Option<Conf> {
    match line
    case SectionLine(n) => Some(TopSection(c, n))
    case ComponentLine(n) => Some(Component(c, n))
    case WebappLine(n) => Some(Webapp(c, n))
    case InSection(n, stmt) =>
      if n !in c.attrs then None
      else match Apply(c.attrs[n], stmt.path, stmt.op)
        case None => None
        case Some(s) => Some(c.(attrs := c.attrs[n := s]))
  }

  function RunLines(c: Conf, lines: seq<Line>): Option<Conf>
    decreases |lines|
  {
    if lines == [] then Some(c)
    else match ApplyLine(c, lines[0])
      case None => None
      case Some(c') => RunLines(c', lines[1..])
  }

  // ----- the printer -----

  /** The order in which Python happens to iterate over the settings sets. */
  datatype Order = Order(names: seq<string>, subs: map<string, Order>)

  ghost predicate IsOrder(s: Sec, o: Order)
    decreases o
  {
    && NoDup(o.names)
    && Elements(o.names) == s.settings
    && forall a | a in s.attrs && s.attrs[a].Sub? :: a in o.subs && IsOrder(s.attrs[a].sec, o.subs[a])
  }

  datatype Options = Options(document: bool, comment: bool)

  function Under(name: string, stmts: seq<Stmt>): (r: seq<Stmt>)
    ensures |r| == |stmts|
  {
    seq(|stmts|, i requires 0 <= i < |stmts| => At([name] + stmts[i].path, stmts[i].op))
  }

  function Header(s: Sec, opts: Options): seq<Stmt> {
    (if opts.document then [At([], Document(s.doc))] else []) +
    (if opts.comment then [At([], Comment(s.doc))] else [])
  }

  function PlainLines(s: Sec, a: string, v: Value, opts: Options): seq<Stmt> {
    (if a in s.docstrings && opts.comment then [At([], Comment(s.docstrings[a]))] else []) +
    [At([], Assign(a, v))] +
    (if a in s.docstrings && opts.document then [At([], DocumentParam(s.docstrings[a], a))] else [])
  }

  /** `ConfigSection.pythonise_`; the paths are those of the internal names. `None`
      when a name listed as a child is not a section any more and the printer raises. */
  function Print(s: Sec, o: Order, opts: Options): Option<seq<Stmt>>
    decreases s, |o.names| + 1
  {
    match PrintAttrs(s, o, o.names, opts)
    case None => None
    case Some(body) => Some(Header(s, opts) + body)
  }

  function PrintAttr(s: Sec, o: Order, a: string, opts: Options): Option<seq<Stmt>>
    decreases s, 0
  {
    if a !in s.attrs then None
    else if a in s.children then
      if s.attrs[a].Plain? || a !in o.subs then None
      else match Print(s.attrs[a].sec, o.subs[a], opts)
        case None => None
        case Some(body) => Some([At([], MakeSection(a))] + Under(s.attrs[a].sec.name, body))
    else if s.attrs[a].Sub? then None
    else Some(PlainLines(s, a, s.attrs[a].v, opts))
  }

  function PrintAttrs(s: Sec, o: Order, names: seq<string>, opts: Options): Option<seq<Stmt>>
    decreases s, |names|
  {
    if names == [] then Some([])
    else
      match PrintAttr(s, o, names[0], opts)
      case None => None
      case Some(first) =>
        match PrintAttrs(s, o, names[1..], opts)
        case None => None
        case Some(rest) => Some(first + rest)
  }

  function InSectionLines(name: string, stmts: seq<Stmt>): (r: seq<Line>)
    ensures |r| == |stmts|
  {
    seq(|stmts|, i requires 0 <= i < |stmts| => InSection(name, stmts[i]))
  }

  function KindLine(c: Conf, n: string): Line {
    if n in c.components then ComponentLine(n)
    else if n in c.webapps then WebappLine(n)
    else SectionLine(n)
  }

  /** The part of `Configuration.pythonise_` printed for one top level section. */
  function PrintTop(c: Conf, orders: map<string, Order>, n: string, opts: Options): Option<seq<Line>>
    requires n in c.attrs && n in orders
  {
    match Print(c.attrs[n], orders[n], opts)
    case None => None
    case Some(body) => Some([KindLine(c, n)] + InSectionLines(c.attrs[n].name, body))
  }

  function PrintConf(c: Conf, orders: map<string, Order>, names: seq<string>, opts: Options): Option<seq<Line>>
    requires forall n | n in names :: n in c.attrs && n in orders
  {
    if names == [] then Some([])
    else
      match PrintTop(c, orders, names[0], opts)
      case None => None
      case Some(first) =>
        match PrintConf(c, orders, names[1..], opts)
        case None => None
        case Some(rest) => Some(first + rest)
  }

  ghost predicate IsOrderOf(c: Conf, orders: map<string, Order>) {
    forall n | n in c.attrs :: n in orders && IsOrder(c.attrs[n], orders[n])
  }
}
