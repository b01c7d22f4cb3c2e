/** Reading a UPnP device description (src/dlna.rs, `parse_description`): a flat
    state machine over XML events that must find what the tree holds. */
module Description {
  import opened Text

  // ---- Trees and their events ---------------------------------------------------------

  /** An element's text may come in any number of chunks (plain text, CDATA and
      character references, already decoded); comments, processing instructions and
      empty-element tags are `Ignored`. */
  datatype Node = Chunk(text: string) | Ignored | Element(name: string, children: Nodes)

  datatype Nodes = NoNodes | MoreNodes(first: Node, rest: Nodes)

  datatype Event = Start(name: string) | Data(text: string) | End(name: string) | Skip

  function Flat(n: Node): seq<Event> {
    match n
    case Chunk(text) => [Data(text)]
    case Ignored => [Skip]
    case Element(name, children) => [Start(name)] + (FlatAll(children) + [End(name)])
  }

  function FlatAll(nodes: Nodes): seq<Event> {
    match nodes case NoNodes => [] case MoreNodes(n, rest) => Flat(n) + FlatAll(rest)
  }

  /** The part after the last colon. */
  function LocalName(name: string): string {
    if name == "" || name[|name| - 1] == ':' then ""
    else LocalName(name[..|name| - 1]) + [name[|name| - 1]]
  }

  lemma {:induction false} LocalNameDropsPrefix(prefix: string, name: string)
    requires ':' !in name
    ensures LocalName(prefix + (":" + name)) == name && LocalName(name) == name
  {
    var all := prefix + (":" + name);
    if name == "" {
      assert all[|all| - 1] == ':';
    } else {
      var before := name[..|name| - 1];
      LocalNameDropsPrefix(prefix, before);
      assert all[..|all| - 1] == prefix + (":" + before);
      assert all[|all| - 1] == name[|name| - 1];
      assert name == before + [name[|name| - 1]];
    }
  }

  // ---- What the tree says -----------------------------------------------------------------

  predicate IsService(n: Node) {
    n.Element? && LocalName(n.name) == "service"
  }

  predicate HasElement(nodes: Nodes) {
    nodes.MoreNodes? && (nodes.first.Element? || HasElement(nodes.rest))
  }

  function TextOf(nodes: Nodes): string {
    match nodes
    case NoNodes => ""
    case MoreNodes(Chunk(text), rest) => text + TextOf(rest)
    case MoreNodes(_, rest) => TextOf(rest)
  }

  /** Element name and trimmed text of an element without child elements. */
  datatype Field = Field(name: string, value: string)

  function Leaf(n: Node): Field
    requires n.Element?
  {
    Field(LocalName(n.name), Trim(TextOf(n.children)))
  }

  /** All leaves below, in document order. */
  function Leaves(nodes: Nodes): seq<Field> {
    match nodes
    case NoNodes => []
    case MoreNodes(n, rest) => LeavesOf(n) + Leaves(rest)
  }

  function LeavesOf(n: Node): seq<Field> {
    if !n.Element? then [] else if HasElement(n.children) then Leaves(n.children) else [Leaf(n)]
  }

  /** `Lost` are leaves of a service that stand before a service inside it. */
  datatype Fact = Plain(field: Field) | Service(fields: seq<Field>) | Lost(fields: seq<Field>)

  /** The document as a list of services and of leaves outside services. */
  function Facts(nodes: Nodes): seq<Fact> {
    match nodes
    case NoNodes => []
    case MoreNodes(n, rest) => FactsOf(n) + Facts(rest)
  }

  function FactsOf(n: Node): seq<Fact> {
    if !n.Element? then []
    else if IsService(n) then [Service(Leaves(n.children))]
    else if HasElement(n.children) then Facts(n.children)
    else [Plain(Leaf(n))]
  }

  /** As the UPnP device template demands, no service inside a service. */
  predicate ServicesApart(nodes: Nodes) {
    nodes.MoreNodes? ==>
      (nodes.first.Element? ==>
         if IsService(nodes.first) then NoService(nodes.first.children) else ServicesApart(nodes.first.children))
      && ServicesApart(nodes.rest)
  }

  predicate NoService(nodes: Nodes) {
    nodes.MoreNodes? ==>
      (nodes.first.Element? ==> !IsService(nodes.first) && NoService(nodes.first.children)) && NoService(nodes.rest)
  }

  function Or<T>(a: Option<T>, b: Option<T>): Option<T> {
    if a.Some? then a else b
  }

  function IfNamed(f: Field, name: string): Option<string> {
    if f.name == name && f.value != "" then Some(f.value) else None
  }

  function LastOf(fields: seq<Field>, name: string): Option<string> {
    if fields == [] then None
    else Or(IfNamed(fields[|fields| - 1], name), LastOf(fields[..|fields| - 1], name))
  }

  function FirstPlain(facts: seq<Fact>, name: string): Option<string> {
    if facts == [] then None
    else
      Or(FirstPlain(facts[..|facts| - 1], name),
         match facts[|facts| - 1] case Plain(f) => IfNamed(f, name) case _ => None)
  }

  function LastBase(facts: seq<Fact>): Option<string> {
    if facts == [] then None
    else
      Or(match facts[|facts| - 1]
         case Plain(f) => IfNamed(f, "URLBase")
         case Service(fields) => LastOf(fields, "URLBase")
         case Lost(fields) => LastOf(fields, "URLBase"),
         LastBase(facts[..|facts| - 1]))
  }

  /** The control URL of a service whose type mentions `kind`. */
  function ControlOf(fields: seq<Field>, kind: string): Option<string>
    requires kind != ""
  {
    match LastOf(fields, "serviceType")
    case Some(t) => if Find(t, kind).Some? then LastOf(fields, "controlURL") else None
    case None => None
  }

  function FirstControl(facts: seq<Fact>, kind: string): Option<string>
    requires kind != ""
  {
    if facts == [] then None
    else
      Or(FirstControl(facts[..|facts| - 1], kind),
         match facts[|facts| - 1] case Service(fields) => ControlOf(fields, kind) case _ => None)
  }

  datatype Found = Found(urlBase: Option<string>, friendly: Option<string>, model: Option<string>,
                         control: Option<string>, rendering: Option<string>)

  const NOTHING := Found(None, None, None, None, None)

  function FoundIn(facts: seq<Fact>): Found {
    Found(LastBase(facts), FirstPlain(facts, "friendlyName"), FirstPlain(facts, "modelName"),
          FirstControl(facts, "AVTransport"), FirstControl(facts, "RenderingControl"))
  }

  function Lookup(nodes: Nodes): Found {
    FoundIn(Facts(nodes))
  }

  // ---- Services inside services ---------------------------------------------------------

  /** The content of a service: only leaves, or leaves before the first service inside
      it and what that service and everything behind it amount to. */
  datatype Inner = Open(fields: seq<Field>) | Shut(lost: seq<Field>, facts: seq<Fact>)

  function Behind(fields: seq<Field>, inner: Inner): Inner {
    match inner
    case Open(more) => Open(fields + more)
    case Shut(lost, facts) => Shut(fields + lost, facts)
  }

  function Inside(nodes: Nodes): Inner
    decreases nodes, 0
  {
    match nodes
    case NoNodes => Open([])
    case MoreNodes(n, rest) =>
      match InsideOf(n)
      case Open(fields) => Behind(fields, Inside(rest))
      case Shut(lost, facts) => Shut(lost, facts + Hoisted(rest))
  }

  function InsideOf(n: Node): Inner
    decreases n, 0
  {
    if !n.Element? then Open([])
    else if IsService(n) then Shut([], ServiceFacts(n.children))
    else if HasElement(n.children) then Inside(n.children)
    else Open([Leaf(n)])
  }

  /** A service without services inside counts; of any other only the inner ones do. */
  function ServiceFacts(children: Nodes): seq<Fact>
    decreases children, 1
  {
    match Inside(children)
    case Open(fields) => [Service(fields)]
    case Shut(lost, facts) => [Lost(lost)] + facts
  }

  /** The document with inner services lifted out: leaves behind an inner service
      belong to no service any more. */
  function Hoisted(nodes: Nodes): seq<Fact>
    decreases nodes, 0
  {
    match nodes
    case NoNodes => []
    case MoreNodes(n, rest) => HoistedOf(n) + Hoisted(rest)
  }

  function HoistedOf(n: Node): seq<Fact>
    decreases n, 0
  {
    if !n.Element? then []
    else if IsService(n) then ServiceFacts(n.children)
    else if HasElement(n.children) then Hoisted(n.children)
    else [Plain(Leaf(n))]
  }

  // ---- The reader -------------------------------------------------------------------------

  datatype Reader = Reader(found: Found, inService: bool, serviceType: string, serviceControl: string,
                           current: string, text: string)

  const FRESH := Reader(NOTHING, false, "", "", "", "")

  function Keep(s: Reader, value: string): Reader {
    if s.current == "URLBase" then s.(found := s.found.(urlBase := Some(value)))
    else if s.current == "friendlyName" && !s.inService then
      s.(found := s.found.(friendly := Or(s.found.friendly, Some(value))))
    else if s.current == "modelName" && !s.inService then
      s.(found := s.found.(model := Or(s.found.model, Some(value))))
    else if s.current == "serviceType" && s.inService then s.(serviceType := value)
    else if s.current == "controlURL" && s.inService then s.(serviceControl := value)
    else s
  }

  function Offer(s: Reader, kind: string): Option<string>
    requires kind != ""
  {
    if Find(s.serviceType, kind).Some? && s.serviceControl != "" then Some(s.serviceControl) else None
  }

  function Commit(s: Reader): Reader {
    s.(found := s.found.(control := Or(s.found.control, Offer(s, "AVTransport")),
                         rendering := Or(s.found.rendering, Offer(s, "RenderingControl"))),
       inService := false)
  }

  function Step(s: Reader, e: Event): Reader {
    match e
    case Start(name) =>
      var local := LocalName(name);
      (if local == "service" then s.(inService := true, serviceType := "", serviceControl := "") else s)
      .(current := local, text := "")
    case Data(text) => s.(text := s.text + text)
    case End(name) =>
      var local := LocalName(name);
      var value := Trim(s.text);
      var kept := if local == s.current && value != "" then Keep(s, value) else s;
      (if local == "service" then Commit(kept) else kept).(current := "", text := "")
    case Skip => s
  }

  function Steps(s: Reader, events: seq<Event>): Reader {
    if events == [] then s else Step(Steps(s, events[..|events| - 1]), events[|events| - 1])
  }

  /** The loop; the events end where the reader met the end of the text or an error. */
  method ParseDescription(events: seq<Event>) returns (found: Found)
    ensures found == Steps(FRESH, events).found
  {
    hide LocalName, Find, Trim;
    var urlBase, friendly, model, control, rendering: Option<string> := None, None, None, None, None;
    var inService := false;
    var serviceType, serviceControl, current, text := "", "", "", "";
    for i := 0 to |events|
      invariant Steps(FRESH, events[..i])
             == Reader(Found(urlBase, friendly, model, control, rendering), inService, serviceType, serviceControl, current, text)
    {
      assert events[..i + 1][..i] == events[..i];
      match events[i] {
        case Start(name) =>
          var local := LocalName(name);
          if local == "service" {
            inService, serviceType, serviceControl := true, "", "";
          }
          current, text := local, "";
        case Data(chunk) =>
          text := text + chunk;
        case End(name) =>
          var local := LocalName(name);
          var value := Trim(text);
          if local == current && value != "" {
            match current {
              case "URLBase" => urlBase := Some(value);
              case "friendlyName" =>
                if !inService && friendly.None? { friendly := Some(value); }
              case "modelName" =>
                if !inService && model.None? { model := Some(value); }
              case "serviceType" =>
                if inService { serviceType := value; }
              case "controlURL" =>
                if inService { serviceControl := value; }
              case _ =>
            }
          }
          if local == "service" {
            if control.None? && Find(serviceType, "AVTransport").Some? && serviceControl != "" {
              control := Some(serviceControl);
            }
            if rendering.None? && Find(serviceType, "RenderingControl").Some? && serviceControl != "" {
              rendering := Some(serviceControl);
            }
            inService := false;
          }
          current, text := "", "";
        case Skip =>
      }
    }
    assert events[..|events|] == events;
    found := Found(urlBase, friendly, model, control, rendering);
  }

  lemma {:induction false} StepsAppend(s: Reader, a: seq<Event>, b: seq<Event>)
    ensures Steps(s, a + b) == Steps(Steps(s, a), b)
  {
    hide Step;
    if b == [] {
      assert a + b == a;
    } else {
      StepsAppend(s, a, b[..|b| - 1]);
      Front(a, b);
    }
  }

  lemma StepsOne(s: Reader, e: Event)
    ensures Steps(s, [e]) == Step(s, e)
  {
    hide Step;
    var none: seq<Event> := [];
    assert [e][..0] == none;
  }

  lemma ElementSteps(s: Reader, n: Node)
    requires n.Element?
    ensures Steps(s, Flat(n)) == Step(Steps(Step(s, Start(n.name)), FlatAll(n.children)), End(n.name))
  {
    hide Step, Steps;
    var inside := FlatAll(n.children);
    StepsOne(s, Start(n.name));
    StepsAppend(s, [Start(n.name)], inside + [End(n.name)]);
    var began := Step(s, Start(n.name));
    StepsAppend(began, inside, [End(n.name)]);
    StepsOne(Steps(began, inside), End(n.name));
  }

  // ---- The reader agrees with the tree ------------------------------------------------------

  /** Text without elements is only gathered, however it is split. */
  lemma {:induction false} OnlyText(s: Reader, nodes: Nodes)
    requires !HasElement(nodes)
    ensures Steps(s, FlatAll(nodes)) == s.(text := s.text + TextOf(nodes))
    decreases nodes
  {
    match nodes
    case NoNodes => assert s.text + "" == s.text;
    case MoreNodes(n, rest) =>
      StepsAppend(s, Flat(n), FlatAll(rest));
      StepsOne(s, Flat(n)[0]);
      if n.Chunk? {
        OnlyText(s.(text := s.text + n.text), rest);
        Assoc(s.text, n.text, TextOf(rest));
      } else {
        OnlyText(s, rest);
      }
  }

  /** What a leaf does. */
  lemma LeafStep(s: Reader, n: Node)
    requires n.Element? && !HasElement(n.children) && !IsService(n)
    ensures Steps(s, Flat(n)) ==
      (if Leaf(n).value != "" then Keep(s.(current := Leaf(n).name), Leaf(n).value) else s).(current := "", text := "")
  {
    hide Steps, LocalName, Trim;
    ElementSteps(s, n);
    OnlyText(Step(s, Start(n.name)), n.children);
    assert "" + TextOf(n.children) == TextOf(n.children);
  }

  /** After child elements nothing is current, so the closing tag stores nothing. */
  lemma BranchStep(s: Reader, n: Node)
    requires n.Element? && !IsService(n)
    requires Steps(Step(s, Start(n.name)), FlatAll(n.children)).current == ""
    ensures Steps(s, Flat(n)) == Steps(s.(current := LocalName(n.name), text := ""), FlatAll(n.children)).(current := "", text := "")
  {
    hide Steps, LocalName, Trim;
    ElementSteps(s, n);
  }

  function Later(fields: seq<Field>, name: string, before: string): string {
    match LastOf(fields, name) case Some(v) => v case None => before
  }

  /** How the reader stands after some leaves inside a service. */
  predicate Read(s: Reader, t: Reader, fields: seq<Field>) {
    t.inService && t.found == s.found.(urlBase := Or(LastOf(fields, "URLBase"), s.found.urlBase))
    && t.serviceType == Later(fields, "serviceType", s.serviceType)
    && t.serviceControl == Later(fields, "controlURL", s.serviceControl)
  }

  lemma {:induction false} LastOfAppend(a: seq<Field>, b: seq<Field>, name: string)
    ensures LastOf(a + b, name) == Or(LastOf(b, name), LastOf(a, name))
  {
    if b == [] {
      assert a + b == a;
    } else {
      LastOfAppend(a, b[..|b| - 1], name);
      Front(a, b);
    }
  }

  lemma ReadAppend(s: Reader, t: Reader, u: Reader, a: seq<Field>, b: seq<Field>)
    requires Read(s, t, a) && Read(t, u, b)
    ensures Read(s, u, a + b)
  {
    hide LastOf;
    LastOfAppend(a, b, "URLBase");
    LastOfAppend(a, b, "serviceType");
    LastOfAppend(a, b, "controlURL");
  }

  lemma LastOfOne(f: Field, name: string)
    ensures LastOf([f], name) == IfNamed(f, name)
  {
    assert [f][..0] == [];
  }

  lemma NothingRead(s: Reader)
    requires s.inService
    ensures Read(s, s, []) && Steps(s, []) == s
  {
  }

  /** How the reader stands after some facts outside services. */
  function Add(f: Found, facts: seq<Fact>): Found {
    Found(Or(LastBase(facts), f.urlBase), Or(f.friendly, FirstPlain(facts, "friendlyName")),
          Or(f.model, FirstPlain(facts, "modelName")), Or(f.control, FirstControl(facts, "AVTransport")),
          Or(f.rendering, FirstControl(facts, "RenderingControl")))
  }

  lemma {:induction false} FactsAppend(a: seq<Fact>, b: seq<Fact>, name: string, kind: string)
    requires kind != ""
    ensures LastBase(a + b) == Or(LastBase(b), LastBase(a))
    ensures FirstPlain(a + b, name) == Or(FirstPlain(a, name), FirstPlain(b, name))
    ensures FirstControl(a + b, kind) == Or(FirstControl(a, kind), FirstControl(b, kind))
  {
    hide LastOf, ControlOf, IfNamed;
    if b == [] {
      assert a + b == a;
    } else {
      FactsAppend(a, b[..|b| - 1], name, kind);
      Front(a, b);
    }
  }

  lemma AddAppend(f: Found, a: seq<Fact>, b: seq<Fact>)
    ensures Add(f, a + b) == Add(Add(f, a), b)
  {
    hide LastBase, FirstPlain, FirstControl;
    FactsAppend(a, b, "friendlyName", "AVTransport");
    FactsAppend(a, b, "modelName", "RenderingControl");
  }

  lemma AddOne(f: Found, fact: Fact)
    ensures Add(f, [fact]) ==
      match fact
      case Plain(field) =>
        f.(urlBase := Or(IfNamed(field, "URLBase"), f.urlBase), friendly := Or(f.friendly, IfNamed(field, "friendlyName")),
           model := Or(f.model, IfNamed(field, "modelName")))
      case Service(fields) =>
        f.(urlBase := Or(LastOf(fields, "URLBase"), f.urlBase), control := Or(f.control, ControlOf(fields, "AVTransport")),
           rendering := Or(f.rendering, ControlOf(fields, "RenderingControl")))
      case Lost(fields) => f.(urlBase := Or(LastOf(fields, "URLBase"), f.urlBase))
  {
    hide LastOf, ControlOf, IfNamed;
    var none: seq<Fact> := [];
    assert [fact][..0] == none && [fact][0] == fact;
    assert LastBase(none) == None && FirstPlain(none, "friendlyName") == None && FirstPlain(none, "modelName") == None;
    assert FirstControl(none, "AVTransport") == None && FirstControl(none, "RenderingControl") == None;
  }

  lemma NothingAdded(s: Reader)
    ensures Steps(s, []) == s && Add(s.found, []) == s.found
  {
  }

  /** The service last read has been committed: a second closing tag adds nothing. */
  predicate Absorbed(s: Reader) {
    Or(s.found.control, Offer(s, "AVTransport")) == s.found.control
    && Or(s.found.rendering, Offer(s, "RenderingControl")) == s.found.rendering
  }

  /** How the reader stands after the content of a service, or some of it. */
  predicate InnerRead(s: Reader, t: Reader, inner: Inner) {
    match inner
    case Open(fields) => Read(s, t, fields)
    case Shut(lost, facts) => !t.inService && Absorbed(t) && t.found == Add(s.found, [Lost(lost)] + facts)
  }

  predicate OuterRead(s: Reader, t: Reader, facts: seq<Fact>) {
    !t.inService && Absorbed(t) && t.found == Add(s.found, facts)
  }

  lemma InnerBehind(s: Reader, t: Reader, u: Reader, fields: seq<Field>, inner: Inner)
    requires Read(s, t, fields) && InnerRead(t, u, inner)
    ensures InnerRead(s, u, Behind(fields, inner))
  {
    hide LastOf, Add, Absorbed, Offer;
    match inner
    case Open(more) => ReadAppend(s, t, u, fields, more);
    case Shut(lost, facts) =>
      LastOfAppend(fields, lost, "URLBase");
      AddOne(s.found, Lost(fields + lost));
      AddOne(t.found, Lost(lost));
      AddAppend(s.found, [Lost(fields + lost)], facts);
      AddAppend(t.found, [Lost(lost)], facts);
  }

  lemma ShutThenOuter(s: Reader, t: Reader, u: Reader, lost: seq<Field>, facts: seq<Fact>, more: seq<Fact>)
    requires InnerRead(s, t, Shut(lost, facts)) && OuterRead(t, u, more)
    ensures InnerRead(s, u, Shut(lost, facts + more))
  {
    hide Add, Absorbed;
    AddAppend(s.found, [Lost(lost)] + facts, more);
    Assoc([Lost(lost)], facts, more);
  }

  lemma {:induction false} InsideNodes(s: Reader, nodes: Nodes)
    requires s.inService
    ensures var t := Steps(s, FlatAll(nodes));
      InnerRead(s, t, Inside(nodes)) && (HasElement(nodes) ==> t.current == "")
    decreases nodes
  {
    hide Steps, Read, Add, Absorbed, Behind;
    match nodes
    case NoNodes => NothingRead(s);
    case MoreNodes(n, rest) =>
      var t := Steps(s, Flat(n));
      var u := Steps(t, FlatAll(rest));
      InsideNode(s, n);
      StepsAppend(s, Flat(n), FlatAll(rest));
      match InsideOf(n) {
        case Open(fields) =>
          ReadInService(s, t, fields);
          InsideNodes(t, rest);
          InnerBehind(s, t, u, fields, Inside(rest));
        case Shut(lost, facts) =>
          OutsideNodes(t, rest);
          ShutThenOuter(s, t, u, lost, facts, Hoisted(rest));
      }
      if !HasElement(rest) {
        OnlyText(t, rest);
      }
  }

  lemma ReadInService(s: Reader, t: Reader, fields: seq<Field>)
    requires Read(s, t, fields)
    ensures t.inService
  {
  }

  lemma {:induction false} InsideNode(s: Reader, n: Node)
    requires s.inService
    ensures var t := Steps(s, Flat(n)); InnerRead(s, t, InsideOf(n)) && (n.Element? ==> t.current == "")
    decreases n
  {
    hide Steps, LastOf, Trim, LocalName, Add, Absorbed;
    if !n.Element? {
      StepsOne(s, Flat(n)[0]);
      NothingRead(s);
    } else if IsService(n) {
      ServiceStep(s, n);
      EmptyLost(s.found, ServiceFacts(n.children));
    } else if HasElement(n.children) {
      var began := s.(current := LocalName(n.name), text := "");
      InsideNodes(began, n.children);
      BranchStep(s, n);
      BranchRead(s, Steps(began, FlatAll(n.children)), Inside(n.children), LocalName(n.name));
    } else {
      LeafStep(s, n);
      LastOfOne(Leaf(n), "URLBase");
      LastOfOne(Leaf(n), "serviceType");
      LastOfOne(Leaf(n), "controlURL");
    }
  }

  lemma EmptyLost(f: Found, facts: seq<Fact>)
    ensures Add(f, [Lost([])] + facts) == Add(f, facts)
  {
    hide Add;
    AddAppend(f, [Lost([])], facts);
    AddOne(f, Lost([]));
  }

  lemma BranchRead(s: Reader, t: Reader, inner: Inner, name: string)
    requires InnerRead(s.(current := name, text := ""), t, inner)
    ensures InnerRead(s, t.(current := "", text := ""), inner)
  {
    hide Add, Find, LastOf;
  }

  lemma {:induction false} OutsideNodes(s: Reader, nodes: Nodes)
    requires !s.inService && Absorbed(s)
    ensures var t := Steps(s, FlatAll(nodes));
      OuterRead(s, t, Hoisted(nodes)) && (HasElement(nodes) ==> t.current == "")
    decreases nodes
  {
    hide Steps, Add, Absorbed;
    match nodes
    case NoNodes => NothingAdded(s);
    case MoreNodes(n, rest) =>
      var t := Steps(s, Flat(n));
      OutsideNode(s, n);
      StepsAppend(s, Flat(n), FlatAll(rest));
      OutsideNodes(t, rest);
      AddAppend(s.found, HoistedOf(n), Hoisted(rest));
      if !HasElement(rest) {
        OnlyText(t, rest);
      }
  }

  lemma {:induction false} OutsideNode(s: Reader, n: Node)
    requires !s.inService && Absorbed(s)
    ensures var t := Steps(s, Flat(n));
      OuterRead(s, t, HoistedOf(n)) && (n.Element? ==> t.current == "")
    decreases n
  {
    hide Steps, Add, LocalName, Trim, Find;
    if !n.Element? {
      StepsOne(s, Flat(n)[0]);
      NothingAdded(s);
    } else if IsService(n) {
      ServiceStep(s, n);
    } else if HasElement(n.children) {
      var began := s.(current := LocalName(n.name), text := "");
      OutsideNodes(began, n.children);
      BranchStep(s, n);
    } else {
      LeafStep(s, n);
      AddOne(s.found, Plain(Leaf(n)));
    }
  }

  /** A whole service, wherever it stands: its last type and control URL count, unless
      there are services inside it. */
  lemma {:induction false} ServiceStep(s: Reader, n: Node)
    requires IsService(n)
    ensures var t := Steps(s, Flat(n));
      OuterRead(s, t, ServiceFacts(n.children)) && t.current == ""
    decreases n, 0
  {
    hide Steps, Add, Trim, LocalName, Find, LastOf, Leaves, Read, Absorbed;
    var began := Step(s, Start(n.name));
    var inside := Steps(began, FlatAll(n.children));
    ElementSteps(s, n);
    InsideNodes(began, n.children);
    NoNameAtEnd(inside, n.name);
    match Inside(n.children)
    case Open(fields) => CommitOpen(s.found, began, inside, fields);
    case Shut(lost, facts) => CommitShut(inside);
  }

  lemma CommitOpen(f: Found, began: Reader, inside: Reader, fields: seq<Field>)
    requires began.found == f && began.serviceType == "" && began.serviceControl == "" && Read(began, inside, fields)
    ensures var t := Commit(inside).(current := "", text := "");
      t.found == Add(f, [Service(fields)]) && !t.inService && Absorbed(t)
  {
    hide Add, Find, LastOf;
    AddOne(f, Service(fields));
    NonemptyLast(fields, "controlURL");
    FindInNothing("AVTransport");
    FindInNothing("RenderingControl");
  }

  lemma CommitShut(inside: Reader)
    requires !inside.inService && Absorbed(inside)
    ensures var t := Commit(inside).(current := "", text := "");
      t.found == inside.found && !t.inService && Absorbed(t)
  {
    hide Find;
  }

  lemma {:induction false} NonemptyLast(fields: seq<Field>, name: string)
    ensures LastOf(fields, name) != Some("")
  {
    if fields != [] {
      NonemptyLast(fields[..|fields| - 1], name);
    }
  }

  lemma FindInNothing(kind: string)
    requires kind != ""
    ensures Find("", kind).None?
  {
  }

  /** The closing tag of a service itself stores no field. */
  lemma NoNameAtEnd(s: Reader, name: string)
    requires LocalName(name) == "service"
    ensures Step(s, End(name)) == Commit(s).(current := "", text := "")
  {
    hide LocalName, Trim, Find;
  }

  /** For every tree, however its text is split and its services are nested: the reader
      finds what the document says once inner services are lifted out. */
  lemma ParsedIsHoisted(nodes: Nodes)
    ensures Steps(FRESH, FlatAll(nodes)).found == FoundIn(Hoisted(nodes))
  {
    hide Steps, LastBase, FirstPlain, FirstControl, Hoisted;
    FindInNothing("AVTransport");
    FindInNothing("RenderingControl");
    OutsideNodes(FRESH, nodes);
  }

  lemma {:induction false} NothingInside(nodes: Nodes)
    requires NoService(nodes)
    ensures Inside(nodes) == Open(Leaves(nodes))
    decreases nodes
  {
    hide LocalName, Leaf;
    if nodes.MoreNodes? {
      if nodes.first.Element? {
        NothingInside(nodes.first.children);
      }
      NothingInside(nodes.rest);
    }
  }

  lemma {:induction false} ApartIsHoisted(nodes: Nodes)
    requires ServicesApart(nodes)
    ensures Hoisted(nodes) == Facts(nodes)
    decreases nodes
  {
    hide LocalName, Leaf;
    if nodes.MoreNodes? {
      var n := nodes.first;
      if n.Element? {
        if IsService(n) {
          NothingInside(n.children);
        } else {
          ApartIsHoisted(n.children);
        }
      }
      assert HoistedOf(n) == FactsOf(n);
      ApartIsHoisted(nodes.rest);
    }
  }

  /** For every description whose services are not nested, however its text is split:
      the reader finds what the document says. */
  lemma ParsedIsLookup(nodes: Nodes)
    requires ServicesApart(nodes)
    ensures Steps(FRESH, FlatAll(nodes)).found == Lookup(nodes)
  {
    hide Steps, Hoisted, Facts, FoundIn;
    ParsedIsHoisted(nodes);
    ApartIsHoisted(nodes);
  }

  // ---- Nested services, exactly -------------------------------------------------------------

  lemma FactsBase(a: seq<Fact>, b: seq<Fact>)
    ensures LastBase(a + b) == Or(LastBase(b), LastBase(a))
  {
    FactsAppend(a, b, "friendlyName", "AVTransport");
  }

  lemma BaseOfOne(fact: Fact)
    ensures LastBase([fact]) == match fact
      case Plain(f) => IfNamed(f, "URLBase")
      case Service(fields) => LastOf(fields, "URLBase")
      case Lost(fields) => LastOf(fields, "URLBase")
  {
    hide LastOf, IfNamed;
    var none: seq<Fact> := [];
    assert [fact][..0] == none && LastBase(none) == None;
  }

  function InnerBase(inner: Inner): Option<string> {
    match inner
    case Open(fields) => LastOf(fields, "URLBase")
    case Shut(lost, facts) => Or(LastBase(facts), LastOf(lost, "URLBase"))
  }

  function LeavesBase(nodes: Nodes): Option<string> {
    LastOf(Leaves(nodes), "URLBase")
  }

  lemma ServiceIsNoBase(n: Node)
    requires IsService(n) && !HasElement(n.children)
    ensures LastOf([Leaf(n)], "URLBase") == None && LeavesBase(n.children) == None
  {
    hide LocalName, Trim;
    LastOfOne(Leaf(n), "URLBase");
    NoLeaves(n.children);
  }

  lemma {:induction false} NoLeaves(nodes: Nodes)
    requires !HasElement(nodes)
    ensures Leaves(nodes) == []
  {
    if nodes.MoreNodes? {
      NoLeaves(nodes.rest);
    }
  }

  lemma {:induction false} BaseInside(nodes: Nodes)
    ensures InnerBase(Inside(nodes)) == LeavesBase(nodes) && LastBase(Hoisted(nodes)) == LeavesBase(nodes)
    decreases nodes
  {
    hide LocalName, Leaf, LastOf, LastBase;
    match nodes
    case NoNodes => NoBase();
    case MoreNodes(n, rest) =>
      BaseInside(rest);
      BaseOf(n);
      LastOfAppend(LeavesOf(n), Leaves(rest), "URLBase");
      FactsBase(HoistedOf(n), Hoisted(rest));
      match InsideOf(n)
      case Open(fields) => BaseBehind(fields, Inside(rest));
      case Shut(lost, facts) => FactsBase(facts, Hoisted(rest));
  }

  lemma NoBase()
    ensures LastOf([], "URLBase") == None && LastBase([]) == None
  {
  }

  lemma BaseBehind(fields: seq<Field>, inner: Inner)
    ensures InnerBase(Behind(fields, inner)) == Or(InnerBase(inner), LastOf(fields, "URLBase"))
  {
    hide LastOf, LastBase;
    match inner
    case Open(more) => LastOfAppend(fields, more, "URLBase");
    case Shut(lost, facts) => LastOfAppend(fields, lost, "URLBase");
  }

  lemma {:induction false} BaseOf(n: Node)
    ensures InnerBase(InsideOf(n)) == LastOf(LeavesOf(n), "URLBase") == LastBase(HoistedOf(n))
    decreases n
  {
    hide LocalName, Leaf, LastOf, LastBase;
    NoBase();
    if n.Element? {
      BaseInside(n.children);
      if IsService(n) {
        BaseOfService(n);
        if !HasElement(n.children) {
          ServiceIsNoBase(n);
        }
      } else if !HasElement(n.children) {
        LastOfOne(Leaf(n), "URLBase");
        BaseOfOne(Plain(Leaf(n)));
      }
    }
  }

  lemma BaseOfService(n: Node)
    requires n.Element?
    ensures LastBase(ServiceFacts(n.children)) == InnerBase(Inside(n.children))
  {
    hide LastOf, LastBase, Inside;
    match Inside(n.children)
    case Open(fields) => BaseOfOne(Service(fields));
    case Shut(lost, facts) =>
      BaseOfOne(Lost(lost));
      FactsBase([Lost(lost)], facts);
  }

  lemma {:induction false} BaseOfFacts(nodes: Nodes)
    ensures LastBase(Facts(nodes)) == LeavesBase(nodes)
    decreases nodes
  {
    hide LocalName, Leaf, LastOf, LastBase;
    NoBase();
    if nodes.MoreNodes? {
      var n := nodes.first;
      BaseOfFacts(nodes.rest);
      LastOfAppend(LeavesOf(n), Leaves(nodes.rest), "URLBase");
      FactsBase(FactsOf(n), Facts(nodes.rest));
      if n.Element? {
        BaseOfFacts(n.children);
        BaseOfOne(Service(Leaves(n.children)));
        BaseOfOne(Plain(Leaf(n)));
        LastOfOne(Leaf(n), "URLBase");
        if IsService(n) && !HasElement(n.children) {
          ServiceIsNoBase(n);
        }
      }
    }
  }

  predicate NoLost(facts: seq<Fact>) {
    forall f :: f in facts ==> !f.Lost?
  }

  lemma {:induction false} InsideOpen(nodes: Nodes)
    ensures Inside(nodes).Open? <==> NoService(nodes)
    decreases nodes
  {
    hide LocalName, Leaf;
    if nodes.MoreNodes? {
      if nodes.first.Element? {
        InsideOpen(nodes.first.children);
        if !IsService(nodes.first) && !HasElement(nodes.first.children) {
          NoElements(nodes.first.children);
        }
      }
      InsideOpen(nodes.rest);
    }
  }

  lemma {:induction false} NoElements(nodes: Nodes)
    requires !HasElement(nodes)
    ensures NoService(nodes) && ServicesApart(nodes)
  {
    if nodes.MoreNodes? {
      NoElements(nodes.rest);
    }
  }

  lemma {:induction false} FactsLoseNothing(nodes: Nodes)
    ensures NoLost(Facts(nodes))
    decreases nodes
  {
    hide LocalName, Leaf, Leaves;
    if nodes.MoreNodes? {
      if nodes.first.Element? {
        FactsLoseNothing(nodes.first.children);
      }
      FactsLoseNothing(nodes.rest);
    }
  }

  lemma {:induction false} NothingLostApart(nodes: Nodes)
    requires NoLost(Hoisted(nodes))
    ensures ServicesApart(nodes)
    decreases nodes
  {
    hide LocalName, Leaf, Inside;
    if nodes.MoreNodes? {
      var n := nodes.first;
      assert forall f :: f in HoistedOf(n) || f in Hoisted(nodes.rest) ==> f in Hoisted(nodes);
      NothingLostApart(nodes.rest);
      if n.Element? {
        if IsService(n) {
          InsideOpen(n.children);
          LostFirst(n.children);
        } else if HasElement(n.children) {
          NothingLostApart(n.children);
        } else {
          NoElements(n.children);
        }
      }
    }
  }

  lemma LostFirst(children: Nodes)
    ensures NoLost(ServiceFacts(children)) ==> Inside(children).Open?
  {
    hide Inside;
    if Inside(children).Shut? {
      assert ServiceFacts(children)[0].Lost?;
    }
  }

  /** Exactly for which trees lifting inner services out changes nothing: those without
      services inside services. */
  lemma HoistedIsFacts(nodes: Nodes)
    ensures Hoisted(nodes) == Facts(nodes) <==> ServicesApart(nodes)
  {
    hide Hoisted, Facts, ServicesApart, NoLost;
    FactsLoseNothing(nodes);
    if Hoisted(nodes) == Facts(nodes) {
      NothingLostApart(nodes);
    }
    if ServicesApart(nodes) {
      ApartIsHoisted(nodes);
    }
  }

  /** With nested services single values may still be right: the URL base always is, the
      others exactly when the first name outside services, or the first service of the
      kind, is the same with inner services lifted out. */
  lemma AgreesExactly(nodes: Nodes)
    ensures Steps(FRESH, FlatAll(nodes)).found.urlBase == Lookup(nodes).urlBase
    ensures Steps(FRESH, FlatAll(nodes)).found == Lookup(nodes) <==>
      var h, f := Hoisted(nodes), Facts(nodes);
      FirstPlain(h, "friendlyName") == FirstPlain(f, "friendlyName")
      && FirstPlain(h, "modelName") == FirstPlain(f, "modelName")
      && FirstControl(h, "AVTransport") == FirstControl(f, "AVTransport")
      && FirstControl(h, "RenderingControl") == FirstControl(f, "RenderingControl")
  {
    hide Steps, Hoisted, Facts, LastBase, FirstPlain, FirstControl;
    ParsedIsHoisted(nodes);
    BaseInside(nodes);
    BaseOfFacts(nodes);
  }

  function TextLeaf(name: string, value: string): Node {
    Element(name, MoreNodes(Chunk(value), NoNodes))
  }

  lemma TextLeafIs(name: string, value: string)
    requires ':' !in name && name != "service" && value != "" && Trimmed(value)
    ensures LocalName(name) == name && Leaf(TextLeaf(name, value)) == Field(name, value)
    ensures !IsService(TextLeaf(name, value)) && LeavesOf(TextLeaf(name, value)) == [Field(name, value)]
    ensures TextLeaf(name, value).Element? && !HasElement(TextLeaf(name, value).children)
  {
    hide Trim, LocalName, Trimmed;
    LocalNameDropsPrefix("", name);
    TrimIdentity(value);
    assert TextOf(NoNodes) == "" && value + "" == value;
    assert TextOf(TextLeaf(name, value).children) == value;
    assert !HasElement(NoNodes) && !HasElement(TextLeaf(name, value).children);
  }

  /** Inside nested services the outer one's own fields are lost: the reader does not
      know that it is back in a service. */
  lemma NestedServiceIsLost()
    ensures var inner := Element("service", NoNodes);
      var t, c := TextLeaf("serviceType", "AVTransport"), TextLeaf("controlURL", "/c");
      var doc := MoreNodes(Element("service", MoreNodes(inner, MoreNodes(t, MoreNodes(c, NoNodes)))), NoNodes);
      Steps(FRESH, FlatAll(doc)).found.control == None && Lookup(doc).control == Some("/c")
  {
    hide Steps, LocalName, Trim, Find, Leaf, LeavesOf, TextLeaf;
    var inner := Element("service", NoNodes);
    var t, c := TextLeaf("serviceType", "AVTransport"), TextLeaf("controlURL", "/c");
    LocalNameDropsPrefix("", "service");
    TextLeafIs("serviceType", "AVTransport");
    TextLeafIs("controlURL", "/c");
    NestedRun(inner, t, c);
    NestedMeaning(inner, t, c);
  }

  lemma NestedRun(inner: Node, t: Node, c: Node)
    requires inner == Element("service", NoNodes) && LocalName("service") == "service"
    requires t.Element? && !HasElement(t.children) && !IsService(t) && Leaf(t).name == "serviceType"
    requires c.Element? && !HasElement(c.children) && !IsService(c) && Leaf(c).name == "controlURL"
    ensures var doc := MoreNodes(Element("service", MoreNodes(inner, MoreNodes(t, MoreNodes(c, NoNodes)))), NoNodes);
      Steps(FRESH, FlatAll(doc)).found.control == None
  {
    hide Steps, LocalName, Trim, Find, Leaf, Flat;
    var outer := Element("service", MoreNodes(inner, MoreNodes(t, MoreNodes(c, NoNodes))));
    var s0 := Step(FRESH, Start("service"));
    ElementSteps(FRESH, outer);
    ElementSteps(s0, inner);
    NoneAfter(Step(s0, Start("service")));
    var s1 := Steps(s0, Flat(inner));
    NoNameAtEnd(Step(s0, Start("service")), "service");
    FindInNothing("AVTransport");
    LeafStep(s1, t);
    var s2 := Steps(s1, Flat(t));
    LeafStep(s2, c);
    var s3 := Steps(s2, Flat(c));
    NoneAfter(s3);
    StepsAppend(s2, Flat(c), []);
    StepsAppend(s1, Flat(t), FlatAll(MoreNodes(c, NoNodes)));
    StepsAppend(s0, Flat(inner), FlatAll(MoreNodes(t, MoreNodes(c, NoNodes))));
    NoNameAtEnd(s3, "service");
    StepsAppend(FRESH, Flat(outer), []);
    NoneAfter(Steps(FRESH, Flat(outer)));
  }

  lemma NoneAfter(s: Reader)
    ensures Steps(s, []) == s && FlatAll(NoNodes) == []
  {
  }

  lemma NestedMeaning(inner: Node, t: Node, c: Node)
    requires inner == Element("service", NoNodes) && LocalName("service") == "service"
    requires LeavesOf(t) == [Field("serviceType", "AVTransport")] && LeavesOf(c) == [Field("controlURL", "/c")]
    ensures var doc := MoreNodes(Element("service", MoreNodes(inner, MoreNodes(t, MoreNodes(c, NoNodes)))), NoNodes);
      Lookup(doc).control == Some("/c")
  {
    hide LocalName, Trim, Find, FirstPlain, LastBase, LastOf, FirstControl;
    var kind, control := Field("serviceType", "AVTransport"), Field("controlURL", "/c");
    var fields := LeavesOf(inner) + ([kind] + ([control] + []));
    assert [control] + [] == [control];
    LastOfOne(Leaf(inner), "serviceType");
    LastOfOne(kind, "serviceType");
    LastOfOne(control, "serviceType");
    LastOfOne(control, "controlURL");
    LastOfAppend([kind], [control], "serviceType");
    LastOfAppend([kind], [control], "controlURL");
    LastOfAppend(LeavesOf(inner), [kind] + [control], "serviceType");
    LastOfAppend(LeavesOf(inner), [kind] + [control], "controlURL");
    FindWhole("AVTransport");
    assert Leaf(inner).name == "service";
    var last := MoreNodes(c, NoNodes);
    assert Leaves(NoNodes) == [] && Leaves(last) == [control];
    assert Leaves(MoreNodes(t, last)) == LeavesOf(t) + Leaves(last);
    assert Leaves(MoreNodes(inner, MoreNodes(t, last))) == fields;
    assert control.value != "" && IfNamed(control, "controlURL") == Some("/c");
    assert LastOf(fields, "serviceType") == Some("AVTransport");
    assert LastOf(fields, "controlURL") == Some("/c");
    AddOne(NOTHING, Service(fields));
    var doc := MoreNodes(Element("service", MoreNodes(inner, MoreNodes(t, last))), NoNodes);
    assert [Service(fields)] + [] == [Service(fields)];
    assert Facts(doc) == [Service(fields)];
  }

  lemma FindWhole(s: string)
    requires s != ""
    ensures Find(s, s) == Some(0)
  {
    assert StartsWith(s, s);
  }
}
