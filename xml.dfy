/** The element-tree helper of src/rpser/xml.rs: fluent builders over an
    ordered, labelled tree, first-match path queries and type-directed text
    extraction.

    The Rust builders take `self` by value, change one field and hand the
    value back, so each is a function from the old element to the new one.
    `with_children_from_iter`, `descend` and `get_at_path` walk their input
    with a `for` loop and are methods, each proved equal to the function
    that specifies it. */
module Xml {
  import opened Wrappers
  import opened IntParse

  /** An `xmltree::Element`: a name, an attribute map (keys unique, order
      irrelevant), an ordered list of children and optional text. */
  datatype Element = Element(
    name: string,
    attributes: map<string, string>,
    children: seq<Element>,
    text: Option<string>)

  /** `rpser::xml::Error`. */
  datatype XmlError =
    | NotFoundAtPath(path: seq<string>)
    | ExpectedNotEmpty(parent: string)
    | ExpectedElementWithType(name: string, expectedType: string, given: Option<string>)
    | ParseIntError(name: string, inner: IntErrorKind)

  // ---------------------------------------------------------------------
  // Copying and building

  /** `cloned`: the tree rebuilt node by node. */
  function Cloned(e: Element): Element
    decreases e
  {
    Element(e.name, e.attributes,
            seq(|e.children|, i requires 0 <= i < |e.children| => Cloned(e.children[i])),
            e.text)
  }

  /** The copy is structurally equal to the original. */
  lemma {:induction false} ClonedIsIdentity(e: Element)
    ensures Cloned(e) == e
    decreases e
  {
    forall i | 0 <= i < |e.children|
      ensures Cloned(e.children[i]) == e.children[i]
    {
      ClonedIsIdentity(e.children[i]);
    }
    assert Cloned(e).children == e.children;
  }

  /** `node(name)`: a named element with nothing else. */
  function Node(name: string): (r: Element)
    ensures r.name == name && r.attributes == map[] && r.children == [] && r.text == None
  {
    Element(name, map[], [], None)
  }

  /** `with_name`: replaces the name and nothing else. */
  function WithName(e: Element, name: string): (r: Element)
    ensures r.name == name
    ensures r.attributes == e.attributes && r.children == e.children && r.text == e.text
  {
    e.(name := name)
  }

  /** `with_text`: sets the text and nothing else. */
  function WithText(e: Element, text: string): (r: Element)
    ensures r.text == Some(text)
    ensures r.name == e.name && r.attributes == e.attributes && r.children == e.children
  {
    e.(text := Some(text))
  }

  /** `with_attr`: inserts or overwrites one key; other keys keep their values. */
  function WithAttr(e: Element, key: string, value: string): (r: Element)
    ensures r.attributes.Keys == e.attributes.Keys + {key}
    ensures r.attributes[key] == value
    ensures forall k :: k in e.attributes && k != key ==> r.attributes[k] == e.attributes[k]
    ensures r.name == e.name && r.children == e.children && r.text == e.text
  {
    e.(attributes := e.attributes[key := value])
  }

  /** `with_child`: one more child, at the end; the old children stay a prefix. */
  function WithChild(e: Element, child: Element): (r: Element)
    ensures |r.children| == |e.children| + 1
    ensures r.children[..|e.children|] == e.children && r.children[|e.children|] == child
    ensures r.name == e.name && r.attributes == e.attributes && r.text == e.text
  {
    e.(children := e.children + [child])
  }

  /** `with_children`: appends the given children in iteration order. */
  function WithChildren(e: Element, children: seq<Element>): (r: Element)
    ensures |r.children| == |e.children| + |children|
    ensures r.children[..|e.children|] == e.children
    ensures forall i :: 0 <= i < |children| ==> r.children[|e.children| + i] == children[i]
    ensures r.name == e.name && r.attributes == e.attributes && r.text == e.text
  {
    e.(children := e.children + children)
  }

  /** Pushing the children one `with_child` at a time: a reference for
      `with_children` and `with_children_from_iter`. */
  function PushEach(e: Element, children: seq<Element>): Element
    decreases |children|
  {
    if children == [] then e else PushEach(WithChild(e, children[0]), children[1..])
  }

  /** Extending the child list is the same as pushing each child in order. */
  lemma {:induction false} WithChildrenPushesEach(e: Element, children: seq<Element>)
    ensures PushEach(e, children) == WithChildren(e, children)
    decreases |children|
  {
    if children != [] {
      WithChildrenPushesEach(WithChild(e, children[0]), children[1..]);
      assert e.children + [children[0]] + children[1..] == e.children + children;
    }
  }

  /** `with_children_from_iter`: pushes a clone of every child in turn. */
  method WithChildrenFromIter(e: Element, children: seq<Element>) returns (r: Element)
    ensures r == WithChildren(e, children)
  {
    r := e;
    for i := 0 to |children|
      invariant r == WithChildren(e, children[..i])
    {
      ClonedIsIdentity(children[i]);
      r := r.(children := r.children + [Cloned(children[i])]);
      assert children[..i + 1] == children[..i] + [children[i]];
    }
    assert children[..|children|] == children;
  }

  // ---------------------------------------------------------------------
  // Path queries

  /** The index of the first element of `children` named `name`, if any. */
  function FirstNamed(children: seq<Element>, name: string): (r: Option<nat>)
    ensures r.Some? ==> r.value < |children| && children[r.value].name == name
    ensures r.Some? ==> forall j :: 0 <= j < r.value ==> children[j].name != name
    ensures r.None? ==> forall j :: 0 <= j < |children| ==> children[j].name != name
  {
    if children == [] then None
    else if children[0].name == name then Some(0)
    else match FirstNamed(children[1..], name)
      case None => None
      case Some(i) => Some(i + 1)
  }

  /** The first direct child named `name`. */
  function ChildNamed(e: Element, name: string): Option<Element> {
    match FirstNamed(e.children, name)
    case None => None
    case Some(i) => Some(e.children[i])
  }

  /** What `descend` and `get_at_path` compute: at each level commit to the
      first child with the next name; on failure report the path walked so
      far plus the segment that had no match, built up while returning. */
  function AtPath(e: Element, path: seq<string>): (r: Result<Element, XmlError>)
    ensures r.Err? ==> r.error.NotFoundAtPath?
    ensures r.Err? ==> 0 < |r.error.path| <= |path| && r.error.path == path[..|r.error.path|]
    decreases |path|
  {
    if path == [] then Ok(e)
    else match FirstNamed(e.children, path[0])
      case None => Err(NotFoundAtPath([path[0]]))
      case Some(i) =>
        var sub := AtPath(e.children[i], path[1..]);
        if sub.Ok? then sub else Err(NotFoundAtPath([path[0]] + sub.error.path))
  }

  /** `descend`: consumes the element and walks `path`. */
  method Descend(e: Element, path: seq<string>) returns (r: Result<Element, XmlError>)
    ensures r == AtPath(e, path)
    decreases |path|
  {
    if |path| == 0 {
      return Ok(e);
    }
    for i := 0 to |e.children|
      invariant forall j :: 0 <= j < i ==> e.children[j].name != path[0]
    {
      var child := e.children[i];
      if child.name == path[0] {
        var sub := Descend(child, path[1..]);
        match sub {
          case Ok(element) =>
            return Ok(element);
          case Err(NotFoundAtPath(errorPath)) =>
            return Err(NotFoundAtPath([path[0]] + errorPath));
          case Err(_) =>
            assert false;
        }
      }
    }
    return Err(NotFoundAtPath([path[0]]));
  }

  /** `get_at_path`: the same walk over a borrowed element, returning a
      clone of the node found. */
  method GetAtPath(e: Element, path: seq<string>) returns (r: Result<Element, XmlError>)
    ensures r == AtPath(e, path)
    decreases |path|
  {
    if |path| == 0 {
      ClonedIsIdentity(e);
      return Ok(Cloned(e));
    }
    for i := 0 to |e.children|
      invariant forall j :: 0 <= j < i ==> e.children[j].name != path[0]
    {
      if e.children[i].name == path[0] {
        var sub := GetAtPath(e.children[i], path[1..]);
        match sub {
          case Ok(element) =>
            return Ok(element);
          case Err(NotFoundAtPath(errorPath)) =>
            return Err(NotFoundAtPath([path[0]] + errorPath));
          case Err(_) =>
            assert false;
        }
      }
    }
    return Err(NotFoundAtPath([path[0]]));
  }

  /** A one-segment path consults the direct children only. */
  lemma AtSingleSegment(e: Element, name: string)
    ensures ChildNamed(e, name).None? ==> AtPath(e, [name]) == Err(NotFoundAtPath([name]))
    ensures ChildNamed(e, name).Some? ==> AtPath(e, [name]) == Ok(ChildNamed(e, name).value)
  {
    assert [name][1..] == [];
  }

  /** Walking `p + q` is walking `p`, then `q` from where `p` ended; a
      failure inside `q` reports `p` followed by the failing part of `q`. */
  lemma {:induction false} AtPathAppend(e: Element, p: seq<string>, q: seq<string>)
    ensures AtPath(e, p + q) ==
      match AtPath(e, p)
      case Err(x) => Err(x)
      case Ok(n) =>
        var rest := AtPath(n, q);
        if rest.Ok? then rest else Err(NotFoundAtPath(p + rest.error.path))
    decreases |p|
  {
    if p == [] {
      assert p + q == q;
      var rest := AtPath(e, q);
      if rest.Err? {
        assert p + rest.error.path == rest.error.path;
      }
    } else {
      var pq := p + q;
      assert pq[0] == p[0];
      assert pq[1..] == p[1..] + q;
      match FirstNamed(e.children, p[0])
      case None =>
        assert AtPath(e, pq) == Err(NotFoundAtPath([p[0]]));
      case Some(i) =>
        var c := e.children[i];
        AtPathAppend(c, p[1..], q);
        var sub := AtPath(c, p[1..] + q);
        assert AtPath(e, pq) == if sub.Ok? then sub else Err(NotFoundAtPath([p[0]] + sub.error.path));
        var head := AtPath(c, p[1..]);
        if head.Ok? {
          assert AtPath(e, p) == head;
          var rest := AtPath(head.value, q);
          if rest.Err? {
            assert [p[0]] + (p[1..] + rest.error.path) == p + rest.error.path;
          }
        } else {
          assert AtPath(e, p) == Err(NotFoundAtPath([p[0]] + head.error.path));
        }
    }
  }

  /** A failure names exactly how far the walk got: every segment before the
      last one of the error path was matched, and the node reached there has
      no child with the last one. */
  lemma {:induction false} AtPathFailurePoint(e: Element, path: seq<string>)
    requires AtPath(e, path).Err?
    ensures var k := |AtPath(e, path).error.path|;
      && AtPath(e, path[..k - 1]).Ok?
      && ChildNamed(AtPath(e, path[..k - 1]).value, path[k - 1]).None?
    decreases |path|
  {
    var k := |AtPath(e, path).error.path|;
    match FirstNamed(e.children, path[0])
    case None =>
      assert k == 1 && path[..0] == [];
    case Some(i) =>
      var c := e.children[i];
      var sp := AtPath(c, path[1..]).error.path;
      AtPathFailurePoint(c, path[1..]);
      assert k == |sp| + 1;
      assert path[..k - 1] == [path[0]] + path[1..][..|sp| - 1];
      assert path[k - 1] == path[1..][|sp| - 1];
      assert ([path[0]] + path[1..][..|sp| - 1])[1..] == path[1..][..|sp| - 1];
  }

  /** First match, no backtracking: once a child with the next name is found,
      siblings after it cannot change the outcome, even when the walk below
      that child fails. */
  lemma LaterSiblingsIrrelevant(e: Element, e': Element, path: seq<string>, i: nat)
    requires path != [] && FirstNamed(e.children, path[0]) == Some(i)
    requires i < |e'.children| && e'.children[..i + 1] == e.children[..i + 1]
    ensures AtPath(e', path) == AtPath(e, path)
  {
    assert forall j :: 0 <= j <= i ==> e'.children[j] == e.children[j] by {
      forall j | 0 <= j <= i ensures e'.children[j] == e.children[j] {
        assert e'.children[..i + 1][j] == e.children[..i + 1][j];
      }
    }
    assert FirstNamed(e'.children, path[0]) == Some(i);
  }

  /** Appending a child never changes where an existing path leads, and an
      appended child whose name was not yet present is found by that name. */
  lemma WithChildLookup(e: Element, child: Element, path: seq<string>)
    requires path != []
    ensures FirstNamed(e.children, path[0]).Some? ==>
      AtPath(WithChild(e, child), path) == AtPath(e, path)
    ensures FirstNamed(e.children, child.name).None? ==>
      AtPath(WithChild(e, child), [child.name]) == Ok(child)
  {
    var e' := WithChild(e, child);
    match FirstNamed(e.children, path[0])
    case None =>
    case Some(i) =>
      assert e'.children[..i + 1] == e.children[..i + 1];
      LaterSiblingsIrrelevant(e, e', path, i);
    if FirstNamed(e.children, child.name).None? {
      assert FirstNamed(e'.children, child.name) == Some(|e.children|);
      assert [child.name][1..] == [];
    }
  }

  /** `descend_first`: the first child, or `ExpectedNotEmpty` naming the parent. */
  function DescendFirst(e: Element): (r: Result<Element, XmlError>)
    ensures r.Err? <==> e.children == []
    ensures r.Err? ==> r.error == ExpectedNotEmpty(e.name)
    ensures r.Ok? ==> r.value == e.children[0]
  {
    if |e.children| == 0 then Err(ExpectedNotEmpty(e.name)) else Ok(e.children[0])
  }

  /** The first child is also what a walk by its own name reaches. */
  lemma DescendFirstAgreesWithPath(e: Element)
    requires DescendFirst(e).Ok?
    ensures AtPath(e, [DescendFirst(e).value.name]) == DescendFirst(e)
  {
    assert FirstNamed(e.children, e.children[0].name) == Some(0);
    assert [e.children[0].name][1..] == [];
  }

  // ---------------------------------------------------------------------
  // Typed text extraction

  predicate EndsWith(s: string, suffix: string) {
    |suffix| <= |s| && s[|s| - |suffix|..] == suffix
  }

  /** The element's `type` attribute, as `attributes.get("type")` gives it. */
  function TypeAttr(e: Element): Option<string> {
    if "type" in e.attributes then Some(e.attributes["type"]) else None
  }

  /** The guard of `as_long` / `as_string`: a `type` attribute ending with
      `suffix`, and text present. */
  predicate HasTypedText(e: Element, suffix: string) {
    && "type" in e.attributes
    && EndsWith(e.attributes["type"], suffix)
    && e.text.Some?
  }

  /** `as_string`: the text, verbatim, of an element typed `*string`. */
  function AsString(e: Element): (r: Result<string, XmlError>)
    ensures r.Ok? <==> HasTypedText(e, "string")
    ensures r.Ok? ==> e.text == Some(r.value)
    ensures r.Err? ==> r.error == ExpectedElementWithType(e.name, "*:string", TypeAttr(e))
  {
    if HasTypedText(e, "string") then Ok(e.text.value)
    else Err(ExpectedElementWithType(e.name, "*:string", TypeAttr(e)))
  }

  /** `as_long`: the text of an element typed `*long`, parsed as a `u64`.
      A missing text reports the type error even when the type matched. */
  function AsLong(e: Element): (r: Result<U64, XmlError>)
    ensures !HasTypedText(e, "long") ==>
      r == Err(ExpectedElementWithType(e.name, "*:long", TypeAttr(e)))
    ensures HasTypedText(e, "long") ==>
      match ParseU64(e.text.value)
      case Ok(v) => r == Ok(v)
      case Err(kind) => r == Err(ParseIntError(e.name, kind))
  {
    if !HasTypedText(e, "long") then
      Err(ExpectedElementWithType(e.name, "*:long", TypeAttr(e)))
    else
      match ParseU64(e.text.value)
      case Ok(v) => Ok(v)
      case Err(kind) => Err(ParseIntError(e.name, kind))
  }

  /** A `type` value cannot end with both suffixes, so at most one of the
      two extractions accepts an element. */
  lemma TypeSuffixesExclusive(e: Element)
    ensures !(AsLong(e).Ok? && AsString(e).Ok?)
    ensures AsString(e).Ok? ==> AsLong(e) == Err(ExpectedElementWithType(e.name, "*:long", TypeAttr(e)))
  {
    if HasTypedText(e, "string") && HasTypedText(e, "long") {
      var t := e.attributes["type"];
      SuffixChar(t, "string", 3);
      SuffixChar(t, "long", 1);
      assert false;
    }
  }

  lemma SuffixChar(s: string, suffix: string, k: nat)
    requires EndsWith(s, suffix) && k < |suffix|
    ensures s[|s| - |suffix| + k] == suffix[k]
  {
    assert s[|s| - |suffix|..][k] == suffix[k];
  }

  /** Round trip with the builders: an element built as a typed `long` whose
      text is the decimal rendering of a `u64` reads back that number. */
  lemma AsLongReadsDecimal(name: string, typeName: string, n: U64)
    requires EndsWith(typeName, "long")
    ensures AsLong(WithText(WithAttr(Node(name), "type", typeName), Decimal(n))) == Ok(n)
  {
    ParseDecimal(n);
  }

  /** Round trip with the builders for `as_string`: any text comes back as is. */
  lemma AsStringReadsText(name: string, typeName: string, text: string)
    requires EndsWith(typeName, "string")
    ensures AsString(WithText(WithAttr(Node(name), "type", typeName), text)) == Ok(text)
  {
  }
}
