/** The host engine's view of a template element, reduced to what the attribute
    processors read and write: the element's normalized name, its attributes in
    document order, the node properties and node-local variables attached to it, and
    its parent element (null for the root, whose parent is the document). */
module Template {

  import opened Wrappers

  /** An attribute under its normalized name (e.g. "th:each", "type"). */
  datatype Attribute = Attribute(name: string, value: string)

  /** A value produced by the host's expression evaluator, or an item of an iterated
      collection. Values the core never inspects are told apart by an id only. */
  datatype Value = NullValue | BoolValue(b: bool) | TextValue(s: string) | OtherValue(id: nat)

  /** The iteration spec of the foreach processor: a ForEachIterationSpec when
      propertyPath is present, a plain IterationSpec otherwise. The iterated
      collection itself is the host's and is not kept. */
  datatype IterationSpec = IterationSpec(iterVarName: string, statusVarName: Option<string>,
                                         propertyPath: Option<string>)

  /** The status object of one iteration item; a ForEachStatusVar when propertyPath is present. */
  datatype StatusVar = StatusVar(index: nat, count: nat, size: nat, current: Value,
                                 propertyPath: Option<string>)

  /** What a node-local variable can hold. */
  datatype Local =
    | ValueLocal(value: Value)
    | StatusLocal(status: StatusVar)
    | SpecLocal(spec: IterationSpec)

  /** The outcome of the cast (String) applied to a local variable's value. */
  datatype StringCast = NullString | IsString(s: string) | NotString

  function CastToString(l: Local): (r: StringCast)
    ensures r.IsString? <==> l.ValueLocal? && l.value.TextValue?
    ensures r.NullString? <==> l == ValueLocal(NullValue)
  {
    match l
    case ValueLocal(TextValue(s)) => IsString(s)
    case ValueLocal(NullValue) => NullString
    case _ => NotString
  }

  class Node {
    const tag: string
    const attributes: seq<Attribute>
    const parent: Node?
    var properties: map<string, string>
    var locals: map<string, Local>

    ghost const Ancestors: set<Node>
    ghost const depth: nat

    /** The parent chain is finite: every ancestor is strictly shallower. */
    ghost predicate Valid()
      decreases depth
    {
      if parent == null then Ancestors == {}
      else parent.depth < depth && Ancestors == parent.Ancestors + {parent} && parent.Valid()
    }

    constructor Root(tag: string, attributes: seq<Attribute>)
      ensures Valid() && parent == null && Ancestors == {}
      ensures this.tag == tag && this.attributes == attributes
      ensures properties == map[] && locals == map[]
    {
      this.tag := tag;
      this.attributes := attributes;
      this.parent := null;
      this.properties := map[];
      this.locals := map[];
      this.Ancestors := {};
      this.depth := 0;
    }

    constructor Child(parent: Node, tag: string, attributes: seq<Attribute>)
      requires parent.Valid()
      ensures Valid() && this.parent == parent && Ancestors == parent.Ancestors + {parent}
      ensures this.tag == tag && this.attributes == attributes
      ensures properties == map[] && locals == map[]
    {
      this.tag := tag;
      this.attributes := attributes;
      this.parent := parent;
      this.properties := map[];
      this.locals := map[];
      this.Ancestors := parent.Ancestors + {parent};
      this.depth := parent.depth + 1;
    }
  }

  /** Every element above a node is shallower than it, and well-formed. */
  lemma AncestorsShallower(n: Node)
    requires n.Valid()
    ensures forall b :: b in n.Ancestors ==> b.depth < n.depth && b.Valid()
    decreases n.depth
  {
    if n.parent != null {
      AncestorsShallower(n.parent);
    }
  }

  /** A node and every element above it. */
  ghost function Lineage(n: Node): set<Node>
  {
    n.Ancestors + {n}
  }

  /** getAttributeValueFromNormalizedName: the value of the first attribute so named, or null. */
  function AttributeValue(attributes: seq<Attribute>, name: string): (r: Option<string>)
    ensures r.None? <==> forall k :: 0 <= k < |attributes| ==> attributes[k].name != name
    ensures r.Some? ==> exists k :: 0 <= k < |attributes| && attributes[k] == Attribute(name, r.value)
  {
    if |attributes| == 0 then None
    else if attributes[0].name == name then Some(attributes[0].value)
    else AttributeValue(attributes[1..], name)
  }

  /** hasNormalizedAttribute: an attribute with that normalized name is present. */
  predicate HasAttribute(attributes: seq<Attribute>, name: string)
  {
    AttributeValue(attributes, name).Some?
  }

  /** The node-local variables in scope while node n is processed: those of its
      ancestors, overridden by those attached to nearer nodes and to n itself. */
  function VisibleLocals(n: Node): map<string, Local>
    requires n.Valid()
    reads n, n.Ancestors
    decreases n.depth
  {
    if n.parent == null then n.locals else VisibleLocals(n.parent) + n.locals
  }
}
