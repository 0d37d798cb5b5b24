/**
 * The rendering projections of the editor: `Element` draws an element by
 * its type, `Leaf` decorates a text run by its marks. Class names and DOM
 * attributes are styling and are not modelled.
 */
module Render {
  import opened SlateModel
  import Editor

  /** The presentation primitive an element is drawn as. */
  datatype Shape = H1 | Ul | Ol | Li | P

  /** `Element`: a total switch on the element's type, a paragraph for every other type. */
  function ElementShape(kind: string): (r: Shape)
    ensures r == H1 <==> kind == "heading-one"
    ensures r == Ul <==> kind == "bulleted-list"
    ensures r == Ol <==> kind == "numbered-list"
    ensures r == Li <==> kind == "list-item"
    ensures r == P <==> kind !in ["heading-one", "bulleted-list", "numbered-list", "list-item"]
  {
    match kind
    case "heading-one" => H1
    case "bulleted-list" => Ul
    case "numbered-list" => Ol
    case "list-item" => Li
    case _ => P
  }

  /** What `Leaf` produces: the text, wrapped in decorations, inside a span. */
  datatype View = Content(text: string) | Strong(inner: View) | Em(inner: View) | Span(inner: View)

  datatype Tag = StrongTag | EmTag | SpanTag

  /** The text a view shows. */
  function Shown(v: View): string
  {
    match v
    case Content(t) => t
    case Strong(w) => Shown(w)
    case Em(w) => Shown(w)
    case Span(w) => Shown(w)
  }

  /** The wrappers around the text, outermost first. */
  function Wrappers(v: View): seq<Tag>
  {
    match v
    case Content(_) => []
    case Strong(w) => [StrongTag] + Wrappers(w)
    case Em(w) => [EmTag] + Wrappers(w)
    case Span(w) => [SpanTag] + Wrappers(w)
  }

  /**
   * `Leaf`: bold and italic are applied independently, each as one wrapper;
   * when both apply, em is outside strong; the span is outermost.
   */
  method RenderLeaf(leaf: Text) returns (v: View)
    ensures Shown(v) == leaf.text
    ensures |Wrappers(v)| > 0 && Wrappers(v)[0] == SpanTag
    ensures StrongTag in Wrappers(v) <==> leaf.marks.bold
    ensures EmTag in Wrappers(v) <==> leaf.marks.italic
    ensures |Wrappers(v)| == 1 + (if leaf.marks.bold then 1 else 0) + (if leaf.marks.italic then 1 else 0)
    ensures leaf.marks.italic ==> Wrappers(v)[1] == EmTag
  {
    var children := Content(leaf.text);
    if leaf.marks.bold {
      children := Strong(children);
    }
    assert Shown(children) == leaf.text && EmTag !in Wrappers(children);
    assert Wrappers(children) == if leaf.marks.bold then [StrongTag] else [];
    if leaf.marks.italic {
      children := Em(children);
    }
    assert Shown(children) == leaf.text;
    v := Span(children);
  }

  /** The list kinds are exactly the types `Element` draws as a list. */
  lemma ListTypesRenderAsLists()
    ensures forall f :: f in Editor.LIST_TYPES <==> ElementShape(f) == Ul || ElementShape(f) == Ol
  {
  }

  /** In a well-formed document every container is drawn as a list and every item as a list row. */
  lemma WellFormedShapes(doc: Document)
    requires Editor.WellFormed(doc)
    ensures forall b :: b in doc && b.Container? ==>
      ElementShape(b.kind) in {Ul, Ol} && forall t :: t in b.items ==> ElementShape(t.kind) == Li
  {
  }
}
