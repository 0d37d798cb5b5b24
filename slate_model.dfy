/**
 * The editor's document, reduced to what its formatting rules look at, and
 * the operations of the Slate editing library that the editor calls.
 *
 * Slate's own code is not part of this model. Each library operation below
 * is an ASSUMED, abstract definition on the simplified document, chosen to
 * agree with Slate's documented behaviour at this granularity; none is a
 * transcription of library code:
 *  - a selection covers one whole top-level leaf block, or one whole list
 *    item inside a list container (so `Editor.unhangRange` has nothing to
 *    trim and is the identity);
 *  - `Editor.nodes` over the selection yields the editor root, then the
 *    elements from the top-level block down to the selected block, then the
 *    selected block's text runs, in document order;
 *  - `Editor.marks` is the mark set of the first text run of the selection,
 *    and is absent when there is no selection;
 *  - `Editor.addMark` / `Editor.removeMark` set / clear one mark on every
 *    text run of the selection;
 *  - `Transforms.unwrapNodes` with `split: true` lifts the selected list item
 *    out of a matching container, splitting the container around it;
 *  - `Transforms.setNodes` retypes the lowest block at the selection;
 *  - `Transforms.wrapNodes` wraps the selected top-level block in a new
 *    container.
 */
module SlateModel {

  datatype Option<T> = None | Some(value: T)

  /** The marks of one text run. A mark the run does not carry is `false`. */
  datatype Marks = Marks(bold: bool, italic: bool)

  datatype Mark = Bold | Italic

  /** An inline text run. */
  datatype Text = Text(text: string, marks: Marks)

  /** A block whose children are text runs: a paragraph, a heading, a list item. */
  datatype TextBlock = TextBlock(kind: string, runs: seq<Text>)

  /** A top-level block: a leaf block, or a container whose children are blocks. */
  datatype Block = Leaf(block: TextBlock) | Container(kind: string, items: seq<TextBlock>)

  type Document = seq<Block>

  /** One top-level leaf block, or item `item` of the container at `index`. */
  datatype Selection = AtBlock(index: nat) | AtItem(index: nat, item: nat)

  /** The editor's state as the formatting rules see it. */
  datatype Snapshot = Snapshot(doc: Document, selection: Option<Selection>)

  /** The node kinds `Editor.nodes` yields, as `Editor.isEditor` and `Element.isElement` tell them apart. */
  datatype Node = EditorRoot | Element(kind: string) | TextNode(text: Text)

  function HasMark(m: Marks, mark: Mark): bool
  {
    match mark
    case Bold => m.bold
    case Italic => m.italic
  }

  function WithMark(m: Marks, mark: Mark, value: bool): (r: Marks)
    ensures HasMark(r, mark) == value
    ensures forall other :: other != mark ==> HasMark(r, other) == HasMark(m, other)
  {
    match mark
    case Bold => m.(bold := value)
    case Italic => m.(italic := value)
  }

  predicate BlockNormalized(b: Block)
  {
    match b
    case Leaf(t) => |t.runs| > 0
    case Container(_, items) => |items| > 0 && forall t :: t in items ==> |t.runs| > 0
  }

  /** What Slate's normaliser keeps true: no empty document, container or block. */
  predicate Normalized(doc: Document)
  {
    |doc| > 0 && forall b :: b in doc ==> BlockNormalized(b)
  }

  /** The selection names a node that exists. */
  predicate Resolves(doc: Document, sel: Option<Selection>)
  {
    match sel
    case None => true
    case Some(AtBlock(i)) => i < |doc| && doc[i].Leaf?
    case Some(AtItem(i, j)) => i < |doc| && doc[i].Container? && j < |doc[i].items|
  }

  /** The lowest block at the selection. */
  function SelectedBlock(doc: Document, sel: Selection): TextBlock
    requires Resolves(doc, Some(sel))
  {
    match sel
    case AtBlock(i) => doc[i].block
    case AtItem(i, j) => doc[i].items[j]
  }

  /** Replaces the lowest block at the selection, leaving every other node in place. */
  function ReplaceSelected(doc: Document, sel: Selection, t: TextBlock): (r: Document)
    requires Resolves(doc, Some(sel))
    ensures |r| == |doc| && Resolves(r, Some(sel)) && SelectedBlock(r, sel) == t
  {
    match sel
    case AtBlock(i) => doc[i := Leaf(t)]
    case AtItem(i, j) => doc[i := Container(doc[i].kind, doc[i].items[j := t])]
  }

  function TextNodes(runs: seq<Text>): (ns: seq<Node>)
    ensures |ns| == |runs|
    ensures forall k :: 0 <= k < |ns| ==> ns[k] == TextNode(runs[k])
  {
    seq(|runs|, k requires 0 <= k < |runs| => TextNode(runs[k]))
  }

  /** Assumed `Editor.nodes(editor, {at: Editor.unhangRange(editor, selection)})`. */
  function Nodes(doc: Document, sel: Selection): seq<Node>
    requires Resolves(doc, Some(sel))
  {
    match sel
    case AtBlock(i) =>
      [EditorRoot, Element(doc[i].block.kind)] + TextNodes(doc[i].block.runs)
    case AtItem(i, j) =>
      [EditorRoot, Element(doc[i].kind), Element(doc[i].items[j].kind)] + TextNodes(doc[i].items[j].runs)
  }

  /** Assumed `Editor.marks(editor)`. */
  function EditorMarks(s: Snapshot): Option<Marks>
    requires Normalized(s.doc) && Resolves(s.doc, s.selection)
  {
    match s.selection
    case None => None
    case Some(sel) =>
      assert s.doc[sel.index] in s.doc;
      assert sel.AtItem? ==> s.doc[sel.index].items[sel.item] in s.doc[sel.index].items;
      Some(SelectedBlock(s.doc, sel).runs[0].marks)
  }

  function SetMarkOnRuns(runs: seq<Text>, mark: Mark, value: bool): seq<Text>
  {
    seq(|runs|, k requires 0 <= k < |runs| => Text(runs[k].text, WithMark(runs[k].marks, mark, value)))
  }

  /** Sets or clears `mark` on every run of the selection; no selection, no change. */
  function SetMark(s: Snapshot, mark: Mark, value: bool): (r: Snapshot)
    requires Resolves(s.doc, s.selection)
    ensures r.selection == s.selection && |r.doc| == |s.doc| && Resolves(r.doc, r.selection)
  {
    match s.selection
    case None => s
    case Some(sel) =>
      var t := SelectedBlock(s.doc, sel);
      Snapshot(ReplaceSelected(s.doc, sel, TextBlock(t.kind, SetMarkOnRuns(t.runs, mark, value))), s.selection)
  }

  /** Assumed `Editor.addMark(editor, mark, value)`. */
  function AddMark(s: Snapshot, mark: Mark, value: bool): (r: Snapshot)
    requires Resolves(s.doc, s.selection)
  {
    SetMark(s, mark, value)
  }

  /** Assumed `Editor.removeMark(editor, mark)`: the mark is dropped, which reads as `false`. */
  function RemoveMark(s: Snapshot, mark: Mark): (r: Snapshot)
    requires Resolves(s.doc, s.selection)
  {
    SetMark(s, mark, false)
  }

  /** The container left before the lifted item, if any items precede it. */
  function ItemsBefore(kind: string, items: seq<TextBlock>, j: nat): Document
    requires j < |items|
  {
    if j > 0 then [Container(kind, items[..j])] else []
  }

  /** The container left after the lifted item, if any items follow it. */
  function ItemsAfter(kind: string, items: seq<TextBlock>, j: nat): Document
    requires j < |items|
  {
    if j + 1 < |items| then [Container(kind, items[j + 1..])] else []
  }

  /**
   * Assumed `Transforms.unwrapNodes(editor, {match, split: true})`, where
   * `match` accepts the containers whose kind is in `kinds`: the selected
   * item leaves its container, and the items before and after it stay in
   * containers of the old kind.
   */
  function UnwrapNodes(s: Snapshot, kinds: seq<string>): (r: Snapshot)
    requires Resolves(s.doc, s.selection)
  {
    match s.selection
    case Some(AtItem(i, j)) =>
      var c := s.doc[i];
      if c.kind in kinds then
        var before := ItemsBefore(c.kind, c.items, j);
        Snapshot(s.doc[..i] + before + [Leaf(c.items[j])] + ItemsAfter(c.kind, c.items, j) + s.doc[i + 1..],
                 Some(AtBlock(i + |before|)))
      else s
    case _ => s
  }

  /** Assumed `Transforms.setNodes(editor, {type: kind})`: retypes the lowest block at the selection. */
  function SetNodes(s: Snapshot, kind: string): (r: Snapshot)
    requires Resolves(s.doc, s.selection)
    ensures r.selection == s.selection && |r.doc| == |s.doc| && Resolves(r.doc, r.selection)
  {
    match s.selection
    case None => s
    case Some(sel) =>
      Snapshot(ReplaceSelected(s.doc, sel, TextBlock(kind, SelectedBlock(s.doc, sel).runs)), s.selection)
  }

  /**
   * Assumed `Transforms.wrapNodes(editor, {type: kind, children: []})` on a
   * selected top-level block. (A container inside a container is not
   * expressible in this document, and the editor only wraps after it has
   * unwrapped.)
   */
  function WrapNodes(s: Snapshot, kind: string): (r: Snapshot)
    requires Resolves(s.doc, s.selection)
    requires s.selection.Some? ==> s.selection.value.AtBlock?
  {
    match s.selection
    case Some(AtBlock(i)) => Snapshot(s.doc[i := Container(kind, [s.doc[i].block])], Some(AtItem(i, 0)))
    case _ => s
  }
}
