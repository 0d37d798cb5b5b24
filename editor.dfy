/**
 * The formatting rules of the note editor (`CustomEditor` and the keyboard
 * handler of `NotionEditor`): the list kinds, the initial document, the mark
 * and block queries, the mark and block toggles and the two key chords,
 * over the simplified document of module SlateModel.
 *
 * Each toggle is given twice: as a function from the state before to the
 * state after (the specification, about which the lemmas speak), and as a
 * method of `EditorState` that changes the editor's document and selection
 * step by step in the order the source does.
 */
module Editor {
  import opened SlateModel

  /** The block kinds that are list containers. */
  const LIST_TYPES: seq<string> := ["numbered-list", "bulleted-list"]

  /** A new editor's document: one paragraph holding one empty, unmarked run. */
  const InitialValue: Document := [Leaf(TextBlock("paragraph", [Text("", Marks(false, false))]))]

  /**
   * The editor's document invariant: normalised, every container is a list
   * whose children are list items, and a list kind names only containers.
   */
  predicate WellFormed(doc: Document)
  {
    Normalized(doc) &&
    (forall b :: b in doc && b.Container? ==>
       b.kind in LIST_TYPES && forall t :: t in b.items ==> t.kind == "list-item") &&
    (forall b :: b in doc && b.Leaf? ==> b.block.kind !in LIST_TYPES)
  }

  predicate ValidState(s: Snapshot)
  {
    WellFormed(s.doc) && Resolves(s.doc, s.selection)
  }

  /** A new editor starts in a valid state: one paragraph whose only run is empty and carries no mark. */
  lemma InitialValueValid()
    ensures ValidState(Snapshot(InitialValue, None))
    ensures |InitialValue| == 1 && InitialValue[0].Leaf? && InitialValue[0].block.kind == "paragraph"
    ensures var runs := InitialValue[0].block.runs;
            |runs| == 1 && runs[0].text == "" && forall mark :: !HasMark(runs[0].marks, mark)
  {
  }

  // ----- queries -----

  /** `isBoldMarkActive` / `isItalicMarkActive`: a missing mark set reads as inactive. */
  function IsMarkActive(s: Snapshot, mark: Mark): bool
    requires ValidState(s)
  {
    match EditorMarks(s)
    case None => false
    case Some(marks) => HasMark(marks, mark)
  }

  /** A mark is active exactly when there is a selection and its first run carries the mark. */
  lemma MarkActiveIff(s: Snapshot, mark: Mark)
    requires ValidState(s)
    ensures IsMarkActive(s, mark) <==>
      s.selection.Some? && |SelectedBlock(s.doc, s.selection.value).runs| > 0 &&
      HasMark(SelectedBlock(s.doc, s.selection.value).runs[0].marks, mark)
  {
    if s.selection.Some? {
      var sel := s.selection.value;
      assert s.doc[sel.index] in s.doc;
      assert sel.AtItem? ==> s.doc[sel.index].items[sel.item] in s.doc[sel.index].items;
    }
  }

  /** The `match` of `isBlockActive`: a non-root element of the given type. */
  predicate Matches(n: Node, format: string)
  {
    !n.EditorRoot? && n.Element? && n.kind == format
  }

  /** Some node of `nodes` matches. */
  predicate AnyMatch(nodes: seq<Node>, format: string)
  {
    exists k :: 0 <= k < |nodes| && Matches(nodes[k], format)
  }

  /** `isBlockActive`: some node at the selection matches. */
  function IsBlockActive(s: Snapshot, format: string): bool
    requires Resolves(s.doc, s.selection)
  {
    match s.selection
    case None => false
    case Some(sel) => AnyMatch(Nodes(s.doc, sel), format)
  }

  lemma AnyMatchConcat(a: seq<Node>, b: seq<Node>, format: string)
    ensures AnyMatch(a + b, format) <==> AnyMatch(a, format) || AnyMatch(b, format)
  {
    if AnyMatch(a + b, format) {
      var k :| 0 <= k < |a + b| && Matches((a + b)[k], format);
      if k >= |a| { assert (a + b)[k] == b[k - |a|]; }
    }
    if AnyMatch(b, format) {
      var k :| 0 <= k < |b| && Matches(b[k], format);
      assert (a + b)[|a| + k] == b[k];
    }
    if AnyMatch(a, format) {
      var k :| 0 <= k < |a| && Matches(a[k], format);
      assert (a + b)[k] == a[k];
    }
  }

  /** Text runs are never elements. */
  lemma TextNodesNoMatch(runs: seq<Text>, format: string)
    ensures !AnyMatch(TextNodes(runs), format)
  {
  }

  lemma {:induction false} IsBlockActiveIff(s: Snapshot, format: string)
    requires Resolves(s.doc, s.selection)
    ensures s.selection.None? ==> !IsBlockActive(s, format)
    ensures s.selection.Some? && s.selection.value.AtBlock? ==>
      (IsBlockActive(s, format) <==> SelectedBlock(s.doc, s.selection.value).kind == format)
    ensures s.selection.Some? && s.selection.value.AtItem? ==>
      (IsBlockActive(s, format) <==>
         s.doc[s.selection.value.index].kind == format || SelectedBlock(s.doc, s.selection.value).kind == format)
  {
    if s.selection.Some? {
      var sel := s.selection.value;
      var t := SelectedBlock(s.doc, sel);
      TextNodesNoMatch(t.runs, format);
      var head := if sel.AtBlock? then [EditorRoot, Element(t.kind)]
                  else [EditorRoot, Element(s.doc[sel.index].kind), Element(t.kind)];
      assert Nodes(s.doc, sel) == head + TextNodes(t.runs);
      AnyMatchConcat(head, TextNodes(t.runs), format);
      assert !Matches(head[0], format);
      if sel.AtBlock? {
        assert AnyMatch(head, format) <==> Matches(head[1], format);
      } else {
        assert AnyMatch(head, format) <==> Matches(head[1], format) || Matches(head[2], format);
      }
    }
  }

  // ----- the document invariant under the library operations -----

  lemma InUpdate(doc: Document, i: nat, b: Block, x: Block)
    requires i < |doc| && x in doc[i := b]
    ensures x in doc || x == b
  {
    var k :| 0 <= k < |doc[i := b]| && doc[i := b][k] == x;
    if k != i { assert doc[k] == x; }
  }

  lemma InItemsUpdate(items: seq<TextBlock>, j: nat, t: TextBlock, x: TextBlock)
    requires j < |items| && x in items[j := t]
    ensures x in items || x == t
  {
    var k :| 0 <= k < |items[j := t]| && items[j := t][k] == x;
    if k != j { assert items[k] == x; }
  }

  /** Replacing the selected block by a non-empty block of an allowed kind keeps the invariant. */
  lemma ReplaceKeepsWellFormed(doc: Document, sel: Selection, t: TextBlock)
    requires WellFormed(doc) && Resolves(doc, Some(sel))
    requires |t.runs| > 0 && (sel.AtItem? ==> t.kind == "list-item") && (sel.AtBlock? ==> t.kind !in LIST_TYPES)
    ensures WellFormed(ReplaceSelected(doc, sel, t))
  {
    var r := ReplaceSelected(doc, sel, t);
    var nb := r[sel.index];
    assert doc[sel.index] in doc;
    if sel.AtItem? {
      forall x | x in nb.items ensures x in doc[sel.index].items || x == t {
        InItemsUpdate(doc[sel.index].items, sel.item, t, x);
      }
    }
    forall b | b in r
      ensures BlockNormalized(b)
      ensures b.Container? ==> b.kind in LIST_TYPES && forall x :: x in b.items ==> x.kind == "list-item"
      ensures b.Leaf? ==> b.block.kind !in LIST_TYPES
    {
      InUpdate(doc, sel.index, nb, b);
    }
  }

  /** The document before the selected block once `UnwrapNodes` has lifted it out of its list. */
  function DocBefore(doc: Document, sel: Selection): Document
    requires Resolves(doc, Some(sel))
  {
    match sel
    case AtBlock(i) => doc[..i]
    case AtItem(i, j) => doc[..i] + ItemsBefore(doc[i].kind, doc[i].items, j)
  }

  /** The document after the selected block once `UnwrapNodes` has lifted it out of its list. */
  function DocAfter(doc: Document, sel: Selection): Document
    requires Resolves(doc, Some(sel))
  {
    match sel
    case AtBlock(i) => doc[i + 1..]
    case AtItem(i, j) => ItemsAfter(doc[i].kind, doc[i].items, j) + doc[i + 1..]
  }

  lemma SliceIn<T>(s: seq<T>, lo: nat, hi: nat, x: T)
    requires lo <= hi <= |s| && x in s[lo..hi]
    ensures x in s
  {
    var k :| 0 <= k < hi - lo && s[lo..hi][k] == x;
    assert s[lo + k] == x;
  }

  /** One block as the invariant wants it. */
  predicate GoodBlock(b: Block)
  {
    BlockNormalized(b) &&
    (b.Container? ==> b.kind in LIST_TYPES && forall t :: t in b.items ==> t.kind == "list-item") &&
    (b.Leaf? ==> b.block.kind !in LIST_TYPES)
  }

  predicate AllGood(doc: Document)
  {
    forall b :: b in doc ==> GoodBlock(b)
  }

  lemma WellFormedAllGood(doc: Document)
    ensures WellFormed(doc) <==> |doc| > 0 && AllGood(doc)
  {
  }

  lemma AllGoodConcat(a: Document, b: Document)
    requires AllGood(a) && AllGood(b)
    ensures AllGood(a + b)
  {
  }

  lemma AllGoodSlice(doc: Document, lo: nat, hi: nat)
    requires AllGood(doc) && lo <= hi <= |doc|
    ensures AllGood(doc[lo..hi])
  {
    forall b | b in doc[lo..hi] ensures GoodBlock(b) { SliceIn(doc, lo, hi, b); }
  }

  /** The pieces a split list leaves behind keep the invariant. */
  lemma SplitPiecesGood(c: Block, j: nat)
    requires GoodBlock(c) && c.Container? && j < |c.items|
    ensures AllGood(ItemsBefore(c.kind, c.items, j)) && AllGood(ItemsAfter(c.kind, c.items, j))
    ensures GoodBlock(Leaf(c.items[j]))
  {
    assert c.items[j] in c.items;
    if j > 0 {
      forall x | x in c.items[..j] ensures x in c.items { SliceIn(c.items, 0, j, x); }
    }
    if j + 1 < |c.items| {
      forall x | x in c.items[j + 1..] ensures x in c.items { SliceIn(c.items, j + 1, |c.items|, x); }
    }
  }

  /** `UnwrapNodes` with the list kinds keeps the invariant. */
  lemma UnwrapKeepsValid(s: Snapshot)
    requires ValidState(s)
    ensures ValidState(UnwrapNodes(s, LIST_TYPES))
  {
    if s.selection.Some? && s.selection.value.AtItem? {
      var i, j := s.selection.value.index, s.selection.value.item;
      var c := s.doc[i];
      assert c in s.doc;
      var before := ItemsBefore(c.kind, c.items, j);
      var after := ItemsAfter(c.kind, c.items, j);
      WellFormedAllGood(s.doc);
      SplitPiecesGood(c, j);
      AllGoodSlice(s.doc, 0, i);
      AllGoodSlice(s.doc, i + 1, |s.doc|);
      assert s.doc[..i] == s.doc[0..i];
      AllGoodConcat(s.doc[..i], before);
      AllGoodConcat(s.doc[..i] + before, [Leaf(c.items[j])]);
      AllGoodConcat(s.doc[..i] + before + [Leaf(c.items[j])], after);
      AllGoodConcat(s.doc[..i] + before + [Leaf(c.items[j])] + after, s.doc[i + 1..]);
      var u := UnwrapNodes(s, LIST_TYPES);
      assert u.doc[i + |before|] == Leaf(c.items[j]);
      WellFormedAllGood(u.doc);
    }
  }

  /**
   * In a well-formed state, `UnwrapNodes` with the list kinds keeps the
   * invariant and leaves the selected block at top level, between the rest
   * of its old list.
   */
  lemma UnwrapShape(s: Snapshot)
    requires ValidState(s)
    ensures var u := UnwrapNodes(s, LIST_TYPES);
            ValidState(u) && (s.selection.None? ==> u == s)
    ensures s.selection.Some? ==>
            var u := UnwrapNodes(s, LIST_TYPES);
            var sel := s.selection.value;
            var before := DocBefore(s.doc, sel);
            u.doc == before + [Leaf(SelectedBlock(s.doc, sel))] + DocAfter(s.doc, sel) &&
            u.selection == Some(AtBlock(|before|))
  {
    UnwrapKeepsValid(s);
    if s.selection.Some? {
      var sel := s.selection.value;
      var i := sel.index;
      assert s.doc[i] in s.doc;
      if sel.AtBlock? {
        assert s.doc == s.doc[..i] + [s.doc[i]] + s.doc[i + 1..];
      }
    }
  }

  /** Retyping a selected top-level block to a kind other than a list kind keeps the invariant. */
  lemma SetNodesKeeps(s: Snapshot, kind: string)
    requires ValidState(s) && (s.selection.Some? ==> s.selection.value.AtBlock?) && kind !in LIST_TYPES
    ensures ValidState(SetNodes(s, kind))
  {
    if s.selection.Some? {
      var sel := s.selection.value;
      assert s.doc[sel.index] in s.doc;
      ReplaceKeepsWellFormed(s.doc, sel, TextBlock(kind, SelectedBlock(s.doc, sel).runs));
    }
  }

  /** Wrapping a selected top-level list item in a list container keeps the invariant. */
  lemma WrapNodesKeeps(s: Snapshot, kind: string)
    requires ValidState(s) && kind in LIST_TYPES
    requires s.selection.Some? ==> s.selection.value.AtBlock? && SelectedBlock(s.doc, s.selection.value).kind == "list-item"
    ensures ValidState(WrapNodes(s, kind))
  {
    if s.selection.Some? {
      var i := s.selection.value.index;
      var w := WrapNodes(s, kind);
      assert s.doc[i] in s.doc;
      forall b | b in w.doc
        ensures BlockNormalized(b)
        ensures b.Container? ==> b.kind in LIST_TYPES && forall x :: x in b.items ==> x.kind == "list-item"
      {
        InUpdate(s.doc, i, w.doc[i], b);
      }
    }
  }

  // ----- toggleBlock -----

  /** `toggleBlock(editor, format)`, as a function from the state before to the state after. */
  function ToggleBlockResult(s: Snapshot, format: string): (r: Snapshot)
    requires ValidState(s)
    ensures ValidState(r)
    ensures s.selection.None? ==> r == s
  {
    var isActive := IsBlockActive(s, format);
    var isList := format in LIST_TYPES;
    var unwrapped := UnwrapNodes(s, LIST_TYPES);
    UnwrapShape(s);
    var newType := if isActive then "paragraph" else if isList then "list-item" else format;
    var retyped := SetNodes(unwrapped, newType);
    SetNodesKeeps(unwrapped, newType);
    if !isActive && isList then
      WrapNodesKeeps(retyped, format);
      WrapNodes(retyped, format)
    else
      retyped
  }

  /**
   * toggleBlock always lifts the selected block out of its list first: the
   * result is the document as unwrapped, with the selected block (retyped,
   * perhaps in a fresh container) between what came before and after it.
   */
  lemma {:induction false} ToggleBlockUnwraps(s: Snapshot, format: string)
    requires ValidState(s) && s.selection.Some?
    ensures var r := ToggleBlockResult(s, format);
            var sel := s.selection.value;
            var p := |DocBefore(s.doc, sel)|;
            |r.doc| == p + 1 + |DocAfter(s.doc, sel)| &&
            r.doc[..p] == DocBefore(s.doc, sel) && r.doc[p + 1..] == DocAfter(s.doc, sel) &&
            r.selection.Some? && r.selection.value.index == p
  {
    UnwrapShape(s);
    var sel := s.selection.value;
    var u := UnwrapNodes(s, LIST_TYPES);
    var p := |DocBefore(s.doc, sel)|;
    var r := ToggleBlockResult(s, format);
    assert r.doc == u.doc[p := r.doc[p]];
  }

  /** An active format is switched off: the selected block becomes a top-level paragraph with the same runs. */
  lemma {:induction false} ToggleBlockWhenActive(s: Snapshot, format: string)
    requires ValidState(s) && s.selection.Some? && IsBlockActive(s, format)
    ensures var r := ToggleBlockResult(s, format);
            var sel := s.selection.value;
            var p := |DocBefore(s.doc, sel)|;
            p < |r.doc| && r.selection == Some(AtBlock(p)) &&
            r.doc[p] == Leaf(TextBlock("paragraph", SelectedBlock(s.doc, sel).runs))
  {
    UnwrapShape(s);
  }

  /** An inactive list format turns the selected block into the only item of a fresh container of that format. */
  lemma {:induction false} ToggleBlockListOn(s: Snapshot, format: string)
    requires ValidState(s) && s.selection.Some? && !IsBlockActive(s, format) && format in LIST_TYPES
    ensures var r := ToggleBlockResult(s, format);
            var sel := s.selection.value;
            var p := |DocBefore(s.doc, sel)|;
            p < |r.doc| && r.selection == Some(AtItem(p, 0)) &&
            r.doc[p] == Container(format, [TextBlock("list-item", SelectedBlock(s.doc, sel).runs)])
  {
    UnwrapShape(s);
  }

  /** An inactive other format becomes the selected block's own type, with no container. */
  lemma {:induction false} ToggleBlockToFormat(s: Snapshot, format: string)
    requires ValidState(s) && s.selection.Some? && !IsBlockActive(s, format) && format !in LIST_TYPES
    ensures var r := ToggleBlockResult(s, format);
            var sel := s.selection.value;
            var p := |DocBefore(s.doc, sel)|;
            p < |r.doc| && r.selection == Some(AtBlock(p)) &&
            r.doc[p] == Leaf(TextBlock(format, SelectedBlock(s.doc, sel).runs))
  {
    UnwrapShape(s);
  }

  /**
   * Whether the format is active is decided before the unwrap: toggling a
   * list's own format on one of its items takes the item out of the list
   * as a paragraph, rather than wrapping it again.
   */
  lemma {:induction false} ToggleOwnListOff(s: Snapshot, i: nat, j: nat)
    requires ValidState(s) && s.selection == Some(AtItem(i, j))
    ensures var r := ToggleBlockResult(s, s.doc[i].kind);
            var p := |DocBefore(s.doc, AtItem(i, j))|;
            p < |r.doc| && r.selection == Some(AtBlock(p)) &&
            r.doc[p] == Leaf(TextBlock("paragraph", s.doc[i].items[j].runs))
  {
    IsBlockActiveIff(s, s.doc[i].kind);
    ToggleBlockWhenActive(s, s.doc[i].kind);
  }

  /**
   * Toggling numbered-list on an item of a bulleted list moves it into a
   * fresh numbered list in one call, with no paragraph in between.
   */
  lemma {:induction false} ToggleListConversion(s: Snapshot, i: nat, j: nat)
    requires ValidState(s) && s.selection == Some(AtItem(i, j)) && s.doc[i].kind == "bulleted-list"
    ensures var r := ToggleBlockResult(s, "numbered-list");
            var p := |DocBefore(s.doc, AtItem(i, j))|;
            p < |r.doc| && r.selection == Some(AtItem(p, 0)) &&
            r.doc[p] == Container("numbered-list", [TextBlock("list-item", s.doc[i].items[j].runs)])
  {
    assert s.doc[i] in s.doc && s.doc[i].items[j] in s.doc[i].items;
    IsBlockActiveIff(s, "numbered-list");
    ToggleBlockListOn(s, "numbered-list");
  }

  /** An inactive list format on a selected top-level block wraps it in place. */
  lemma {:induction false} ListOnTop(s: Snapshot, format: string)
    requires ValidState(s) && s.selection.Some? && s.selection.value.AtBlock?
    requires format in LIST_TYPES && !IsBlockActive(s, format)
    ensures var i := s.selection.value.index;
            i < |s.doc| &&
            ToggleBlockResult(s, format) ==
              Snapshot(s.doc[i := Container(format, [TextBlock("list-item", s.doc[i].block.runs)])], Some(AtItem(i, 0)))
  {
    var i := s.selection.value.index;
    assert DocBefore(s.doc, AtBlock(i)) == s.doc[..i];
    ToggleBlockUnwraps(s, format);
    ToggleBlockListOn(s, format);
    UpdateAt(s.doc, i, Container(format, [TextBlock("list-item", s.doc[i].block.runs)]), ToggleBlockResult(s, format).doc);
  }

  /** A sequence that agrees with `a` everywhere but at `i`, where it holds `x`, is `a[i := x]`. */
  lemma UpdateAt<T>(a: seq<T>, i: nat, x: T, b: seq<T>)
    requires i < |a| && |b| == |a| && b[..i] == a[..i] && b[i + 1..] == a[i + 1..] && b[i] == x
    ensures b == a[i := x]
  {
    assert b == b[..i] + [b[i]] + b[i + 1..];
    assert a[i := x] == a[..i] + [x] + a[i + 1..];
  }

  /** Toggling a list's format on the only item of that list unwraps it in place as a paragraph. */
  lemma {:induction false} ListOffSingleton(r: Snapshot, i: nat, format: string, runs: seq<Text>)
    requires ValidState(r) && r.selection == Some(AtItem(i, 0)) && format in LIST_TYPES
    requires i < |r.doc| && r.doc[i] == Container(format, [TextBlock("list-item", runs)])
    ensures ToggleBlockResult(r, format) == Snapshot(r.doc[i := Leaf(TextBlock("paragraph", runs))], Some(AtBlock(i)))
  {
    IsBlockActiveIff(r, format);
    ToggleBlockUnwraps(r, format);
    ToggleBlockWhenActive(r, format);
    assert DocBefore(r.doc, AtItem(i, 0)) == r.doc[..i];
    assert DocAfter(r.doc, AtItem(i, 0)) == r.doc[i + 1..];
    UpdateAt(r.doc, i, Leaf(TextBlock("paragraph", runs)), ToggleBlockResult(r, format).doc);
  }

  /** A list format on a selected top-level paragraph: wrap, then unwrap. */
  lemma {:induction false} ToggleListTwice(s: Snapshot, format: string)
    requires ValidState(s) && s.selection.Some? && s.selection.value.AtBlock?
    requires SelectedBlock(s.doc, s.selection.value).kind == "paragraph" && format in LIST_TYPES
    ensures ToggleBlockResult(ToggleBlockResult(s, format), format) == s
  {
    var i := s.selection.value.index;
    var t := s.doc[i].block;
    IsBlockActiveIff(s, format);
    ListOnTop(s, format);
    var r := ToggleBlockResult(s, format);
    ListOffSingleton(r, i, format, t.runs);
    assert s.doc[i] == Leaf(TextBlock("paragraph", t.runs));
    assert r.doc[i := Leaf(TextBlock("paragraph", t.runs))] == s.doc;
  }

  /** A format other than a list kind or paragraph on a selected top-level paragraph: retype, then back. */
  lemma {:induction false} ToggleOtherTwice(s: Snapshot, format: string)
    requires ValidState(s) && s.selection.Some? && s.selection.value.AtBlock?
    requires SelectedBlock(s.doc, s.selection.value).kind == "paragraph"
    requires format !in LIST_TYPES && format != "paragraph"
    ensures ToggleBlockResult(ToggleBlockResult(s, format), format) == s
  {
    var i := s.selection.value.index;
    assert DocBefore(s.doc, AtBlock(i)) == s.doc[..i];
    IsBlockActiveIff(s, format);
    var r := ToggleBlockResult(s, format);
    ToggleBlockUnwraps(s, format);
    ToggleBlockToFormat(s, format);
    IsBlockActiveIff(r, format);
    ToggleBlockUnwraps(r, format);
    ToggleBlockWhenActive(r, format);
    var r2 := ToggleBlockResult(r, format);
    assert DocBefore(r.doc, AtBlock(i)) == s.doc[..i];
    assert r2.doc == s.doc[..i] + [s.doc[i]] + s.doc[i + 1..];
    assert s.doc == s.doc[..i] + [s.doc[i]] + s.doc[i + 1..];
  }

  /** Toggling paragraph on a selected top-level paragraph changes nothing. */
  lemma {:induction false} ToggleParagraphNoop(s: Snapshot)
    requires ValidState(s) && s.selection.Some? && s.selection.value.AtBlock?
    requires SelectedBlock(s.doc, s.selection.value).kind == "paragraph"
    ensures ToggleBlockResult(s, "paragraph") == s
  {
    var i := s.selection.value.index;
    assert DocBefore(s.doc, AtBlock(i)) == s.doc[..i];
    IsBlockActiveIff(s, "paragraph");
    ToggleBlockUnwraps(s, "paragraph");
    ToggleBlockWhenActive(s, "paragraph");
    var r := ToggleBlockResult(s, "paragraph");
    assert r.doc == s.doc[..i] + [s.doc[i]] + s.doc[i + 1..];
    assert s.doc == s.doc[..i] + [s.doc[i]] + s.doc[i + 1..];
  }

  /**
   * From a selected top-level paragraph, toggling any format twice gives
   * back the state it started from (for a list format: wrap, then unwrap).
   */
  lemma {:induction false} ToggleBlockTwice(s: Snapshot, format: string)
    requires ValidState(s) && s.selection.Some? && s.selection.value.AtBlock?
    requires SelectedBlock(s.doc, s.selection.value).kind == "paragraph"
    ensures ToggleBlockResult(ToggleBlockResult(s, format), format) == s
  {
    if format == "paragraph" {
      ToggleParagraphNoop(s);
      ToggleParagraphNoop(s);
    } else if format in LIST_TYPES {
      ToggleListTwice(s, format);
    } else {
      ToggleOtherTwice(s, format);
    }
  }

  // ----- toggleBoldMark / toggleItalicMark -----

  /** A text block with `mark` cleared on every run. */
  function EraseTextBlock(t: TextBlock, mark: Mark): TextBlock
  {
    TextBlock(t.kind, SetMarkOnRuns(t.runs, mark, false))
  }

  function EraseBlock(b: Block, mark: Mark): Block
  {
    match b
    case Leaf(t) => Leaf(EraseTextBlock(t, mark))
    case Container(kind, items) =>
      Container(kind, seq(|items|, j requires 0 <= j < |items| => EraseTextBlock(items[j], mark)))
  }

  /**
   * The document with `mark` cleared everywhere. Two documents with the same
   * erasure agree on everything (structure, types, texts, other marks)
   * except, perhaps, `mark`.
   */
  function WithoutMark(doc: Document, mark: Mark): Document
  {
    seq(|doc|, i requires 0 <= i < |doc| => EraseBlock(doc[i], mark))
  }

  /** The toggle of one mark, `toggleBoldMark` / `toggleItalicMark`, from the state before to the state after. */
  function ToggleMarkResult(s: Snapshot, mark: Mark): (r: Snapshot)
    requires ValidState(s)
    ensures ValidState(r) && r.selection == s.selection
    ensures s.selection.None? ==> r == s
  {
    var isActive := IsMarkActive(s, mark);
    SetMarkKeeps(s, mark, !isActive);
    if isActive then RemoveMark(s, mark) else AddMark(s, mark, true)
  }

  lemma SetMarkKeeps(s: Snapshot, mark: Mark, value: bool)
    requires ValidState(s)
    ensures ValidState(SetMark(s, mark, value))
  {
    if s.selection.Some? {
      var sel := s.selection.value;
      var t := SelectedBlock(s.doc, sel);
      assert s.doc[sel.index] in s.doc;
      assert sel.AtItem? ==> s.doc[sel.index].items[sel.item] in s.doc[sel.index].items;
      ReplaceKeepsWellFormed(s.doc, sel, TextBlock(t.kind, SetMarkOnRuns(t.runs, mark, value)));
    }
  }

  /** Replacing the selected block by one with the same erasure leaves the document's erasure unchanged. */
  lemma EraseReplace(doc: Document, sel: Selection, t: TextBlock, mark: Mark)
    requires Resolves(doc, Some(sel))
    requires EraseTextBlock(t, mark) == EraseTextBlock(SelectedBlock(doc, sel), mark)
    ensures WithoutMark(ReplaceSelected(doc, sel, t), mark) == WithoutMark(doc, mark)
  {
    var r := ReplaceSelected(doc, sel, t);
    var i := sel.index;
    forall k | 0 <= k < |doc| ensures EraseBlock(r[k], mark) == EraseBlock(doc[k], mark) {
      if k == i && sel.AtItem? {
        var items := doc[i].items;
        var items' := r[i].items;
        assert |items'| == |items|;
        forall j | 0 <= j < |items| ensures EraseTextBlock(items'[j], mark) == EraseTextBlock(items[j], mark) {
          if j != sel.item { assert items'[j] == items[j]; }
        }
      }
    }
  }

  /** Setting a mark and then clearing it is the same as clearing it. */
  lemma EraseSetMark(runs: seq<Text>, mark: Mark, value: bool)
    ensures SetMarkOnRuns(SetMarkOnRuns(runs, mark, value), mark, false) == SetMarkOnRuns(runs, mark, false)
  {
    var a := SetMarkOnRuns(SetMarkOnRuns(runs, mark, value), mark, false);
    var b := SetMarkOnRuns(runs, mark, false);
    forall k | 0 <= k < |runs| ensures a[k] == b[k] {
      match mark
      case Bold =>
      case Italic =>
    }
  }

  /**
   * With a selection, toggling a mark flips whether it is active, leaves
   * every selected run carrying exactly the new value, changes nothing but
   * that mark, and touches no block outside the selection.
   */
  lemma {:induction false} ToggleMarkFlips(s: Snapshot, mark: Mark)
    requires ValidState(s) && s.selection.Some?
    ensures var r := ToggleMarkResult(s, mark);
            var runs := SelectedBlock(r.doc, s.selection.value).runs;
            IsMarkActive(r, mark) == !IsMarkActive(s, mark) &&
            (forall k :: 0 <= k < |runs| ==> HasMark(runs[k].marks, mark) == !IsMarkActive(s, mark)) &&
            WithoutMark(r.doc, mark) == WithoutMark(s.doc, mark)
    ensures var r := ToggleMarkResult(s, mark);
            var sel := s.selection.value;
            ReplaceSelected(r.doc, sel, SelectedBlock(s.doc, sel)) == s.doc
  {
    var sel := s.selection.value;
    var t := SelectedBlock(s.doc, sel);
    var value := !IsMarkActive(s, mark);
    var t' := TextBlock(t.kind, SetMarkOnRuns(t.runs, mark, value));
    var r := ToggleMarkResult(s, mark);
    assert r.doc == ReplaceSelected(s.doc, sel, t');
    EraseSetMark(t.runs, mark, value);
    EraseReplace(s.doc, sel, t', mark);
    assert s.doc[sel.index] in s.doc;
    assert sel.AtItem? ==> s.doc[sel.index].items[sel.item] in s.doc[sel.index].items;
    assert |t.runs| > 0;
    assert EditorMarks(r) == Some(t'.runs[0].marks);
    ReplaceTwice(s.doc, sel, t', t);
    ReplaceSame(s.doc, sel);
  }

  /**
   * Toggling a mark twice keeps whether it is active, changes nothing but
   * that mark, and touches no block outside the selection.
   */
  lemma {:induction false} ToggleMarkTwice(s: Snapshot, mark: Mark)
    requires ValidState(s)
    ensures var r := ToggleMarkResult(ToggleMarkResult(s, mark), mark);
            IsMarkActive(r, mark) == IsMarkActive(s, mark) &&
            WithoutMark(r.doc, mark) == WithoutMark(s.doc, mark) && r.selection == s.selection
    ensures s.selection.Some? ==>
            var r := ToggleMarkResult(ToggleMarkResult(s, mark), mark);
            var sel := s.selection.value;
            ReplaceSelected(r.doc, sel, SelectedBlock(s.doc, sel)) == s.doc
  {
    if s.selection.Some? {
      var sel := s.selection.value;
      var r1 := ToggleMarkResult(s, mark);
      var r2 := ToggleMarkResult(r1, mark);
      ToggleMarkFlips(s, mark);
      ToggleMarkFlips(r1, mark);
      ReplaceTwice(r2.doc, sel, SelectedBlock(r1.doc, sel), SelectedBlock(s.doc, sel));
    }
  }

  lemma ReplaceSame(doc: Document, sel: Selection)
    requires Resolves(doc, Some(sel))
    ensures ReplaceSelected(doc, sel, SelectedBlock(doc, sel)) == doc
  {
    if sel.AtItem? {
      assert doc[sel.index].items[sel.item := SelectedBlock(doc, sel)] == doc[sel.index].items;
    }
  }

  lemma ReplaceTwice(doc: Document, sel: Selection, t1: TextBlock, t2: TextBlock)
    requires Resolves(doc, Some(sel))
    ensures ReplaceSelected(ReplaceSelected(doc, sel, t1), sel, t2) == ReplaceSelected(doc, sel, t2)
  {
    if sel.AtItem? {
      var items := doc[sel.index].items;
      assert items[sel.item := t1][sel.item := t2] == items[sel.item := t2];
    }
  }

  /**
   * When every selected run agrees on the mark, toggling it twice gives back
   * the very state it started from.
   */
  lemma {:induction false} ToggleMarkTwiceRestores(s: Snapshot, mark: Mark)
    requires ValidState(s) && s.selection.Some?
    requires var runs := SelectedBlock(s.doc, s.selection.value).runs;
             forall k :: 0 <= k < |runs| ==> HasMark(runs[k].marks, mark) == HasMark(runs[0].marks, mark)
    ensures ToggleMarkResult(ToggleMarkResult(s, mark), mark) == s
  {
    var sel := s.selection.value;
    var t := SelectedBlock(s.doc, sel);
    assert s.doc[sel.index] in s.doc;
    assert sel.AtItem? ==> s.doc[sel.index].items[sel.item] in s.doc[sel.index].items;
    var a := IsMarkActive(s, mark);
    assert a == HasMark(t.runs[0].marks, mark);
    var t1 := TextBlock(t.kind, SetMarkOnRuns(t.runs, mark, !a));
    var r1 := ToggleMarkResult(s, mark);
    assert r1.doc == ReplaceSelected(s.doc, sel, t1);
    ToggleMarkFlips(s, mark);
    var t2 := TextBlock(t.kind, SetMarkOnRuns(t1.runs, mark, a));
    var r2 := ToggleMarkResult(r1, mark);
    assert r2.doc == ReplaceSelected(r1.doc, sel, t2);
    assert t2.runs == t.runs by {
      forall k | 0 <= k < |t.runs| ensures t2.runs[k] == t.runs[k] {
        match mark
        case Bold =>
        case Italic =>
      }
    }
    ReplaceTwice(s.doc, sel, t1, t2);
    ReplaceSame(s.doc, sel);
  }

  /**
   * The active check reads only the first selected run: over runs with
   * mixed marks, toggling twice does not give the document back.
   */
  lemma ToggleMarkTwiceMixedRuns()
    ensures var s := Snapshot([Leaf(TextBlock("paragraph", [Text("a", Marks(true, false)), Text("b", Marks(false, false))]))],
                              Some(AtBlock(0)));
            ValidState(s) && ToggleMarkResult(ToggleMarkResult(s, Bold), Bold) != s
  {
    var s := Snapshot([Leaf(TextBlock("paragraph", [Text("a", Marks(true, false)), Text("b", Marks(false, false))]))],
                      Some(AtBlock(0)));
    var r := ToggleMarkResult(ToggleMarkResult(s, Bold), Bold);
    assert r.doc[0].block.runs[1].marks.bold;
  }

  // ----- the keyboard handler -----

  /** The parts of a key event the handler reads. */
  datatype KeyEvent = KeyEvent(ctrlKey: bool, key: string)

  /** The `onKeyDown` handler of the editable area, from the state before to the state after. */
  function KeyDownResult(s: Snapshot, ev: KeyEvent): (r: Snapshot)
    requires ValidState(s)
    ensures ValidState(r)
  {
    if !ev.ctrlKey then s
    else if ev.key == "b" then ToggleMarkResult(s, Bold)
    else if ev.key == "i" then ToggleMarkResult(s, Italic)
    else s
  }

  /**
   * Only Ctrl+b and Ctrl+i do anything; each is the toggle of its own mark,
   * so `ToggleMarkFlips` describes it, and it touches that mark on the
   * selected runs only.
   */
  lemma {:induction false} KeyDownChords(s: Snapshot, ev: KeyEvent)
    requires ValidState(s)
    ensures !ev.ctrlKey ==> KeyDownResult(s, ev) == s
    ensures ev.ctrlKey && ev.key != "b" && ev.key != "i" ==> KeyDownResult(s, ev) == s
    ensures ev.ctrlKey && ev.key == "b" ==> KeyDownResult(s, ev) == ToggleMarkResult(s, Bold)
    ensures ev.ctrlKey && ev.key == "i" ==> KeyDownResult(s, ev) == ToggleMarkResult(s, Italic)
    ensures ev.ctrlKey && ev.key == "b" ==>
      var r := KeyDownResult(s, ev);
      WithoutMark(r.doc, Bold) == WithoutMark(s.doc, Bold) && r.selection == s.selection &&
      (s.selection.Some? ==>
         IsMarkActive(r, Bold) == !IsMarkActive(s, Bold) &&
         ReplaceSelected(r.doc, s.selection.value, SelectedBlock(s.doc, s.selection.value)) == s.doc)
    ensures ev.ctrlKey && ev.key == "i" ==>
      var r := KeyDownResult(s, ev);
      WithoutMark(r.doc, Italic) == WithoutMark(s.doc, Italic) && r.selection == s.selection &&
      (s.selection.Some? ==>
         IsMarkActive(r, Italic) == !IsMarkActive(s, Italic) &&
         ReplaceSelected(r.doc, s.selection.value, SelectedBlock(s.doc, s.selection.value)) == s.doc)
  {
    if ev.ctrlKey && s.selection.Some? {
      if ev.key == "b" { ToggleMarkFlips(s, Bold); }
      else if ev.key == "i" { ToggleMarkFlips(s, Italic); }
    }
  }

  // ----- the editor object -----

  /** The editor's document (`editor.children`) and selection (`editor.selection`), changed in place. */
  class EditorState {
    var doc: Document
    var selection: Option<Selection>

    function State(): Snapshot
      reads this
    {
      Snapshot(doc, selection)
    }

    predicate Valid()
      reads this
    {
      ValidState(State())
    }

    /** A new editor holds `initialValue` and has no selection. */
    constructor ()
      ensures Valid() && doc == InitialValue && selection == None
    {
      doc := InitialValue;
      selection := None;
    }

    /** `CustomEditor.toggleBlock`: unwrap, then retype, then (switching a list on) wrap. */
    method ToggleBlock(format: string)
      requires Valid()
      modifies this
      ensures Valid()
      ensures State() == ToggleBlockResult(old(State()), format)
    {
      var isActive := IsBlockActive(State(), format);
      var isList := format in LIST_TYPES;

      UnwrapShape(State());
      var s := UnwrapNodes(State(), LIST_TYPES);
      doc, selection := s.doc, s.selection;

      var newType := if isActive then "paragraph" else if isList then "list-item" else format;
      SetNodesKeeps(State(), newType);
      s := SetNodes(State(), newType);
      doc, selection := s.doc, s.selection;

      if !isActive && isList {
        WrapNodesKeeps(State(), format);
        s := WrapNodes(State(), format);
        doc, selection := s.doc, s.selection;
      }
    }

    /** `CustomEditor.toggleBoldMark`. */
    method ToggleBoldMark()
      requires Valid()
      modifies this
      ensures Valid()
      ensures State() == ToggleMarkResult(old(State()), Bold)
    {
      var isActive := IsMarkActive(State(), Bold);
      var s;
      if isActive {
        s := RemoveMark(State(), Bold);
      } else {
        s := AddMark(State(), Bold, true);
      }
      assert s == ToggleMarkResult(State(), Bold);
      doc, selection := s.doc, s.selection;
    }

    /** `CustomEditor.toggleItalicMark`. */
    method ToggleItalicMark()
      requires Valid()
      modifies this
      ensures Valid()
      ensures State() == ToggleMarkResult(old(State()), Italic)
    {
      var isActive := IsMarkActive(State(), Italic);
      var s;
      if isActive {
        s := RemoveMark(State(), Italic);
      } else {
        s := AddMark(State(), Italic, true);
      }
      assert s == ToggleMarkResult(State(), Italic);
      doc, selection := s.doc, s.selection;
    }

    /** The `onKeyDown` handler; `prevented` tells whether it calls `preventDefault`. */
    method OnKeyDown(ev: KeyEvent) returns (prevented: bool)
      requires Valid()
      modifies this
      ensures Valid()
      ensures State() == KeyDownResult(old(State()), ev)
      ensures prevented <==> ev.ctrlKey && (ev.key == "b" || ev.key == "i")
    {
      prevented := false;
      if !ev.ctrlKey {
        return;
      }
      match ev.key {
        case "b" =>
          prevented := true;
          ToggleBoldMark();
        case "i" =>
          prevented := true;
          ToggleItalicMark();
        case _ =>
      }
    }
  }
}
