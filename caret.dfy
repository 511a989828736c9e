/** Saving and restoring the caret of a contentEditable element
    (desktop-app/frontend/src/components/caret.ts).

    A DOM boundary point inside the element is abstracted to a position over
    its text leaves: which text node, in depth-first order, and how many of
    its characters precede the point. */
module Caret {
  import opened Wrappers
  import opened Dom

  /** A point inside text leaf number `leaf`, after `offset` of its characters. */
  datatype Point = Point(leaf: nat, offset: nat)

  /** A range boundary: either the start of the document, where
      `document.createRange()` puts a new range, or a point in a text leaf
      of the element at hand. */
  datatype Boundary = DocumentStart | InText(point: Point)

  /** The boundary points of a range, as a selection records them. */
  datatype Span = Span(start: Boundary, end: Boundary)
  {
    predicate Collapsed() { start == end }
  }

  /** `b` names an existing boundary point: in a text leaf that exists, at
      most at that leaf's end. */
  predicate ValidBoundary(leaves: seq<string>, b: Boundary)
  {
    b.InText? ==> b.point.leaf < |leaves| && b.point.offset <= |leaves[b.point.leaf]|
  }

  /** Document order of boundary points, strict. */
  predicate Precedes(a: Boundary, b: Boundary)
  {
    match (a, b)
    case (DocumentStart, InText(_)) => true
    case (InText(p), InText(q)) => p.leaf < q.leaf || (p.leaf == q.leaf && p.offset < q.offset)
    case _ => false
  }

  // ---------------------------------------------------------------------
  // Measuring: getCaretOffset
  // ---------------------------------------------------------------------

  /** What `toString()` gives for a range from the start of the element's
      contents to `b`. From a boundary before the element (the document
      start), `setEnd` collapses the range and the text is empty. */
  function PrecedingText(leaves: seq<string>, b: Boundary): string
    requires ValidBoundary(leaves, b)
  {
    match b
    case DocumentStart => ""
    case InText(p) => Concat(leaves[..p.leaf]) + leaves[p.leaf][..p.offset]
  }

  /** The number of characters before `b`: the whole text leaves before its
      leaf plus its offset in that leaf. */
  function CharactersBefore(leaves: seq<string>, b: Boundary): nat
  {
    match b
    case DocumentStart => 0
    case InText(p) => if p.leaf <= |leaves| then SumLengths(leaves[..p.leaf]) + p.offset else 0
  }

  /** The text before a boundary is the start of the element's text, as
      long as the count of characters before it. */
  lemma {:induction false} PrecedingTextIsPrefix(leaves: seq<string>, b: Boundary)
    requires ValidBoundary(leaves, b)
    ensures |PrecedingText(leaves, b)| == CharactersBefore(leaves, b) <= |Concat(leaves)|
    ensures PrecedingText(leaves, b) == Concat(leaves)[..CharactersBefore(leaves, b)]
  {
    match b
    case DocumentStart =>
    case InText(p) =>
      var i, k := p.leaf, p.offset;
      assert leaves == leaves[..i] + [leaves[i]] + leaves[i + 1..];
      ConcatAppend(leaves[..i] + [leaves[i]], leaves[i + 1..]);
      ConcatAppend(leaves[..i], [leaves[i]]);
      assert Concat([leaves[i]]) == leaves[i] + Concat([]);
      ConcatLength(leaves[..i]);
      var text := Concat(leaves);
      assert text == Concat(leaves[..i]) + leaves[i] + Concat(leaves[i + 1..]);
      assert leaves[i] == leaves[i][..k] + leaves[i][k..];
  }

  /** `getCaretOffset(element)`: with no selection, or a selection without
      ranges, 0; otherwise the number of characters of the element's text
      before the start of the selection's first range. */
  function GetCaretOffset(element: Node, selection: Selection?): (offset: nat)
    reads selection
    requires selection != null && |selection.ranges| > 0 ==>
               ValidBoundary(Leaves(element), selection.ranges[0].start)
    ensures offset <= |TextContent(element)|
    ensures (selection == null || |selection.ranges| == 0) ==> offset == 0
    ensures selection != null && |selection.ranges| > 0 ==>
              offset == CharactersBefore(Leaves(element), selection.ranges[0].start) &&
              TextContent(element)[..offset] == PrecedingText(Leaves(element), selection.ranges[0].start)
  {
    if selection != null && |selection.ranges| > 0 then
      var start := selection.ranges[0].start;
      PrecedingTextIsPrefix(Leaves(element), start);
      |PrecedingText(Leaves(element), start)|
    else
      0
  }

  // ---------------------------------------------------------------------
  // Restoring: setCaretOffset and its walk findNode
  // ---------------------------------------------------------------------

  function Shift(r: Option<Point>, k: nat): Option<Point>
  {
    match r
    case None => None
    case Some(p) => Some(Point(p.leaf + k, p.offset))
  }

  /** Where the walk of findNode stops for `offset` over the text leaves:
      the first leaf whose end, counted from the start of the text, reaches
      `offset`. There is no clamping: past the end of the text, and with no
      text leaf at all, nothing is found. */
  function Locate(leaves: seq<string>, offset: nat): Option<Point>
  {
    if leaves == [] then None
    else if |leaves[0]| >= offset then Some(Point(0, offset))
    else Shift(Locate(leaves[1..], offset - |leaves[0]|), 1)
  }

  lemma SumLengthsPrefixTail(l: seq<string>, k: nat)
    requires k < |l|
    ensures SumLengths(l[..k + 1]) == |l[0]| + SumLengths(l[1..][..k])
  {
    assert l[..k + 1][1..] == l[1..][..k];
  }

  /** The walk over a run of leaves followed by more leaves: once a leaf is
      found in the first run no later leaf is considered; otherwise the walk
      goes on in the second run with the whole first run counted. */
  lemma {:induction false} LocateAppend(a: seq<string>, b: seq<string>, o: nat)
    ensures Locate(a, o).Some? ==> Locate(a + b, o) == Locate(a, o)
    ensures Locate(a, o).None? ==>
              SumLengths(a) <= o && Locate(a + b, o) == Shift(Locate(b, o - SumLengths(a)), |a|)
  {
    if a == [] {
      assert a + b == b;
    } else {
      assert (a + b)[0] == a[0] && (a + b)[1..] == a[1..] + b;
      if |a[0]| < o {
        LocateAppend(a[1..], b, o - |a[0]|);
        if Locate(a, o).None? {
          match Locate(b, o - SumLengths(a))
          case None =>
          case Some(p) =>
        }
      }
    }
  }

  /** What the walk finds: an existing point, with all the earlier text
      leaves ending short of `offset` and the found point sitting after
      exactly `offset` characters. */
  lemma {:induction false} LocateFound(l: seq<string>, o: nat)
    requires Locate(l, o).Some?
    ensures var p := Locate(l, o).value;
      && p.leaf < |l| && p.offset <= |l[p.leaf]|
      && SumLengths(l[..p.leaf]) + p.offset == o
      && forall j :: 0 <= j < p.leaf ==> EndOf(l, j) < o
  {
    if |l[0]| < o {
      var o' := o - |l[0]|;
      LocateFound(l[1..], o');
      var q := Locate(l[1..], o').value;
      SumLengthsPrefixTail(l, q.leaf);
      forall j | 0 <= j < q.leaf + 1
        ensures EndOf(l, j) < o
      {
        SumLengthsPrefixTail(l, j);
        if j == 0 {
          assert l[1..][..0] == [];
        } else {
          assert EndOf(l[1..], j - 1) < o';
        }
      }
    } else {
      assert l[..0] == [];
    }
  }

  /** The walk fails exactly when there is no text leaf or `offset` lies
      past the end of the text. */
  lemma {:induction false} LocateNone(l: seq<string>, o: nat)
    ensures Locate(l, o).None? <==> (l == [] || o > SumLengths(l))
  {
    if l != [] && |l[0]| < o {
      LocateNone(l[1..], o - |l[0]|);
      if l[1..] == [] {
        assert SumLengths(l) == |l[0]|;
      }
    }
  }

  /** The walk stops at the first leaf whose end reaches `offset`, and at no
      other: the reference characterisation that `LocateFound` gives the
      other direction of. */
  lemma {:induction false} LocateFirst(l: seq<string>, o: nat, j: nat)
    requires j < |l| && o <= EndOf(l, j)
    requires forall i :: 0 <= i < j ==> EndOf(l, i) < o
    ensures SumLengths(l[..j]) <= o
    ensures Locate(l, o) == Some(Point(j, o - SumLengths(l[..j])))
  {
    SumLengthsPrefixTail(l, 0);
    assert l[..0] == [] && l[1..][..0] == [];
    if j > 0 {
      assert EndOf(l, 0) < o;
      var o' := o - |l[0]|;
      forall i | 0 <= i < j - 1
        ensures EndOf(l[1..], i) < o'
      {
        SumLengthsPrefixTail(l, i + 1);
        assert EndOf(l, i + 1) < o;
      }
      SumLengthsPrefixTail(l, j);
      LocateFirst(l[1..], o', j - 1);
      SumLengthsPrefixTail(l, j - 1);
    }
  }

  /** An offset that is exactly the end of some text leaf lands at that
      leaf or an earlier one, never at the start of the next leaf. */
  lemma BoundaryLandsEarly(l: seq<string>, o: nat, j: nat)
    requires j < |l| && o == EndOf(l, j)
    ensures Locate(l, o).Some? && Locate(l, o).value.leaf <= j
  {
    LocateNone(l, o);
    SumLengthsPrefixMonotone(l, j + 1, |l|);
    assert l[..|l|] == l;
    LocateFound(l, o);
  }

  /** Example: in the text leaves "ab" and "cd", offset 2 is put at the end
      of "ab", not at the start of "cd". */
  lemma BoundaryExample()
    ensures Locate(["ab", "cd"], 2) == Some(Point(0, 2))
  {
  }

  /** The boundary setCaretOffset(element, offset) collapses the selection
      at: the found point, or, when the walk fails, the document start at
      which the new range was created. */
  function CaretTarget(element: Node, offset: nat): Boundary
  {
    match Locate(Leaves(element), offset)
    case None => DocumentStart
    case Some(p) => InText(p)
  }

  /** Restoring an offset within the element's text and measuring it again
      gives the offset back; an offset past the end, or any offset in an
      element without text nodes, comes back as 0. */
  lemma RestoreThenMeasure(element: Node, offset: nat)
    ensures ValidBoundary(Leaves(element), CaretTarget(element, offset))
    ensures CharactersBefore(Leaves(element), CaretTarget(element, offset)) ==
              if Leaves(element) != [] && offset <= |TextContent(element)| then offset else 0
  {
    var l := Leaves(element);
    ConcatLength(l);
    LocateNone(l, offset);
    if Locate(l, offset).Some? {
      LocateFound(l, offset);
    }
  }

  /** The point of a re-render: the caret measured in one tree and restored
      in another with the same text sits after the same characters, and, as
      the new tree has a text node, inside one of its text leaves. */
  lemma RestoreAcrossRender(before: Node, after: Node, b: Boundary)
    requires ValidBoundary(Leaves(before), b)
    requires TextContent(before) == TextContent(after) && Leaves(after) != []
    ensures var target := CaretTarget(after, CharactersBefore(Leaves(before), b));
      target.InText? && ValidBoundary(Leaves(after), target) &&
      PrecedingText(Leaves(after), target) == PrecedingText(Leaves(before), b)
  {
    var o := CharactersBefore(Leaves(before), b);
    PrecedingTextIsPrefix(Leaves(before), b);
    RestoreThenMeasure(after, o);
    PrecedingTextIsPrefix(Leaves(after), CaretTarget(after, o));
  }

  /** One step of the walk over the children of an element: the leaves of
      the first `i + 1` children are those of the first `i` and then those
      of child `i`; a point found within them is the point found for all
      children. */
  lemma ChildStep(children: seq<Node>, i: nat, o: nat)
    requires i < |children| && Locate(LeavesOf(children[..i]), o).None?
    ensures var before := LeavesOf(children[..i]);
      && SumLengths(before) <= o
      && SumLengths(LeavesOf(children[..i + 1])) == SumLengths(before) + SumLengths(Leaves(children[i]))
      && |LeavesOf(children[..i + 1])| == |before| + |Leaves(children[i])|
      && Locate(LeavesOf(children[..i + 1]), o) == Shift(Locate(Leaves(children[i]), o - SumLengths(before)), |before|)
    ensures Locate(LeavesOf(children[..i + 1]), o).Some? ==>
              Locate(LeavesOf(children), o) == Locate(LeavesOf(children[..i + 1]), o)
  {
    var before := LeavesOf(children[..i]);
    assert children[..i + 1] == children[..i] + [children[i]];
    LeavesOfAppendOne(children[..i], children[i]);
    LocateAppend(before, Leaves(children[i]), o);
    SumLengthsAppend(before, Leaves(children[i]));
    LeavesOfAppend(children[..i + 1], children[i + 1..]);
    assert children[..i + 1] + children[i + 1..] == children;
    LocateAppend(LeavesOf(children[..i + 1]), LeavesOf(children[i + 1..]), o);
  }

  /** The closure `findNode` of setCaretOffset: walks `node` depth-first,
      with `charCount` the running count of text before it and `leafIndex`
      the number of text leaves before it. It stops at the first text node
      whose length takes the count to `offset` or past it; `start` is then
      the point it hands to `range.setStart`. Otherwise the node's whole text
      is counted (`count`, `leafCount` are the updated counters). */
  method FindNode(node: Node, offset: nat, charCount: nat, leafIndex: nat)
    returns (found: bool, start: Point, count: nat, leafCount: nat)
    requires charCount <= offset
    ensures found <==> Locate(Leaves(node), offset - charCount).Some?
    ensures found ==> start == Point(leafIndex + Locate(Leaves(node), offset - charCount).value.leaf,
                                     Locate(Leaves(node), offset - charCount).value.offset)
    ensures !found ==> count == charCount + SumLengths(Leaves(node)) <= offset &&
                       leafCount == leafIndex + |Leaves(node)|
    decreases node
  {
    match node
    case Text(s) =>
      var textLength := |s|;
      assert Leaves(node) == [s] && Leaves(node)[1..] == [];
      if charCount + textLength >= offset {
        return true, Point(leafIndex, offset - charCount), charCount, leafIndex;
      }
      return false, Point(0, 0), charCount + textLength, leafIndex + 1;
    case Element(children) =>
      count, leafCount := charCount, leafIndex;
      var i := 0;
      while i < |children|
        invariant 0 <= i <= |children|
        invariant Locate(LeavesOf(children[..i]), offset - charCount).None?
        invariant count == charCount + SumLengths(LeavesOf(children[..i])) <= offset
        invariant leafCount == leafIndex + |LeavesOf(children[..i])|
      {
        var f, p, c, l := FindNode(children[i], offset, count, leafCount);
        ChildStep(children, i, offset - charCount);
        if f {
          return true, p, c, l;
        }
        count, leafCount := c, l;
        i := i + 1;
      }
      assert children[..i] == children;
      return false, Point(0, 0), count, leafCount;
  }

  /** A DOM range, reduced to its two boundary points. */
  class Range {
    var start: Boundary
    var end: Boundary

    /** `document.createRange()`: collapsed at the start of the document. */
    constructor ()
      ensures start == DocumentStart && end == DocumentStart
    {
      start := DocumentStart;
      end := DocumentStart;
    }

    /** `setStart`: moves the start; an end that now precedes the start is
        moved along with it. */
    method SetStart(b: Boundary)
      modifies this
      ensures start == b
      ensures end == if Precedes(old(end), b) then b else old(end)
    {
      start := b;
      if Precedes(end, b) {
        end := b;
      }
    }

    /** `collapse(toStart)`: both points become the start (or the end). */
    method Collapse(toStart: bool)
      modifies this
      ensures toStart ==> start == old(start) && end == old(start)
      ensures !toStart ==> start == old(end) && end == old(end)
    {
      if toStart {
        end := start;
      } else {
        start := end;
      }
    }

    function Value(): Span
      reads this
    {
      Span(start, end)
    }
  }

  /** The window's selection, holding at most one range. */
  class Selection {
    var ranges: seq<Span>

    constructor ()
      ensures ranges == []
    {
      ranges := [];
    }

    method RemoveAllRanges()
      modifies this
      ensures ranges == []
    {
      ranges := [];
    }

    /** `addRange`: a selection that already holds a range ignores it. */
    method AddRange(range: Range)
      modifies this
      ensures ranges == if old(ranges) == [] then [range.Value()] else old(ranges)
    {
      if ranges == [] {
        ranges := [range.Value()];
      }
    }
  }

  /** `setCaretOffset(element, offset)`: when the window has a selection, it
      ends up holding exactly one range, collapsed at `CaretTarget`; measuring
      the caret then gives `offset` back whenever the element's text is long
      enough and has a text node, and 0 otherwise. */
  method SetCaretOffset(element: Node, offset: nat, selection: Selection?)
    modifies selection
    ensures ValidBoundary(Leaves(element), CaretTarget(element, offset))
    ensures selection != null ==>
              selection.ranges == [Span(CaretTarget(element, offset), CaretTarget(element, offset))] &&
              selection.ranges[0].Collapsed()
    ensures selection != null ==>
              GetCaretOffset(element, selection) ==
                if Leaves(element) != [] && offset <= |TextContent(element)| then offset else 0
  {
    RestoreThenMeasure(element, offset);
    var range := new Range();
    var found, start, _, _ := FindNode(element, offset, 0, 0);
    if found {
      range.SetStart(InText(start));
    }
    range.Collapse(true);
    if selection != null {
      selection.RemoveAllRanges();
      selection.AddRange(range);
    }
  }

  /** The module-level `savedOffset` and the two functions that use it. */
  class CaretCache {
    var savedOffset: nat

    constructor ()
      ensures savedOffset == 0
    {
      savedOffset := 0;
    }

    /** The document's `input` listener: an input whose target is
        contentEditable saves the caret offset in the target; any other
        input leaves the saved offset alone. */
    method OnInput(target: Node, isContentEditable: bool, selection: Selection?)
      requires isContentEditable && selection != null && |selection.ranges| > 0 ==>
                 ValidBoundary(Leaves(target), selection.ranges[0].start)
      modifies this
      ensures savedOffset == if isContentEditable then GetCaretOffset(target, selection) else old(savedOffset)
    {
      if isContentEditable {
        savedOffset := GetCaretOffset(target, selection);
      }
    }

    /** `setCaret(element)`: restores the saved offset in `element`. */
    method SetCaret(element: Node, selection: Selection?)
      modifies selection
      ensures ValidBoundary(Leaves(element), CaretTarget(element, savedOffset))
      ensures selection != null ==>
                selection.ranges == [Span(CaretTarget(element, savedOffset), CaretTarget(element, savedOffset))]
      ensures selection != null && Leaves(element) != [] && savedOffset <= |TextContent(element)| ==>
                GetCaretOffset(element, selection) == savedOffset
    {
      SetCaretOffset(element, savedOffset, selection);
    }
  }

  /** An input in an element, a re-render that keeps its text, and the
      restore after it: the caret ends up after the same characters as
      before the re-render. */
  method InputThenRerender(cache: CaretCache, before: Node, after: Node, selection: Selection)
    requires |selection.ranges| > 0 && ValidBoundary(Leaves(before), selection.ranges[0].start)
    requires TextContent(before) == TextContent(after) && Leaves(after) != []
    modifies cache, selection
    ensures |selection.ranges| == 1 && selection.ranges[0].start.InText?
    ensures ValidBoundary(Leaves(after), selection.ranges[0].start)
    ensures PrecedingText(Leaves(after), selection.ranges[0].start) ==
              old(PrecedingText(Leaves(before), selection.ranges[0].start))
  {
    ghost var b := selection.ranges[0].start;
    cache.OnInput(before, true, selection);
    RestoreAcrossRender(before, after, b);
    cache.SetCaret(after, selection);
  }
}
