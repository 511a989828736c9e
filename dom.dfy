/** The part of the live DOM that the caret utility looks at: a tree whose
    leaves are text nodes. Any node that is not a text node is an element;
    a node type without children (a comment, say) is an element with none. */
module Dom {

  datatype Node = Text(data: string) | Element(children: seq<Node>)

  /** The data of the text nodes under `n`, in depth-first, left-to-right
      order: the order in which the `childNodes` walk meets them. */
  function Leaves(n: Node): seq<string>
    decreases n, 1
  {
    match n
    case Text(s) => [s]
    case Element(cs) => LeavesOf(cs)
  }

  /** The text leaves of a run of sibling nodes, the last sibling's last. */
  function LeavesOf(cs: seq<Node>): seq<string>
    decreases cs, 0
  {
    if cs == [] then [] else LeavesOf(cs[..|cs| - 1]) + Leaves(cs[|cs| - 1])
  }

  /** Concatenation of strings, in order. */
  function Concat(ss: seq<string>): string
  {
    if ss == [] then "" else ss[0] + Concat(ss[1..])
  }

  /** Sum of the lengths of strings. */
  function SumLengths(ss: seq<string>): nat
  {
    if ss == [] then 0 else |ss[0]| + SumLengths(ss[1..])
  }

  /** Where string `j` ends, counted from the start of the concatenation. */
  function EndOf(ss: seq<string>, j: nat): nat
    requires j < |ss|
  {
    SumLengths(ss[..j + 1])
  }

  /** The node's `textContent`: the text of all its leaves. */
  function TextContent(n: Node): string
  {
    Concat(Leaves(n))
  }

  lemma {:induction false} LeavesOfAppendOne(cs: seq<Node>, c: Node)
    ensures LeavesOf(cs + [c]) == LeavesOf(cs) + Leaves(c)
  {
  }

  lemma {:induction false} LeavesOfAppend(cs: seq<Node>, ds: seq<Node>)
    ensures LeavesOf(cs + ds) == LeavesOf(cs) + LeavesOf(ds)
    decreases |ds|
  {
    if ds == [] {
      assert cs + ds == cs;
    } else {
      var init, last := ds[..|ds| - 1], ds[|ds| - 1];
      assert cs + ds == (cs + init) + [last];
      assert ds == init + [last];
      LeavesOfAppendOne(cs + init, last);
      LeavesOfAppendOne(init, last);
      LeavesOfAppend(cs, init);
    }
  }

  lemma {:induction false} ConcatLength(ss: seq<string>)
    ensures |Concat(ss)| == SumLengths(ss)
  {
    if ss != [] {
      ConcatLength(ss[1..]);
    }
  }

  lemma {:induction false} ConcatAppend(a: seq<string>, b: seq<string>)
    ensures Concat(a + b) == Concat(a) + Concat(b)
  {
    if a == [] {
      assert a + b == b;
    } else {
      assert (a + b)[1..] == a[1..] + b;
      ConcatAppend(a[1..], b);
    }
  }

  lemma {:induction false} SumLengthsAppend(a: seq<string>, b: seq<string>)
    ensures SumLengths(a + b) == SumLengths(a) + SumLengths(b)
  {
    ConcatAppend(a, b);
    ConcatLength(a + b);
    ConcatLength(a);
    ConcatLength(b);
  }

  /** The length of the text before leaf `i` grows with `i`. */
  lemma {:induction false} SumLengthsPrefixMonotone(ss: seq<string>, i: nat, j: nat)
    requires i <= j <= |ss|
    ensures SumLengths(ss[..i]) <= SumLengths(ss[..j])
  {
    assert ss[..j] == ss[..i] + ss[i..j];
    SumLengthsAppend(ss[..i], ss[i..j]);
  }
}
