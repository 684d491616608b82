/**
 * The three shapes in which `get_data` hands out the stored records, and
 * the selector that chooses between them.
 */
module Shapes {
  import opened Wrappers
  import opened Php
  import opened Transform

  /** A PHP array key. */
  datatype Key = Index(n: nat) | Name(s: string)

  /** A value held in a record array. */
  datatype Field = Text(s: string) | Number(n: int)

  /** One PHP array as handed to the caller. */
  type Node = map<Key, Field>

  datatype Shape = Numeric | Associative | Both

  /** `switch (strtolower($type))`; a missing selector (PHP null) lowercases to "". */
  function SelectShape(selector: Option<string>): (shape: Shape)
    ensures shape == Both <==> ToLower(selector.GetOr("")) == "both"
    ensures shape == Associative <==> ToLower(selector.GetOr("")) in {"assoc", "associative"}
  {
    match ToLower(selector.GetOr(""))
    case "both" => Both
    case "assoc" => Associative
    case "associative" => Associative
    case _ => Numeric
  }

  /** The selector is case-insensitive. */
  lemma SelectorIgnoresCase(a: string, b: string)
    requires ToLower(a) == ToLower(b)
    ensures SelectShape(Some(a)) == SelectShape(Some(b))
  {
  }

  /** A missing selector, and any unknown one, gives the numeric records. */
  lemma SelectorDefaults()
    ensures SelectShape(None) == Numeric
    ensures SelectShape(Some("ASSOC")) == Associative
    ensures SelectShape(Some("Both")) == Both
    ensures SelectShape(Some("numeric")) == Numeric
  {
    assert ToLower("ASSOC") == "assoc";
    assert ToLower("Both") == "both";
    assert ToLower("numeric") == "numeric";
  }

  /** A stored record, `array($url, $width, $height, $caption)`. */
  function NumericNode(r: Record): Node {
    map[Index(0) := Text(r.url), Index(1) := Number(r.width),
        Index(2) := Number(r.height), Index(3) := Text(r.caption)]
  }

  predicate HasPositions(node: Node) {
    Index(0) in node && Index(1) in node && Index(2) in node && Index(3) in node
  }

  /** `array("URL" => $node[0], "width" => $node[1], "height" => $node[2], "caption" => $node[3])`. */
  function Relabel(node: Node): Node
    requires HasPositions(node)
  {
    map[Name("URL") := node[Index(0)], Name("width") := node[Index(1)],
        Name("height") := node[Index(2)], Name("caption") := node[Index(3)]]
  }

  /**
   * The node `get_data` returns for one record in the given shape: the
   * positions 0 to 3, the names `URL`, `width`, `height`, `caption`, or
   * both, each holding the record's URL, width, height and caption.
   */
  function ShapedNode(shape: Shape, r: Record): (n: Node)
    ensures var positions := {Index(0), Index(1), Index(2), Index(3)};
      var names := {Name("URL"), Name("width"), Name("height"), Name("caption")};
      n.Keys == (if shape == Numeric then positions else if shape == Associative then names
                 else positions + names)
    ensures shape != Associative ==>
      && Index(0) in n && Index(1) in n && Index(2) in n && Index(3) in n
      && n[Index(0)] == Text(r.url) && n[Index(1)] == Number(r.width)
      && n[Index(2)] == Number(r.height) && n[Index(3)] == Text(r.caption)
    ensures shape != Numeric ==>
      && Name("URL") in n && Name("width") in n && Name("height") in n && Name("caption") in n
      && n[Name("URL")] == Text(r.url) && n[Name("width")] == Number(r.width)
      && n[Name("height")] == Number(r.height) && n[Name("caption")] == Text(r.caption)
  {
    if shape == Numeric then NumericNode(r) else Reshaped(shape, NumericNode(r))
  }

  /** One step of the projection loop: a positional node relabelled, or extended by its names. */
  function Reshaped(shape: Shape, node: Node): Node
    requires HasPositions(node)
  {
    if shape == Both then node + Relabel(node) else Relabel(node)
  }

  /** The associative node carries the four named keys, with the positional values. */
  lemma AssociativeNodeMatchesNumeric(r: Record)
    ensures var a, n := ShapedNode(Associative, r), ShapedNode(Numeric, r);
      && a.Keys == {Name("URL"), Name("width"), Name("height"), Name("caption")}
      && a[Name("URL")] == n[Index(0)] && a[Name("width")] == n[Index(1)]
      && a[Name("height")] == n[Index(2)] && a[Name("caption")] == n[Index(3)]
  {
  }

  /**
   * The combined node holds the positions 0 to 3 and the four named keys,
   * each name equal to its position, and is the union of the other two shapes.
   */
  lemma BothNodeHoldsBoth(r: Record)
    ensures var b := ShapedNode(Both, r);
      && b.Keys == {Index(0), Index(1), Index(2), Index(3),
                    Name("URL"), Name("width"), Name("height"), Name("caption")}
      && b[Name("URL")] == b[Index(0)] && b[Name("width")] == b[Index(1)]
      && b[Name("height")] == b[Index(2)] && b[Name("caption")] == b[Index(3)]
      && (forall k :: k in ShapedNode(Numeric, r) ==> b[k] == ShapedNode(Numeric, r)[k])
      && (forall k :: k in ShapedNode(Associative, r) ==> b[k] == ShapedNode(Associative, r)[k])
  {
  }

  /** The list `get_data` returns: one node per stored record, in order. */
  function Shaped(shape: Shape, data: seq<Record>): seq<Node> {
    seq(|data|, i requires 0 <= i < |data| => ShapedNode(shape, data[i]))
  }

  /**
   * The projection of `get_data`: numeric records are returned as they
   * are; otherwise a copy of them is rewritten node by node in place.
   */
  method Project(data: seq<Record>, shape: Shape) returns (nodes: seq<Node>)
    ensures |nodes| == |data|
    ensures forall i :: 0 <= i < |data| ==> nodes[i] == ShapedNode(shape, data[i])
  {
    var tmp := new Node[|data|](i requires 0 <= i < |data| => NumericNode(data[i]));
    if shape == Numeric {
      nodes := tmp[..];
      NumericNodesAreShaped(data, nodes);
      return;
    }
    var j := 0;
    while j < tmp.Length
      invariant 0 <= j <= tmp.Length
      invariant forall i :: 0 <= i < j ==> tmp[i] == Reshaped(shape, NumericNode(data[i]))
      invariant forall i :: j <= i < tmp.Length ==> tmp[i] == NumericNode(data[i])
    {
      var named := Relabel(tmp[j]);
      tmp[j] := if shape == Both then tmp[j] + named else named;
      j := j + 1;
    }
    nodes := tmp[..];
    StepsAreShaped(shape, data, nodes);
  }

  /** The positional nodes are the nodes of the numeric shape. */
  lemma NumericNodesAreShaped(data: seq<Record>, nodes: seq<Node>)
    requires |nodes| == |data|
    requires forall i :: 0 <= i < |data| ==> nodes[i] == NumericNode(data[i])
    ensures forall i :: 0 <= i < |data| ==> nodes[i] == ShapedNode(Numeric, data[i])
  {
  }

  /** Relabelling every positional node gives the nodes of the selected shape. */
  lemma StepsAreShaped(shape: Shape, data: seq<Record>, nodes: seq<Node>)
    requires shape != Numeric && |nodes| == |data|
    requires forall i :: 0 <= i < |data| ==> nodes[i] == Reshaped(shape, NumericNode(data[i]))
    ensures forall i :: 0 <= i < |data| ==> nodes[i] == ShapedNode(shape, data[i])
  {
  }
}
