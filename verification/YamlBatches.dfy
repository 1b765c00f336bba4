/** `encodeYAMLSection` of `internal/renderer/mihomo.go`: long block sequences are encoded in bounded
    batches whose texts, joined, are the text of encoding the whole section at once. */
module YamlBatches {
  const BATCH_NODE_BUDGET := 1024

  datatype Kind = Scalar | Mapping | Sequence

  datatype Node = Node(kind: Kind, flow: bool, text: string, content: seq<Node>)

  /** `yamlNodeCount`. */
  function NodeCount(n: Node): (r: nat)
    ensures r >= 1
    decreases n, 0
  {
    1 + ListCount(n.content)
  }

  function ListCount(ns: seq<Node>): nat
    decreases ns, 1
  {
    if ns == [] then 0 else ListCount(ns[..|ns| - 1]) + NodeCount(ns[|ns| - 1])
  }

  /** The node and all below it. */
  ghost function AllNodes(n: Node): seq<Node>
    decreases n, 0
  {
    [n] + AllOf(n.content)
  }

  ghost function AllOf(ns: seq<Node>): seq<Node>
    decreases ns, 1
  {
    if ns == [] then [] else AllOf(ns[..|ns| - 1]) + AllNodes(ns[|ns| - 1])
  }

  lemma {:induction false} CountIsSize(n: Node)
    ensures NodeCount(n) == |AllNodes(n)|
    decreases n, 0
  {
    ListCountIsSize(n.content);
  }

  lemma {:induction false} ListCountIsSize(ns: seq<Node>)
    ensures ListCount(ns) == |AllOf(ns)|
    decreases ns, 1
  {
    if ns != [] {
      ListCountIsSize(ns[..|ns| - 1]);
      CountIsSize(ns[|ns| - 1]);
    }
  }

  predicate BlockSequence(n: Node) {
    n.kind == Sequence && !n.flow && n.content != []
  }

  /** Items of a block sequence, each on lines of its own. */
  ghost function Items(item: Node -> string, ns: seq<Node>): string {
    if ns == [] then "" else Items(item, ns[..|ns| - 1]) + "\n" + item(ns[|ns| - 1])
  }

  lemma {:induction false} ItemsConcat(item: Node -> string, a: seq<Node>, b: seq<Node>)
    ensures Items(item, a + b) == Items(item, a) + Items(item, b)
  {
    if b == [] {
      assert a + b == a;
    } else {
      var n := |b| - 1;
      assert (a + b)[..|a + b| - 1] == a + b[..n];
      ItemsConcat(item, a, b[..n]);
    }
  }

  /** The YAML encoder, with the one fact batching relies on: a section that is a block sequence
      encodes as its header line followed by its items. */
  ghost predicate EncodesBlocks(encode: Node -> string, header: string, item: Node -> string) {
    && '\n' !in header
    && forall n: Node {:trigger encode(n)} | BlockSequence(n) :: encode(n) == header + Items(item, n.content)
  }

  /** Position of the first line break, as `bytes.IndexByte`. */
  function LineEnd(s: string): nat
    requires '\n' in s
    ensures LineEnd(s) < |s| && s[LineEnd(s)] == '\n'
    ensures forall i | 0 <= i < LineEnd(s) :: s[i] != '\n'
  {
    if s[0] == '\n' then 0 else 1 + LineEnd(s[1..])
  }

  /** A continuation batch drops the repeated header line. */
  lemma ContinuationText(header: string, item: Node -> string, ns: seq<Node>)
    requires '\n' !in header && ns != []
    ensures '\n' in header + Items(item, ns)
    ensures var t := header + Items(item, ns); "\n" + t[LineEnd(t) + 1..] == Items(item, ns)
  {
    var body := Items(item, ns);
    BodyStartsLine(item, ns);
    var t := header + body;
    assert t[|header|] == '\n';
    assert LineEnd(t) == |header| by {
      assert forall i | 0 <= i < |header| :: t[i] == header[i] && header[i] in header;
    }
    assert t[|header| + 1..] == body[1..];
    assert body == [body[0]] + body[1..];
  }

  lemma {:induction false} BodyStartsLine(item: Node -> string, ns: seq<Node>)
    requires ns != []
    ensures Items(item, ns) != "" && Items(item, ns)[0] == '\n'
  {
    if |ns| > 1 { BodyStartsLine(item, ns[..|ns| - 1]); }
  }

  /** A partition of the children, in order, into non-empty batches. A batch exceeds the budget only as a
      single child, and was closed only because the next child would not have fitted. */
  ghost predicate Partition(batches: seq<seq<Node>>, children: seq<Node>) {
    if batches == [] then children == []
    else
      var n, last := |batches| - 1, batches[|batches| - 1];
      && 0 < |last| <= |children| && children[|children| - |last|..] == last
      && (ListCount(last) <= BATCH_NODE_BUDGET || |last| == 1)
      && (n > 0 ==> ListCount(batches[n - 1]) + NodeCount(last[0]) > BATCH_NODE_BUDGET)
      && Partition(batches[..n], children[..|children| - |last|])
  }

  /** The children before `start` have been written, in `batches`. */
  ghost predicate Written(header: string, item: Node -> string, children: seq<Node>, start: nat,
                          batches: seq<seq<Node>>, out: string)
    requires start <= |children|
  {
    && Partition(batches, children[..start])
    && out == (if start == 0 then "" else header + Items(item, children[..start]))
  }

  /** The batch that would begin at `start` could not have been part of the previous one. */
  ghost predicate ClosedBefore(batches: seq<seq<Node>>, children: seq<Node>, start: nat) {
    batches != [] ==> start < |children| && ListCount(batches[|batches| - 1]) + NodeCount(children[start]) > BATCH_NODE_BUDGET
  }

  /** Encodes and writes one batch, as the inner closure does. */
  method WriteBatch(encode: Node -> string, value: Node, start: nat, end: nat, out: string,
                    ghost header: string, ghost item: Node -> string, ghost batches: seq<seq<Node>>)
    returns (out': string)
    requires EncodesBlocks(encode, header, item) && BlockSequence(value) && start < end <= |value.content|
    requires Written(header, item, value.content, start, batches, out) && ClosedBefore(batches, value.content, start)
    requires ListCount(value.content[start..end]) <= BATCH_NODE_BUDGET || end == start + 1
    ensures Written(header, item, value.content, end, batches + [value.content[start..end]], out')
  {
    var batch := value.content[start..end];
    var encoded := encode(value.(content := batch));
    if start > 0 {
      ContinuationText(header, item, batch);
      var headerEnd := LineEnd(encoded);
      encoded := "\n" + encoded[headerEnd + 1..];
    }
    WrittenGrows(header, item, value.content, start, end, batches, out, encoded);
    out' := out + encoded;
  }

  lemma WrittenGrows(header: string, item: Node -> string, children: seq<Node>, start: nat, end: nat,
                     batches: seq<seq<Node>>, out: string, text: string)
    requires start < end <= |children|
    requires Written(header, item, children, start, batches, out) && ClosedBefore(batches, children, start)
    requires ListCount(children[start..end]) <= BATCH_NODE_BUDGET || end == start + 1
    requires text == (if start == 0 then header else "") + Items(item, children[start..end])
    ensures Written(header, item, children, end, batches + [children[start..end]], out + text)
  {
    var batch := children[start..end];
    assert children[..start] + batch == children[..end];
    ItemsConcat(item, children[..start], batch);
    TextGrows(header, Items(item, children[..start]), Items(item, batch), start == 0);
  }

  lemma TextGrows(header: string, before: string, items: string, first: bool)
    requires first ==> before == ""
    ensures (if first then "" else header + before) + ((if first then header else "") + items) == header + (before + items)
  {
  }

  lemma CountNext(children: seq<Node>, start: nat, index: nat)
    requires start <= index < |children|
    ensures ListCount(children[start..index + 1]) == ListCount(children[start..index]) + NodeCount(children[index])
  {
    assert children[start..index + 1][..index - start] == children[start..index];
  }

  /** Between two children: the batches written, and the weight of the one that is open. */
  ghost predicate Open(header: string, item: Node -> string, children: seq<Node>, start: nat, index: nat, weight: nat,
                       batches: seq<seq<Node>>, out: string) {
    && start <= index <= |children| && (index > start || index == 0)
    && weight == ListCount(children[start..index]) && (weight <= BATCH_NODE_BUDGET || index == start + 1)
    && Written(header, item, children, start, batches, out) && (index < |children| || start < |children|)
    && (start < |children| ==> ClosedBefore(batches, children, start))
  }

  /** The loop body: close the open batch if the next child does not fit, then add the child. */
  method AddChild(encode: Node -> string, value: Node, start: nat, index: nat, weight: nat, out: string,
                  ghost header: string, ghost item: Node -> string, ghost batches: seq<seq<Node>>)
    returns (start': nat, weight': nat, out': string, ghost batches': seq<seq<Node>>)
    requires EncodesBlocks(encode, header, item) && BlockSequence(value) && index < |value.content|
    requires Open(header, item, value.content, start, index, weight, batches, out)
    ensures Open(header, item, value.content, start', index + 1, weight', batches', out')
  {
    var children := value.content;
    var childWeight := NodeCount(children[index]);
    start', weight', out', batches' := start, weight, out, batches;
    if index > start && weight + childWeight > BATCH_NODE_BUDGET {
      out' := WriteBatch(encode, value, start, index, out, header, item, batches);
      batches' := batches + [children[start..index]];
      start', weight' := index, 0;
    }
    CountNext(children, start', index);
    weight' := weight' + childWeight;
  }

  /** The batching loop. */
  method EncodeBatches(encode: Node -> string, value: Node, ghost header: string, ghost item: Node -> string)
    returns (out: string, ghost batches: seq<seq<Node>>)
    requires EncodesBlocks(encode, header, item) && BlockSequence(value)
    ensures Written(header, item, value.content, |value.content|, batches, out)
  {
    out, batches := "", [];
    var start: nat, weight: nat := 0, 0;
    for index := 0 to |value.content|
      invariant Open(header, item, value.content, start, index, weight, batches, out)
    {
      start, weight, out, batches := AddChild(encode, value, start, index, weight, out, header, item, batches);
    }
    out := WriteBatch(encode, value, start, |value.content|, out, header, item, batches);
    batches := batches + [value.content[start..|value.content|]];
  }

  /** Batched encoding equals one-shot encoding. */
  method EncodeSection(encode: Node -> string, value: Node, ghost header: string, ghost item: Node -> string)
    returns (out: string, ghost batches: seq<seq<Node>>)
    requires EncodesBlocks(encode, header, item)
    ensures out == encode(value)
    ensures BlockSequence(value) ==> Partition(batches, value.content)
  {
    if value.kind != Sequence || value.flow || value.content == [] {
      return encode(value), [];
    }
    out, batches := EncodeBatches(encode, value, header, item);
    assert value.content[..|value.content|] == value.content;
  }

  ghost function Flatten(batches: seq<seq<Node>>): seq<Node> {
    if batches == [] then [] else Flatten(batches[..|batches| - 1]) + batches[|batches| - 1]
  }

  /** Put together, the batches are the children, and none of them is empty. */
  lemma {:induction false} PartitionCovers(batches: seq<seq<Node>>, children: seq<Node>)
    requires Partition(batches, children)
    ensures Flatten(batches) == children && forall b | b in batches :: b != [] && (ListCount(b) <= 1024 || |b| == 1)
  {
    if batches != [] {
      var n, last := |batches| - 1, batches[|batches| - 1];
      PartitionCovers(batches[..n], children[..|children| - |last|]);
      assert children == children[..|children| - |last|] + last;
      assert batches == batches[..n] + [last];
    }
  }

  /** A batch of more than one child has at most 1024 nodes, at any depth. */
  lemma BatchesFit(batches: seq<seq<Node>>, children: seq<Node>, b: seq<Node>)
    requires Partition(batches, children) && b in batches
    ensures |AllOf(b)| <= 1024 || |b| == 1
  {
    PartitionCovers(batches, children);
    ListCountIsSize(b);
  }
}
