/** The two libraries every rule stands on, seen only through what the rules
    ask of them: the xmldom parser and the namespace-aware XPath processor.
    Neither is reimplemented. A document is known by the text it was parsed
    from, an element by its attributes, and the processor is an arbitrary
    function from a location path and a document to the ordered nodes it
    selects. The one piece of XPath the rules rely on structurally, the
    non-empty-annotation predicate appended to a lenient path to form the
    strict one, is given its meaning here. */
module Dom {
  import opened Seqs

  /** An element, seen through its attributes: qualified name to value. */
  type Node = map<string, string>

  /** What `new DOMParser().parseFromString(text)` yields: a document parsed
      from a non-empty string, or, for anything else, no document at all
      (xmldom reports "invalid doc source" and hands back `undefined`). What
      the processor makes of that missing document is its own business. */
  datatype Doc = Document(source: string) | NoDocument

  /** The processor returned by `xpath.useNamespaces(...)`: `engine(path, doc)`
      is the ordered sequence of nodes `path` selects in `doc`. */
  type Engine = (string, Doc) -> seq<Node>

  /** The designer attribute holding a node's annotation text. */
  const AnnotationAttribute: string := "sap2010:Annotation.AnnotationText"

  /** The XPath predicate the annotation rules append to a lenient path:
      the attribute is present and its string value is not empty. */
  const AnnotationPredicate: string :=
    "[@sap2010:Annotation.AnnotationText and string-length(@sap2010:Annotation.AnnotationText)!=0]"

  /** `element.getAttribute(name)`: xmldom answers "" for an absent attribute. */
  function GetAttribute(node: Node, name: string): string {
    if name in node then node[name] else ""
  }

  /** `element.hasAttribute(name)`. */
  predicate HasAttribute(node: Node, name: string) {
    name in node
  }

  /** A node satisfies `AnnotationPredicate`. */
  predicate HasNonEmptyAnnotation(node: Node) {
    AnnotationAttribute in node && |node[AnnotationAttribute]| != 0
  }

  /** The nodes of `nodes` that satisfy `AnnotationPredicate`, in order. */
  function KeepAnnotated(nodes: seq<Node>): (kept: seq<Node>)
    ensures Subsequence(kept, nodes)
    ensures |kept| <= |nodes|
    ensures forall n :: n in kept <==> n in nodes && HasNonEmptyAnnotation(n)
    ensures |kept| == |nodes| <==> forall n :: n in nodes ==> HasNonEmptyAnnotation(n)
  {
    if |nodes| == 0 then []
    else if HasNonEmptyAnnotation(nodes[0]) then
      assert nodes[0] in nodes;
      [nodes[0]] + KeepAnnotated(nodes[1..])
    else
      var rest := KeepAnnotated(nodes[1..]);
      assert nodes[0] in nodes && !HasNonEmptyAnnotation(nodes[0]);
      assert |rest| <= |nodes[1..]|;
      rest
  }

  /** Filtering twice keeps what filtering once kept. */
  lemma {:induction false} KeepAnnotatedIdempotent(nodes: seq<Node>)
    ensures KeepAnnotated(KeepAnnotated(nodes)) == KeepAnnotated(nodes)
  {
    if |nodes| != 0 {
      KeepAnnotatedIdempotent(nodes[1..]);
    }
  }

  /** Evaluating a query with `engine`. A query ending in the annotation
      predicate selects the nodes its prefix selects that satisfy the
      predicate; every other query is the engine's business. */
  function Select(engine: Engine, query: string, doc: Doc): seq<Node>
    decreases |query|
  {
    if EndsWith(query, AnnotationPredicate) then
      KeepAnnotated(Select(engine, query[..|query| - |AnnotationPredicate|], doc))
    else
      engine(query, doc)
  }

  /** Appending the annotation predicate to any path narrows its selection
      to the annotated nodes, in order; so the strict selection is always an
      ordered sub-selection of the lenient one. */
  lemma SelectAnnotated(engine: Engine, path: string, doc: Doc)
    ensures Select(engine, path + AnnotationPredicate, doc) == KeepAnnotated(Select(engine, path, doc))
    ensures Subsequence(Select(engine, path + AnnotationPredicate, doc), Select(engine, path, doc))
  {
    var q := path + AnnotationPredicate;
    assert q[|q| - |AnnotationPredicate|..] == AnnotationPredicate;
    assert q[..|q| - |AnnotationPredicate|] == path;
  }
}
