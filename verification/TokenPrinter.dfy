/** Trees of the token grammar that parserc.go documents, the tokens they are written with, and
    the events they mean. */
module TokenPrinter {
  import opened Utf8
  import opened EventGrammar
  import opened ParserSpec

  datatype Props = Props(anchor: Text, tag: TagRef, tagFirst: bool)

  /** `Omitted` is a node that the grammar allows to be absent. */
  datatype Tree =
    | Omitted
    | AliasTree(name: Text)
    | ScalarTree(props: Props, value: Text, style: ScalarStyle)
    | EmptyTree(props: Props)
    | BlockSequence(props: Props, items: seq<Tree>)
    | IndentlessSequence(props: Props, items: seq<Tree>)
    | BlockMapping(props: Props, entries: seq<Entry>)
    | FlowSequence(props: Props, entries: seq<Entry>, trailing: bool)
    | FlowMapping(props: Props, entries: seq<Entry>, trailing: bool)

  /** An entry with or without KEY and VALUE. In a flow collection an entry without KEY is the
      node `key` alone. `trailing` is a comma after the last entry. */
  datatype Entry = Entry(keyed: bool, key: Tree, valued: bool, value: Tree)

  // ---- Tokens ----

  function PropTokens(props: Props, tail: seq<Token>): (r: seq<Token>) {
    var a := if props.anchor == [] then [] else [AnchorToken(props.anchor)];
    var t := if props.tag.NoTag? then [] else [TagToken(props.tag.handle, props.tag.suffix)];
    if props.tagFirst then t + a + tail else a + t + tail
  }

  /** The tokens of a node, followed by `tail`. */
  function Print(n: Tree, tail: seq<Token>): (r: seq<Token>)
    ensures |r| >= |tail|
    decreases n, 0
  {
    match n
    case Omitted => tail
    case AliasTree(name) => [AliasToken(name)] + tail
    case ScalarTree(props, value, style) => PropTokens(props, [ScalarToken(value, style)] + tail)
    case EmptyTree(props) => PropTokens(props, tail)
    case BlockSequence(props, items) =>
      PropTokens(props, [BlockSequenceStartToken] + PrintItems(items, [BlockEndToken] + tail))
    case IndentlessSequence(props, items) => PropTokens(props, PrintItems(items, tail))
    case BlockMapping(props, entries) =>
      PropTokens(props, [BlockMappingStartToken] + PrintEntries(entries, [BlockEndToken] + tail))
    case FlowSequence(props, entries, trailing) =>
      PropTokens(props, [FlowSequenceStartToken] + PrintFirst(entries, trailing, [FlowSequenceEndToken] + tail))
    case FlowMapping(props, entries, trailing) =>
      PropTokens(props, [FlowMappingStartToken] + PrintFirst(entries, trailing, [FlowMappingEndToken] + tail))
  }

  function PrintItems(items: seq<Tree>, tail: seq<Token>): (r: seq<Token>)
    ensures |r| >= |tail|
    decreases items, 0
  {
    if items == [] then tail else [BlockEntryToken] + Print(items[0], PrintItems(items[1..], tail))
  }

  function PrintEntry(e: Entry, tail: seq<Token>): (r: seq<Token>)
    ensures |r| >= |tail|
    decreases e, 1
  {
    if e.keyed then [KeyToken] + Print(e.key, PrintValue(e, tail)) else Print(e.key, PrintValue(e, tail))
  }

  function PrintValue(e: Entry, tail: seq<Token>): (r: seq<Token>)
    ensures |r| >= |tail|
    decreases e, 0
  {
    if e.valued then [ValueToken] + Print(e.value, tail) else tail
  }

  function PrintEntries(es: seq<Entry>, tail: seq<Token>): (r: seq<Token>)
    ensures |r| >= |tail|
    decreases es, 0
  {
    if es == [] then tail else PrintEntry(es[0], PrintEntries(es[1..], tail))
  }

  /** The entries of a flow collection, after its opening bracket. */
  function PrintFirst(es: seq<Entry>, trailing: bool, tail: seq<Token>): (r: seq<Token>)
    ensures |r| >= |tail|
    decreases es, 1
  {
    if es == [] then tail else PrintEntry(es[0], PrintMore(es[1..], trailing, tail))
  }

  /** The same after an entry. */
  function PrintMore(es: seq<Entry>, trailing: bool, tail: seq<Token>): (r: seq<Token>)
    ensures |r| >= |tail|
    decreases es, 0
  {
    if es == [] then if trailing then [FlowEntryToken] + tail else tail
    else [FlowEntryToken] + PrintEntry(es[0], PrintMore(es[1..], trailing, tail))
  }

  // ---- Tags ----

  /** Directive `i` is the first one for the handle. */
  predicate FirstFor(ds: seq<TagDirective>, i: nat, handle: Text) {
    i < |ds| && ds[i].handle == handle && forall j | 0 <= j < i :: ds[j].handle != handle
  }

  /** What a tag stands for: nothing without a tag, the suffix itself without a handle, or the suffix
      after the prefix of the first directive for the handle. */
  ghost function TagMeant(ds: seq<TagDirective>, t: TagRef): Text {
    match t
    case NoTag => []
    case TagRef(h, s) =>
      if h == [] then s
      else if exists i: nat :: FirstFor(ds, i, h) then
        var i: nat :| FirstFor(ds, i, h);
        ds[i].prefix + s
      else []
  }

  // ---- Which trees the grammar has ----

  /** A handle has a directive, and the tag is not empty then. */
  ghost predicate GoodTag(ds: seq<TagDirective>, t: TagRef) {
    t.TagRef? && t.handle != [] ==> (exists i: nat :: FirstFor(ds, i, t.handle)) && TagMeant(ds, t) != []
  }

  ghost predicate GoodProps(props: Props, ds: seq<TagDirective>) {
    GoodTag(ds, props.tag)
  }

  /** `n` is a block_node, or a block_node_or_indentless_sequence, or a flow_node, or omitted. */
  ghost predicate Shaped(n: Tree, block: bool, indentless: bool, ds: seq<TagDirective>)
    decreases n, 0
  {
    match n
    case Omitted => true
    case AliasTree(_) => true
    case ScalarTree(props, _, _) => GoodProps(props, ds)
    case EmptyTree(props) => GoodProps(props, ds) && (props.anchor != [] || TagMeant(ds, props.tag) != [])
    case BlockSequence(props, items) => block && GoodProps(props, ds) && ShapedItems(items, ds)
    case IndentlessSequence(props, items) =>
      indentless && items != [] && GoodProps(props, ds) && ShapedItems(items, ds)
    case BlockMapping(props, entries) => block && GoodProps(props, ds) && ShapedEntries(entries, true, ds)
    case FlowSequence(props, entries, _) => GoodProps(props, ds) && ShapedEntries(entries, false, ds)
    case FlowMapping(props, entries, _) => GoodProps(props, ds) && ShapedEntries(entries, false, ds)
  }

  ghost predicate ShapedItems(items: seq<Tree>, ds: seq<TagDirective>)
    decreases items, 0
  {
    items != [] ==> Shaped(items[0], true, false, ds) && ShapedItems(items[1..], ds)
  }

  /** After a KEY without VALUE, a VALUE belongs to that KEY and not to an entry of its own. */
  ghost predicate ShapedEntries(es: seq<Entry>, block: bool, ds: seq<TagDirective>)
    decreases es, 0
  {
    es != [] ==>
      && ShapedEntry(es[0], block, ds) && ShapedEntries(es[1..], block, ds)
      && (block && |es| > 1 && !es[0].valued ==> es[1].keyed)
  }

  ghost predicate ShapedEntry(e: Entry, block: bool, ds: seq<TagDirective>)
    decreases e, 0
  {
    && Shaped(e.key, block, block, ds) && Shaped(e.value, block, block, ds)
    && (!e.valued ==> e.value.Omitted?)
    && (!e.keyed ==> if block then e.key.Omitted? && e.valued else !e.key.Omitted? && !e.valued)
  }

  // ---- Where the code departs from the grammar ----

  /** A single pair in a flow sequence without a key, on which the code goes wrong: it skips the
      token after KEY, which is harmless only if that token is a VALUE without a node, or a
      comma before the closing bracket. */
  predicate BadPair(e: Entry, last: bool, trailing: bool) {
    e.keyed && e.key.Omitted? && if e.valued then !e.value.Omitted? else !(last && trailing)
  }

  /** No bad single pair, and no entry of a block mapping that has a VALUE without a KEY. */
  predicate Read(n: Tree)
    decreases n, 0
  {
    match n
    case BlockSequence(_, items) => ReadItems(items)
    case IndentlessSequence(_, items) => ReadItems(items)
    case BlockMapping(_, entries) => ReadBlockEntries(entries)
    case FlowSequence(_, entries, trailing) => ReadSequence(entries, trailing)
    case FlowMapping(_, entries, _) => ReadMapping(entries)
    case _ => true
  }

  predicate ReadItems(items: seq<Tree>)
    decreases items, 0
  {
    items != [] ==> Read(items[0]) && ReadItems(items[1..])
  }

  predicate ReadEntry(e: Entry)
    decreases e, 0
  {
    Read(e.key) && Read(e.value)
  }

  predicate ReadBlockEntries(es: seq<Entry>)
    decreases es, 0
  {
    es != [] ==> es[0].keyed && ReadEntry(es[0]) && ReadBlockEntries(es[1..])
  }

  predicate ReadSequence(es: seq<Entry>, trailing: bool)
    decreases es, 0
  {
    es != [] ==> !BadPair(es[0], |es| == 1, trailing) && ReadEntry(es[0]) && ReadSequence(es[1..], trailing)
  }

  predicate ReadMapping(es: seq<Entry>)
    decreases es, 0
  {
    es != [] ==> ReadEntry(es[0]) && ReadMapping(es[1..])
  }

  // ---- Meaning ----

  function ScalarOf(anchor: Text, tag: Text, value: Text, style: ScalarStyle): Event {
    var plain := (tag == [] && style == Plain) || tag == [0x21];
    Scalar(anchor, tag, value, plain, !plain && tag == [], style)
  }

  ghost function SequenceOf(props: Props, ds: seq<TagDirective>, layout: CollectionStyle): Event {
    var tag := TagMeant(ds, props.tag);
    SequenceStart(props.anchor, tag, tag == [], layout)
  }

  ghost function MappingOf(props: Props, ds: seq<TagDirective>, layout: CollectionStyle): Event {
    var tag := TagMeant(ds, props.tag);
    MappingStart(props.anchor, tag, tag == [], layout)
  }

  ghost function Meaning(n: Tree, ds: seq<TagDirective>): Node
    decreases n, 0
  {
    match n
    case Omitted => Leaf(Scalar([], [], [], true, false, Plain))
    case AliasTree(name) => Leaf(Alias(name))
    case ScalarTree(props, value, style) => Leaf(ScalarOf(props.anchor, TagMeant(ds, props.tag), value, style))
    case EmptyTree(props) =>
      var tag := TagMeant(ds, props.tag);
      Leaf(Scalar(props.anchor, tag, [], tag == [], false, Plain))
    case BlockSequence(props, items) => Sequence(SequenceOf(props, ds, Block), Meanings(items, ds))
    case IndentlessSequence(props, items) => Sequence(SequenceOf(props, ds, Block), Meanings(items, ds))
    case BlockMapping(props, entries) => Mapping(MappingOf(props, ds, Block), PairsMeant(entries, ds))
    case FlowSequence(props, entries, _) => Sequence(SequenceOf(props, ds, Flow), ItemsMeant(entries, ds))
    case FlowMapping(props, entries, _) => Mapping(MappingOf(props, ds, Flow), PairsMeant(entries, ds))
  }

  ghost function Meanings(items: seq<Tree>, ds: seq<TagDirective>): seq<Node>
    decreases items, 0
  {
    if items == [] then [] else [Meaning(items[0], ds)] + Meanings(items[1..], ds)
  }

  ghost function PairMeant(e: Entry, ds: seq<TagDirective>): Pair
    decreases e, 0
  {
    Pair(Meaning(e.key, ds), Meaning(e.value, ds))
  }

  ghost function PairsMeant(es: seq<Entry>, ds: seq<TagDirective>): seq<Pair>
    decreases es, 0
  {
    if es == [] then [] else [PairMeant(es[0], ds)] + PairsMeant(es[1..], ds)
  }

  /** A keyed entry of a flow sequence is a mapping with one pair. */
  ghost function ItemMeant(e: Entry, ds: seq<TagDirective>): Node
    decreases e, 1
  {
    if e.keyed then Mapping(MappingStart([], [], true, Flow), [PairMeant(e, ds)]) else Meaning(e.key, ds)
  }

  ghost function ItemsMeant(es: seq<Entry>, ds: seq<TagDirective>): seq<Node>
    decreases es, 0
  {
    if es == [] then [] else [ItemMeant(es[0], ds)] + ItemsMeant(es[1..], ds)
  }

  // ---- Documents ----

  /** DIRECTIVE* DOCUMENT-START block_node? DOCUMENT-END*, or without the first two. */
  datatype DocumentTree = DocumentTree(explicit: bool, directives: seq<Token>, root: Tree, ends: nat)

  function Repeat(k: Token, n: nat, tail: seq<Token>): (r: seq<Token>)
    ensures |r| >= |tail|
  {
    if n == 0 then tail else [k] + Repeat(k, n - 1, tail)
  }

  function PrintDocument(d: DocumentTree, tail: seq<Token>): (r: seq<Token>)
    ensures |r| >= |tail|
  {
    var body := Print(d.root, Repeat(DocumentEndToken, d.ends, tail));
    if d.explicit then d.directives + ([DocumentStartToken] + body) else body
  }

  function PrintDocuments(ds: seq<DocumentTree>, tail: seq<Token>): (r: seq<Token>)
    ensures |r| >= |tail|
  {
    if ds == [] then tail else PrintDocument(ds[0], PrintDocuments(ds[1..], tail))
  }

  function PrintStream(ds: seq<DocumentTree>): seq<Token> {
    [StreamStartToken] + PrintDocuments(ds, [StreamEndToken])
  }

  function DirectiveVersion(ks: seq<Token>): Version {
    if ks == [] then NoVersion
    else if ks[0].VersionDirectiveToken? then Version(ks[0].major, ks[0].minor)
    else DirectiveVersion(ks[1..])
  }

  function DirectiveTags(ks: seq<Token>): seq<TagDirective> {
    if ks == [] then []
    else if ks[0].TagDirectiveToken? then [TagDirective(ks[0].handle, ks[0].prefix)] + DirectiveTags(ks[1..])
    else DirectiveTags(ks[1..])
  }

  /** At most one version, which is 1.1, and at most one directive for each handle. */
  predicate GoodDirectives(ks: seq<Token>) {
    && (forall i | 0 <= i < |ks| :: ks[i].VersionDirectiveToken? || ks[i].TagDirectiveToken?)
    && (forall i | 0 <= i < |ks| && ks[i].VersionDirectiveToken? :: ks[i].major == 1 && ks[i].minor == 1)
    && (forall i, j | 0 <= i < j < |ks| && ks[i].VersionDirectiveToken? :: !ks[j].VersionDirectiveToken?)
    && (forall i, j | 0 <= i < j < |ks| && ks[i].TagDirectiveToken? && ks[j].TagDirectiveToken? :: ks[i].handle != ks[j].handle)
  }

  /** The directives in force in a document. */
  function InForce(d: DocumentTree): seq<TagDirective> {
    WithDefaults(if d.explicit then DirectiveTags(d.directives) else [])
  }

  ghost predicate ShapedDocument(d: DocumentTree) {
    && Shaped(d.root, true, false, InForce(d))
    && if d.explicit then GoodDirectives(d.directives) else !d.root.Omitted?
  }

  /** Only the first document can go without DOCUMENT-START. */
  ghost predicate ShapedStream(ds: seq<DocumentTree>) {
    && (forall i | 0 <= i < |ds| :: ShapedDocument(ds[i]))
    && (forall i | 1 <= i < |ds| :: ds[i].explicit)
  }

  ghost predicate ReadStream(ds: seq<DocumentTree>) {
    forall i | 0 <= i < |ds| :: Read(ds[i].root)
  }

  ghost function DocumentMeant(d: DocumentTree): Document {
    Document(
      if d.explicit then DocumentStart(DirectiveVersion(d.directives), DirectiveTags(d.directives), false)
      else DocumentStart(NoVersion, [], false),
      Meaning(d.root, InForce(d)),
      DocumentEnd(d.ends == 0))
  }

  ghost function StreamMeant(ds: seq<DocumentTree>): seq<Document> {
    if ds == [] then [] else [DocumentMeant(ds[0])] + StreamMeant(ds[1..])
  }
}
